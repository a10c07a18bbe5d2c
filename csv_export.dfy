/**
 * CSV export and import of customers, vehicles and tours
 * (utils/csvExport.ts). The exporter quotes every cell and doubles the
 * quotes inside it; the importers split lines on every comma and drop every
 * quote, so they do not read back what the exporter writes.
 */
module CsvExport {
  import opened Wrappers
  import opened JsString
  import opened Types

  /** The customer record the CSV functions read and write: besides the
      stored customer fields it carries a container count, a priority and a
      time window. */
  datatype CsvCustomer = CsvCustomer(
    id: string,
    name: string,
    address: string,
    containerCount: int,
    timeWindow: Option<TimeWindow>,
    priority: string,
    phone: Option<string>,
    email: Option<string>,
    notes: Option<string>)

  // ------------------------------------------------------------- cells

  /** `cell.replace(/"/g, '""')`. */
  function Escape(cell: string): (r: string)
    ensures |r| >= |cell|
  {
    if |cell| == 0 then ""
    else (if cell[0] == '"' then "\"\"" else [cell[0]]) + Escape(cell[1..])
  }

  /** Collapses each doubled quote back into one. */
  function Unescape(s: string): string {
    if |s| == 0 then ""
    else if |s| >= 2 && s[0] == '"' && s[1] == '"' then "\"" + Unescape(s[2..])
    else [s[0]] + Unescape(s[1..])
  }

  /** Doubling the quotes loses nothing: collapsing them gives the cell back. */
  lemma {:induction false} EscapeUnescape(cell: string)
    ensures Unescape(Escape(cell)) == cell
  {
    if |cell| > 0 {
      EscapeUnescape(cell[1..]);
      var rest := Escape(cell[1..]);
      if cell[0] == '"' {
        assert Escape(cell) == "\"\"" + rest;
        assert (("\"\"" + rest)[2..]) == rest;
      } else {
        assert Escape(cell) == [cell[0]] + rest;
        assert ([cell[0]] + rest)[1..] == rest;
      }
      assert cell == [cell[0]] + cell[1..];
    }
  }

  /** Doubling quotes adds no other character. */
  lemma {:induction false} EscapeKeeps(cell: string, c: char)
    requires c != '"' && c !in cell
    ensures c !in Escape(cell)
  {
    if |cell| > 0 {
      EscapeKeeps(cell[1..], c);
      assert c != cell[0];
    }
  }

  /** A cell as written: in quotes, with its quotes doubled. */
  function Quote(cell: string): (r: string)
    ensures |r| >= 2 && r[0] == '"' && r[|r| - 1] == '"'
    ensures Unescape(r[1..|r| - 1]) == cell
  {
    EscapeUnescape(cell);
    var r := "\"" + Escape(cell) + "\"";
    assert r[1..|r| - 1] == Escape(cell);
    r
  }

  lemma QuoteKeeps(cell: string, c: char)
    requires c != '"' && c !in cell
    ensures c !in Quote(cell)
  {
    EscapeKeeps(cell, c);
  }

  /** A row: the quoted cells joined by `,`. */
  function Row(cells: seq<string>): string {
    Join(seq(|cells|, i requires 0 <= i < |cells| => Quote(cells[i])), ',')
  }

  function RowTexts(rows: seq<seq<string>>): (r: seq<string>)
    ensures |r| == |rows|
    ensures forall i :: 0 <= i < |rows| ==> r[i] == Row(rows[i])
  {
    seq(|rows|, i requires 0 <= i < |rows| => Row(rows[i]))
  }

  /** The header row, then the data rows, joined by line breaks. */
  function Document(header: seq<string>, rows: seq<seq<string>>): string {
    Join(RowTexts([header] + rows), '\n')
  }

  /** No cell of the row holds a line break. */
  predicate SingleLineCells(cells: seq<string>) {
    forall i :: 0 <= i < |cells| ==> '\n' !in cells[i]
  }

  /** Joined pieces hold a character only if a piece or the separator does. */
  lemma {:induction false} JoinKeeps(parts: seq<string>, sep: char, c: char)
    requires c != sep
    requires forall i :: 0 <= i < |parts| ==> c !in parts[i]
    ensures c !in Join(parts, sep)
  {
    if |parts| > 1 {
      JoinKeeps(parts[1..], sep, c);
      assert Join(parts, sep) == parts[0] + [sep] + Join(parts[1..], sep);
    }
  }

  lemma RowSingleLine(cells: seq<string>)
    requires SingleLineCells(cells)
    ensures '\n' !in Row(cells)
  {
    var quoted := seq(|cells|, i requires 0 <= i < |cells| => Quote(cells[i]));
    forall i | 0 <= i < |quoted| ensures '\n' !in quoted[i] {
      QuoteKeeps(cells[i], '\n');
    }
    JoinKeeps(quoted, ',', '\n');
  }

  /** The texts of the header row and the data rows, one per row, none
      holding a line break. */
  lemma {:induction false} DocumentRows(header: seq<string>, rows: seq<seq<string>>)
    requires SingleLineCells(header)
    requires forall i :: 0 <= i < |rows| ==> SingleLineCells(rows[i])
    ensures RowTexts([header] + rows) == [Row(header)] + RowTexts(rows)
    ensures forall i :: 0 <= i < |rows| + 1 ==> '\n' !in RowTexts([header] + rows)[i]
  {
    var all := [header] + rows;
    var texts := RowTexts(all);
    var expected := [Row(header)] + RowTexts(rows);
    forall i | 0 <= i < |texts| ensures texts[i] == expected[i] {
      assert texts[i] == Row(all[i]);
      if i > 0 {
        assert all[i] == rows[i - 1];
        assert expected[i] == RowTexts(rows)[i - 1];
      }
    }
    assert texts == expected;
    forall i | 0 <= i < |texts| ensures '\n' !in texts[i] {
      assert SingleLineCells(all[i]) by {
        if i > 0 {
          assert all[i] == rows[i - 1];
        }
      }
      RowSingleLine(all[i]);
    }
  }

  /** When no cell holds a line break, the document has one line for the
      header and then one line per row, in order. */
  lemma DocumentLines(header: seq<string>, rows: seq<seq<string>>)
    requires SingleLineCells(header)
    requires forall i :: 0 <= i < |rows| ==> SingleLineCells(rows[i])
    ensures Split(Document(header, rows), '\n') == [Row(header)] + RowTexts(rows)
  {
    DocumentRows(header, rows);
    SplitJoin(RowTexts([header] + rows), '\n');
  }

  /** The document opens with the header row; with no data rows it is
      the header row alone, otherwise a line break follows it. */
  lemma DocumentStartsWithHeader(header: seq<string>, rows: seq<seq<string>>)
    ensures Row(header) <= Document(header, rows)
    ensures |rows| == 0 ==> Document(header, rows) == Row(header)
    ensures |rows| > 0 ==> Row(header) + "\n" <= Document(header, rows)
  {
    var texts := RowTexts([header] + rows);
    assert texts[0] == Row(header);
    if |rows| > 0 {
      assert Document(header, rows) == Row(header) + ['\n'] + Join(texts[1..], '\n');
    }
  }

  // ---------------------------------------------------------- exporters

  /** `x || ''` on an optional text. */
  function Text(o: Option<string>): string {
    if o.Some? then o.value else ""
  }

  const CustomerHeader: seq<string> :=
    ["Name", "Adresse", "Container-Anzahl", "Zeitfenster Start", "Zeitfenster Ende", "Priorität", "Telefon", "E-Mail", "Notizen"]

  function CustomerCells(c: CsvCustomer): (r: seq<string>)
    ensures |r| == |CustomerHeader|
  {
    [c.name, c.address, IntToString(c.containerCount),
     if c.timeWindow.Some? then c.timeWindow.value.start else "",
     if c.timeWindow.Some? then c.timeWindow.value.end else "",
     c.priority, Text(c.phone), Text(c.email), Text(c.notes)]
  }

  /** `formatCustomersForExport`. */
  function FormatCustomers(customers: seq<CsvCustomer>): (r: string)
    ensures Row(CustomerHeader) <= r
    ensures |customers| == 0 ==> r == Row(CustomerHeader)
    ensures |customers| > 0 ==> Row(CustomerHeader) + "\n" <= r
  {
    var rows := seq(|customers|, i requires 0 <= i < |customers| => CustomerCells(customers[i]));
    DocumentStartsWithHeader(CustomerHeader, rows);
    Document(CustomerHeader, rows)
  }

  lemma IntToStringSingleLine(n: int)
    ensures '\n' !in IntToString(n)
  {
    var r := IntToString(n);
    forall i | 0 <= i < |r| ensures r[i] != '\n' {
      if n < 0 { assert r[i] == ("-" + NatToString(-n))[i]; }
    }
  }

  /** The texts of the customer that the export writes hold no line break. */
  predicate CustomerSingleLine(c: CsvCustomer) {
    && '\n' !in c.name && '\n' !in c.address && '\n' !in c.priority
    && (c.timeWindow.Some? ==> '\n' !in c.timeWindow.value.start && '\n' !in c.timeWindow.value.end)
    && '\n' !in Text(c.phone) && '\n' !in Text(c.email) && '\n' !in Text(c.notes)
  }

  /** Exported customers whose texts hold no line break come out as the
      header line followed by one line per customer, in order. */
  lemma FormatCustomersLines(customers: seq<CsvCustomer>)
    requires forall i :: 0 <= i < |customers| ==> CustomerSingleLine(customers[i])
    ensures var lines := Split(FormatCustomers(customers), '\n');
      && |lines| == |customers| + 1
      && lines[0] == Row(CustomerHeader)
      && forall i :: 0 <= i < |customers| ==> lines[i + 1] == Row(CustomerCells(customers[i]))
  {
    var rows := seq(|customers|, i requires 0 <= i < |customers| => CustomerCells(customers[i]));
    forall i | 0 <= i < |rows| ensures SingleLineCells(rows[i]) {
      IntToStringSingleLine(customers[i].containerCount);
    }
    assert SingleLineCells(CustomerHeader);
    DocumentLines(CustomerHeader, rows);
  }

  const VehicleHeader: seq<string> := ["Name", "Kapazität", "Status", "Kennzeichen", "Fahrer", "Notizen"]

  function VehicleCells(v: Vehicle): (r: seq<string>)
    ensures |r| == |VehicleHeader|
  {
    [v.name, IntToString(v.capacity), v.status, Text(v.licensePlate), Text(v.driverName), Text(v.notes)]
  }

  /** `formatVehiclesForExport`. */
  function FormatVehicles(vehicles: seq<Vehicle>): (r: string)
    ensures Row(VehicleHeader) <= r
    ensures |vehicles| == 0 ==> r == Row(VehicleHeader)
    ensures |vehicles| > 0 ==> Row(VehicleHeader) + "\n" <= r
  {
    var rows := seq(|vehicles|, i requires 0 <= i < |vehicles| => VehicleCells(vehicles[i]));
    DocumentStartsWithHeader(VehicleHeader, rows);
    Document(VehicleHeader, rows)
  }

  /** The texts of the vehicle that the export writes hold no line break. */
  predicate VehicleSingleLine(v: Vehicle) {
    && '\n' !in v.name && '\n' !in v.status
    && '\n' !in Text(v.licensePlate) && '\n' !in Text(v.driverName) && '\n' !in Text(v.notes)
  }

  /** Exported vehicles whose texts hold no line break come out as the
      header line followed by one line per vehicle, in order. */
  lemma FormatVehiclesLines(vehicles: seq<Vehicle>)
    requires forall i :: 0 <= i < |vehicles| ==> VehicleSingleLine(vehicles[i])
    ensures var lines := Split(FormatVehicles(vehicles), '\n');
      && |lines| == |vehicles| + 1
      && lines[0] == Row(VehicleHeader)
      && forall i :: 0 <= i < |vehicles| ==> lines[i + 1] == Row(VehicleCells(vehicles[i]))
  {
    var rows := seq(|vehicles|, i requires 0 <= i < |vehicles| => VehicleCells(vehicles[i]));
    forall i | 0 <= i < |rows| ensures SingleLineCells(rows[i]) {
      IntToStringSingleLine(vehicles[i].capacity);
    }
    assert SingleLineCells(VehicleHeader);
    DocumentLines(VehicleHeader, rows);
  }

  const TourHeader: seq<string> := ["Fahrzeug", "Datum", "Status", "Kunde", "Adresse", "Container", "Reihenfolge", "Geschätzte Ankunft"]

  /** The row of one stop. The customer and the container count are those
      of the stop's order, and the "Reihenfolge" column holds the stop's
      sequence number (see `FormatToursAsWritten` for what the exporter
      reads instead). */
  function StopCells(t: Tour, s: TourStop): (r: seq<string>)
    ensures |r| == |TourHeader|
  {
    [t.vehicle.name, t.date, TourStatusName(t.status), s.order.customer.name, s.order.customer.address,
     IntToString(s.order.containerCount), IntToString(s.sequence), Text(s.estimatedArrival)]
  }

  /** The rows of some stops of one tour. */
  function StopRows(t: Tour, stops: seq<TourStop>): (r: seq<seq<string>>)
    ensures |r| == |stops|
    ensures forall k :: 0 <= k < |stops| ==> r[k] == StopCells(t, stops[k])
  {
    seq(|stops|, k requires 0 <= k < |stops| => StopCells(t, stops[k]))
  }

  /** One row per stop, tour after tour. */
  function AllStopRows(tours: seq<Tour>): seq<seq<string>> {
    if |tours| == 0 then []
    else AllStopRows(tours[..|tours| - 1]) + StopRows(tours[|tours| - 1], tours[|tours| - 1].stops)
  }

  /** Number of stops of all tours. */
  function TotalStops(tours: seq<Tour>): nat {
    if |tours| == 0 then 0 else TotalStops(tours[..|tours| - 1]) + |tours[|tours| - 1].stops|
  }

  /** The nested loops of `formatToursForExport` that collect the rows. */
  method CollectTourRows(tours: seq<Tour>) returns (rows: seq<seq<string>>)
    ensures rows == AllStopRows(tours)
  {
    rows := [];
    for t := 0 to |tours|
      invariant rows == AllStopRows(tours[..t])
    {
      var tour := tours[t];
      ghost var before := rows;
      for k := 0 to |tour.stops|
        invariant rows == before + StopRows(tour, tour.stops[..k])
      {
        assert StopRows(tour, tour.stops[..k + 1]) == StopRows(tour, tour.stops[..k]) + [StopCells(tour, tour.stops[k])];
        rows := rows + [StopCells(tour, tour.stops[k])];
      }
      assert tour.stops[..|tour.stops|] == tour.stops;
      assert tours[..t + 1][..t] == tours[..t];
    }
    assert tours[..|tours|] == tours;
  }

  /** `formatToursForExport`. */
  method FormatTours(tours: seq<Tour>) returns (csv: string)
    ensures csv == Document(TourHeader, AllStopRows(tours))
  {
    var rows := CollectTourRows(tours);
    csv := Document(TourHeader, rows);
  }

  /** `formatToursForExport` as written: it reads `stop.customer`, which a
      tour stop does not have, so the first stop makes it read `name` of
      `undefined` and throw (`None`). Only tours without stops export. */
  function FormatToursAsWritten(tours: seq<Tour>): (r: Option<string>)
    ensures r.Some? ==> r.value == Document(TourHeader, [])
  {
    if exists k :: 0 <= k < |tours| && |tours[k].stops| > 0 then None
    else Some(Document(TourHeader, []))
  }

  /** A single tour with a single stop: the export as written fails, the
      corrected one writes the header and one row for the stop. */
  lemma OneStopTourExport(t: Tour)
    requires |t.stops| == 1
    ensures FormatToursAsWritten([t]).None?
    ensures AllStopRows([t]) == [StopCells(t, t.stops[0])]
  {
    assert [t][..0] == [];
    assert |[t][0].stops| > 0;
  }

  /** The record `formatToursForExport` reads for a stop: a `customer`
      beside the `order` object. A stop of the tours the planner builds
      has no such `customer` (see `TourStop`). */
  datatype ExportStop = ExportStop(customer: CsvCustomer, order: Order, estimatedArrival: Option<string>)

  /** What `String(x)` gives for a plain object such as an order. */
  const ObjectText: string := "[object Object]"

  /** The row `formatToursForExport` writes for a stop of that shape: the
      customer's name, address and containers, and in the "Reihenfolge"
      column `stop.order.toString()`, i.e. the text of an object. */
  function StopCellsAsRead(t: Tour, s: ExportStop): (r: seq<string>)
    ensures |r| == |TourHeader|
    ensures r[..3] == StopCells(t, TourStop("", s.order, 0, None, None))[..3]
  {
    [t.vehicle.name, t.date, TourStatusName(t.status), s.customer.name, s.customer.address,
     IntToString(s.customer.containerCount), ObjectText, Text(s.estimatedArrival)]
  }

  /** The "Reihenfolge" cell as read is never a stop's position: it opens
      with `[`, a number's text with a digit or `-`. */
  lemma AsReadOrderColumn(t: Tour, s: ExportStop, stop: TourStop)
    ensures StopCellsAsRead(t, s)[6] != StopCells(t, stop)[6]
    ensures StopCellsAsRead(t, s)[6] != IntToString(stop.sequence)
  {
    var n := stop.sequence;
    var digits := NatToString(if n < 0 then -n else n);
    assert IntToString(n)[0] == (if n < 0 then '-' else digits[0]);
    assert ObjectText[0] == '[';
  }

  /** There is one row per stop, and the rows of tour `t` come right after
      those of the tours before it, in stop order. */
  lemma {:induction false} AllStopRowsAt(tours: seq<Tour>, t: int, k: int)
    requires 0 <= t < |tours| && 0 <= k < |tours[t].stops|
    ensures |AllStopRows(tours)| == TotalStops(tours)
    ensures TotalStops(tours[..t]) + k < TotalStops(tours)
    ensures AllStopRows(tours)[TotalStops(tours[..t]) + k] == StopCells(tours[t], tours[t].stops[k])
    decreases |tours|
  {
    var n := |tours|;
    var init := tours[..n - 1];
    var last := StopRows(tours[n - 1], tours[n - 1].stops);
    AllStopRowsLength(init);
    assert AllStopRows(tours) == AllStopRows(init) + last;
    assert TotalStops(tours) == TotalStops(init) + |last|;
    if t < n - 1 {
      AllStopRowsAt(init, t, k);
      assert init[t] == tours[t];
      assert init[..t] == tours[..t];
    } else {
      assert init == tours[..t];
      assert last[k] == StopCells(tours[t], tours[t].stops[k]);
    }
  }

  lemma {:induction false} AllStopRowsLength(tours: seq<Tour>)
    ensures |AllStopRows(tours)| == TotalStops(tours)
    decreases |tours|
  {
    if |tours| > 0 { AllStopRowsLength(tours[..|tours| - 1]); }
  }

  // ------------------------------------------------------------ import

  /** `lines.filter(line => line.trim())`: the lines that are not blank. */
  function NonBlank(lines: seq<string>): (r: seq<string>)
    ensures forall i :: 0 <= i < |r| ==> Trim(r[i]) != ""
    ensures |r| <= |lines|
  {
    if |lines| == 0 then []
    else
      var rest := NonBlank(lines[..|lines| - 1]);
      if Trim(lines[|lines| - 1]) != "" then rest + [lines[|lines| - 1]] else rest
  }

  /** The non-blank lines of the file. */
  function CsvLines(content: string): seq<string> {
    NonBlank(Split(content, '\n'))
  }

  /** `v.replace(/"/g, '')`. */
  function RemoveQuotes(s: string): (r: string)
    ensures '"' !in r
    ensures forall c :: c in r ==> c in s
  {
    if |s| == 0 then ""
    else (if s[0] == '"' then "" else [s[0]]) + RemoveQuotes(s[1..])
  }

  /** `line.split(',').map(v => v.replace(/"/g, '').trim())`. */
  function Fields(line: string): seq<string> {
    var pieces := Split(line, ',');
    seq(|pieces|, i requires 0 <= i < |pieces| => Trim(RemoveQuotes(pieces[i])))
  }

  /** Trimming adds no character. */
  lemma TrimKeeps(s: string, c: char)
    requires c !in s
    ensures c !in Trim(s)
  {
    var i := LeadingSpace(s);
    var r := Trim(s);
    assert r == s[i..][..TrailingSpace(s[i..])];
    forall m | 0 <= m < |r| ensures r[m] != c {
      assert r[m] == s[i + m];
    }
  }

  /** Field `i` is piece `i` of the line cut at every comma, without its
      quotes and trimmed; so it holds no quote and no comma and neither
      starts nor ends with white space. */
  lemma FieldsClean(line: string, i: int)
    requires 0 <= i < |Split(line, ',')|
    ensures |Fields(line)| == |Split(line, ',')|
    ensures Fields(line)[i] == Trim(RemoveQuotes(Split(line, ',')[i]))
    ensures '"' !in Fields(line)[i] && ',' !in Fields(line)[i]
    ensures Trimmed(Fields(line)[i])
  {
    var piece := Split(line, ',')[i];
    var cleaned := RemoveQuotes(piece);
    assert ',' !in piece;
    assert ',' !in cleaned;
    TrimKeeps(cleaned, '"');
    TrimKeeps(cleaned, ',');
  }

  /** `values[k]`, with a missing entry as `""`. */
  function Field(values: seq<string>, k: nat): string {
    if k < |values| then values[k] else ""
  }

  /** `text || fallback`. */
  function OrText(text: string, fallback: string): (r: string)
    ensures text != "" ==> r == text
    ensures text == "" ==> r == fallback
  {
    if text != "" then text else fallback
  }

  /** `import-${Date.now()}-${i}`, the clock reading given as `stamp`. */
  function ImportId(stamp: string, i: int): string {
    "import-" + stamp + "-" + IntToString(i)
  }

  /** Lines read with the same clock reading get different ids. */
  lemma ImportIdsDistinct(stamp: string, i: int, j: int)
    requires i != j
    ensures ImportId(stamp, i) != ImportId(stamp, j)
  {
    var prefix := "import-" + stamp + "-";
    if ImportId(stamp, i) == ImportId(stamp, j) {
      assert IntToString(i) == ImportId(stamp, i)[|prefix|..];
      assert IntToString(j) == ImportId(stamp, j)[|prefix|..];
      IntToStringParses(i, false);
      IntToStringParses(j, false);
    }
  }

  /** The customer read from the fields of data line `i`: it always has a
      name, a priority and a non-zero container count, and a time window
      exactly when both time fields are filled in. */
  function CustomerOf(values: seq<string>, i: int, stamp: string): (c: CsvCustomer)
    ensures c.id == ImportId(stamp, i)
    ensures c.name != "" && c.priority != "" && c.containerCount != 0
    ensures c.timeWindow.Some? <==> Field(values, 3) != "" && Field(values, 4) != ""
    ensures c.timeWindow.Some? ==> c.timeWindow.value == TimeWindow(values[3], values[4])
  {
    CsvCustomer(
      ImportId(stamp, i),
      OrText(Field(values, 0), "Kunde " + IntToString(i)),
      OrText(Field(values, 1), ""),
      IntOr(ParseInt(Field(values, 2), false), 1),
      if Field(values, 3) != "" && Field(values, 4) != "" then Some(TimeWindow(values[3], values[4])) else None,
      OrText(Field(values, 5), "medium"),
      Some(OrText(Field(values, 6), "")),
      Some(OrText(Field(values, 7), "")),
      Some(OrText(Field(values, 8), "")))
  }

  /** The vehicle read from the fields of data line `i`: it always has a
      name, a status and a non-zero capacity. */
  function VehicleOf(values: seq<string>, i: int, stamp: string): (v: Vehicle)
    ensures v.id == ImportId(stamp, i)
    ensures v.name != "" && v.status != "" && v.capacity != 0
    ensures v.licensePlate.Some? && v.driverName.Some? && v.notes.Some?
  {
    Vehicle(
      ImportId(stamp, i),
      OrText(Field(values, 0), "Fahrzeug " + IntToString(i)),
      IntOr(ParseInt(Field(values, 1), false), 10),
      OrText(Field(values, 2), "available"),
      Some(OrText(Field(values, 3), "")),
      Some(OrText(Field(values, 4), "")),
      Some(OrText(Field(values, 5), "")))
  }

  /** The fields of each line. */
  function FieldRows(lines: seq<string>): (r: seq<seq<string>>)
    ensures |r| == |lines|
  {
    seq(|lines|, i requires 0 <= i < |lines| => Fields(lines[i]))
  }

  /** The customers of data rows 1 .. n-1: a row with fewer than 3 fields
      is skipped. */
  function CustomersFrom(rows: seq<seq<string>>, n: int, stamp: string): (r: seq<CsvCustomer>)
    requires n <= |rows|
    ensures |r| <= if n < 1 then 0 else n - 1
    decreases n
  {
    if n <= 1 then []
    else CustomersFrom(rows, n - 1, stamp) + (if |rows[n - 1]| >= 3 then [CustomerOf(rows[n - 1], n - 1, stamp)] else [])
  }

  /** The vehicles of data rows 1 .. n-1: a row with fewer than 2 fields is
      skipped. */
  function VehiclesFrom(rows: seq<seq<string>>, n: int, stamp: string): (r: seq<Vehicle>)
    requires n <= |rows|
    ensures |r| <= if n < 1 then 0 else n - 1
    decreases n
  {
    if n <= 1 then []
    else VehiclesFrom(rows, n - 1, stamp) + (if |rows[n - 1]| >= 2 then [VehicleOf(rows[n - 1], n - 1, stamp)] else [])
  }

  /** What `parseCustomersFromCSV` returns. */
  function ImportedCustomers(content: string, stamp: string): (r: seq<CsvCustomer>)
    ensures |CsvLines(content)| < 2 ==> r == []
  {
    var rows := FieldRows(CsvLines(content));
    if |rows| < 2 then [] else CustomersFrom(rows, |rows|, stamp)
  }

  /** What `parseVehiclesFromCSV` returns. */
  function ImportedVehicles(content: string, stamp: string): (r: seq<Vehicle>)
    ensures |CsvLines(content)| < 2 ==> r == []
  {
    var rows := FieldRows(CsvLines(content));
    if |rows| < 2 then [] else VehiclesFrom(rows, |rows|, stamp)
  }

  /** The loop of `parseCustomersFromCSV` over the data lines. */
  method ReadCustomers(lines: seq<string>, stamp: string) returns (customers: seq<CsvCustomer>)
    requires |lines| >= 1
    ensures customers == CustomersFrom(FieldRows(lines), |lines|, stamp)
  {
    ghost var rows := FieldRows(lines);
    customers := [];
    var i := 1;
    while i < |lines|
      invariant 1 <= i <= |lines|
      invariant customers == CustomersFrom(rows, i, stamp)
    {
      var values := Fields(lines[i]);
      assert values == rows[i];
      if |values| >= 3 {
        customers := customers + [CustomerOf(values, i, stamp)];
      }
      i := i + 1;
    }
  }

  /** `parseCustomersFromCSV`. */
  method ParseCustomers(content: string, stamp: string) returns (customers: seq<CsvCustomer>)
    ensures customers == ImportedCustomers(content, stamp)
  {
    var lines := CsvLines(content);
    if |lines| < 2 {
      return [];
    }
    customers := ReadCustomers(lines, stamp);
  }

  /** The loop of `parseVehiclesFromCSV` over the data lines. */
  method ReadVehicles(lines: seq<string>, stamp: string) returns (vehicles: seq<Vehicle>)
    requires |lines| >= 1
    ensures vehicles == VehiclesFrom(FieldRows(lines), |lines|, stamp)
  {
    ghost var rows := FieldRows(lines);
    vehicles := [];
    var i := 1;
    while i < |lines|
      invariant 1 <= i <= |lines|
      invariant vehicles == VehiclesFrom(rows, i, stamp)
    {
      var values := Fields(lines[i]);
      assert values == rows[i];
      if |values| >= 2 {
        vehicles := vehicles + [VehicleOf(values, i, stamp)];
      }
      i := i + 1;
    }
  }

  /** `parseVehiclesFromCSV`. */
  method ParseVehicles(content: string, stamp: string) returns (vehicles: seq<Vehicle>)
    ensures vehicles == ImportedVehicles(content, stamp)
  {
    var lines := CsvLines(content);
    if |lines| < 2 {
      return [];
    }
    vehicles := ReadVehicles(lines, stamp);
  }

  /** The first row is a header and is never read: files that differ only
      there import alike. */
  lemma {:induction false} HeaderIgnored(rows: seq<seq<string>>, other: seq<seq<string>>, n: int, stamp: string)
    requires n <= |rows| && |rows| == |other| && |rows| > 0
    requires rows[1..] == other[1..]
    ensures CustomersFrom(rows, n, stamp) == CustomersFrom(other, n, stamp)
    ensures VehiclesFrom(rows, n, stamp) == VehiclesFrom(other, n, stamp)
    decreases n
  {
    if n > 1 {
      HeaderIgnored(rows, other, n - 1, stamp);
      assert rows[n - 1] == rows[1..][n - 2] == other[1..][n - 2] == other[n - 1];
    }
  }

  /** Each imported customer comes from a data row with at least 3 fields,
      and its id names that row. */
  lemma {:induction false} CustomersFromRows(rows: seq<seq<string>>, n: int, stamp: string, c: CsvCustomer)
    requires n <= |rows|
    requires c in CustomersFrom(rows, n, stamp)
    ensures exists i :: 1 <= i < n && |rows[i]| >= 3 && c == CustomerOf(rows[i], i, stamp)
    decreases n
  {
    if c in CustomersFrom(rows, n - 1, stamp) {
      CustomersFromRows(rows, n - 1, stamp, c);
    } else {
      assert |rows[n - 1]| >= 3 && c == CustomerOf(rows[n - 1], n - 1, stamp);
    }
  }

  /** The customer of row `n - 1` has an id no earlier customer has. */
  lemma LaterIdFresh(rows: seq<seq<string>>, n: int, stamp: string, a: int)
    requires 1 < n <= |rows|
    requires 0 <= a < |CustomersFrom(rows, n - 1, stamp)|
    ensures CustomersFrom(rows, n - 1, stamp)[a].id != ImportId(stamp, n - 1)
  {
    var prev := CustomersFrom(rows, n - 1, stamp);
    var id := prev[a].id;
    var i: int :| 1 <= i < n - 1 && id == ImportId(stamp, i) by {
      CustomersFromRows(rows, n - 1, stamp, prev[a]);
    }
    ImportIdsDistinct(stamp, i, n - 1);
  }

  /** Imported customers have pairwise different ids. */
  lemma {:induction false} CustomerIdsDistinct(rows: seq<seq<string>>, n: int, stamp: string)
    requires n <= |rows|
    ensures forall a, b :: 0 <= a < b < |CustomersFrom(rows, n, stamp)| ==>
      CustomersFrom(rows, n, stamp)[a].id != CustomersFrom(rows, n, stamp)[b].id
    decreases n
  {
    if n > 1 {
      CustomerIdsDistinct(rows, n - 1, stamp);
      var prev := CustomersFrom(rows, n - 1, stamp);
      var r := CustomersFrom(rows, n, stamp);
      forall a, b | 0 <= a < b < |r| ensures r[a].id != r[b].id {
        if b < |prev| {
          assert r[a] == prev[a] && r[b] == prev[b];
        } else {
          LaterIdFresh(rows, n, stamp, a);
          assert r[a] == prev[a] && r[b].id == ImportId(stamp, n - 1);
        }
      }
    }
  }

  /** Each imported vehicle comes from a data row with at least 2 fields,
      and its id names that row. */
  lemma {:induction false} VehiclesFromRows(rows: seq<seq<string>>, n: int, stamp: string, v: Vehicle)
    requires n <= |rows|
    requires v in VehiclesFrom(rows, n, stamp)
    ensures exists i :: 1 <= i < n && |rows[i]| >= 2 && v == VehicleOf(rows[i], i, stamp)
    decreases n
  {
    if v in VehiclesFrom(rows, n - 1, stamp) {
      VehiclesFromRows(rows, n - 1, stamp, v);
    } else {
      assert |rows[n - 1]| >= 2 && v == VehicleOf(rows[n - 1], n - 1, stamp);
    }
  }

  /** The vehicle of row `n - 1` has an id no earlier vehicle has. */
  lemma LaterVehicleIdFresh(rows: seq<seq<string>>, n: int, stamp: string, a: int)
    requires 1 < n <= |rows|
    requires 0 <= a < |VehiclesFrom(rows, n - 1, stamp)|
    ensures VehiclesFrom(rows, n - 1, stamp)[a].id != ImportId(stamp, n - 1)
  {
    var prev := VehiclesFrom(rows, n - 1, stamp);
    var id := prev[a].id;
    var i: int :| 1 <= i < n - 1 && id == ImportId(stamp, i) by {
      VehiclesFromRows(rows, n - 1, stamp, prev[a]);
    }
    ImportIdsDistinct(stamp, i, n - 1);
  }

  /** Imported vehicles have pairwise different ids. */
  lemma {:induction false} VehicleIdsDistinct(rows: seq<seq<string>>, n: int, stamp: string)
    requires n <= |rows|
    ensures forall a, b :: 0 <= a < b < |VehiclesFrom(rows, n, stamp)| ==>
      VehiclesFrom(rows, n, stamp)[a].id != VehiclesFrom(rows, n, stamp)[b].id
    decreases n
  {
    if n > 1 {
      VehicleIdsDistinct(rows, n - 1, stamp);
      var prev := VehiclesFrom(rows, n - 1, stamp);
      var r := VehiclesFrom(rows, n, stamp);
      forall a, b | 0 <= a < b < |r| ensures r[a].id != r[b].id {
        if b < |prev| {
          assert r[a] == prev[a] && r[b] == prev[b];
        } else {
          LaterVehicleIdFresh(rows, n, stamp, a);
          assert r[a] == prev[a] && r[b].id == ImportId(stamp, n - 1);
        }
      }
    }
  }
}
