# Tour planning and update rules of a container-delivery app, in Dafny

This project models the core logic of a React Native app for planning container deliveries. The app keeps customers, orders, vehicles and tours. It has five parts.

- **Tour optimizer** (`utils/tourOptimizer.ts`):
  - groups the orders by delivery date;
  - sorts each day's orders by priority and container count;
  - packs them onto vehicles, first within capacity and then in a second pass within 120 % of capacity;
  - orders each vehicle's stops by nearest neighbour and then 2-opt;
  - computes a tour's distance and duration.
- **CSV export and import** (`utils/csvExport.ts`).
- **Update detection**: update packages found on a USB stick (`hooks/useUSBUpdateDetection.ts`) and the rules of the update manager (`utils/updateManager.ts`). These are the `key=value` version files, the dotted-version order, the extension check, the choice of backup and the clean-up paths.
- **Data hook** (`hooks/useData.ts`): refreshes the customer, vehicle and order snapshots that orders and tours carry, and decides when a changed customer list is written back.
- **Language hook** (`hooks/useLanguage.ts`): the translation lookup and the saved language.

The JavaScript string built-ins the code relies on are modelled once, in `js_string.dfy`. They are `split`, `join`, `trim`, `indexOf`, `lastIndexOf`, `toLowerCase`, `parseInt`, integer `toString` and the default sort order.

## Modelling choices

- **Distance.** The great-circle distance is a parameter `dist: (Coord, Coord) -> real` (`RouteCostEvaluator.Dist`). Properties that need it symmetric or non-negative say so in their `requires`.
- **Pure versus imperative code.** Pure expressions are functions. Loops become methods, each proved equal to a function; properties are then proved about that function. Objects whose fields change become classes: `UpdateDetector`, `Store` and `LanguageState`.
- **`x || y`.** JavaScript treats `0`, `""`, `undefined` and `NaN` as missing. This is written out as `OrFallback`, `IntOr`, `OrText`, `OrElse` and `Text`.
- **File system and storage.** The file system is a `map<string, string>` from path to content. A stored key is an `Option` holding the already-parsed value.
- **Clock and platform.** `Date.now()` is an opaque text `stamp`. The platform is the datatype `Platform`, and the web check is the flag `web`.
- **Vehicle status.** `Vehicle.status` is a string, because imported and stored records carry whatever text they had.

## Model

| member | source | states |
|---|---|---|
| RouteCostEvaluator.OrFallback | utils/tourOptimizer.ts:36-37 | definition: an absent coordinate and a coordinate equal to 0 both give the fallback; any other value is kept |
| RouteCostEvaluator.ZeroCoordinateIsMissing | utils/tourOptimizer.ts:101-113 | a customer at latitude (longitude) 0 is placed where a customer without one is: at 52.52 (13.405) |
| RouteCostEvaluator.RouteDistance | utils/tourOptimizer.ts:89-127 | the accumulating loop computes the round trip depot, stop 1, ..., stop N, depot (0 for an empty route) |
| RouteCostEvaluator.RouteCostNonNegative | utils/tourOptimizer.ts:89-127 | with non-negative distances every route costs at least 0 |
| RouteCostEvaluator.LegsNonNegative | utils/tourOptimizer.ts:106-115 | with non-negative distances the legs between stops sum to at least 0 |
| RouteCostEvaluator.SingleStopCost | utils/tourOptimizer.ts:97-124 | with a symmetric distance a one-stop route costs twice the distance from the depot |
| RouteCostEvaluator.Reverse | utils/tourOptimizer.ts:72 | definition: the reversed sequence has the same length, element i taken from position n-1-i |
| RouteCostEvaluator.ReversePermutes | utils/tourOptimizer.ts:72 | reversing keeps the multiset of elements |
| RouteCostEvaluator.LegsReverse | utils/tourOptimizer.ts:106-115 | with a symmetric distance the reversed route has the same legs total |
| RouteCostEvaluator.RouteCostReverse | utils/tourOptimizer.ts:89-127 | with a symmetric distance a route and its reverse cost the same |
| RouteSequencer.FirstNearest | utils/tourOptimizer.ts:32-43 | the chosen index is a nearest stop to the current position, and the first one among equally near stops |
| RouteSequencer.NearestIndex | utils/tourOptimizer.ts:32-43 | the `forEach` scan with strict `<` returns exactly that first nearest index |
| RouteSequencer.RemoveAt | utils/tourOptimizer.ts:47 | `splice(k, 1)` removes exactly one occurrence of element k |
| RouteSequencer.OptimizeRoute | utils/tourOptimizer.ts:23-54 | the loop builds the nearest-neighbour route from the depot, and it is a permutation of the orders |
| RouteSequencer.NearestNeighbourPermutes | utils/tourOptimizer.ts:23-54 | the constructed route visits every order exactly once |
| RouteSequencer.NearestNeighbourGreedy | utils/tourOptimizer.ts:31-51 | each stop of the route is at least as near to the previous position as every stop visited after it |
| RouteSequencer.ReverseSegment | utils/tourOptimizer.ts:70-73 | reversing positions i..j keeps the length |
| RouteSequencer.ReverseSegmentPermutes | utils/tourOptimizer.ts:70-73 | reversing a segment permutes the route and leaves the stops before i in place |
| RouteSequencer.TryMove | utils/tourOptimizer.ts:70-81 | a move is kept only when it makes the route strictly shorter; otherwise the route is unchanged; the stops and the first stop stay the same |
| RouteSequencer.TryRightEnds | utils/tourOptimizer.ts:67-82 | the inner loop never lengthens the route; without an improvement no move (i, j) with j >= i+2 shortens it |
| RouteSequencer.TwoOptPass | utils/tourOptimizer.ts:64-83 | one pass never lengthens the route; a pass without improvement leaves a route that no 2-opt move shortens |
| RouteSequencer.Improve2Opt | utils/tourOptimizer.ts:57-87 | routes under 4 stops are returned as they are; otherwise the result is a permutation with the same first stop and no greater cost, and a 2-opt local optimum when the passes converged |
| CapacityPacking.Rank | utils/tourOptimizer.ts:164 | high ranks 3, medium 2, low 1 |
| CapacityPacking.CompareMeaning | utils/tourOptimizer.ts:165-169 | an order sorts before another exactly when it has higher priority, or equal priority and at least as many containers; the comparator is antisymmetric |
| CapacityPacking.NotAfterTransitive | utils/tourOptimizer.ts:165-169 | the sort order is transitive |
| CapacityPacking.InsertSorted | utils/tourOptimizer.ts:165-169 | inserting into a sorted list keeps it sorted and adds exactly that order |
| CapacityPacking.SortOrdersCorrect | utils/tourOptimizer.ts:165-169 | the sort returns a permutation of the orders, sorted by priority and then container count, descending |
| CapacityPacking.InsertStable | utils/tourOptimizer.ts:165-169 | inserting an order passes only orders that sort strictly before it, so the orders tying with any given order keep their order |
| CapacityPacking.SortOrdersStable | utils/tourOptimizer.ts:165-169 | the sort is stable: the orders that compare equal to any given order appear in the same relative order as in the input |
| CapacityPacking.FillVehicle | utils/tourOptimizer.ts:176-187 | the backward scan with `push` and `splice` gives the taken orders, the orders left in list order and the container total of the fill function |
| CapacityPacking.ContainersPermutation | utils/tourOptimizer.ts:184 | permuted order lists hold the same number of containers |
| CapacityPacking.FillPartition | utils/tourOptimizer.ts:180-187 | every order of the pool is either taken or kept, exactly once |
| CapacityPacking.FillWithinLimit | utils/tourOptimizer.ts:182-184 | the total is the containers taken, and it stays within the limit once anything has been taken |
| CapacityPacking.FillMaximal | utils/tourOptimizer.ts:180-187 | with non-negative counts, no kept order would still have fitted |
| CapacityPacking.FillNothingTaken | utils/tourOptimizer.ts:180-187 | when nothing is taken, the total stays where it started and no kept order fits |
| CapacityPacking.Limit | utils/tourOptimizer.ts:182-230 | the first pass uses the capacity; the second uses floor(capacity * 1.2) |
| CapacityPacking.PackPartition | utils/tourOptimizer.ts:175-187 | a pass over the vehicles puts each order in exactly one load or leaves it unassigned |
| CapacityPacking.PackLeftSubset | utils/tourOptimizer.ts:175-187 | the orders left after a pass come from the pool |
| CapacityPacking.PackWithinLimit | utils/tourOptimizer.ts:175-209 | every load of a pass is non-empty, belongs to one of the vehicles and stays within that vehicle's ceiling |
| CapacityPacking.PackMaximal | utils/tourOptimizer.ts:175-187 | no order left after a pass fits into what any load leaves of its ceiling |
| CapacityPacking.PackIdle | utils/tourOptimizer.ts:175-189 | a vehicle that got no load cannot take any leftover order even when empty |
| TourPlanner.StopOrders | utils/tourOptimizer.ts:268 | definition: the orders of the stops, one per stop, in stop order |
| TourPlanner.NumberStops | utils/tourOptimizer.ts:194-198 | the stops carry the route's orders in order, numbered 1, 2, ..., with their own order ids and no arrival estimate or notes |
| TourPlanner.BuildTour | utils/tourOptimizer.ts:189-209 | the tour has id `tour-<vehicle id>-<stamp>`, the vehicle, the date, status planned and the pass colour; its stops are numbered from 1 and visit the load's orders exactly once, along a route no longer than the nearest-neighbour route |
| TourPlanner.RunPass | utils/tourOptimizer.ts:175-257 | the loop over the vehicles builds one tour per load of the pass, in vehicle order, and leaves the pass's leftovers |
| TourPlanner.RemainingVehicles | utils/tourOptimizer.ts:215-217 | exactly the vehicles whose id has no tour from the first pass |
| TourPlanner.GenerateToursForDate | utils/tourOptimizer.ts:162-261 | the tours of the day plan (first-pass tours first, then second-pass tours), each a valid day tour, and the tour stops plus the unassigned orders are exactly the day's orders |
| TourPlanner.ToursMatchOrders | utils/tourOptimizer.ts:194-198 | the stops of the tours hold exactly the orders of their loads |
| TourPlanner.PlanPartition | utils/tourOptimizer.ts:162-261 | the two passes split the day's orders: each is in one load or unassigned |
| TourPlanner.PlanWithinLimits | utils/tourOptimizer.ts:182-230 | first-pass loads keep to capacity; second-pass loads keep to floor(capacity * 1.2) |
| TourPlanner.PlanSecondPass | utils/tourOptimizer.ts:214-220 | the second pass runs only when orders are left and there are vehicles, and it never uses a vehicle that has a first-pass tour |
| TourPlanner.PlanDayTours | utils/tourOptimizer.ts:194-255 | every generated tour has stops, numbered stops, status planned, the date, one of the vehicles, and a load within the ceiling of its colour |
| TourPlanner.PlanOrders | utils/tourOptimizer.ts:162-261 | no order is lost or duplicated by a day's planning |
| TourPlanner.PlanMaximal | utils/tourOptimizer.ts:175-257 | with non-negative counts, no unassigned order fits into any first-pass or second-pass load |
| TourPlanner.PlanIdle | utils/tourOptimizer.ts:219-235 | a vehicle without any tour could not take any unassigned order on its own, even with the raised ceiling |
| TourGeneration.AvailableVehicles | utils/tourOptimizer.ts:130 | exactly the vehicles whose status is "available" |
| TourGeneration.OrdersOn | utils/tourOptimizer.ts:142-147 | the orders of one delivery date, all from the input |
| TourGeneration.AddOrderLookup | utils/tourOptimizer.ts:143-145 | a reduce step appends the order to its own date's group only, and adds the date if new |
| TourGeneration.GroupByDateCorrect | utils/tourOptimizer.ts:142-152 | the groups have distinct dates, each group holds exactly that date's orders in input order, and every date that occurs has a group |
| TourGeneration.GroupByDatePartition | utils/tourOptimizer.ts:142-147 | the groups together hold every order exactly once |
| TourGeneration.DateToursOptimized | utils/tourOptimizer.ts:152-156 | the tours of one date satisfy what every generated tour does, including that each stop is delivered on the tour's date |
| TourGeneration.GenerateOptimizedTours | utils/tourOptimizer.ts:129-160 | no tours without an available vehicle or without orders; otherwise the result is the day plans of the date groups, in group order, concatenated (`DayPlans`, `Flatten`), and the unassigned orders are those each day leaves (`Leftovers`); the tour stops and the unassigned orders are exactly the input orders; every tour uses an available vehicle, has numbered stops on its date and keeps to its ceiling |
| TourGeneration.GroupOnItsDate | utils/tourOptimizer.ts:142-147 | every order of a date group is for that group's date |
| TourGeneration.TourStatistics | utils/tourOptimizer.ts:263-276 | a tour without stops has distance and duration 0; otherwise the distance is the round trip over its stops, and the duration is that distance at 40 km/h plus the stop minutes per stop and the handling minutes per container carried, in hours |
| TourGeneration.StatisticsDefaults | utils/tourOptimizer.ts:273-274 | settings with a stop or handling time of 0 behave like no settings: 15 and 5 minutes |
| TourGeneration.StatisticsNonNegative | utils/tourOptimizer.ts:263-276 | with non-negative distances, counts and settings, the distance is at least 0 and the duration at least the driving time |
| TourGeneration.StatisticsReverse | utils/tourOptimizer.ts:263-276 | with a symmetric distance, reversing the stops changes neither distance nor duration |
| CsvExport.Escape | utils/csvExport.ts:19 | doubling the quotes never shortens a cell |
| CsvExport.EscapeUnescape | utils/csvExport.ts:19 | collapsing the doubled quotes gives back the original cell |
| CsvExport.Quote | utils/csvExport.ts:19 | a written cell starts and ends with a quote, and its inside unescapes to the cell |
| CsvExport.QuoteKeeps | utils/csvExport.ts:19 | quoting adds no character other than quotes |
| CsvExport.DocumentLines | utils/csvExport.ts:18-20 | with no line break in any cell, the document splits into the header row followed by one line per data row, in order |
| CsvExport.DocumentStartsWithHeader | utils/csvExport.ts:18-20 | the document opens with the header row; it is the header row alone when there are no data rows, and a line break follows it otherwise |
| CsvExport.FormatCustomers | utils/csvExport.ts:4-21 | the customer export opens with the quoted header row; with no customers it is just that row, otherwise a line break follows it |
| CsvExport.FormatCustomersLines | utils/csvExport.ts:4-21 | the customer export is the header line followed by one quoted line per customer, in order |
| CsvExport.CustomerCells | utils/csvExport.ts:6-16 | one cell per header column |
| CsvExport.VehicleCells | utils/csvExport.ts:25-32 | one cell per header column |
| CsvExport.FormatVehicles | utils/csvExport.ts:23-37 | the vehicle export opens with the quoted header row; with no vehicles it is just that row, otherwise a line break follows it |
| CsvExport.FormatVehiclesLines | utils/csvExport.ts:23-37 | exported vehicles whose texts hold no line break give the header line followed by one quoted line per vehicle, in order |
| CsvExport.StopCells | utils/csvExport.ts:45-54 | one cell per header column |
| CsvExport.StopRows | utils/csvExport.ts:44-55 | definition: the rows of a tour's stops, one per stop, in stop order |
| CsvExport.CollectTourRows | utils/csvExport.ts:41-56 | the nested loops collect one row per stop, tour after tour, in stop order |
| CsvExport.FormatTours | utils/csvExport.ts:39-61 | the tour export is the header followed by the collected rows |
| CsvExport.FormatToursAsWritten | utils/csvExport.ts:43-54 | as written, the export succeeds only for tours without stops, giving just the header |
| CsvExport.OneStopTourExport | utils/csvExport.ts:43-54 | a tour with one stop makes the export as written fail, while the corrected export has one row for it |
| CsvExport.StopCellsAsRead | utils/csvExport.ts:45-54 | for a stop record that does carry a `customer`, the row as written has one cell per column and the same tour columns as the corrected row |
| CsvExport.AsReadOrderColumn | utils/csvExport.ts:52 | the `Reihenfolge` cell as written (`[object Object]`) is never the text of a stop's sequence number |
| CsvExport.AllStopRowsAt | utils/csvExport.ts:43-56 | there is one row per stop; the rows of tour t follow those of the tours before it, in stop order |
| CsvExport.NonBlank | utils/csvExport.ts:70 | no kept line is blank after trimming, and no line is added |
| CsvExport.RemoveQuotes | utils/csvExport.ts:77 | the result holds no quote and only characters of the input |
| CsvExport.FieldsClean | utils/csvExport.ts:77 | field i is piece i of the line cut at every comma, without quotes and trimmed; so no field holds a comma or quote or has white space at either end |
| CsvExport.OrText | utils/csvExport.ts:82-88 | definition: a non-empty text is kept; an empty one gives the fallback |
| CsvExport.ImportIdsDistinct | utils/csvExport.ts:81 | ids of two different line numbers differ, for the same clock reading |
| CsvExport.CustomerOf | utils/csvExport.ts:80-96 | an imported customer has its line's id, a name, a priority and a non-zero container count; it has a time window exactly when both time fields are filled in |
| CsvExport.VehicleOf | utils/csvExport.ts:115-123 | an imported vehicle has its line's id, a name, a status, a non-zero capacity and present optional texts |
| CsvExport.CustomersFrom | utils/csvExport.ts:76-100 | at most one customer per data line |
| CsvExport.VehiclesFrom | utils/csvExport.ts:111-127 | at most one vehicle per data line |
| CsvExport.ImportedCustomers | utils/csvExport.ts:69-71 | fewer than two non-blank lines import nothing |
| CsvExport.ImportedVehicles | utils/csvExport.ts:105-107 | fewer than two non-blank lines import nothing |
| CsvExport.ReadCustomers | utils/csvExport.ts:76-100 | the loop from line 1 yields the customers of the lines with at least 3 fields, in line order |
| CsvExport.ParseCustomers | utils/csvExport.ts:69-103 | the parser returns the customers of the non-blank data lines |
| CsvExport.ReadVehicles | utils/csvExport.ts:111-127 | the loop from line 1 yields the vehicles of the lines with at least 2 fields, in line order |
| CsvExport.ParseVehicles | utils/csvExport.ts:105-130 | the parser returns the vehicles of the non-blank data lines |
| CsvExport.HeaderIgnored | utils/csvExport.ts:73-77 | the first line is never read: files that differ only there import alike |
| CsvExport.CustomersFromRows | utils/csvExport.ts:79-98 | every imported customer comes from one data line with at least 3 fields |
| CsvExport.CustomerIdsDistinct | utils/csvExport.ts:76-100 | the imported customers have pairwise different ids |
| CsvExport.VehiclesFromRows | utils/csvExport.ts:113-126 | every imported vehicle comes from one data line with at least 2 fields |
| CsvExport.VehicleIdsDistinct | utils/csvExport.ts:111-130 | the imported vehicles have pairwise different ids |
| UsbUpdateDetection.FindLine | hooks/useUSBUpdateDetection.ts:90-91 | the index of the first line with the prefix, or the number of lines when none has it |
| UsbUpdateDetection.ParseVersionFile | hooks/useUSBUpdateDetection.ts:87-107 | no result exactly when no line starts with `VERSION=`; the update file is empty |
| UsbUpdateDetection.FieldAfterKey | hooks/useUSBUpdateDetection.ts:95-96 | the value is the trimmed text after `key=` up to the next `=` |
| UsbUpdateDetection.VersionFromFirstLine | hooks/useUSBUpdateDetection.ts:90-95 | the version is taken from the first `VERSION=` line, trimmed and cut at the next `=` |
| UsbUpdateDetection.NotesFromFirstLine | hooks/useUSBUpdateDetection.ts:91-96 | the notes come from the first `NOTES=` line |
| UsbUpdateDetection.NoNotesLine | hooks/useUSBUpdateDetection.ts:96 | without a `NOTES=` line there are no release notes |
| UsbUpdateDetection.VersionFileRoundTrip | hooks/useUSBUpdateDetection.ts:87-107 | a file `VERSION=v` newline `NOTES=n` with plain values parses back to v and n |
| UsbUpdateDetection.ParseParts | hooks/useUSBUpdateDetection.ts:110-111 | one number (or NaN) per dotted piece |
| UsbUpdateDetection.IsNewerVersion | hooks/useUSBUpdateDetection.ts:109-125 | the method is true exactly when the new version is newer in the dotted order |
| UsbUpdateDetection.CompareParts | hooks/useUSBUpdateDetection.ts:116-124 | the loop with early returns is true exactly when, at the first differing part (missing and NaN parts as 0), the new part is greater |
| UsbUpdateDetection.NewerIrreflexive | hooks/useUSBUpdateDetection.ts:109-125 | no version is newer than itself |
| UsbUpdateDetection.GreaterAsymmetric | hooks/useUSBUpdateDetection.ts:116-124 | if a is newer than b, b is not newer than a |
| UsbUpdateDetection.GreaterTransitive | hooks/useUSBUpdateDetection.ts:116-124 | the version order is transitive |
| UsbUpdateDetection.GreaterTotal | hooks/useUSBUpdateDetection.ts:116-124 | versions that differ in some part are ordered one way or the other |
| UsbUpdateDetection.NotGreaterWhenAgree | hooks/useUSBUpdateDetection.ts:124 | versions that agree in every part are not newer either way |
| UsbUpdateDetection.TrailingZero | hooks/useUSBUpdateDetection.ts:117-118 | appending `.0` gives an equal version |
| UsbUpdateDetection.OneZeroPadding | hooks/useUSBUpdateDetection.ts:116-118 | `1.0` and `1.0.0` are not newer than each other |
| UsbUpdateDetection.OfferedUpdate | hooks/useUSBUpdateDetection.ts:54-85 | the offered update changes only when the directory is known, `version.txt` and `update.apk` both exist, and the version file names a newer version; the offer then points at `update.apk` |
| UsbUpdateDetection.OfferedWhenNewer | hooks/useUSBUpdateDetection.ts:58-77 | conversely, when all of that holds, that version is offered with that file |
| UsbUpdateDetection.UpdateDetector.constructor | hooks/useUSBUpdateDetection.ts:20-25 | the hook starts idle with no offer and compares against version 1.0.0 |
| UsbUpdateDetection.UpdateDetector.CheckForUpdates | hooks/useUSBUpdateDetection.ts:38-52 | nothing happens while a check runs or on the web; otherwise the offer becomes what `checkForUpdateFiles` decides, and the checking flag ends as it started |
| UsbUpdateDetection.UpdateDetector.CheckForUpdateFiles | hooks/useUSBUpdateDetection.ts:54-85 | the offer is what the file system and the installed version determine |
| UsbUpdateDetection.UpdateDetector.DismissUpdate | hooks/useUSBUpdateDetection.ts:232-234 | the offer is cleared |
| UpdateManagerRules.TrimmedLines | utils/updateManager.ts:123 | definition: one trimmed line per line of the content |
| UpdateManagerRules.KeyValueOf | utils/updateManager.ts:128-130 | the key is the lower-cased, trimmed text before the first `=`; the value is the trimmed rest, `=` signs included |
| UpdateManagerRules.LineSetting | utils/updateManager.ts:127 | a line gives a setting exactly when it holds `=` |
| UpdateManagerRules.ReadEntries | utils/updateManager.ts:126-132 | the loop fills the dictionary line by line |
| UpdateManagerRules.ApplyLastWins | utils/updateManager.ts:130 | the last setting of a key decides its value |
| UpdateManagerRules.ApplyKeys | utils/updateManager.ts:126-132 | every key present comes from some setting |
| UpdateManagerRules.EntriesLastWins | utils/updateManager.ts:126-132 | a key's value is that of its last line |
| UpdateManagerRules.EntriesKeys | utils/updateManager.ts:126-132 | every key comes from a line with `=` |
| UpdateManagerRules.OrElse | utils/updateManager.ts:138-139 | definition: a present non-empty text is kept; otherwise the fallback is used |
| UpdateManagerRules.Get | utils/updateManager.ts:134-139 | definition: a present key gives its value; a missing one gives nothing |
| UpdateManagerRules.FromEntries | utils/updateManager.ts:134-140 | no result exactly when `version` is missing or empty; notes fall back to `releasenotes`, checksum to `hash` |
| UpdateManagerRules.ParseVersionFile | utils/updateManager.ts:117-145 | the parser returns what the entries of the trimmed lines give |
| UpdateManagerRules.VersionFromLastLine | utils/updateManager.ts:126-137 | the version is the value of the last `version` line; it fails exactly when that value is empty |
| UpdateManagerRules.NoVersionLine | utils/updateManager.ts:134 | without a `version` key the file is rejected |
| UpdateManagerRules.ValidateUpdateFile | utils/updateManager.ts:147-173 | a file is accepted only if it exists; on android exactly when it exists and its lower-cased path ends in `.apk`, on windows in `.exe`; elsewhere exactly when it exists |
| UpdateManagerRules.ForeignPackagesRefused | utils/updateManager.ts:160-166 | an existing `update.exe` is refused on android and an existing `update.apk` on windows, in any directory |
| UpdateManagerRules.ExtensionIgnoresCase | utils/updateManager.ts:160-166 | the extension check gives the same answer on the lower-cased path |
| UpdateManagerRules.PackageNamesAccepted | utils/updateManager.ts:161-166 | `update.apk` passes on android and `update.exe` on windows, in any directory |
| UpdateManagerRules.InsertString | utils/updateManager.ts:234 | inserting adds exactly that name |
| UpdateManagerRules.InsertStringSorted | utils/updateManager.ts:234 | inserting into a sorted list keeps it sorted |
| UpdateManagerRules.SortStrings | utils/updateManager.ts:234 | the sort is a permutation |
| UpdateManagerRules.SortStringsSorted | utils/updateManager.ts:234 | the sort is ordered in the default string order |
| UpdateManagerRules.LatestBackup | utils/updateManager.ts:234-235 | `sort().reverse()[0]` is a folder name at least as great as every other |
| UpdateManagerRules.LatestBackupIsMax | utils/updateManager.ts:234-235 | it is the greatest folder name |
| UpdateManagerRules.RestorePath | utils/updateManager.ts:219-236 | no target without a documents directory; a given non-empty path is used as it is; otherwise no target when `backups/` is missing or empty, and else the folder under `backups/` with the greatest name in the string order |
| UpdateManagerRules.BasePath | utils/updateManager.ts:341 | the base is a prefix of the path, ends with `/` (or is empty), and no `/` follows it |
| UpdateManagerRules.CleanupBesidePackage | utils/updateManager.ts:341-346 | for a package file in a directory, the files removed are the package and that directory's `version.txt` |
| DataStore.FirstIndex | hooks/useData.ts:282 | the index of the first element with the id, or the length |
| DataStore.Find | hooks/useData.ts:282 | `find` gives nothing exactly when no element has the id, otherwise the first such element |
| DataStore.ResyncOrder | hooks/useData.ts:281-284 | definition: only the customer snapshot changes; it becomes the first customer with the order's customer id, or stays when there is none |
| DataStore.ResyncOrders | hooks/useData.ts:281-284 | definition: one refreshed order per order, in order |
| DataStore.ResyncOrdersKeepIds | hooks/useData.ts:281-284 | the refreshed orders keep their ids and customer ids, position by position |
| DataStore.ResyncOrdersIdempotent | hooks/useData.ts:281-284 | refreshing twice is refreshing once |
| DataStore.ResyncStop | hooks/useData.ts:304-314 | definition: only the stop's order changes; it becomes the first order with the stop's order id with its customer refreshed, or the stop stays |
| DataStore.ResyncStops | hooks/useData.ts:304-314 | definition: one refreshed stop per stop, in order |
| DataStore.ResyncTour | hooks/useData.ts:302-316 | definition: with a matching vehicle, the vehicle and the stops are refreshed and nothing else; without one, the tour is returned whole |
| DataStore.ResyncTours | hooks/useData.ts:301-317 | definition: one refreshed tour per tour, in order |
| DataStore.ResyncTourKeepsStops | hooks/useData.ts:304-316 | the tour keeps its number of stops and each stop's order id and sequence |
| DataStore.ResyncTourIdempotent | hooks/useData.ts:302-316 | refreshing a tour twice is refreshing it once |
| DataStore.RefreshSampleTour | hooks/useData.ts:323-332 | definition: each sample stop's order gets the first matching customer or keeps its own; nothing else changes |
| DataStore.RefreshSampleTours | hooks/useData.ts:323-332 | definition: one refreshed sample tour per tour, in order |
| DataStore.HasChangesIff | hooks/useData.ts:377-380 | the refreshed orders count as changed exactly when some order's stored customer has another name or address |
| DataStore.Store.constructor | hooks/useData.ts:220-226 | the hook starts with empty collections, the default settings and loading set |
| DataStore.Store.LoadData | hooks/useData.ts:232-361 | each collection comes from the store, or from the samples (which are then stored); stored orders are refreshed against the customers, stored tours against the vehicles and the orders and customers as read; sample tours get the sample customers; settings fall back to the defaults; loading ends |
| DataStore.Store.SaveCustomers | hooks/useData.ts:364-391 | the customers are stored; when there are orders, their refreshed form is stored and set only if it shows a name or address change |
| DataStore.Store.SaveOrders | hooks/useData.ts:393-401 | the orders are stored and set; nothing else changes |
| DataStore.Store.SaveVehicles | hooks/useData.ts:403-411 | the vehicles are stored and set; nothing else changes |
| DataStore.Store.SaveTours | hooks/useData.ts:413-421 | the tours are stored and set; nothing else changes |
| DataStore.Store.SaveSettings | hooks/useData.ts:423-431 | the settings are stored and set; nothing else changes |
| DataStore.Store.ResetAllData | hooks/useData.ts:433-464 | memory and store both hold the samples and the default settings |
| DataStore.LoadTwice | hooks/useData.ts:252-347 | loading from an empty store writes the samples, and loading again reads them back, with the sample orders refreshed |
| Language.FromCode | hooks/useLanguage.ts:574-575 | only the four codes are accepted, each as its own language |
| Language.CodeRoundTrip | hooks/useLanguage.ts:574-584 | a saved language code reads back as that language; everything else is refused |
| Language.Translate | hooks/useLanguage.ts:592-594 | a present, non-empty translation is returned; otherwise the key itself |
| Language.TranslateNonEmpty | hooks/useLanguage.ts:592-594 | a non-empty key never translates to the empty text; the result is the key or its translation |
| Language.MissingKeySameEverywhere | hooks/useLanguage.ts:592-594 | a key without an entry shows as itself in every language |
| Language.LanguageState.constructor | hooks/useLanguage.ts:565 | the hook starts in German |
| Language.LanguageState.LoadLanguage | hooks/useLanguage.ts:571-580 | a whitelisted saved code becomes current; otherwise the current language stays |
| Language.LanguageState.ChangeLanguage | hooks/useLanguage.ts:582-590 | the language becomes current and saved only when the save succeeds; a failed save changes nothing and is reported |
| Language.ChangeThenRestart | hooks/useLanguage.ts:565-590 | a language chosen and saved is the one the next start comes up with |
| JsString.Trim | utils/csvExport.ts:70-77 | the result is the input without white space at either end: what is cut is all white space, and the result neither starts nor ends with it |
| JsString.TrimEmptyIff | utils/csvExport.ts:70 | a line trims to the empty text exactly when it is all white space |
| JsString.IndexOf | utils/updateManager.ts:128 | the first position of the character, or -1 exactly when it is absent |
| JsString.LastIndexOf | utils/updateManager.ts:341 | the last position of the character, or -1 exactly when it is absent |
| JsString.Split | utils/csvExport.ts:70-77 | the pieces hold no separator and join back to the input; the first piece is the text before the first separator |
| JsString.SplitJoin | utils/csvExport.ts:18-20 | splitting joined pieces that hold no separator gives the pieces back |
| JsString.JoinTailAfterFirst | utils/updateManager.ts:128-129 | rejoining the pieces after the first gives the text after the first separator |
| JsString.ToLower | utils/updateManager.ts:130 | definition: lower-casing maps each character, keeping the length |
| JsString.LexLessIrreflexive | utils/updateManager.ts:234 | no name sorts before itself |
| JsString.LexLessTransitive | utils/updateManager.ts:234 | the string order is transitive |
| JsString.LexLessTotal | utils/updateManager.ts:234 | different names are ordered one way or the other |
| JsString.MaxLex | utils/updateManager.ts:234-235 | a member of the list that is at least as great as every other |
| JsString.IntOr | utils/csvExport.ts:84 | definition: a parsed non-zero number is kept; NaN and 0 give the default |
| JsString.IntToStringParses | utils/csvExport.ts:9 | parsing a printed integer gives the integer back |

## Findings

| source | as written | input that shows it | evidently intended | confidence | as-written member | corrected member |
|---|---|---|---|---|---|---|
| utils/csvExport.ts:49-52 | reads `stop.customer.name`, `stop.customer.address` and `stop.customer.containerCount`, but a tour stop has no `customer` (types/index.ts:38-44), and writes `stop.order.toString()` in the `Reihenfolge` column | any tour with one stop: `stop.customer` is undefined, so reading `name` throws a TypeError and nothing is exported | take the customer from `stop.order.customer` and the container count from `stop.order.containerCount`, and write the stop's `sequence` as its position | not executed; high that it throws, medium on the intended columns | CsvExport.FormatToursAsWritten, CsvExport.StopCellsAsRead | CsvExport.FormatTours, CsvExport.StopCells |

`CsvExport.OneStopTourExport` shows both sides for a one-stop tour: the export as written throws, the corrected one writes the row. `CsvExport.StopCellsAsRead` is the row the code would write for a stop record that did carry a `customer`; `CsvExport.AsReadOrderColumn` shows that its `Reihenfolge` cell, `[object Object]`, never equals the stop's sequence number that the corrected `CsvExport.StopCells` writes.

## Left out

- Haversine distance (utils/tourOptimizer.ts:10-20) and all floating-point behaviour. The distance is an abstract parameter, and durations are exact reals. The rounding `Math.round(x * 10) / 10` (utils/tourOptimizer.ts:278-279) is not modelled.
- CapacityPacking.Limit: `Math.floor(capacity * 1.2)` is computed in floating point. The model uses integer division, `(capacity * 6) / 5`.
- RouteSequencer.Improve2Opt: the `while (improved)` loop has no bound in the source. The model takes a pass count `maxPasses`, so convergence is promised only when the passes ran out of improvements within that count.
- RouteSequencer.NearestIndex: `nearestDistance` starts at `Infinity`, which the model replaces with the distance of the first stop, and `NaN` distances are not modelled.
- Tour and import ids: `Date.now()` is an opaque `stamp`. The tour optimizer reads the clock once per tour (utils/tourOptimizer.ts:201 and :248); the model uses one stamp for every tour of a run, so two tours of the same vehicle on different dates get the same id in the model. In the CSV import the source reads the clock once per line. The model uses one value for the whole import, so `CsvExport.ImportIdsDistinct` relies on the line number alone.
- JavaScript object key order in the grouping by date: the model keeps first-appearance order. JavaScript lists integer-like keys first, which delivery dates never are.
- The `console` logging, `Alert` prompts, `setInterval`/`setTimeout` timers, React effects, the installers (utils/updateManager.ts:291-336; hooks/useUSBUpdateDetection.ts:147-230), backup copying, `checkPathForUpdates`/`scanForUpdateFiles` directory walks and `exportToFile`. They are I/O or framework calls.
- JSON parsing and every `catch` path. A stored value is its parsed form; a failed read is a missing key.
- The sample records and the `new Date()` dates in hooks/useData.ts are a constructor parameter (`DataStore.Samples`), not literal data.
- DataStore.Store.ResetAllData: it also removes the saved language (`app_language`), which lives in `Language.LanguageState` and is not reset there.
- DataStore.Store.LoadData: a present key is not rewritten in the source. The model rewrites it with the same value, so the stored state is the same.
- JsString.ToLower, JsString.LexLess, UpdateManagerRules.SortStrings: `toLowerCase` covers ASCII only. Characters are code points, not UTF-16 code units, which matters only for sort order beyond the Basic Multilingual Plane.
- CsvExport: the importer splits on every comma and drops every quote, so importing an export does not give the records back; no round trip is claimed. Stored `Customer` records have no `containerCount`, `priority` or `timeWindow`. The CSV functions work on the record they read and write (`CsvExport.CsvCustomer`), so a stored customer without a container count would make the exporter throw in the source; the model does not show that.
- UsbUpdateDetection: the installed version is the constant 1.0.0 (`CURRENT_VERSION`) held by the detector. The comparison functions take it as a parameter.
- Language: the translation table is a parameter of type `map<string, Entry>`, not the table's literal text.
