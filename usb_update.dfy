/**
 * Update detection from a USB stick (hooks/useUSBUpdateDetection.ts): the
 * `version.txt` file that comes with an update package, the dotted-version
 * order, and the hook state that decides whether an update is offered.
 * The file system is a map from path to file content.
 */
module UsbUpdateDetection {
  import opened Wrappers
  import opened JsString

  /** The version the application reports as installed; the hook starts
      with it. */
  const CurrentVersion: string := "1.0.0"

  datatype UpdateInfo = UpdateInfo(version: string, updateFile: string, releaseNotes: Option<string>)

  // -------------------------------------------------------- version file

  /** Line `k` is the first of `lines` that starts with `prefix`. */
  predicate FirstWith(lines: seq<string>, prefix: string, k: int) {
    0 <= k < |lines| && StartsWith(lines[k], prefix)
    && forall j :: 0 <= j < k ==> !StartsWith(lines[j], prefix)
  }

  /** `lines.find(line => line.startsWith(prefix))`, as an index; `|lines|`
      when no line qualifies. */
  function FindLine(lines: seq<string>, prefix: string): (k: nat)
    ensures k <= |lines|
    ensures k < |lines| ==> FirstWith(lines, prefix, k)
    ensures k == |lines| <==> forall j :: 0 <= j < |lines| ==> !StartsWith(lines[j], prefix)
  {
    if |lines| == 0 then 0
    else if StartsWith(lines[0], prefix) then 0
    else 1 + FindLine(lines[1..], prefix)
  }

  /** `line.split('=')[1]?.trim()`. */
  function SecondField(line: string): Option<string> {
    var parts := Split(line, '=');
    if |parts| >= 2 then Some(Trim(parts[1])) else None
  }

  /** `content.split('\n')`. */
  function Lines(content: string): seq<string> {
    Split(content, '\n')
  }

  /** `parseVersionFile` of the hook: `VERSION=` and `NOTES=` lines, matched
      case-sensitively on the untrimmed line. */
  function ParseVersionFile(content: string): (r: Option<UpdateInfo>)
    ensures r.None? <==> forall j :: 0 <= j < |Lines(content)| ==> !StartsWith(Lines(content)[j], "VERSION=")
    ensures r.Some? ==> r.value.updateFile == ""
  {
    var lines := Lines(content);
    var v := FindLine(lines, "VERSION=");
    var n := FindLine(lines, "NOTES=");
    if v == |lines| then None
    else Some(UpdateInfo(SecondField(lines[v]).GetOr(""), "", if n < |lines| then SecondField(lines[n]) else None))
  }

  /** The second field of a line that starts with `key` and `=`: the text
      after that `=`, up to the next `=`, trimmed. */
  lemma {:induction false} FieldAfterKey(line: string, key: string)
    requires '=' !in key && StartsWith(line, key + "=")
    ensures SecondField(line) == Some(Trim(Before(line[|key| + 1..], '=')))
  {
    assert line[|key|] == '=';
    assert '=' in line;
    assert IndexOf(line, '=') == |key| by {
      assert forall k :: 0 <= k < |key| ==> line[k] == key[k];
    }
    SecondPiece(line, '=');
  }

  /** The version is read from the first `VERSION=` line. */
  lemma VersionFromFirstLine(content: string, k: int)
    requires FirstWith(Lines(content), "VERSION=", k)
    ensures ParseVersionFile(content).Some?
    ensures ParseVersionFile(content).value.version == Trim(Before(Lines(content)[k][8..], '='))
  {
    var lines := Lines(content);
    assert FindLine(lines, "VERSION=") == k;
    assert ParseVersionFile(content).value.version == SecondField(lines[k]).GetOr("");
    assert "VERSION" + "=" == "VERSION=";
    FieldAfterKey(lines[k], "VERSION");
  }

  /** The release notes are read from the first `NOTES=` line. */
  lemma NotesFromFirstLine(content: string, k: int)
    requires ParseVersionFile(content).Some?
    requires FirstWith(Lines(content), "NOTES=", k)
    ensures ParseVersionFile(content).value.releaseNotes == Some(Trim(Before(Lines(content)[k][6..], '=')))
  {
    var lines := Lines(content);
    assert FindLine(lines, "NOTES=") == k;
    assert ParseVersionFile(content).value.releaseNotes == SecondField(lines[k]);
    assert "NOTES" + "=" == "NOTES=";
    FieldAfterKey(lines[k], "NOTES");
  }

  /** Without a `NOTES=` line there are no release notes. */
  lemma NoNotesLine(content: string)
    requires ParseVersionFile(content).Some?
    requires forall j :: 0 <= j < |Lines(content)| ==> !StartsWith(Lines(content)[j], "NOTES=")
    ensures ParseVersionFile(content).value.releaseNotes.None?
  {
  }

  /** Two lines joined by a line break split back into the two lines. */
  lemma TwoLines(first: string, second: string)
    requires '\n' !in first && '\n' !in second
    ensures Lines(first + "\n" + second) == [first, second]
  {
    assert Join([first, second], '\n') == first + "\n" + second;
    SplitJoin([first, second], '\n');
  }

  /** A key line: `key` followed by a text without a line break. */
  lemma KeyLine(key: string, value: string)
    requires '\n' !in key && '\n' !in value
    ensures '\n' !in key + value
    ensures (key + value)[|key|..] == value
    ensures StartsWith(key + value, key)
  {
    assert (key + value)[..|key|] == key;
    forall i | 0 <= i < |key + value| ensures (key + value)[i] != '\n' {
      if i < |key| { assert (key + value)[i] == key[i]; } else { assert (key + value)[i] == value[i - |key|]; }
    }
  }

  /** The lines of a version file written as `VERSION=<v>`, a line break
      and `NOTES=<n>`. */
  lemma VersionFileLines(version: string, notes: string, content: string)
    requires '\n' !in version && '\n' !in notes
    requires content == ("VERSION=" + version) + "\n" + ("NOTES=" + notes)
    ensures Lines(content) == ["VERSION=" + version, "NOTES=" + notes]
  {
    KeyLine("VERSION=", version);
    KeyLine("NOTES=", notes);
    TwoLines("VERSION=" + version, "NOTES=" + notes);
  }

  /** A text without `=` or surrounding white space is its own field. */
  lemma PlainField(key: string, value: string, line: string)
    requires '=' !in key && '=' !in value && Trimmed(value)
    requires line == key + "=" + value
    ensures SecondField(line) == Some(value)
  {
    assert StartsWith(line, key + "=") by { assert line[..|key + "="|] == key + "="; }
    FieldAfterKey(line, key);
    assert line[|key| + 1..] == value;
    assert Before(value, '=') == value[..|value|] == value;
    TrimTrimmed(value);
  }

  /** A file whose first line is its first `VERSION=` line and whose second
      is its first `NOTES=` line. */
  lemma TwoLineFile(lines: seq<string>, content: string)
    requires Lines(content) == lines && |lines| == 2
    requires FirstWith(lines, "VERSION=", 0) && FirstWith(lines, "NOTES=", 1)
    ensures ParseVersionFile(content) == Some(UpdateInfo(SecondField(lines[0]).GetOr(""), "", SecondField(lines[1])))
  {
    assert FindLine(Lines(content), "VERSION=") == 0;
    assert FindLine(Lines(content), "NOTES=") == 1;
  }

  /** The `VERSION=<v>` and `NOTES=<n>` lines: found in that order, with
      fields `v` and `n`. */
  lemma {:induction false} KeyLines(version: string, notes: string, first: string, second: string)
    requires '=' !in version && Trimmed(version) && '=' !in notes && Trimmed(notes)
    requires first == "VERSION=" + version && second == "NOTES=" + notes
    ensures FirstWith([first, second], "VERSION=", 0) && FirstWith([first, second], "NOTES=", 1)
    ensures SecondField(first) == Some(version) && SecondField(second) == Some(notes)
  {
    KeyedLine("VERSION=", version, first);
    KeyedLine("NOTES=", notes, second);
    assert first[0] == 'V';
    assert !StartsWith(first, "NOTES=");
    assert "VERSION" + "=" == "VERSION=";
    assert "NOTES" + "=" == "NOTES=";
    PlainField("VERSION", version, first);
    PlainField("NOTES", notes, second);
  }

  /** A line made of `key` and a rest starts with `key`. */
  lemma KeyedLine(key: string, rest: string, line: string)
    requires line == key + rest
    ensures StartsWith(line, key)
  {
    assert line[..|key|] == key;
  }

  /** Writing a version file and reading it back gives the version and the
      notes, when neither holds `=`, a line break or surrounding white
      space. */
  lemma VersionFileRoundTrip(version: string, notes: string, content: string)
    requires '=' !in version && '\n' !in version && Trimmed(version)
    requires '=' !in notes && '\n' !in notes && Trimmed(notes)
    requires content == ("VERSION=" + version) + "\n" + ("NOTES=" + notes)
    ensures ParseVersionFile(content) == Some(UpdateInfo(version, "", Some(notes)))
  {
    var first, second := "VERSION=" + version, "NOTES=" + notes;
    VersionFileLines(version, notes, content);
    KeyLines(version, notes, first, second);
    TwoLineFile([first, second], content);
  }

  // ------------------------------------------------------ version order

  /** `pieces.map(num => parseInt(num, 10))`; `None` is NaN. */
  function ParseParts(pieces: seq<string>): (r: seq<Option<int>>)
    ensures |r| == |pieces|
  {
    if |pieces| == 0 then []
    else ParseParts(pieces[..|pieces| - 1]) + [ParseInt(pieces[|pieces| - 1], true)]
  }

  /** `version.split('.').map(num => parseInt(num, 10))`. */
  function ParseVersion(version: string): seq<Option<int>> {
    ParseParts(Split(version, '.'))
  }

  /** `parts[i] || 0`: a missing or non-numeric component counts as 0. */
  function Component(parts: seq<Option<int>>, i: nat): int {
    if i < |parts| then IntOr(parts[i], 0) else 0
  }

  function Width(a: seq<Option<int>>, b: seq<Option<int>>): nat {
    if |a| < |b| then |b| else |a|
  }

  /** `a` and `b` agree on every component before `i`. */
  predicate AgreeBefore(a: seq<Option<int>>, b: seq<Option<int>>, i: nat) {
    forall j: nat :: j < i ==> Component(a, j) == Component(b, j)
  }

  /** The first component where `a` and `b` differ is larger in `a`. */
  predicate Greater(a: seq<Option<int>>, b: seq<Option<int>>) {
    exists i: nat :: i < Width(a, b) && AgreeBefore(a, b, i) && Component(a, i) > Component(b, i)
  }

  predicate NewerVersion(newVersion: string, currentVersion: string) {
    Greater(ParseVersion(newVersion), ParseVersion(currentVersion))
  }

  /** `isNewerVersion`. */
  method IsNewerVersion(newVersion: string, currentVersion: string) returns (newer: bool)
    ensures newer == NewerVersion(newVersion, currentVersion)
  {
    var newParts := ParseVersion(newVersion);
    var currentParts := ParseVersion(currentVersion);
    newer := CompareParts(newParts, currentParts);
  }

  /** The loop of `isNewerVersion`: compares component by component and
      returns at the first difference. */
  method CompareParts(newParts: seq<Option<int>>, currentParts: seq<Option<int>>) returns (newer: bool)
    ensures newer == Greater(newParts, currentParts)
  {
    var width := if |newParts| < |currentParts| then |currentParts| else |newParts|;
    var i := 0;
    while i < width
      invariant 0 <= i <= width
      invariant AgreeBefore(newParts, currentParts, i)
    {
      var newPart := Component(newParts, i);
      var currentPart := Component(currentParts, i);
      if newPart > currentPart {
        return true;
      }
      if newPart < currentPart {
        forall k: nat | k < width && AgreeBefore(newParts, currentParts, k)
          ensures Component(newParts, k) <= Component(currentParts, k)
        {
        }
        return false;
      }
      i := i + 1;
    }
    return false;
  }

  /** Components beyond both lengths are 0, so agreeing up to the width is
      agreeing everywhere. */
  lemma AgreeBeyondWidth(a: seq<Option<int>>, b: seq<Option<int>>, i: nat)
    requires AgreeBefore(a, b, Width(a, b)) && i >= Width(a, b)
    ensures AgreeBefore(a, b, i)
  {
  }

  /** No version is newer than itself. */
  lemma NewerIrreflexive(v: string)
    ensures !NewerVersion(v, v)
  {
  }

  /** Of two versions at most one is newer than the other. */
  lemma {:induction false} GreaterAsymmetric(a: seq<Option<int>>, b: seq<Option<int>>)
    requires Greater(a, b)
    ensures !Greater(b, a)
  {
    var i: nat :| i < Width(a, b) && AgreeBefore(a, b, i) && Component(a, i) > Component(b, i);
    forall k: nat | k < Width(b, a) && AgreeBefore(b, a, k)
      ensures Component(b, k) <= Component(a, k)
    {
      if k < i {
        assert Component(a, k) == Component(b, k);
      }
    }
  }

  lemma {:induction false} GreaterTransitive(a: seq<Option<int>>, b: seq<Option<int>>, c: seq<Option<int>>)
    requires Greater(a, b) && Greater(b, c)
    ensures Greater(a, c)
  {
    var i: nat :| i < Width(a, b) && AgreeBefore(a, b, i) && Component(a, i) > Component(b, i);
    var k: nat :| k < Width(b, c) && AgreeBefore(b, c, k) && Component(b, k) > Component(c, k);
    var m := if i < k then i else k;
    assert AgreeBefore(a, c, m) by {
      forall j: nat | j < m ensures Component(a, j) == Component(c, j) {
        assert Component(a, j) == Component(b, j);
        assert Component(b, j) == Component(c, j);
      }
    }
    if i < k {
      assert Component(b, i) == Component(c, i);
    } else if k < i {
      assert Component(a, k) == Component(b, k);
    }
    assert Component(a, m) > Component(c, m);
  }

  /** The first difference decides: two component lists that differ
      somewhere are ordered one way or the other. */
  lemma {:induction false} GreaterTotal(a: seq<Option<int>>, b: seq<Option<int>>, d: nat)
    requires Component(a, d) != Component(b, d)
    ensures Greater(a, b) || Greater(b, a)
    decreases d
  {
    if AgreeBefore(a, b, d) {
      assert Width(b, a) == Width(a, b);
      if Component(a, d) > Component(b, d) {
        assert AgreeBefore(a, b, d) && Component(a, d) > Component(b, d);
      } else {
        assert AgreeBefore(b, a, d) && Component(b, d) > Component(a, d);
      }
    } else {
      var j: nat :| j < d && Component(a, j) != Component(b, j);
      GreaterTotal(a, b, j);
    }
  }

  /** Equal components everywhere: neither is greater. */
  lemma NotGreaterWhenAgree(a: seq<Option<int>>, b: seq<Option<int>>)
    requires AgreeBefore(a, b, Width(a, b))
    ensures !Greater(a, b) && !Greater(b, a)
  {
  }

  lemma SplitTrailingZero(v: string)
    ensures Split(v + ".0", '.') == Split(v, '.') + ["0"]
  {
    var pieces := Split(v, '.');
    var longer := pieces + ["0"];
    assert forall k :: 0 <= k < |longer| ==> '.' !in longer[k] by {
      assert forall k :: 0 <= k < |pieces| ==> longer[k] == pieces[k];
      assert longer[|pieces|] == "0";
    }
    JoinSnoc(pieces, "0", '.');
    assert Join(longer, '.') == v + ".0";
    SplitJoin(longer, '.');
  }

  lemma ParseZero()
    ensures ParseInt("0", true) == Some(0)
  {
    IntToStringParses(0, true);
    assert IntToString(0) == "0";
  }

  /** A component list with one more component 0 has the same components. */
  lemma {:induction false} ZeroExtended(a: seq<Option<int>>, b: seq<Option<int>>)
    requires b == a + [Some(0)]
    ensures !Greater(a, b) && !Greater(b, a)
  {
    assert AgreeBefore(a, b, Width(a, b)) by {
      forall j: nat | j < Width(a, b) ensures Component(a, j) == Component(b, j) {
        if j < |a| { assert b[j] == a[j]; }
      }
    }
    NotGreaterWhenAgree(a, b);
  }

  /** A trailing `.0` does not change a version: `"1.0"` and `"1.0.0"` are
      not newer than each other. */
  lemma {:induction false} TrailingZero(v: string)
    ensures !NewerVersion(v, v + ".0") && !NewerVersion(v + ".0", v)
  {
    var pieces := Split(v, '.');
    SplitTrailingZero(v);
    ParseZero();
    assert (pieces + ["0"])[..|pieces|] == pieces;
    assert ParseVersion(v + ".0") == ParseVersion(v) + [Some(0)];
    ZeroExtended(ParseVersion(v), ParseVersion(v + ".0"));
  }

  lemma OneZeroPadding()
    ensures !NewerVersion("1.0", "1.0.0") && !NewerVersion("1.0.0", "1.0")
  {
    TrailingZero("1.0");
    assert "1.0" + ".0" == "1.0.0";
  }

  // -------------------------------------------------------- hook state

  /** What `checkForUpdateFiles` leaves in `updateAvailable`, given the
      documents directory and the file system. An update is offered only
      when the directory is known, `version.txt` and `update.apk` are both in
      it, and `version.txt` names a version newer than the installed one. */
  function OfferedUpdate(prior: Option<UpdateInfo>, installed: string, documentsDir: Option<string>, files: map<string, string>): (r: Option<UpdateInfo>)
    ensures r != prior ==>
      documentsDir.Some? && documentsDir.value != ""
      && documentsDir.value + "version.txt" in files && documentsDir.value + "update.apk" in files
      && r.Some? && r.value.updateFile == documentsDir.value + "update.apk"
      && ParseVersionFile(files[documentsDir.value + "version.txt"]) == Some(r.value.(updateFile := ""))
      && NewerVersion(r.value.version, installed)
  {
    if documentsDir.None? || documentsDir.value == "" then prior
    else
      var versionFilePath := documentsDir.value + "version.txt";
      var updateFilePath := documentsDir.value + "update.apk";
      if versionFilePath in files && updateFilePath in files then
        match ParseVersionFile(files[versionFilePath])
        case Some(info) =>
          if NewerVersion(info.version, installed) then Some(info.(updateFile := updateFilePath)) else prior
        case None => prior
      else prior
  }

  /** And conversely: when all of it holds, that update is offered. */
  lemma OfferedWhenNewer(prior: Option<UpdateInfo>, installed: string, dir: string, files: map<string, string>)
    requires dir != "" && dir + "version.txt" in files && dir + "update.apk" in files
    requires ParseVersionFile(files[dir + "version.txt"]).Some?
    requires NewerVersion(ParseVersionFile(files[dir + "version.txt"]).value.version, installed)
    ensures OfferedUpdate(prior, installed, Some(dir), files).Some?
    ensures OfferedUpdate(prior, installed, Some(dir), files).value.version == ParseVersionFile(files[dir + "version.txt"]).value.version
    ensures OfferedUpdate(prior, installed, Some(dir), files).value.updateFile == dir + "update.apk"
  {
  }

  /** The state of the `useUSBUpdateDetection` hook, with the version it
      compares against. */
  class UpdateDetector {
    const installed: string
    var isChecking: bool
    var updateAvailable: Option<UpdateInfo>

    constructor()
      ensures installed == CurrentVersion
      ensures !isChecking && updateAvailable.None?
    {
      installed := CurrentVersion;
      isChecking := false;
      updateAvailable := None;
    }

    /** `checkForUpdates`: skipped while a check runs and on the web. */
    method CheckForUpdates(web: bool, documentsDir: Option<string>, files: map<string, string>)
      modifies this
      ensures isChecking == old(isChecking)
      ensures updateAvailable == if old(isChecking) || web then old(updateAvailable)
                                 else OfferedUpdate(old(updateAvailable), installed, documentsDir, files)
    {
      if isChecking || web {
        return;
      }
      isChecking := true;
      CheckForUpdateFiles(documentsDir, files);
      isChecking := false;
    }

    /** `checkForUpdateFiles`. */
    method CheckForUpdateFiles(documentsDir: Option<string>, files: map<string, string>)
      modifies this
      ensures isChecking == old(isChecking)
      ensures updateAvailable == OfferedUpdate(old(updateAvailable), installed, documentsDir, files)
    {
      if documentsDir.None? || documentsDir.value == "" {
        return;
      }
      var versionFilePath := documentsDir.value + "version.txt";
      var updateFilePath := documentsDir.value + "update.apk";
      if versionFilePath in files && updateFilePath in files {
        var updateInfo := ParseVersionFile(files[versionFilePath]);
        if updateInfo.Some? {
          var newer := IsNewerVersion(updateInfo.value.version, installed);
          if newer {
            updateAvailable := Some(updateInfo.value.(updateFile := updateFilePath));
          }
        }
      }
    }

    /** `dismissUpdate`. */
    method DismissUpdate()
      modifies this
      ensures isChecking == old(isChecking)
      ensures updateAvailable.None?
    {
      updateAvailable := None;
    }
  }
}
