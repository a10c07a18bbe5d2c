/**
 * The rules of the update manager (utils/updateManager.ts) that do not
 * touch the file system: the `key=value` version file, the file-extension
 * check per platform, the choice of the backup to restore, and the files
 * removed after an installation.
 */
module UpdateManagerRules {
  import opened Wrappers
  import opened JsString

  datatype VersionData = VersionData(version: string, releaseNotes: Option<string>, checksum: Option<string>)

  // ------------------------------------------------------- version file

  /** `content.split('\n').map(line => line.trim())`. */
  function TrimmedLines(content: string): (r: seq<string>)
    ensures |r| == |Split(content, '\n')|
    ensures forall i :: 0 <= i < |r| ==> r[i] == Trim(Split(content, '\n')[i])
  {
    var lines := Split(content, '\n');
    seq(|lines|, i requires 0 <= i < |lines| => Trim(lines[i]))
  }

  /** The key of a line: the text before its first `=`, trimmed and lower
      cased. */
  function KeyOf(line: string): string {
    ToLower(Trim(Split(line, '=')[0]))
  }

  /** The value of a line: everything after its first `=` (the other pieces
      joined again with `=`), trimmed. */
  function ValueOf(line: string): string
    requires '=' in line
  {
    Trim(Join(Split(line, '=')[1..], '='))
  }

  /** The key is the text before the first `=`, and the value the text after
      it. */
  lemma KeyValueOf(line: string)
    requires '=' in line
    ensures KeyOf(line) == ToLower(Trim(line[..IndexOf(line, '=')]))
    ensures ValueOf(line) == Trim(line[IndexOf(line, '=') + 1..])
  {
    JoinTailAfterFirst(line, '=');
  }

  /** What one line contributes: its key and value when it holds `=`. */
  datatype Setting = Setting(key: string, value: string)

  function LineSetting(line: string): (r: Option<Setting>)
    ensures r.Some? <==> '=' in line
  {
    if '=' in line then Some(Setting(KeyOf(line), ValueOf(line))) else None
  }

  function LineSettings(lines: seq<string>): (r: seq<Option<Setting>>)
    ensures |r| == |lines|
    ensures forall i :: 0 <= i < |lines| ==> r[i] == LineSetting(lines[i])
  {
    seq(|lines|, i requires 0 <= i < |lines| => LineSetting(lines[i]))
  }

  /** The dictionary the settings build, later ones overwriting earlier
      ones. */
  function Apply(settings: seq<Option<Setting>>): map<string, string> {
    if |settings| == 0 then map[]
    else
      var data := Apply(settings[..|settings| - 1]);
      match settings[|settings| - 1]
      case None => data
      case Some(st) => data[st.key := st.value]
  }

  /** The dictionary the loop over `lines` builds. */
  function Entries(lines: seq<string>): map<string, string> {
    Apply(LineSettings(lines))
  }

  /** The loop of `parseVersionFile` that fills `data`. */
  method ReadEntries(lines: seq<string>) returns (data: map<string, string>)
    ensures data == Entries(lines)
  {
    data := map[];
    var i := 0;
    while i < |lines|
      invariant 0 <= i <= |lines|
      invariant data == Entries(lines[..i])
    {
      var line := lines[i];
      EntriesSnoc(lines, i);
      if '=' in line {
        data := data[KeyOf(line) := ValueOf(line)];
      }
      i := i + 1;
    }
    assert lines[..|lines|] == lines;
  }

  /** One more line changes the dictionary only by the setting it holds. */
  lemma EntriesSnoc(lines: seq<string>, i: int)
    requires 0 <= i < |lines|
    ensures Entries(lines[..i + 1]) == match LineSetting(lines[i])
                                       case None => Entries(lines[..i])
                                       case Some(st) => Entries(lines[..i])[st.key := st.value]
  {
    assert LineSettings(lines[..i + 1])[..i] == LineSettings(lines[..i]);
  }

  /** Setting `i` sets `key` and no later one sets it again. */
  predicate LastSetting(settings: seq<Option<Setting>>, key: string, i: int) {
    0 <= i < |settings| && settings[i].Some? && settings[i].value.key == key
    && forall j :: i < j < |settings| && settings[j].Some? ==> settings[j].value.key != key
  }

  /** A key holds the value of the last setting for it. */
  lemma {:induction false} ApplyLastWins(settings: seq<Option<Setting>>, key: string, i: int)
    requires LastSetting(settings, key, i)
    ensures key in Apply(settings) && Apply(settings)[key] == settings[i].value.value
    decreases |settings|
  {
    var n := |settings|;
    if i < n - 1 {
      var init := settings[..n - 1];
      assert LastSetting(init, key, i) by {
        forall j | i < j < |init| && init[j].Some? ensures init[j].value.key != key {
          assert init[j] == settings[j];
        }
      }
      ApplyLastWins(init, key, i);
    }
  }

  /** Only keys that some setting sets are in the dictionary. */
  lemma {:induction false} ApplyKeys(settings: seq<Option<Setting>>, key: string)
    requires key in Apply(settings)
    ensures exists i :: 0 <= i < |settings| && LastSetting(settings, key, i)
    decreases |settings|
  {
    var n := |settings|;
    if settings[n - 1].Some? && settings[n - 1].value.key == key {
      assert LastSetting(settings, key, n - 1);
    } else {
      var init := settings[..n - 1];
      ApplyKeys(init, key);
      var i :| 0 <= i < |init| && LastSetting(init, key, i);
      assert init[i] == settings[i];
      assert LastSetting(settings, key, i) by {
        forall j | i < j < n && settings[j].Some? ensures settings[j].value.key != key {
          if j < n - 1 { assert init[j] == settings[j]; }
        }
      }
    }
  }

  /** Line `i` sets `key` and no later line sets it again. */
  predicate LastLine(lines: seq<string>, key: string, i: int) {
    0 <= i < |lines| && '=' in lines[i] && KeyOf(lines[i]) == key
    && forall j :: i < j < |lines| && '=' in lines[j] ==> KeyOf(lines[j]) != key
  }

  /** A key holds the value of the last line that sets it. */
  lemma EntriesLastWins(lines: seq<string>, key: string, i: int)
    requires LastLine(lines, key, i)
    ensures key in Entries(lines) && Entries(lines)[key] == ValueOf(lines[i])
  {
    ApplyLastWins(LineSettings(lines), key, i);
  }

  /** Only keys of lines holding `=` are in the dictionary. */
  lemma EntriesKeys(lines: seq<string>, key: string)
    requires key in Entries(lines)
    ensures exists i :: LastLine(lines, key, i)
  {
    ApplyKeys(LineSettings(lines), key);
    var i :| 0 <= i < |lines| && LastSetting(LineSettings(lines), key, i);
    assert LastLine(lines, key, i);
  }

  /** `a || b` on optional strings: an absent or empty `a` gives `b`. */
  function OrElse(a: Option<string>, b: Option<string>): (r: Option<string>)
    ensures a.Some? && a.value != "" ==> r == a
    ensures a.None? || a.value == "" ==> r == b
  {
    if a.Some? && a.value != "" then a else b
  }

  /** `data[key]`, absent as `None`. */
  function Get(data: map<string, string>, key: string): (r: Option<string>)
    ensures r.Some? <==> key in data
    ensures r.Some? ==> r.value == data[key]
  {
    if key in data then Some(data[key]) else None
  }

  /** What `parseVersionFile` makes of a dictionary. */
  function FromEntries(data: map<string, string>): (r: Option<VersionData>)
    ensures r.None? <==> Get(data, "version") == None || data["version"] == ""
    ensures r.Some? ==> r.value.version == data["version"] && r.value.version != ""
    ensures r.Some? ==> r.value.releaseNotes == OrElse(Get(data, "notes"), Get(data, "releasenotes"))
    ensures r.Some? ==> r.value.checksum == OrElse(Get(data, "checksum"), Get(data, "hash"))
  {
    if "version" !in data || data["version"] == "" then None
    else Some(VersionData(data["version"], OrElse(Get(data, "notes"), Get(data, "releasenotes")),
                          OrElse(Get(data, "checksum"), Get(data, "hash"))))
  }

  /** The reading of a whole version file. */
  function VersionFile(content: string): Option<VersionData> {
    FromEntries(Entries(TrimmedLines(content)))
  }

  /** `parseVersionFile` of the update manager. */
  method ParseVersionFile(content: string) returns (r: Option<VersionData>)
    ensures r == VersionFile(content)
  {
    var lines := TrimmedLines(content);
    var data := ReadEntries(lines);
    r := FromEntries(data);
  }

  /** The version is the value of the last line whose key is `version`;
      the file is refused when that value is empty. */
  lemma VersionFromLastLine(content: string, i: int)
    requires LastLine(TrimmedLines(content), "version", i)
    ensures VersionFile(content).None? <==> ValueOf(TrimmedLines(content)[i]) == ""
    ensures VersionFile(content).Some? ==> VersionFile(content).value.version == ValueOf(TrimmedLines(content)[i])
  {
    EntriesLastWins(TrimmedLines(content), "version", i);
  }

  /** Without a line whose key is `version` the file is refused. */
  lemma NoVersionLine(content: string)
    requires forall i :: 0 <= i < |TrimmedLines(content)| && '=' in TrimmedLines(content)[i] ==> KeyOf(TrimmedLines(content)[i]) != "version"
    ensures VersionFile(content).None?
  {
    if "version" in Entries(TrimmedLines(content)) {
      EntriesKeys(TrimmedLines(content), "version");
    }
  }

  // ---------------------------------------------------- update file check

  /** `Platform.OS`. */
  datatype Platform = Ios | Android | Windows | Macos | Web

  /** The extension rule of `validateUpdateFile`, on the lower-cased path:
      `.apk` on Android, `.exe` on Windows, anything elsewhere. */
  predicate ExtensionAccepted(platform: Platform, filePath: string) {
    var fileName := ToLower(filePath);
    !(platform == Android && !EndsWith(fileName, ".apk"))
    && !(platform == Windows && !EndsWith(fileName, ".exe"))
  }

  /** `validateUpdateFile`: the file must exist and have the platform's
      extension; the checksum is not checked. */
  function ValidateUpdateFile(platform: Platform, filePath: string, fileExists: bool): (ok: bool)
    ensures ok ==> fileExists
    ensures platform != Android && platform != Windows ==> ok == fileExists
    ensures platform == Android ==> (ok <==> fileExists && EndsWith(ToLower(filePath), ".apk"))
    ensures platform == Windows ==> (ok <==> fileExists && EndsWith(ToLower(filePath), ".exe"))
  {
    fileExists && ExtensionAccepted(platform, filePath)
  }

  lemma LowerCharIdempotent(c: char)
    ensures LowerChar(LowerChar(c)) == LowerChar(c)
  {
  }

  /** The check ignores letter case: a path and its lower-cased form are
      accepted alike. */
  lemma ExtensionIgnoresCase(platform: Platform, filePath: string)
    ensures ExtensionAccepted(platform, ToLower(filePath)) == ExtensionAccepted(platform, filePath)
  {
    forall i | 0 <= i < |filePath| ensures ToLower(ToLower(filePath))[i] == ToLower(filePath)[i] {
      LowerCharIdempotent(filePath[i]);
    }
    assert ToLower(ToLower(filePath)) == ToLower(filePath);
  }

  /** The package names the update scan looks for pass the check on their
      platform, in any directory. */
  lemma PackageNamesAccepted(dir: string)
    ensures ExtensionAccepted(Android, dir + "update.apk")
    ensures ExtensionAccepted(Windows, dir + "update.exe")
  {
    var a := dir + "update.apk";
    var w := dir + "update.exe";
    assert ToLower(a)[|a| - 4..] == ".apk" by {
      forall k | |a| - 4 <= k < |a| ensures ToLower(a)[k] == ".apk"[k - (|a| - 4)] {
        assert a[k] == "update.apk"[k - |dir|];
      }
    }
    assert ToLower(w)[|w| - 4..] == ".exe" by {
      forall k | |w| - 4 <= k < |w| ensures ToLower(w)[k] == ".exe"[k - (|w| - 4)] {
        assert w[k] == "update.exe"[k - |dir|];
      }
    }
  }

  /** A package for the other platform is refused, even when it exists. */
  lemma ForeignPackagesRefused(dir: string)
    ensures !ValidateUpdateFile(Android, dir + "update.exe", true)
    ensures !ValidateUpdateFile(Windows, dir + "update.apk", true)
  {
    var a := dir + "update.exe";
    var w := dir + "update.apk";
    assert ToLower(a)[|a| - 1] == 'e' by { assert a[|a| - 1] == 'e'; }
    assert ToLower(w)[|w| - 1] == 'k' by { assert w[|w| - 1] == 'k'; }
    assert ".apk"[3] == 'k' && ".exe"[3] == 'e';
  }

  // ------------------------------------------------------- backup choice

  /** Inserts `x` into a list sorted by the string order. */
  function InsertString(s: seq<string>, x: string): (r: seq<string>)
    ensures multiset(r) == multiset(s) + multiset{x}
    ensures |r| == |s| + 1
  {
    if |s| == 0 then [x]
    else
      assert s == [s[0]] + s[1..];
      if LexLess(s[0], x) || s[0] == x then [s[0]] + InsertString(s[1..], x)
      else [x] + s
  }

  /** Ascending in the string order (equal strings side by side). */
  predicate SortedStrings(s: seq<string>) {
    forall i, j :: 0 <= i < j < |s| ==> s[i] == s[j] || LexLess(s[i], s[j])
  }

  lemma {:induction false} InsertStringSorted(s: seq<string>, x: string)
    requires SortedStrings(s)
    ensures SortedStrings(InsertString(s, x))
    decreases |s|
  {
    if |s| > 0 {
      if LexLess(s[0], x) || s[0] == x {
        StringsTail(s);
        InsertStringSorted(s[1..], x);
        var t := InsertString(s[1..], x);
        assert forall k :: 0 <= k < |s[1..]| ==> s[0] == s[1..][k] || LexLess(s[0], s[1..][k]) by {
          forall k | 0 <= k < |s[1..]| ensures s[0] == s[1..][k] || LexLess(s[0], s[1..][k]) {
            assert s[1..][k] == s[k + 1];
          }
        }
        StringBound(s[0], s[1..], x, t);
        StringsCons(s[0], t);
        assert InsertString(s, x) == [s[0]] + t;
      } else {
        LexLessTotal(s[0], x);
        forall j | 0 <= j < |s| ensures x == s[j] || LexLess(x, s[j]) {
          if j > 0 && s[0] != s[j] {
            LexLessTransitive(x, s[0], s[j]);
          }
        }
        StringsCons(x, s);
        assert InsertString(s, x) == [x] + s;
      }
    }
  }

  lemma StringsTail(s: seq<string>)
    requires SortedStrings(s) && |s| > 0
    ensures SortedStrings(s[1..])
  {
    forall i, j | 0 <= i < j < |s| - 1 ensures s[1..][i] == s[1..][j] || LexLess(s[1..][i], s[1..][j]) {
      assert s[1..][i] == s[i + 1] && s[1..][j] == s[j + 1];
    }
  }

  lemma StringsCons(h: string, t: seq<string>)
    requires SortedStrings(t)
    requires forall j :: 0 <= j < |t| ==> h == t[j] || LexLess(h, t[j])
    ensures SortedStrings([h] + t)
  {
    var s := [h] + t;
    forall i, j | 0 <= i < j < |s| ensures s[i] == s[j] || LexLess(s[i], s[j]) {
      assert s[j] == t[j - 1];
      if i > 0 {
        assert s[i] == t[i - 1];
      }
    }
  }

  /** A lower bound of every member of `s` and of `x` bounds every member
      of a list holding exactly those. */
  lemma StringBound(h: string, s: seq<string>, x: string, t: seq<string>)
    requires forall k :: 0 <= k < |s| ==> h == s[k] || LexLess(h, s[k])
    requires h == x || LexLess(h, x)
    requires multiset(t) == multiset(s) + multiset{x}
    ensures forall j :: 0 <= j < |t| ==> h == t[j] || LexLess(h, t[j])
  {
    forall j | 0 <= j < |t| ensures h == t[j] || LexLess(h, t[j]) {
      assert t[j] in multiset(t);
      if t[j] != x {
        assert t[j] in multiset(s);
        var k :| 0 <= k < |s| && s[k] == t[j];
      }
    }
  }

  /** `Array.prototype.sort()` without a comparator, on strings. */
  function SortStrings(s: seq<string>): (r: seq<string>)
    ensures multiset(r) == multiset(s) && |r| == |s|
  {
    if |s| == 0 then []
    else
      assert s == s[..|s| - 1] + [s[|s| - 1]];
      InsertString(SortStrings(s[..|s| - 1]), s[|s| - 1])
  }

  lemma {:induction false} SortStringsSorted(s: seq<string>)
    ensures SortedStrings(SortStrings(s))
    decreases |s|
  {
    if |s| > 0 {
      SortStringsSorted(s[..|s| - 1]);
      InsertStringSorted(SortStrings(s[..|s| - 1]), s[|s| - 1]);
    }
  }

  /** `backupFolders.sort().reverse()[0]`: the last folder after sorting. */
  function LatestBackup(folders: seq<string>): (r: string)
    requires |folders| > 0
    ensures r in folders
    ensures forall x :: x in folders ==> x == r || LexLess(x, r)
  {
    var sorted := SortStrings(folders);
    SortStringsSorted(folders);
    assert sorted[|sorted| - 1] in multiset(folders);
    forall x | x in folders ensures x == sorted[|sorted| - 1] || LexLess(x, sorted[|sorted| - 1]) {
      assert x in multiset(sorted);
      var k :| 0 <= k < |sorted| && sorted[k] == x;
    }
    sorted[|sorted| - 1]
  }

  /** The latest backup is the one the string order ranks highest. */
  lemma LatestBackupIsMax(folders: seq<string>)
    requires |folders| > 0
    ensures LatestBackup(folders) == MaxLex(folders)
  {
    var a, b := LatestBackup(folders), MaxLex(folders);
    if a != b {
      assert LexLess(a, b) && LexLess(b, a);
      LexLessTransitive(a, b, a);
      LexLessIrreflexive(a);
    }
  }

  /** The folder `restoreUserData` restores from: the given backup path,
      or else the latest folder under `backups/` of the documents directory;
      `None` where the method returns false before restoring. */
  function RestorePath(documentsDir: Option<string>, backupPath: Option<string>, backupsExist: bool, folders: seq<string>): (r: Option<string>)
    ensures documentsDir.None? || documentsDir.value == "" ==> r.None?
    ensures r.Some? && (backupPath.None? || backupPath.value == "") ==>
      exists f :: f in folders && r.value == documentsDir.value + "backups/" + f + "/"
    ensures documentsDir.Some? && documentsDir.value != "" && backupPath.Some? && backupPath.value != "" ==>
      r == backupPath
    ensures documentsDir.Some? && documentsDir.value != "" && (backupPath.None? || backupPath.value == "") ==>
      r == if !backupsExist || |folders| == 0 then None
           else Some(documentsDir.value + "backups/" + MaxLex(folders) + "/")
  {
    if documentsDir.None? || documentsDir.value == "" then None
    else if backupPath.Some? && backupPath.value != "" then backupPath
    else if !backupsExist || |folders| == 0 then None
    else
      LatestBackupIsMax(folders);
      Some(documentsDir.value + "backups/" + LatestBackup(folders) + "/")
  }

  // ------------------------------------------------------------- cleanup

  /** `filePath.substring(0, filePath.lastIndexOf('/') + 1)`: the path up to
      and including its last `/`, or `""` without one. */
  function BasePath(filePath: string): (r: string)
    ensures StartsWith(filePath, r)
    ensures '/' !in filePath[|r|..]
    ensures r == "" || r[|r| - 1] == '/'
  {
    var cut := LastIndexOf(filePath, '/') + 1;
    assert forall k :: cut <= k < |filePath| ==> filePath[cut..][k - cut] == filePath[k];
    filePath[..cut]
  }

  /** The files `cleanupUpdateFiles` deletes. */
  function CleanupFiles(filePath: string): seq<string> {
    [filePath, BasePath(filePath) + "version.txt"]
  }

  /** For a package inside a directory, the cleanup removes the package and
      the `version.txt` beside it. */
  lemma {:induction false} CleanupBesidePackage(dir: string, name: string)
    requires '/' !in name
    requires dir == "" || dir[|dir| - 1] == '/'
    ensures BasePath(dir + name) == dir
    ensures CleanupFiles(dir + name) == [dir + name, dir + "version.txt"]
  {
    var p := dir + name;
    forall k | |dir| <= k < |p| ensures p[k] != '/' {
      assert p[k] == name[k - |dir|];
    }
    var i := LastIndexOf(p, '/');
    if dir == "" {
      assert p == name;
    } else {
      assert p[|dir| - 1] == '/';
    }
    assert i == |dir| - 1;
    assert BasePath(p) == p[..|dir|] == dir;
  }
}
