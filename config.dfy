/**
 * Persistent preferences: their defaults, the most-recently-used file list,
 * and the rule that chooses which layout backups to delete. Paths are strings;
 * file-system access, serialisation and clocks are left out.
 */
module Config {
  import opened Wrappers
  import opened Text
  import opened Layout

  /** The settings of the last successful print; a time is seconds since the epoch. */
  datatype LastPrintSettings = LastPrintSettings(
    printerName: Option<string>,
    paperSize: Option<PaperSize>,
    paperType: Option<PaperType>,
    printQuality: Option<PrintQuality>,
    colorMode: Option<ColorMode>,
    orientation: Option<Orientation>,
    borderless: Option<bool>,
    copies: Option<nat>,
    margins: Option<(real, real, real, real)>,
    lastSuccessTime: Option<int>)

  datatype UserPreferences = UserPreferences(
    lastPrinter: Option<string>,
    defaultPaperSize: PaperSize,
    defaultPaperType: PaperType,
    defaultMargins: (real, real, real, real),
    lastOpenDirectory: Option<string>,
    zoomLevel: real,
    windowSize: (nat, nat),
    windowPosition: Option<(int, int)>,
    recentFiles: seq<string>,
    autoSaveEnabled: bool,
    autoSaveIntervalSeconds: nat,
    showDpiWarnings: bool,
    snapToGrid: bool,
    gridSizeMm: real,
    lastPrintSettings: LastPrintSettings)

  /** `LastPrintSettings::default`: nothing recorded. */
  const NoPrintSettings: LastPrintSettings :=
    LastPrintSettings(None, None, None, None, None, None, None, None, None, None)

  /** `UserPreferences::default`. */
  function DefaultPreferences(): (r: UserPreferences)
    ensures r.defaultMargins == (DefaultMarginMm, DefaultMarginMm, DefaultMarginMm, DefaultMarginMm)
    ensures r.defaultPaperSize == A4 && r.defaultPaperType == Plain
    ensures r.zoomLevel == 1.0 && r.gridSizeMm == 10.0
    ensures r.autoSaveEnabled && r.autoSaveIntervalSeconds == 300
    ensures r.recentFiles == [] && r.lastPrinter.None? && r.lastPrintSettings == NoPrintSettings
  {
    UserPreferences(
      None, A4, Plain, (25.4, 25.4, 25.4, 25.4), None, 1.0, (1200, 800), None, [],
      true, 300, true, false, 10.0, NoPrintSettings)
  }

  /** The default margins are those of a new page, and the default paper gives the A4 page. */
  lemma DefaultPreferencesMatchNewPage()
    ensures var p := NewPage(DefaultPreferences().defaultPaperSize);
            DefaultPreferences().defaultMargins == (p.marginTopMm, p.marginBottomMm, p.marginLeftMm, p.marginRightMm)
    ensures (NewPage(DefaultPreferences().defaultPaperSize).widthMm, NewPage(DefaultPreferences().defaultPaperSize).heightMm)
            == (210.0, 297.0)
  {
  }

  // ---------------------------------------------------------------------------
  // Recent files

  /** The most-recently-used list holds at most this many paths. */
  const MaxRecentFiles: nat := 10

  /** `list` without any occurrence of `path`, in order (what `retain` keeps). */
  function Without(list: seq<string>, path: string): (r: seq<string>)
    ensures path !in r
    ensures |r| <= |list|
    ensures forall x :: x in r <==> x in list && x != path
    ensures path !in list ==> r == list
  {
    if |list| == 0 then []
    else
      var rest := Without(list[1..], path);
      assert list == [list[0]] + list[1..];
      if list[0] == path then rest else [list[0]] + rest
  }

  /** The list after `add_recent_file`: `path` first, then the others in order, cut to ten entries. */
  function AddedRecent(list: seq<string>, path: string): (r: seq<string>)
    ensures forall x :: x in r ==> x == path || x in list
    ensures |list| < MaxRecentFiles ==> forall x :: x in list ==> x in r
  {
    var others := Without(list, path);
    var r := ([path] + others)[..if 1 + |others| < MaxRecentFiles then 1 + |others| else MaxRecentFiles];
    assert |list| < MaxRecentFiles ==> r == [path] + others;
    r
  }

  predicate NoDuplicates(list: seq<string>) {
    forall i, j :: 0 <= i < j < |list| ==> list[i] != list[j]
  }

  lemma {:induction false} WithoutKeepsNoDuplicates(list: seq<string>, path: string)
    requires NoDuplicates(list)
    ensures NoDuplicates(Without(list, path))
    decreases |list|
  {
    if |list| > 0 {
      assert NoDuplicates(list[1..]);
      WithoutKeepsNoDuplicates(list[1..], path);
      assert list[0] !in list[1..];
    }
  }

  /**
   * `ConfigManager::add_recent_file` on the preferences: drop every copy of
   * `path`, put it at the front, keep the first ten.
   */
  method AddRecentFile(prefs: UserPreferences, path: string) returns (updated: UserPreferences)
    ensures updated == prefs.(recentFiles := AddedRecent(prefs.recentFiles, path))
  {
    var kept := RetainOthers(prefs.recentFiles, path);
    var recent := [path] + kept;
    if |recent| > MaxRecentFiles {
      recent := recent[..MaxRecentFiles];
    } else {
      assert recent[..|recent|] == recent;
    }
    updated := prefs.(recentFiles := recent);
  }

  /** The `retain` loop of `add_recent_file`: every entry other than `path`, in order. */
  method RetainOthers(list: seq<string>, path: string) returns (kept: seq<string>)
    ensures kept == Without(list, path)
  {
    kept := [];
    var i := 0;
    while i < |list|
      invariant 0 <= i <= |list|
      invariant kept == Without(list[..i], path)
    {
      WithoutSnoc(list, i, path);
      if list[i] != path {
        kept := kept + [list[i]];
      }
      i := i + 1;
    }
    assert list[..|list|] == list;
  }

  lemma {:induction false} WithoutSnoc(list: seq<string>, i: nat, path: string)
    requires i < |list|
    ensures Without(list[..i + 1], path) == Without(list[..i], path) + (if list[i] != path then [list[i]] else [])
    decreases i
  {
    var a := list[..i + 1];
    if i > 0 {
      assert a[1..] == list[1..][..i];
      assert list[..i][1..] == list[1..][..i - 1];
      WithoutSnoc(list[1..], i - 1, path);
    } else {
      assert a[1..] == [];
    }
  }

  /** The added path comes first, the list never exceeds ten entries, and the path occurs once. */
  lemma AddedRecentShape(list: seq<string>, path: string)
    ensures var r := AddedRecent(list, path);
            && |r| >= 1 && r[0] == path
            && |r| <= MaxRecentFiles
            && multiset(r)[path] == 1
  {
    var others := Without(list, path);
    var r := AddedRecent(list, path);
    assert r == [path] + r[1..];
    assert path !in r[1..] by {
      assert forall k :: 1 <= k < |r| ==> r[k] == others[k - 1];
    }
    assert multiset(r) == multiset{path} + multiset(r[1..]);
  }

  /** The other entries keep their order: the remainder is the first up-to-nine entries of the old list without the path. */
  lemma AddedRecentKeepsOrder(list: seq<string>, path: string)
    ensures var others := Without(list, path);
            var r := AddedRecent(list, path);
            && |r| == 1 + (if |others| < MaxRecentFiles - 1 then |others| else MaxRecentFiles - 1)
            && r[1..] == others[..|r| - 1]
  {
  }

  /** A list without duplicates stays without duplicates. */
  lemma AddedRecentKeepsNoDuplicates(list: seq<string>, path: string)
    requires NoDuplicates(list)
    ensures NoDuplicates(AddedRecent(list, path))
  {
    var others := Without(list, path);
    WithoutKeepsNoDuplicates(list, path);
    var r := AddedRecent(list, path);
    assert forall k :: 1 <= k < |r| ==> r[k] == others[k - 1];
  }

  /** Adding the same path a second time changes nothing. */
  lemma AddedRecentIdempotent(list: seq<string>, path: string)
    ensures AddedRecent(AddedRecent(list, path), path) == AddedRecent(list, path)
  {
    var r := AddedRecent(list, path);
    var others := Without(list, path);
    assert r == [path] + r[1..];
    assert path !in r[1..] by {
      assert forall k :: 1 <= k < |r| ==> r[k] == others[k - 1];
    }
    WithoutHead(path, r[1..]);
  }

  lemma WithoutHead(path: string, rest: seq<string>)
    requires path !in rest
    ensures Without([path] + rest, path) == rest
  {
    assert ([path] + rest)[1..] == rest;
  }

  // ---------------------------------------------------------------------------
  // Backups

  /** A directory entry of the backup directory: its name and, if readable, its modification time. */
  datatype BackupEntry = BackupEntry(name: string, modified: Option<int>)

  /** The length of the `%Y%m%d_%H%M%S` timestamp in a backup name. */
  const TimestampLength: nat := 15

  /** `create_backup`'s name for a backup of a layout with this file stem. */
  function BackupName(stem: string, timestamp: string): string {
    stem + "_backup_" + timestamp + ".pxl"
  }

  /** The filter as written: the name starts with the stem and ends with ".pxl". */
  predicate IsBackupOfAsWritten(name: string, stem: string) {
    StartsWith(name, stem) && EndsWith(name, ".pxl")
  }

  /** A name `create_backup` gives a backup of this stem: stem, "_backup_", a timestamp, ".pxl". */
  predicate IsBackupOf(name: string, stem: string) {
    |name| == |stem| + 8 + TimestampLength + 4 && StartsWith(name, stem + "_backup_") && EndsWith(name, ".pxl")
  }

  /** Every backup `create_backup` makes is recognised by both filters. */
  lemma BackupNamesAreRecognised(stem: string, timestamp: string)
    requires |timestamp| == TimestampLength
    ensures IsBackupOf(BackupName(stem, timestamp), stem)
    ensures IsBackupOfAsWritten(BackupName(stem, timestamp), stem)
  {
    var name := BackupName(stem, timestamp);
    assert name[..|stem|] == stem;
    assert name[..|stem| + 8] == stem + "_backup_";
    assert name[|name| - 4..] == ".pxl";
  }

  /** With the exact filter a backup belongs to one stem only. */
  lemma BackupNameDeterminesStem(name: string, stem1: string, stem2: string)
    requires IsBackupOf(name, stem1) && IsBackupOf(name, stem2)
    ensures stem1 == stem2
  {
    assert name[..|stem1| + 8][..|stem1|] == stem1;
    assert name[..|stem2| + 8][..|stem2|] == stem2;
  }

  /**
   * The filter as written also takes the backups of a longer stem that
   * starts with this one: a backup of "photo_album" is taken for "photo".
   */
  lemma AsWrittenFilterTakesOtherLayoutsBackups()
    ensures var name := BackupName("photo_album", "20240101_120000");
            && IsBackupOfAsWritten(name, "photo")
            && IsBackupOf(name, "photo_album")
            && !IsBackupOf(name, "photo")
  {
    var name := BackupName("photo_album", "20240101_120000");
    BackupNamesAreRecognised("photo_album", "20240101_120000");
    assert name[..5] == "photo";
    assert name[..13] != "photo_backup_" by {
      assert name[5..13] == "_album_b";
    }
  }

  /**
   * Which directory entries a cleanup takes as backups of the layout:
   * `StemAndExtension` is the test `cleanup_old_backups` applies, and
   * `ExactBackupName` takes only the names `create_backup` gives that layout.
   */
  datatype BackupFilter = StemAndExtension | ExactBackupName

  predicate Accepts(filter: BackupFilter, name: string, stem: string) {
    match filter
    case StemAndExtension => IsBackupOfAsWritten(name, stem)
    case ExactBackupName => IsBackupOf(name, stem)
  }

  /** The exact filter takes no name that the written one refuses. */
  lemma ExactFilterIsNarrower(name: string, stem: string)
    requires IsBackupOf(name, stem)
    ensures IsBackupOfAsWritten(name, stem)
  {
    assert name[..|stem|] == name[..|stem| + 8][..|stem|];
    assert (stem + "_backup_")[..|stem|] == stem;
  }

  /** Modification-time order: an unreadable time sorts before every known one. */
  predicate ModifiedLe(a: Option<int>, b: Option<int>) {
    a.None? || (b.Some? && a.value <= b.value)
  }

  predicate SortedByModified(s: seq<BackupEntry>) {
    forall i, j :: 0 <= i < j < |s| ==> ModifiedLe(s[i].modified, s[j].modified)
  }

  predicate NewestFirst(s: seq<BackupEntry>) {
    forall i, j :: 0 <= i < j < |s| ==> ModifiedLe(s[j].modified, s[i].modified)
  }

  /** Places `e` before the first entry that is not older than it. */
  function InsertByModified(e: BackupEntry, s: seq<BackupEntry>): (r: seq<BackupEntry>)
    ensures multiset(r) == multiset(s) + multiset{e}
  {
    if |s| == 0 || ModifiedLe(e.modified, s[0].modified) then [e] + s
    else
      assert s == [s[0]] + s[1..];
      [s[0]] + InsertByModified(e, s[1..])
  }

  lemma {:induction false} InsertKeepsSorted(e: BackupEntry, s: seq<BackupEntry>)
    requires SortedByModified(s)
    ensures SortedByModified(InsertByModified(e, s))
    decreases |s|
  {
    if |s| > 0 && !ModifiedLe(e.modified, s[0].modified) {
      var rest := InsertByModified(e, s[1..]);
      InsertKeepsSorted(e, s[1..]);
      assert s == [s[0]] + s[1..];
      forall x | x in rest
        ensures ModifiedLe(s[0].modified, x.modified)
      {
        assert x in multiset(rest);
      }
    }
  }

  /** `sort_by_key` on the modification time: oldest first, with no modification time before any. */
  function SortByModified(s: seq<BackupEntry>): (r: seq<BackupEntry>)
    ensures SortedByModified(r)
    ensures multiset(r) == multiset(s)
  {
    if |s| == 0 then []
    else
      assert s == [s[0]] + s[1..];
      var rest := SortByModified(s[1..]);
      InsertKeepsSorted(s[0], rest);
      InsertByModified(s[0], rest)
  }

  function Reverse<T>(s: seq<T>): (r: seq<T>)
    ensures |r| == |s|
    ensures forall i :: 0 <= i < |s| ==> r[i] == s[|s| - 1 - i]
  {
    if |s| == 0 then [] else Reverse(s[1..]) + [s[0]]
  }

  lemma ReverseSortedIsNewestFirst(s: seq<BackupEntry>)
    requires SortedByModified(s)
    ensures NewestFirst(Reverse(s))
  {
  }

  lemma ReversePreservesMultiset(s: seq<BackupEntry>)
    ensures multiset(Reverse(s)) == multiset(s)
  {
    if |s| > 0 {
      ReversePreservesMultiset(s[1..]);
      assert s == [s[0]] + s[1..];
    }
  }

  /** How many of the newest backups are kept. */
  const KeptBackups: nat := 5

  /** The matching backups, newest first. */
  function NewestBackups(entries: seq<BackupEntry>, stem: string, filter: BackupFilter): (r: seq<BackupEntry>)
    ensures NewestFirst(r)
    ensures multiset(r) == multiset(MatchingBackups(entries, stem, filter))
  {
    var sorted := SortByModified(MatchingBackups(entries, stem, filter));
    ReverseSortedIsNewestFirst(sorted);
    ReversePreservesMultiset(sorted);
    Reverse(sorted)
  }

  /** The entries the filter accepts, in directory order. */
  function MatchingBackups(entries: seq<BackupEntry>, stem: string, filter: BackupFilter): (r: seq<BackupEntry>)
    ensures forall e :: e in r ==> e in entries && Accepts(filter, e.name, stem)
    ensures forall e :: e in entries && Accepts(filter, e.name, stem) ==> e in r
  {
    if |entries| == 0 then []
    else
      var rest := MatchingBackups(entries[1..], stem, filter);
      assert entries == [entries[0]] + entries[1..];
      if Accepts(filter, entries[0].name, stem) then [entries[0]] + rest else rest
  }

  /** Filtering distributes over concatenation of listings. */
  lemma {:induction false} MatchingBackupsAppend(a: seq<BackupEntry>, b: seq<BackupEntry>, stem: string, filter: BackupFilter)
    ensures MatchingBackups(a + b, stem, filter) == MatchingBackups(a, stem, filter) + MatchingBackups(b, stem, filter)
    decreases |a|
  {
    if |a| == 0 {
      assert a + b == b;
    } else {
      assert (a + b)[0] == a[0];
      assert (a + b)[1..] == a[1..] + b;
      MatchingBackupsAppend(a[1..], b, stem, filter);
    }
  }

  lemma MatchingBackupsSnoc(entries: seq<BackupEntry>, i: nat, stem: string, filter: BackupFilter)
    requires i < |entries|
    ensures MatchingBackups(entries[..i + 1], stem, filter)
            == MatchingBackups(entries[..i], stem, filter) + (if Accepts(filter, entries[i].name, stem) then [entries[i]] else [])
  {
    assert entries[..i + 1] == entries[..i] + [entries[i]];
    MatchingBackupsAppend(entries[..i], [entries[i]], stem, filter);
    assert [entries[i]][1..] == [];
  }

  /**
   * The selection rule of `cleanup_old_backups`: of the entries the filter
   * accepts, sorted newest first, every one after the fifth is to be removed.
   * The entries are the directory listing, in its order; the program applies
   * `StemAndExtension`.
   */
  method BackupsToRemove(entries: seq<BackupEntry>, stem: string, filter: BackupFilter) returns (toRemove: seq<BackupEntry>)
    ensures toRemove == Removed(entries, stem, filter)
  {
    var backups := CollectBackups(entries, stem, filter);
    var newest := Reverse(SortByModified(backups));
    assert newest == NewestBackups(entries, stem, filter);
    toRemove := Skip(newest, KeptBackups);
  }

  /** The elements after the first `n`, collected one at a time (`iter().skip(n)`). */
  method Skip<T>(s: seq<T>, n: nat) returns (r: seq<T>)
    ensures r == if |s| <= n then [] else s[n..]
  {
    r := [];
    if |s| > n {
      var k := n;
      while k < |s|
        invariant n <= k <= |s|
        invariant r == s[n..k]
      {
        r := r + [s[k]];
        k := k + 1;
      }
      assert s[n..|s|] == s[n..];
    }
  }

  /** The filtering loop of `cleanup_old_backups`: the accepted entries, in directory order. */
  method CollectBackups(entries: seq<BackupEntry>, stem: string, filter: BackupFilter) returns (backups: seq<BackupEntry>)
    ensures backups == MatchingBackups(entries, stem, filter)
  {
    backups := [];
    var i := 0;
    while i < |entries|
      invariant 0 <= i <= |entries|
      invariant backups == MatchingBackups(entries[..i], stem, filter)
    {
      MatchingBackupsSnoc(entries, i, stem, filter);
      if Accepts(filter, entries[i].name, stem) {
        backups := backups + [entries[i]];
      }
      i := i + 1;
    }
    assert entries[..|entries|] == entries;
  }

  /** The backups a cleanup deletes: all matches beyond the five newest. */
  function Removed(entries: seq<BackupEntry>, stem: string, filter: BackupFilter): (r: seq<BackupEntry>)
    ensures var n := |MatchingBackups(entries, stem, filter)|;
            |r| == if n <= KeptBackups then 0 else n - KeptBackups
  {
    var newest := NewestBackups(entries, stem, filter);
    assert |newest| == |multiset(newest)|;
    if |newest| <= KeptBackups then [] else newest[KeptBackups..]
  }

  /** The backups a cleanup leaves: the five newest matches, or all of them when there are fewer. */
  function Kept(entries: seq<BackupEntry>, stem: string, filter: BackupFilter): (r: seq<BackupEntry>)
    ensures var n := |MatchingBackups(entries, stem, filter)|;
            |r| == if n <= KeptBackups then n else KeptBackups
  {
    var newest := NewestBackups(entries, stem, filter);
    assert |newest| == |multiset(newest)|;
    if |newest| <= KeptBackups then newest else newest[..KeptBackups]
  }

  /**
   * Retention: kept and removed together are exactly the matching backups;
   * no removed backup is newer than a kept one; only entries the filter
   * accepts are removed.
   */
  lemma RetentionKeepsTheFiveNewest(entries: seq<BackupEntry>, stem: string, filter: BackupFilter)
    ensures |Kept(entries, stem, filter)| <= KeptBackups
    ensures multiset(Kept(entries, stem, filter)) + multiset(Removed(entries, stem, filter))
            == multiset(MatchingBackups(entries, stem, filter))
    ensures forall d, k :: d in Removed(entries, stem, filter) && k in Kept(entries, stem, filter) ==>
              ModifiedLe(d.modified, k.modified)
    ensures forall d :: d in Removed(entries, stem, filter) ==> d in entries && Accepts(filter, d.name, stem)
  {
    var newest := NewestBackups(entries, stem, filter);
    if |newest| > KeptBackups {
      NewestSplit(newest, KeptBackups);
      forall d | d in newest[KeptBackups..]
        ensures d in entries && Accepts(filter, d.name, stem)
      {
        assert d in multiset(newest);
      }
    }
  }

  /** When more than five entries match, a match older than every other entry is removed. */
  lemma OldestMatchIsRemoved(entries: seq<BackupEntry>, stem: string, filter: BackupFilter, e: BackupEntry)
    requires e in entries && Accepts(filter, e.name, stem)
    requires forall x :: x in entries && x != e ==> !ModifiedLe(x.modified, e.modified)
    requires |MatchingBackups(entries, stem, filter)| > KeptBackups
    ensures e in Removed(entries, stem, filter)
  {
    RetentionKeepsTheFiveNewest(entries, stem, filter);
    var removed := Removed(entries, stem, filter);
    assert e in multiset(MatchingBackups(entries, stem, filter));
    assert e in multiset(Kept(entries, stem, filter)) || e in multiset(removed);
    assert removed[0] in removed;
  }

  /**
   * As written, cleaning up the backups of "photo" deletes a backup of
   * "photo_album" once it is the oldest of more than five matches.
   */
  lemma AsWrittenCleanupRemovesOtherLayoutsBackup(entries: seq<BackupEntry>, e: BackupEntry)
    requires e in entries && e.name == BackupName("photo_album", "20240101_120000")
    requires forall x :: x in entries && x != e ==> !ModifiedLe(x.modified, e.modified)
    requires |MatchingBackups(entries, "photo", StemAndExtension)| > KeptBackups
    ensures e in Removed(entries, "photo", StemAndExtension)
    ensures IsBackupOf(e.name, "photo_album") && !IsBackupOf(e.name, "photo")
  {
    AsWrittenFilterTakesOtherLayoutsBackups();
    OldestMatchIsRemoved(entries, "photo", StemAndExtension, e);
  }

  /** With the exact filter a cleanup never deletes a backup of another layout. */
  lemma ExactCleanupSparesOtherLayouts(entries: seq<BackupEntry>, stem: string, other: string)
    requires other != stem
    ensures forall d :: d in Removed(entries, stem, ExactBackupName) ==> !IsBackupOf(d.name, other)
  {
    RetentionKeepsTheFiveNewest(entries, stem, ExactBackupName);
    forall d | d in Removed(entries, stem, ExactBackupName)
      ensures !IsBackupOf(d.name, other)
    {
      if IsBackupOf(d.name, other) {
        BackupNameDeterminesStem(d.name, stem, other);
      }
    }
  }

  /** Cutting a newest-first list leaves nothing in the tail newer than anything in the head. */
  lemma NewestSplit(newest: seq<BackupEntry>, n: nat)
    requires NewestFirst(newest) && n <= |newest|
    ensures newest == newest[..n] + newest[n..]
    ensures multiset(newest) == multiset(newest[..n]) + multiset(newest[n..])
    ensures forall d, k :: d in newest[n..] && k in newest[..n] ==> ModifiedLe(d.modified, k.modified)
  {
    assert newest == newest[..n] + newest[n..];
    forall d, k | d in newest[n..] && k in newest[..n]
      ensures ModifiedLe(d.modified, k.modified)
    {
      var a :| n <= a < |newest| && newest[a] == d;
      var b :| 0 <= b < n && newest[b] == k;
    }
  }
}
