/** `ListUserFilesWithDetails` of storage/minio.go: the same scan as
    `ListUserFiles`, accumulating folder records (item count, latest
    modification), the files' total size with int64 wrap-around, the latest
    file modification and the human-readable size label. */
module StorageDetails {
  import opened GoStrings
  import opened Results
  import opened StorageTypes
  import opened StorageKeys
  import opened StorageSize
  import opened StorageListing

  // ---------------------------------------------------------------------
  // Reference definitions

  /** The record created for a folder the first time a record names it:
      a folder with no items yet, stamped with that record's time. */
  function NewFolder(n: string, t: Time): (f: FolderInfo)
    ensures f.name == n && f.kind == "folder" && f.itemCount == 0 && f.lastModified == t
  {
    FolderInfo(n, "folder", 0, t)
  }

  /** One record's effect on the folder map: a record naming folder `n`
      creates it when absent, stamped with the record's time; a record that
      counts for `n` (a nested, non-marker record) also bumps the count and
      moves the time forward when it is later. No other folder changes. */
  function AddEntry(m: map<string, FolderInfo>, prefix: string, e: ListEntry): (r: map<string, FolderInfo>)
    ensures FolderOf(prefix, e).None? ==> r == m
    ensures FolderOf(prefix, e).Some? ==>
              var n := FolderOf(prefix, e).value;
              && r.Keys == m.Keys + {n}
              && (forall k :: k in m && k != n ==> r[k] == m[k])
              && (n in m && !CountsFor(prefix, e, n) ==> r[n] == m[n])
  {
    match FolderOf(prefix, e)
    case None => m
    case Some(n) =>
      var f := if n in m then m[n] else NewFolder(n, e.info.lastModified);
      if CountsFor(prefix, e, n) then m[n := Bump(f, e.info.lastModified)] else m[n := f]
  }

  /** One more item in a folder, with the folder's time moved to `t` when
      `t` is later: the time becomes the larger of the two. */
  function Bump(f: FolderInfo, t: Time): (r: FolderInfo)
    ensures r.name == f.name && r.kind == f.kind && r.itemCount == f.itemCount + 1
    ensures r.lastModified >= f.lastModified && r.lastModified >= t
    ensures r.lastModified == f.lastModified || r.lastModified == t
  {
    f.(itemCount := f.itemCount + 1, lastModified := if After(t, f.lastModified) then t else f.lastModified)
  }

  /** The folder map after a scan: every record is a folder filed under
      its own name. */
  function FolderMapOf(prefix: string, entries: seq<ListEntry>): (r: map<string, FolderInfo>)
    ensures forall n :: n in r ==> r[n].name == n && r[n].kind == "folder"
    decreases |entries|
  {
    if entries == [] then map[]
    else AddEntry(FolderMapOf(prefix, entries[..|entries| - 1]), prefix, entries[|entries| - 1])
  }

  /** The times of the records naming folder `n`, in scan order; the first
      is the time of the record that created the folder. */
  function NamingTimes(prefix: string, entries: seq<ListEntry>, n: string): seq<Time> {
    Gather(NamingTime(prefix, n), entries)
  }

  function NamingTime(prefix: string, n: string): ListEntry -> Option<Time> {
    (x: ListEntry) => if x.Object? && Names(prefix, x, n) then Some(x.info.lastModified) else None
  }

  /** The times of the records counting as items of folder `n`. */
  function CountTimes(prefix: string, entries: seq<ListEntry>, n: string): set<Time> {
    Collect(CountTime(prefix, n), entries)
  }

  function CountTime(prefix: string, n: string): ListEntry -> Option<Time> {
    (x: ListEntry) => if CountsFor(prefix, x, n) then Some(x.info.lastModified) else None
  }

  /** The latest modification time over the files, starting from the zero
      time and moving only on a strictly later time. */
  function Latest(files: seq<FileInfo>): (r: Time)
    ensures r >= ZeroTime
    ensures files == [] ==> r == ZeroTime
    decreases |files|
  {
    if files == [] then ZeroTime
    else
      var l := Latest(files[..|files| - 1]);
      var t := files[|files| - 1].lastModified;
      if After(t, l) then t else l
  }

  // ---------------------------------------------------------------------
  // Properties of the reference definitions

  lemma SplitLast<T>(s: seq<T>)
    requires s != []
    ensures s == s[..|s| - 1] + [s[|s| - 1]]
  {
  }

  /** One more entry extends the generic scans by that entry's part. */
  lemma ScanStep<T>(f: ListEntry -> Option<T>, s: seq<ListEntry>, e: ListEntry)
    ensures Gather(f, s + [e]) == Gather(f, s) + (if f(e).Some? then [f(e).value] else [])
    ensures Collect(f, s + [e]) == Collect(f, s) + (if f(e).Some? then {f(e).value} else {})
  {
    assert (s + [e])[..|s|] == s && (s + [e])[|s|] == e;
  }

  lemma FolderMapStep(prefix: string, s: seq<ListEntry>, e: ListEntry)
    ensures FolderMapOf(prefix, s + [e]) == AddEntry(FolderMapOf(prefix, s), prefix, e)
  {
    assert (s + [e])[..|s|] == s && (s + [e])[|s|] == e;
  }

  lemma FilesStep(prefix: string, s: seq<ListEntry>, e: ListEntry)
    ensures FilesOf(prefix, s + [e]) == FilesOf(prefix, s) + (if IsLeaf(prefix, e) then [FileOf(prefix, e.info)] else [])
  {
    StorageListing.Step(prefix, s, e);
  }

  /** The running int64 total after one more file is the wrapped sum. */
  lemma TotalStep(files: seq<FileInfo>, f: FileInfo, total: Int64)
    requires total == Wrap64(SumSizes(files))
    ensures Wrap64(total + f.size) == Wrap64(SumSizes(files + [f]))
  {
    SumSizesStep(files, f);
    WrapAdd(SumSizes(files), f.size);
  }

  lemma SumSizesStep(files: seq<FileInfo>, f: FileInfo)
    ensures SumSizes(files + [f]) == SumSizes(files) + f.size
  {
    assert (files + [f])[..|files|] == files;
  }

  lemma LatestStep(files: seq<FileInfo>, f: FileInfo)
    ensures Latest(files + [f]) == if After(f.lastModified, Latest(files)) then f.lastModified else Latest(files)
  {
    assert (files + [f])[..|files|] == files;
  }

  /** latestModified is the maximum of the zero time and all file times. */
  lemma {:induction false} LatestIsMax(files: seq<FileInfo>)
    ensures Latest(files) >= ZeroTime
    ensures forall k :: 0 <= k < |files| ==> Latest(files) >= files[k].lastModified
    ensures Latest(files) == ZeroTime || exists k :: 0 <= k < |files| && Latest(files) == files[k].lastModified
    decreases |files|
  {
    if files != [] {
      var init := files[..|files| - 1];
      LatestIsMax(init);
      assert forall k :: 0 <= k < |init| ==> files[k] == init[k];
    }
  }

  /** latestModified starts at the zero time, so files all stamped no
      later than the zero time leave it there. */
  lemma LatestIgnoresEarlyFiles(files: seq<FileInfo>)
    requires forall k :: 0 <= k < |files| ==> files[k].lastModified <= ZeroTime
    ensures Latest(files) == ZeroTime
  {
    LatestIsMax(files);
  }

  /** What the folder map holds for one name after a scan: the name is a
      key exactly when some record names it; its record carries the name,
      kind "folder" and the number of records counting for it; and its time
      is the latest of the creating record's time and the counting records'
      times. */
  predicate FolderRecordSpec(prefix: string, entries: seq<ListEntry>, n: string) {
    var m := FolderMapOf(prefix, entries);
    var ts := NamingTimes(prefix, entries, n);
    var cs := CountTimes(prefix, entries, n);
    && (n in m <==> n in FoldersOf(prefix, entries))
    && (n in m <==> ts != [])
    && (n !in m ==> cs == {} && ItemCount(prefix, entries, n) == 0)
    && (n in m ==>
          && m[n].name == n && m[n].kind == "folder"
          && m[n].itemCount == ItemCount(prefix, entries, n)
          && m[n].lastModified >= ts[0]
          && (forall c :: c in cs ==> m[n].lastModified >= c)
          && (m[n].lastModified == ts[0] || m[n].lastModified in cs))
  }

  lemma FolderRecordStep(prefix: string, s: seq<ListEntry>, e: ListEntry, n: string)
    requires FolderRecordSpec(prefix, s, n)
    ensures FolderRecordSpec(prefix, s + [e], n)
  {
    if Names(prefix, e, n) {
      StepNamed(prefix, s, e, n);
    } else {
      StepOther(prefix, s, e, n);
    }
  }

  /** The scans' step facts for folder `n`. */
  lemma FolderScansStep(prefix: string, s: seq<ListEntry>, e: ListEntry, n: string)
    ensures n in FoldersOf(prefix, s + [e]) <==> n in FoldersOf(prefix, s) || Names(prefix, e, n)
    ensures ItemCount(prefix, s + [e], n) == ItemCount(prefix, s, n) + (if CountsFor(prefix, e, n) then 1 else 0)
    ensures NamingTimes(prefix, s + [e], n) ==
              NamingTimes(prefix, s, n) + (if Names(prefix, e, n) then [e.info.lastModified] else [])
    ensures CountTimes(prefix, s + [e], n) ==
              CountTimes(prefix, s, n) + (if CountsFor(prefix, e, n) then {e.info.lastModified} else {})
    ensures CountsFor(prefix, e, n) ==> Names(prefix, e, n)
  {
    StorageListing.Step(prefix, s, e);
    ScanStep(NamingTime(prefix, n), s, e);
    ScanStep(CountTime(prefix, n), s, e);
  }

  lemma StepOther(prefix: string, s: seq<ListEntry>, e: ListEntry, n: string)
    requires FolderRecordSpec(prefix, s, n) && !Names(prefix, e, n)
    ensures FolderRecordSpec(prefix, s + [e], n)
  {
    FolderMapStep(prefix, s, e);
    FolderScansStep(prefix, s, e, n);
    AddEntryOther(FolderMapOf(prefix, s), prefix, e, n);
  }

  lemma StepNamed(prefix: string, s: seq<ListEntry>, e: ListEntry, n: string)
    requires FolderRecordSpec(prefix, s, n) && Names(prefix, e, n)
    ensures FolderRecordSpec(prefix, s + [e], n)
  {
    FolderMapStep(prefix, s, e);
    FolderScansStep(prefix, s, e, n);
    AddEntryNamed(FolderMapOf(prefix, s), prefix, e, n);
  }

  /** A record naming folder `n` creates it when absent and, when it counts
      for `n`, bumps the count and keeps the later time. */
  lemma AddEntryNamed(m: map<string, FolderInfo>, prefix: string, e: ListEntry, n: string)
    requires Names(prefix, e, n)
    ensures e.Object? && n in AddEntry(m, prefix, e)
    ensures var f := if n in m then m[n] else NewFolder(n, e.info.lastModified);
            AddEntry(m, prefix, e)[n] == if CountsFor(prefix, e, n) then Bump(f, e.info.lastModified) else f
  {
  }

  /** A record naming another folder (or none) leaves folder `n` alone. */
  lemma AddEntryOther(m: map<string, FolderInfo>, prefix: string, e: ListEntry, n: string)
    requires !Names(prefix, e, n)
    ensures n in AddEntry(m, prefix, e) <==> n in m
    ensures n in m ==> AddEntry(m, prefix, e)[n] == m[n]
  {
  }

  /** The folder map holds, for every name, what FolderRecordSpec says. */
  lemma {:induction false} FolderAt(prefix: string, entries: seq<ListEntry>, n: string)
    ensures FolderRecordSpec(prefix, entries, n)
    decreases |entries|
  {
    if entries != [] {
      var s, e := entries[..|entries| - 1], entries[|entries| - 1];
      SplitLast(entries);
      FolderAt(prefix, s, n);
      FolderRecordStep(prefix, s, e, n);
    } else {
      assert FolderMapOf(prefix, entries) == map[];
    }
  }

  /** The folder map's keys are the folder set of `ListUserFiles`. */
  lemma FolderMapKeys(prefix: string, entries: seq<ListEntry>)
    ensures FolderMapOf(prefix, entries).Keys == FoldersOf(prefix, entries)
  {
    forall n | true
      ensures n in FolderMapOf(prefix, entries) <==> n in FoldersOf(prefix, entries)
    {
      FolderAt(prefix, entries, n);
    }
  }

  /** Markers never count: a folder that only has its marker has zero items. */
  lemma MarkerOnlyFolder(prefix: string, o: ObjectInfo, n: string)
    requires KindOf(prefix, o) == Marker(n) && n != ""
    ensures FolderMapOf(prefix, [Object(o)]) == map[n := NewFolder(n, o.lastModified)]
  {
    FolderMapStep(prefix, [], Object(o));
    assert [] + [Object(o)] == [Object(o)];
  }

  /** What one record does to the folder map and the files, per branch of
      the loop: a marker creates its folder when absent (unless it names no
      folder) and counts nothing; a nested record creates the folder of its
      first segment when absent, bumps its count and moves its time to a
      later record time; any other record leaves the folder map alone and is
      a file exactly when its relative path is non-empty. */
  lemma EntryEffect(m: map<string, FolderInfo>, prefix: string, o: ObjectInfo)
    ensures var rel := Relative(prefix, o.key);
            HasSuffix(rel, ".keep") ==>
              var fn := TrimSuffix(rel, "/.keep");
              && AddEntry(m, prefix, Object(o)) ==
                   (if fn != "" && fn !in m then m[fn := NewFolder(fn, o.lastModified)] else m)
              && !IsLeaf(prefix, Object(o))
    ensures var rel := Relative(prefix, o.key);
            !HasSuffix(rel, ".keep") && '/' in rel ==>
              var fn := Split(rel, '/')[0];
              var f := if fn in m then m[fn] else NewFolder(fn, o.lastModified);
              && AddEntry(m, prefix, Object(o)) == m[fn := Bump(f, o.lastModified)]
              && !IsLeaf(prefix, Object(o))
    ensures var rel := Relative(prefix, o.key);
            !HasSuffix(rel, ".keep") && '/' !in rel ==>
              && AddEntry(m, prefix, Object(o)) == m
              && (IsLeaf(prefix, Object(o)) <==> rel != "")
  {
    var rel := Relative(prefix, o.key);
    if HasSuffix(rel, ".keep") {
      MarkerEffect(m, prefix, o);
    } else if '/' in rel {
      NestedEffect(m, prefix, o);
    } else {
      PlainEffect(m, prefix, o);
    }
  }

  lemma MarkerEffect(m: map<string, FolderInfo>, prefix: string, o: ObjectInfo)
    requires HasSuffix(Relative(prefix, o.key), ".keep")
    ensures var fn := TrimSuffix(Relative(prefix, o.key), "/.keep");
            && AddEntry(m, prefix, Object(o)) ==
                 (if fn != "" && fn !in m then m[fn := NewFolder(fn, o.lastModified)] else m)
            && !IsLeaf(prefix, Object(o))
  {
    var fn := TrimSuffix(Relative(prefix, o.key), "/.keep");
    if fn != "" && fn in m {
      assert m[fn := m[fn]] == m;
    }
  }

  lemma NestedEffect(m: map<string, FolderInfo>, prefix: string, o: ObjectInfo)
    requires !HasSuffix(Relative(prefix, o.key), ".keep") && '/' in Relative(prefix, o.key)
    ensures var fn := Split(Relative(prefix, o.key), '/')[0];
            var f := if fn in m then m[fn] else NewFolder(fn, o.lastModified);
            && AddEntry(m, prefix, Object(o)) == m[fn := Bump(f, o.lastModified)]
            && !IsLeaf(prefix, Object(o))
  {
  }

  lemma PlainEffect(m: map<string, FolderInfo>, prefix: string, o: ObjectInfo)
    requires !HasSuffix(Relative(prefix, o.key), ".keep") && '/' !in Relative(prefix, o.key)
    ensures AddEntry(m, prefix, Object(o)) == m
    ensures IsLeaf(prefix, Object(o)) <==> Relative(prefix, o.key) != ""
  {
  }

  // ---------------------------------------------------------------------
  // ListUserFilesWithDetails

  datatype Statistics = Statistics(
    totalFiles: int,
    totalFolders: int,
    totalSize: Int64,
    totalSizeHuman: SizeLabel,
    latestModified: Time)

  datatype DetailedListing = DetailedListing(
    path: string,
    userID: string,
    files: seq<FileInfo>,
    folders: seq<FolderInfo>,
    statistics: Statistics)

  /** The folder slice: every map value once, in Go's unspecified map
      order; `order` is the order the keys were visited in. */
  method FolderSlice(m: map<string, FolderInfo>) returns (result: seq<FolderInfo>, order: seq<string>)
    ensures Distinct(order) && |result| == |order| == |m|
    ensures forall n :: n in order <==> n in m
    ensures forall k :: 0 <= k < |result| ==> order[k] in m && result[k] == m[order[k]]
  {
    result, order := [], [];
    var rest := m.Keys;
    while rest != {}
      invariant rest <= m.Keys
      invariant Distinct(order) && |result| == |order|
      invariant forall n :: n in order <==> n in m && n !in rest
      invariant forall k :: 0 <= k < |result| ==> order[k] in m && result[k] == m[order[k]]
      invariant |order| + |rest| == |m|
      decreases rest
    {
      var n :| n in rest;
      result, order := result + [m[n]], order + [n];
      rest := rest - {n};
    }
  }

  /** The nested branch's update through the folder's pointer: create the
      record when the map has none, then count the item and keep the later
      time. */
  method CountItem(folderMap: map<string, FolderInfo>, folderName: string, t: Time)
    returns (m: map<string, FolderInfo>)
    ensures var f := if folderName in folderMap then folderMap[folderName] else NewFolder(folderName, t);
            m == folderMap[folderName := Bump(f, t)]
  {
    m := folderMap;
    if folderName !in m {
      m := m[folderName := NewFolder(folderName, t)];
    }
    var folder := m[folderName];
    folder := folder.(itemCount := folder.itemCount + 1);
    if After(t, folder.lastModified) {
      folder := folder.(lastModified := t);
    }
    m := m[folderName := folder];
  }

  /** The accumulators of the scan loop of ListUserFilesWithDetails. */
  datatype Totals = Totals(
    files: seq<FileInfo>,
    folderMap: map<string, FolderInfo>,
    totalSize: Int64,
    totalFiles: int,
    latestModified: Time)

  /** The accumulators hold the reference values for the records `seen`. */
  predicate TotalsAfter(prefix: string, seen: seq<ListEntry>, t: Totals) {
    && t.files == FilesOf(prefix, seen)
    && t.folderMap == FolderMapOf(prefix, seen)
    && t.totalSize == Wrap64(SumSizes(t.files))
    && t.totalFiles == |t.files|
    && t.latestModified == Latest(t.files)
  }

  /** The loop body of ListUserFilesWithDetails for one record: a marker
      creates its folder when absent; a nested record counts as an item of
      its first segment's folder; a file is listed and added to the
      statistics. */
  method ScanOne(prefix: string, ghost seen: seq<ListEntry>, acc: Totals, obj: ObjectInfo) returns (next: Totals)
    requires TotalsAfter(prefix, seen, acc)
    ensures TotalsAfter(prefix, seen + [Object(obj)], next)
  {
    var files, folderMap, totalSize, totalFiles, latestModified :=
      acc.files, acc.folderMap, acc.totalSize, acc.totalFiles, acc.latestModified;
    var rel := TrimPrefix(obj.key, prefix);
    if HasSuffix(rel, ".keep") {
      var folderName := TrimSuffix(rel, "/.keep");
      MarkerEffect(folderMap, prefix, obj);
      if folderName != "" {
        if folderName !in folderMap {
          folderMap := folderMap[folderName := NewFolder(folderName, obj.lastModified)];
        }
      }
      FolderStep(prefix, seen, acc, obj, folderMap);
      return Totals(files, folderMap, totalSize, totalFiles, latestModified);
    }
    if '/' in rel {
      var folderName := Split(rel, '/')[0];
      NestedEffect(folderMap, prefix, obj);
      folderMap := CountItem(folderMap, folderName, obj.lastModified);
      FolderStep(prefix, seen, acc, obj, folderMap);
    } else if rel != "" {
      PlainEffect(folderMap, prefix, obj);
      var fileInfo := FileInfo(rel, obj.size, obj.lastModified, obj.contentType);
      FileStep(prefix, seen, acc, obj);
      files := files + [fileInfo];
      totalSize := Wrap64(totalSize + obj.size);
      totalFiles := totalFiles + 1;
      if After(obj.lastModified, latestModified) {
        latestModified := obj.lastModified;
      }
    } else {
      PlainEffect(folderMap, prefix, obj);
      FolderStep(prefix, seen, acc, obj, folderMap);
    }
    next := Totals(files, folderMap, totalSize, totalFiles, latestModified);
  }

  /** A record that is not a file changes only the folder map. */
  lemma FolderStep(prefix: string, seen: seq<ListEntry>, acc: Totals, obj: ObjectInfo, m: map<string, FolderInfo>)
    requires TotalsAfter(prefix, seen, acc)
    requires !IsLeaf(prefix, Object(obj)) && m == AddEntry(acc.folderMap, prefix, Object(obj))
    ensures TotalsAfter(prefix, seen + [Object(obj)], acc.(folderMap := m))
  {
    FilesStep(prefix, seen, Object(obj));
    FolderMapStep(prefix, seen, Object(obj));
  }

  /** A file record is appended and added to the statistics. */
  lemma FileStep(prefix: string, seen: seq<ListEntry>, acc: Totals, obj: ObjectInfo)
    requires TotalsAfter(prefix, seen, acc)
    requires IsLeaf(prefix, Object(obj)) && AddEntry(acc.folderMap, prefix, Object(obj)) == acc.folderMap
    ensures var f := FileOf(prefix, obj);
            TotalsAfter(prefix, seen + [Object(obj)],
                        Totals(acc.files + [f], acc.folderMap, Wrap64(acc.totalSize + obj.size), acc.totalFiles + 1,
                               if After(obj.lastModified, acc.latestModified) then obj.lastModified else acc.latestModified))
  {
    FilesStep(prefix, seen, Object(obj));
    FolderMapStep(prefix, seen, Object(obj));
    TotalStep(acc.files, FileOf(prefix, obj), acc.totalSize);
    LatestStep(acc.files, FileOf(prefix, obj));
  }

  /** The scan loop of ListUserFilesWithDetails over the records under
      `prefix`: the first stream error aborts it; otherwise the accumulators
      end as the reference definitions over the whole scan. */
  method ScanDetails(prefix: string, entries: seq<ListEntry>) returns (res: Result<Totals, string>)
    ensures res.Failure? <==> !NoErrors(entries)
    ensures res.Failure? ==> FailsWith(entries, res.error)
    ensures res.Success? ==>
              var t := res.value;
              && t.files == FilesOf(prefix, entries)
              && t.folderMap == FolderMapOf(prefix, entries)
              && t.totalSize == Wrap64(SumSizes(t.files))
              && t.totalFiles == |t.files|
              && t.latestModified == Latest(t.files)
  {
    var acc := Totals([], map[], 0, 0, ZeroTime);
    for i := 0 to |entries|
      invariant NoErrors(entries[..i])
      invariant TotalsAfter(prefix, entries[..i], acc)
    {
      var e := entries[i];
      if e.StreamError? {
        assert FailsWith(entries, e.message);
        return Failure(e.message);
      }
      TakeOneMore(entries, i);
      assert e == Object(e.info);
      acc := ScanOne(prefix, entries[..i], acc, e.info);
    }
    assert entries[..|entries|] == entries;
    return Success(acc);
  }

  /** ListUserFilesWithDetails(userID, path) over the scan `entries` of its
      prefix. */
  method ListUserFilesWithDetails(userID: string, path: string, entries: seq<ListEntry>)
    returns (res: Result<DetailedListing, string>)
    ensures res.Failure? <==> !NoErrors(entries)
    ensures res.Failure? ==> FailsWith(entries, res.error)
    ensures res.Success? ==>
              var prefix := ListPrefix(userID, path);
              var d := res.value;
              && d.path == path && d.userID == userID
              && d.files == FilesOf(prefix, entries)
              && d.statistics.totalFiles == |d.files|
              && d.statistics.totalSize == Wrap64(SumSizes(d.files))
              && Describes(d.statistics.totalSizeHuman, d.statistics.totalSize)
              && d.statistics.latestModified == Latest(d.files)
              && d.statistics.totalFolders == |d.folders| == |FoldersOf(prefix, entries)|
    ensures res.Success? ==>
              var prefix := ListPrefix(userID, path);
              var folders := res.value.folders;
              && (forall i, j :: 0 <= i < j < |folders| ==> folders[i].name != folders[j].name)
              && (forall k :: 0 <= k < |folders| ==>
                    folders[k].name in FolderMapOf(prefix, entries)
                    && folders[k] == FolderMapOf(prefix, entries)[folders[k].name])
  {
    var prefix := ListPrefix(userID, path);
    var scan := ScanDetails(prefix, entries);
    if scan.Failure? {
      return Failure(scan.error);
    }
    var t := scan.value;
    var folders, order := FolderSlice(t.folderMap);
    FolderMapKeys(prefix, entries);
    forall k | 0 <= k < |folders|
      ensures folders[k].name == order[k]
    {
      FolderAt(prefix, entries, order[k]);
    }
    var shown := FormatSizeBytes(t.totalSize);
    var stats := Statistics(t.totalFiles, |folders|, t.totalSize, shown, t.latestModified);
    return Success(DetailedListing(path, userID, t.files, folders, stats));
  }
}
