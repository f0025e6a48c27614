/** The per-user listings of storage/minio.go: `ListUserFiles`,
    `ListUserFilesWithDetails` and `getFolderList`. The object store's
    non-recursive scan is the input sequence `entries`; what is modelled is
    how each record is classified (prefix stripping, `.keep` markers,
    first-segment folders) and what the loops accumulate. */
module StorageListing {
  import opened GoStrings
  import opened Results
  import opened StorageTypes
  import opened StorageKeys
  import opened StorageSize

  // ---------------------------------------------------------------------
  // Classifying one record

  /** strings.TrimPrefix(object.Key, prefix): the key is the prefix followed
      by the relative path, or the whole key when it lies outside the prefix. */
  function Relative(prefix: string, key: string): (r: string)
    ensures HasPrefix(key, prefix) ==> prefix + r == key
    ensures !HasPrefix(key, prefix) ==> r == key
  {
    TrimPrefix(key, prefix)
  }

  /** What the loop body does with one relative path. */
  datatype Kind =
    | Marker(folder: string)  // ends in ".keep": never a file; names `folder` unless that is ""
    | Nested(folder: string)  // contains '/': only its first segment counts
    | Leaf                    // a file directly under the prefix
    | Skipped                 // the empty relative path

  /** The branches of the loop body, in the order the code tests them. */
  function Classify(rel: string): (k: Kind)
    ensures k.Marker? <==> HasSuffix(rel, ".keep")
    ensures k.Skipped? <==> rel == ""
  {
    if HasSuffix(rel, ".keep") then Marker(TrimSuffix(rel, "/.keep"))
    else if '/' in rel then Nested(Split(rel, '/')[0])
    else if rel != "" then Leaf
    else Skipped
  }

  /** The classification is a partition of all relative paths: a marker is
      any path ending in ".keep" (not only "/.keep"); a nested path yields
      its first segment, which is slash-free and followed by '/'; a leaf is
      a non-empty, slash-free, non-marker path. */
  lemma ClassifySpec(rel: string)
    ensures Classify(rel).Marker? <==> HasSuffix(rel, ".keep")
    ensures Classify(rel).Marker? ==> Classify(rel).folder == TrimSuffix(rel, "/.keep")
    ensures Classify(rel).Nested? <==> '/' in rel && !HasSuffix(rel, ".keep")
    ensures Classify(rel).Nested? ==>
              var f := Classify(rel).folder;
              '/' !in f && HasPrefix(rel, f + "/") && f == rel[..IndexOf(rel, '/')]
    ensures Classify(rel).Leaf? <==> rel != "" && '/' !in rel && !HasSuffix(rel, ".keep")
    ensures Classify(rel).Skipped? <==> rel == ""
  {
    if Classify(rel).Nested? {
      var f := Classify(rel).folder;
      assert rel[..|f| + 1] == f + "/";
    }
  }

  function KindOf(prefix: string, o: ObjectInfo): Kind {
    Classify(Relative(prefix, o.key))
  }

  /** The folder an entry adds to the folder set, if any. */
  function FolderOf(prefix: string, e: ListEntry): Option<string> {
    if e.StreamError? then None
    else match KindOf(prefix, e.info)
      case Marker(f) => if f != "" then Some(f) else None
      case Nested(f) => Some(f)
      case _ => None
  }

  /** The entry adds the folder `n`. */
  predicate Names(prefix: string, e: ListEntry, n: string) {
    FolderOf(prefix, e) == Some(n)
  }

  /** The entry counts as an item of folder `n`: a non-marker record whose
      first segment is `n`. */
  predicate CountsFor(prefix: string, e: ListEntry, n: string) {
    e.Object? && KindOf(prefix, e.info) == Nested(n)
  }

  /** The record is a file directly under the prefix. */
  predicate IsLeaf(prefix: string, e: ListEntry) {
    e.Object? && KindOf(prefix, e.info).Leaf?
  }

  /** The file entry built from a record: named by its path below the
      prefix, with the record's size, time and content type. */
  function FileOf(prefix: string, o: ObjectInfo): (f: FileInfo)
    ensures HasPrefix(o.key, prefix) ==> prefix + f.name == o.key
    ensures f.size == o.size && f.lastModified == o.lastModified && f.contentType == o.contentType
  {
    FileInfo(Relative(prefix, o.key), o.size, o.lastModified, o.contentType)
  }

  // ---------------------------------------------------------------------
  // Reference definitions over the whole scan

  predicate NoErrors(entries: seq<ListEntry>) {
    forall j :: 0 <= j < |entries| ==> entries[j].Object?
  }

  /** The `Some` results of `f` over a scan, in scan order. */
  function Gather<T>(f: ListEntry -> Option<T>, entries: seq<ListEntry>): (r: seq<T>)
    ensures |r| <= |entries|
    decreases |entries|
  {
    if entries == [] then []
    else
      var x := f(entries[|entries| - 1]);
      Gather(f, entries[..|entries| - 1]) + (if x.Some? then [x.value] else [])
  }

  /** The `Some` results of `f` over a scan, as a set. */
  function Collect<T>(f: ListEntry -> Option<T>, entries: seq<ListEntry>): set<T>
    decreases |entries|
  {
    if entries == [] then {}
    else
      var x := f(entries[|entries| - 1]);
      Collect(f, entries[..|entries| - 1]) + (if x.Some? then {x.value} else {})
  }

  /** The number of entries of a scan that satisfy `p`. */
  function CountWhere(p: ListEntry -> bool, entries: seq<ListEntry>): (r: nat)
    ensures r <= |entries|
    decreases |entries|
  {
    if entries == [] then 0
    else CountWhere(p, entries[..|entries| - 1]) + (if p(entries[|entries| - 1]) then 1 else 0)
  }

  /** The file entry of a leaf record. */
  function LeafFile(prefix: string, e: ListEntry): Option<FileInfo> {
    if IsLeaf(prefix, e) then Some(FileOf(prefix, e.info)) else None
  }

  /** The file entries, in scan order: at most one per record. */
  function FilesOf(prefix: string, entries: seq<ListEntry>): (r: seq<FileInfo>)
    ensures |r| <= |entries|
  {
    Gather(e => LeafFile(prefix, e), entries)
  }

  /** The set of folder names: each one added by some record of the scan
      (FoldersOfMember gives the converse). */
  function FoldersOf(prefix: string, entries: seq<ListEntry>): (r: set<string>)
    ensures forall n :: n in r ==> exists j :: 0 <= j < |entries| && Names(prefix, entries[j], n)
  {
    var f := e => FolderOf(prefix, e);
    assert forall n :: n in Collect(f, entries) ==> exists j :: 0 <= j < |entries| && Names(prefix, entries[j], n) by {
      forall n | n in Collect(f, entries) ensures exists j :: 0 <= j < |entries| && Names(prefix, entries[j], n) {
        CollectMember(f, entries, n);
      }
    }
    Collect(e => FolderOf(prefix, e), entries)
  }

  /** The number of records that count as items of folder `n`. */
  function ItemCount(prefix: string, entries: seq<ListEntry>, n: string): (r: nat)
    ensures r <= |entries|
  {
    CountWhere(e => CountsFor(prefix, e, n), entries)
  }

  /** The exact sum of the sizes, before any int64 wrap-around: between
      the smallest and the largest int64 times the number of files. */
  function SumSizes(files: seq<FileInfo>): (r: int)
    ensures Int64Min * |files| <= r <= Int64Max * |files|
    ensures files == [] ==> r == 0
    decreases |files|
  {
    if files == [] then 0 else SumSizes(files[..|files| - 1]) + files[|files| - 1].size
  }

  predicate Distinct<T(==)>(s: seq<T>) {
    forall i, j :: 0 <= i < j < |s| ==> s[i] != s[j]
  }

  // ---------------------------------------------------------------------
  // Properties of the reference definitions

  lemma TakeOneMore<T>(s: seq<T>, i: nat)
    requires i < |s|
    ensures s[..i + 1] == s[..i] + [s[i]]
  {
  }

  lemma {:induction false} GatherMember<T>(f: ListEntry -> Option<T>, entries: seq<ListEntry>, x: T)
    ensures x in Gather(f, entries) <==> exists j :: 0 <= j < |entries| && f(entries[j]) == Some(x)
    decreases |entries|
  {
    if entries != [] {
      var k := |entries| - 1;
      var init := entries[..k];
      GatherMember(f, init, x);
      if x in Gather(f, init) {
        var j :| 0 <= j < k && f(init[j]) == Some(x);
        assert entries[j] == init[j];
      }
    }
  }

  lemma {:induction false} CollectMember<T>(f: ListEntry -> Option<T>, entries: seq<ListEntry>, x: T)
    ensures x in Collect(f, entries) <==> exists j :: 0 <= j < |entries| && f(entries[j]) == Some(x)
    decreases |entries|
  {
    if entries != [] {
      var k := |entries| - 1;
      var init := entries[..k];
      CollectMember(f, init, x);
      if x in Collect(f, init) {
        var j :| 0 <= j < k && f(init[j]) == Some(x);
        assert entries[j] == init[j];
      }
    }
  }

  lemma {:induction false} GatherAppend<T>(f: ListEntry -> Option<T>, a: seq<ListEntry>, b: seq<ListEntry>)
    ensures Gather(f, a + b) == Gather(f, a) + Gather(f, b)
    decreases |b|
  {
    if b == [] {
      assert a + b == a;
    } else {
      var k := |b| - 1;
      assert (a + b)[..|a + b| - 1] == a + b[..k];
      assert (a + b)[|a + b| - 1] == b[k];
      GatherAppend(f, a, b[..k]);
    }
  }

  /** One more entry extends each reference definition by that entry's part. */
  lemma Step(prefix: string, s: seq<ListEntry>, e: ListEntry)
    ensures FilesOf(prefix, s + [e]) == FilesOf(prefix, s) + (if IsLeaf(prefix, e) then [FileOf(prefix, e.info)] else [])
    ensures FoldersOf(prefix, s + [e]) == FoldersOf(prefix, s) + (if FolderOf(prefix, e).Some? then {FolderOf(prefix, e).value} else {})
    ensures forall n :: ItemCount(prefix, s + [e], n) == ItemCount(prefix, s, n) + (if CountsFor(prefix, e, n) then 1 else 0)
  {
    assert (s + [e])[..|s|] == s && (s + [e])[|s|] == e;
  }

  /** `files` holds exactly the leaf records, each with its metadata copied. */
  lemma FilesOfMember(prefix: string, entries: seq<ListEntry>, f: FileInfo)
    ensures f in FilesOf(prefix, entries) <==>
              exists j :: 0 <= j < |entries| && IsLeaf(prefix, entries[j]) && f == FileOf(prefix, entries[j].info)
  {
    GatherMember(e => LeafFile(prefix, e), entries, f);
  }

  /** Files keep scan order: the listing of a concatenated scan is the
      concatenation of the listings. */
  lemma FilesOfAppend(prefix: string, a: seq<ListEntry>, b: seq<ListEntry>)
    ensures FilesOf(prefix, a + b) == FilesOf(prefix, a) + FilesOf(prefix, b)
  {
    GatherAppend(e => LeafFile(prefix, e), a, b);
  }

  /** Every listed file name is non-empty, slash-free and not a marker. */
  lemma {:induction false} FileNamesAreLeaves(prefix: string, entries: seq<ListEntry>, f: FileInfo)
    requires f in FilesOf(prefix, entries)
    ensures f.name != "" && '/' !in f.name && !HasSuffix(f.name, ".keep")
  {
    FilesOfMember(prefix, entries, f);
    var j :| 0 <= j < |entries| && IsLeaf(prefix, entries[j]) && f == FileOf(prefix, entries[j].info);
    ClassifySpec(Relative(prefix, entries[j].info.key));
  }

  /** The folder set holds exactly the names that some record contributes. */
  lemma FoldersOfMember(prefix: string, entries: seq<ListEntry>, n: string)
    ensures n in FoldersOf(prefix, entries) <==>
              exists j :: 0 <= j < |entries| && Names(prefix, entries[j], n)
  {
    CollectMember(e => FolderOf(prefix, e), entries, n);
  }

  /** A record whose relative path contains '/' contributes only its first
      segment, which is slash-free, and no file. */
  lemma NestedGivesFirstSegment(prefix: string, o: ObjectInfo)
    requires '/' in Relative(prefix, o.key) && !HasSuffix(Relative(prefix, o.key), ".keep")
    ensures var rel := Relative(prefix, o.key);
            FolderOf(prefix, Object(o)) == Some(rel[..IndexOf(rel, '/')])
    ensures FilesOf(prefix, [Object(o)]) == []
  {
    ClassifySpec(Relative(prefix, o.key));
    Step(prefix, [], Object(o));
    assert [] + [Object(o)] == [Object(o)];
  }

  /** Markers never become files. A marker adds `TrimSuffix(rel, "/.keep")`
      when that is non-empty, so a relative path "x.keep" adds the folder
      "x.keep", and a marker of the listed folder itself (relative path
      ".keep") adds a folder named ".keep". */
  lemma MarkerCases(prefix: string, o: ObjectInfo)
    requires HasSuffix(Relative(prefix, o.key), ".keep")
    ensures FilesOf(prefix, [Object(o)]) == []
    ensures forall n :: !CountsFor(prefix, Object(o), n)
    ensures Relative(prefix, o.key) == "x.keep" ==> FolderOf(prefix, Object(o)) == Some("x.keep")
    ensures Relative(prefix, o.key) == ".keep" ==> FolderOf(prefix, Object(o)) == Some(".keep")
    ensures Relative(prefix, o.key) == "/.keep" ==> FolderOf(prefix, Object(o)) == None
  {
    ClassifySpec(Relative(prefix, o.key));
    Step(prefix, [], Object(o));
    assert [] + [Object(o)] == [Object(o)];
    ClassifyDottedExample();
    ClassifyBareMarkerExample();
  }

  /** The glue between a scan prefix and the keys below it. */
  lemma RelativeUnder(prefix: string, rel: string)
    ensures Relative(prefix, prefix + rel) == rel
  {
    assert (prefix + rel)[..|prefix|] == prefix;
  }

  /** The classification of the relative paths used in the examples. */
  lemma ClassifyLeafExample()
    ensures Classify("f1.txt") == Leaf
  {
    assert "f1.txt"[6 - 5..] != ".keep";
  }

  lemma ClassifyMarkerExample()
    ensures Classify("sub/.keep") == Marker("sub")
  {
    assert "sub/.keep"[9 - 6..] == "/.keep";
    assert "sub/.keep"[9 - 5..] == ".keep";
    assert "sub/.keep"[..9 - 6] == "sub";
  }

  lemma ClassifyBareMarkerExample()
    ensures Classify(".keep") == Marker(".keep")
  {
    assert ".keep"[0..] == ".keep";
  }

  lemma ClassifyDottedExample()
    ensures Classify("x.keep") == Marker("x.keep")
  {
    assert "x.keep"[1..] == ".keep";
    assert "x.keep"[0..] != "/.keep";
  }

  lemma ClassifyNestedExample()
    ensures Classify("sub/f.txt") == Nested("sub")
  {
    assert "sub/f.txt"[9 - 5..] != ".keep";
    assert IndexOf("sub/f.txt", '/') == 3;
    assert "sub/f.txt"[..3] == "sub";
  }

  /** A record stored under the scanned prefix is classified by the rest
      of its key. */
  lemma KindUnder(prefix: string, rel: string, o: ObjectInfo)
    requires o.key == prefix + rel
    ensures KindOf(prefix, o) == Classify(rel)
  {
    RelativeUnder(prefix, rel);
  }

  /** Objects "<u>/f1.txt" and "<u>/sub/.keep" list as the file "f1.txt"
      and the folder "sub". */
  lemma RootListingExample(u: string, a: ObjectInfo, b: ObjectInfo)
    requires a.key == u + "/" + "f1.txt" && b.key == u + "/" + "sub/.keep"
    ensures FilesOf(ListPrefix(u, ""), [Object(a), Object(b)]) == [FileOf(u + "/", a)]
    ensures FileOf(u + "/", a).name == "f1.txt"
    ensures FoldersOf(ListPrefix(u, ""), [Object(a), Object(b)]) == {"sub"}
  {
    var p := u + "/";
    ClassifyLeafExample();
    ClassifyMarkerExample();
    KindUnder(p, "f1.txt", a);
    KindUnder(p, "sub/.keep", b);
    RelativeUnder(p, "f1.txt");
    TwoEntries(p, Object(a), Object(b));
  }

  /** Listing a folder `d` created by its marker shows the marker as a
      folder named ".keep" next to the folder's file "f1.txt". */
  lemma SubFolderListingExample(u: string, d: string, b: ObjectInfo, c: ObjectInfo)
    requires Canonical(d)
    requires b.key == u + "/" + (d + "/") + ".keep" && c.key == u + "/" + (d + "/") + "f1.txt"
    ensures FilesOf(ListPrefix(u, d), [Object(b), Object(c)]) == [FileOf(u + "/" + (d + "/"), c)]
    ensures FileOf(u + "/" + (d + "/"), c).name == "f1.txt"
    ensures FoldersOf(ListPrefix(u, d), [Object(b), Object(c)]) == {".keep"}
  {
    var p := u + "/" + (d + "/");
    ListPrefixCanonical(u, d);
    ClassifyLeafExample();
    ClassifyBareMarkerExample();
    KindUnder(p, ".keep", b);
    KindUnder(p, "f1.txt", c);
    RelativeUnder(p, "f1.txt");
    TwoEntries(p, Object(b), Object(c));
  }

  /** The reference definitions on a two-record scan. */
  lemma TwoEntries(prefix: string, a: ListEntry, b: ListEntry)
    ensures FilesOf(prefix, [a, b]) ==
              (if IsLeaf(prefix, a) then [FileOf(prefix, a.info)] else [])
              + (if IsLeaf(prefix, b) then [FileOf(prefix, b.info)] else [])
    ensures FoldersOf(prefix, [a, b]) ==
              (if FolderOf(prefix, a).Some? then {FolderOf(prefix, a).value} else {})
              + (if FolderOf(prefix, b).Some? then {FolderOf(prefix, b).value} else {})
  {
    Step(prefix, [], a);
    Step(prefix, [a], b);
    assert [] + [a] == [a] && [a] + [b] == [a, b];
  }

  /** Go's wrapping int64 sum: wrapping after every step is wrapping once. */
  lemma WrapAdd(a: int, b: int)
    ensures Wrap64(Wrap64(a) + b) == Wrap64(a + b)
  {
    var m := 0x1_0000_0000_0000_0000;
    var x := a - Int64Min;
    assert Wrap64(a) + b - Int64Min == x % m + b;
    assert x == m * (x / m) + x % m;
    ModShift(x + b, m, x / m);
  }

  lemma ModShift(y: int, m: int, q: int)
    requires m > 0
    ensures (y - m * q) % m == y % m
  {
    var r := y % m;
    assert y == m * (y / m) + r;
    assert y - m * q == m * (y / m - q) + r;
    DivUnique(y - m * q, m, y / m - q, r);
  }

  // ---------------------------------------------------------------------
  // ListUserFiles

  datatype UserListing = UserListing(path: string, userID: string, files: seq<FileInfo>, folders: seq<string>)

  /** The first stream error aborts the listing with its message. */
  predicate FailsWith(entries: seq<ListEntry>, msg: string) {
    exists j :: 0 <= j < |entries| && entries[j] == StreamError(msg) && NoErrors(entries[..j])
  }

  /** getFolderList: the keys of the folder set, each once, in Go's
      unspecified map order. */
  method GetFolderList(folders: map<string, bool>) returns (result: seq<string>)
    ensures Distinct(result)
    ensures forall n :: n in result <==> n in folders
    ensures |result| == |folders|
  {
    result := [];
    var rest := folders.Keys;
    while rest != {}
      invariant rest <= folders.Keys
      invariant Distinct(result)
      invariant forall n :: n in result <==> n in folders && n !in rest
      invariant |result| + |rest| == |folders|
      decreases rest
    {
      var n :| n in rest;
      result := result + [n];
      rest := rest - {n};
    }
  }

  /** The loop body of ListUserFiles for one record of the scan: after
      the records `seen`, the accumulators hold the reference values, and
      after this record they hold them for `seen` and this record. */
  method ListOne(prefix: string, ghost seen: seq<ListEntry>, files: seq<FileInfo>, folders: map<string, bool>,
                 obj: ObjectInfo)
    returns (newFiles: seq<FileInfo>, newFolders: map<string, bool>)
    requires files == FilesOf(prefix, seen) && folders.Keys == FoldersOf(prefix, seen)
    ensures newFiles == FilesOf(prefix, seen + [Object(obj)])
    ensures newFolders.Keys == FoldersOf(prefix, seen + [Object(obj)])
  {
    Step(prefix, seen, Object(obj));
    newFiles, newFolders := files, folders;
    var rel := TrimPrefix(obj.key, prefix);
    if HasSuffix(rel, ".keep") {
      var folderName := TrimSuffix(rel, "/.keep");
      MarkerContributes(prefix, obj);
      if folderName != "" {
        newFolders := newFolders[folderName := true];
      }
      return;
    }
    if '/' in rel {
      var folderName := Split(rel, '/')[0];
      NestedContributes(prefix, obj);
      newFolders := newFolders[folderName := true];
    } else if rel != "" {
      LeafContributes(prefix, obj);
      newFiles := newFiles + [FileInfo(rel, obj.size, obj.lastModified, obj.contentType)];
    } else {
      EmptyContributes(prefix, obj);
    }
  }

  // What one record contributes, branch by branch of the loop body.

  lemma MarkerContributes(prefix: string, obj: ObjectInfo)
    requires HasSuffix(Relative(prefix, obj.key), ".keep")
    ensures var f := TrimSuffix(Relative(prefix, obj.key), "/.keep");
            !IsLeaf(prefix, Object(obj)) && FolderOf(prefix, Object(obj)) == if f != "" then Some(f) else None
  {
  }

  lemma NestedContributes(prefix: string, obj: ObjectInfo)
    requires !HasSuffix(Relative(prefix, obj.key), ".keep") && '/' in Relative(prefix, obj.key)
    ensures !IsLeaf(prefix, Object(obj)) && FolderOf(prefix, Object(obj)) == Some(Split(Relative(prefix, obj.key), '/')[0])
  {
  }

  lemma LeafContributes(prefix: string, obj: ObjectInfo)
    requires var rel := Relative(prefix, obj.key); !HasSuffix(rel, ".keep") && '/' !in rel && rel != ""
    ensures IsLeaf(prefix, Object(obj)) && FolderOf(prefix, Object(obj)) == None
  {
  }

  lemma EmptyContributes(prefix: string, obj: ObjectInfo)
    requires Relative(prefix, obj.key) == ""
    ensures !IsLeaf(prefix, Object(obj)) && FolderOf(prefix, Object(obj)) == None
  {
  }

  /** ListUserFiles(userID, path) over the scan `entries` of its prefix. */
  method ListUserFiles(userID: string, path: string, entries: seq<ListEntry>)
    returns (res: Result<UserListing, string>)
    ensures res.Failure? <==> !NoErrors(entries)
    ensures res.Failure? ==> FailsWith(entries, res.error)
    ensures res.Success? ==>
              var prefix := ListPrefix(userID, path);
              && res.value.path == path && res.value.userID == userID
              && res.value.files == FilesOf(prefix, entries)
              && Distinct(res.value.folders)
              && (forall n :: n in res.value.folders <==> n in FoldersOf(prefix, entries))
  {
    var prefix := ListPrefix(userID, path);
    var files: seq<FileInfo> := [];
    var folders: map<string, bool> := map[];
    for i := 0 to |entries|
      invariant NoErrors(entries[..i])
      invariant files == FilesOf(prefix, entries[..i])
      invariant folders.Keys == FoldersOf(prefix, entries[..i])
    {
      var e := entries[i];
      if e.StreamError? {
        assert FailsWith(entries, e.message);
        return Failure(e.message);
      }
      TakeOneMore(entries, i);
      assert e == Object(e.info);
      files, folders := ListOne(prefix, entries[..i], files, folders, e.info);
    }
    assert entries[..|entries|] == entries;
    var list := GetFolderList(folders);
    return Success(UserListing(path, userID, files, list));
  }
}
