/** `buildFolderStructure` in storage/minio.go: the full-bucket tree that
    `ListFilesWithFolders` returns. The Go code stores folders as nested
    `map[string]interface{}` and files as FileInfo values under the same
    keys; here that mix is the tagged type `Node`. */
module StorageTree {
  import opened GoStrings
  import opened Results
  import opened StorageTypes

  datatype Node = File(info: FileInfo) | Folder(children: map<string, Node>)

  type Tree = map<string, Node>

  /** `current[part]` holds a file leaf (the type assertion to a map fails). */
  predicate IsFileAt(m: Tree, part: string) {
    part in m && m[part].File?
  }

  /** The folder the walk enters at `part`: the existing one, or a fresh
      empty map when `current[part] == nil`. */
  function ChildrenOf(m: Tree, part: string): (c: Tree)
    ensures part !in m ==> c == map[]
    ensures part in m && m[part].Folder? ==> c == m[part].children
    ensures IsFileAt(m, part) ==> c == map[]
  {
    if part in m && m[part].Folder? then m[part].children else map[]
  }

  /** One iteration of the outer loop: walk `parts[..|parts|-1]` from `m`
      and store `file` under the last part. A directory part that names a
      file leaf is skipped: the cursor stays where it is. No name is removed
      from the level the walk starts at, and the first part is present
      afterwards unless a file leaf already holds it. Deeper down, a last
      part that names a folder replaces that folder's subtree. */
  function Insert(m: Tree, parts: seq<string>, file: FileInfo): (r: Tree)
    requires |parts| >= 1
    ensures m.Keys <= r.Keys
    ensures parts[0] in r || IsFileAt(m, parts[0])
    decreases |parts|
  {
    if |parts| == 1 then m[parts[0] := File(file)]
    else if IsFileAt(m, parts[0]) then Insert(m, parts[1..], file)
    else m[parts[0] := Folder(Insert(ChildrenOf(m, parts[0]), parts[1..], file))]
  }

  /** The path from `m` at which Insert places the file: the directory
      parts actually descended into, then the file name. */
  function Walked(m: Tree, parts: seq<string>): (path: seq<string>)
    requires |parts| >= 1
    ensures 1 <= |path| <= |parts| && path[|path| - 1] == parts[|parts| - 1]
    decreases |parts|
  {
    if |parts| == 1 then parts
    else if IsFileAt(m, parts[0]) then Walked(m, parts[1..])
    else [parts[0]] + Walked(ChildrenOf(m, parts[0]), parts[1..])
  }

  /** The node reached by following `path` through folder nodes. */
  function Lookup(m: Tree, path: seq<string>): (r: Option<Node>)
    requires |path| >= 1
    ensures r.Some? ==> path[0] in m
    ensures |path| == 1 ==> r == (if path[0] in m then Some(m[path[0]]) else None)
    ensures |path| > 1 && r.Some? ==> m[path[0]].Folder?
    decreases |path|
  {
    if path[0] !in m then None
    else if |path| == 1 then Some(m[path[0]])
    else if m[path[0]].Folder? then Lookup(m[path[0]].children, path[1..])
    else None
  }

  /** The tree after the outer loop has processed `files` in order: each
      record keeps every root name already there and leaves the tree
      non-empty. */
  function BuildTree(files: seq<FileInfo>): (r: Tree)
    ensures files != [] ==> BuildTree(files[..|files| - 1]).Keys <= r.Keys && r != map[]
    decreases |files|
  {
    if files == [] then map[]
    else
      var last := files[|files| - 1];
      Insert(BuildTree(files[..|files| - 1]), Split(last.name, '/'), last)
  }

  /** The record just inserted is found under the path the walk took. */
  lemma {:induction false} InsertFound(m: Tree, parts: seq<string>, file: FileInfo)
    requires |parts| >= 1
    ensures Lookup(Insert(m, parts, file), Walked(m, parts)) == Some(File(file))
    decreases |parts|
  {
    if |parts| > 1 {
      InsertFound(if IsFileAt(m, parts[0]) then m else ChildrenOf(m, parts[0]), parts[1..], file);
    }
  }

  /** No directory part of the walk lands on a file leaf. */
  predicate NoFileOnWalk(m: Tree, parts: seq<string>)
    requires |parts| >= 1
    decreases |parts|
  {
    |parts| == 1 || (!IsFileAt(m, parts[0]) && NoFileOnWalk(ChildrenOf(m, parts[0]), parts[1..]))
  }

  /** When no directory part meets a file leaf, the walk descends through
      every part: the file lands at its full key. */
  lemma {:induction false} WalkedFull(m: Tree, parts: seq<string>)
    requires |parts| >= 1 && NoFileOnWalk(m, parts)
    ensures Walked(m, parts) == parts
    decreases |parts|
  {
    if |parts| > 1 {
      WalkedFull(ChildrenOf(m, parts[0]), parts[1..]);
    }
  }

  /** So without a colliding file leaf the record is found under its own key. */
  lemma InsertFoundAtKey(m: Tree, parts: seq<string>, file: FileInfo)
    requires |parts| >= 1 && NoFileOnWalk(m, parts)
    ensures Lookup(Insert(m, parts, file), parts) == Some(File(file))
  {
    WalkedFull(m, parts);
    InsertFound(m, parts, file);
  }

  /** A file leaf met as a directory part is neither replaced nor entered:
      unless the record's own final name lands on it, it keeps its value. */
  lemma {:induction false} FileLeafKept(m: Tree, parts: seq<string>, file: FileInfo, p: string)
    requires |parts| >= 1 && IsFileAt(m, p) && p != parts[|parts| - 1]
    ensures p in Insert(m, parts, file) && Insert(m, parts, file)[p] == m[p]
    decreases |parts|
  {
    if |parts| > 1 && IsFileAt(m, parts[0]) {
      FileLeafKept(m, parts[1..], file, p);
    }
  }

  /** A file leaf at a level stays a file leaf, whatever is inserted. */
  lemma {:induction false} FileStays(m: Tree, parts: seq<string>, file: FileInfo, p: string)
    requires |parts| >= 1 && IsFileAt(m, p)
    ensures IsFileAt(Insert(m, parts, file), p)
    decreases |parts|
  {
    if |parts| > 1 && IsFileAt(m, parts[0]) {
      FileStays(m, parts[1..], file, p);
    }
  }

  /** A record inserted immediately after one with the same key lands at
      the same place and overwrites it, leaving no other trace of it. With
      records in between this fails: see EarlierLeafRedirects. */
  lemma {:induction false} Overwrite(m: Tree, parts: seq<string>, f1: FileInfo, f2: FileInfo)
    requires |parts| >= 1
    ensures Insert(Insert(m, parts, f1), parts, f2) == Insert(m, parts, f2)
    decreases |parts|
  {
    if |parts| > 1 {
      var p := parts[0];
      if IsFileAt(m, p) {
        FileStays(m, parts[1..], f1, p);
        Overwrite(m, parts[1..], f1, f2);
      } else {
        Overwrite(ChildrenOf(m, p), parts[1..], f1, f2);
      }
    }
  }

  /** Example: an earlier file at "a/x" changes where a later "a/x/z" lands.
      The leaf "x" is skipped, so "z" goes next to it under "a" and survives
      when a second "a/x" overwrites the leaf. Without the earlier file,
      "a/x/z" builds a folder "x" that the second "a/x" replaces, and "z"
      is lost (ZLostWithoutLeaf). */
  lemma EarlierLeafRedirects(f1: FileInfo, h: FileInfo, f2: FileInfo)
    ensures Insert(Insert(Insert(map[], ["a", "x"], f1), ["a", "x", "z"], h), ["a", "x"], f2)
            == map["a" := Folder(map["x" := File(f2), "z" := File(h)])]
  {
    FirstLeaf(f1);
    LeafSkipped(f1, h);
    LeafOverwritten(f1, h, f2);
  }

  /** The three insertions of EarlierLeafRedirects, one at a time. */
  lemma FirstLeaf(f1: FileInfo)
    ensures Insert(map[], ["a", "x"], f1) == map["a" := Folder(map["x" := File(f1)])]
  {
    assert ["a", "x"][1..] == ["x"];
  }

  lemma LeafSkipped(f1: FileInfo, h: FileInfo)
    ensures Insert(map["a" := Folder(map["x" := File(f1)])], ["a", "x", "z"], h)
            == map["a" := Folder(map["x" := File(f1), "z" := File(h)])]
  {
    var c1 := map["x" := File(f1)];
    assert ["a", "x", "z"][1..] == ["x", "z"];
    assert ["x", "z"][1..] == ["z"];
    assert IsFileAt(c1, "x");
    assert Insert(c1, ["x", "z"], h) == c1["z" := File(h)];
    assert c1["z" := File(h)] == map["x" := File(f1), "z" := File(h)];
  }

  lemma LeafOverwritten(f1: FileInfo, h: FileInfo, f2: FileInfo)
    ensures Insert(map["a" := Folder(map["x" := File(f1), "z" := File(h)])], ["a", "x"], f2)
            == map["a" := Folder(map["x" := File(f2), "z" := File(h)])]
  {
    var c2 := map["x" := File(f1), "z" := File(h)];
    assert ["a", "x"][1..] == ["x"];
    assert Insert(c2, ["x"], f2) == c2["x" := File(f2)];
    assert c2["x" := File(f2)] == map["x" := File(f2), "z" := File(h)];
  }

  /** The second half of the example above: without the earlier file the
      record "a/x/z" is gone once "a/x" is inserted. */
  lemma ZLostWithoutLeaf(h: FileInfo, f2: FileInfo)
    ensures Insert(Insert(map[], ["a", "x", "z"], h), ["a", "x"], f2)
            == map["a" := Folder(map["x" := File(f2)])]
  {
    var t1 := map["a" := Folder(map["x" := Folder(map["z" := File(h)])])];
    assert Insert(map[], ["a", "x", "z"], h) == t1 by {
      assert ["a", "x", "z"][1..] == ["x", "z"];
      assert ["x", "z"][1..] == ["z"];
    }
    var inner := map["x" := Folder(map["z" := File(h)])];
    assert ChildrenOf(t1, "a") == inner;
    assert Insert(inner, ["x"], f2) == map["x" := File(f2)] by {
      assert inner["x" := File(f2)] == map["x" := File(f2)];
    }
    assert ["a", "x"][1..] == ["x"];
    assert t1["a" := Folder(map["x" := File(f2)])] == map["a" := Folder(map["x" := File(f2)])];
  }

  /** Example: with a file leaf "a" at the root, the key "a/b.txt" puts
      "b.txt" at the root next to it. */
  lemma CollisionExample(x: FileInfo, f: FileInfo)
    requires f.name == "a/b.txt"
    ensures var t := Insert(map["a" := File(x)], Split(f.name, '/'), f);
            t == map["a" := File(x), "b.txt" := File(f)]
  {
    SplitJoin(["a", "b.txt"], '/');
    assert Join(["a", "b.txt"], '/') == "a/b.txt";
  }

  /** buildFolderStructure(files). */
  method BuildFolderStructure(files: seq<FileInfo>) returns (root: Tree)
    ensures root == BuildTree(files)
    ensures files != [] ==>
              var last := files[|files| - 1];
              Lookup(root, Walked(BuildTree(files[..|files| - 1]), Split(last.name, '/'))) == Some(File(last))
    ensures files != [] && NoFileOnWalk(BuildTree(files[..|files| - 1]), Split(files[|files| - 1].name, '/')) ==>
              var last := files[|files| - 1];
              Lookup(root, Split(last.name, '/')) == Some(File(last))
    ensures files != [] && '/' !in files[|files| - 1].name ==>
              var last := files[|files| - 1];
              last.name in root && root[last.name] == File(last)
  {
    root := map[];
    for i := 0 to |files|
      invariant root == BuildTree(files[..i])
    {
      assert files[..i + 1][..i] == files[..i];
      var file := files[i];
      root := Insert(root, Split(file.name, '/'), file);
    }
    assert files[..|files|] == files;
    if files != [] {
      var last := files[|files| - 1];
      InsertFound(BuildTree(files[..|files| - 1]), Split(last.name, '/'), last);
      if NoFileOnWalk(BuildTree(files[..|files| - 1]), Split(last.name, '/')) {
        WalkedFull(BuildTree(files[..|files| - 1]), Split(last.name, '/'));
      }
    }
  }
}
