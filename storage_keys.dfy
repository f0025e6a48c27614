/** Key building in storage/minio.go: `normalizePath`, which turns a
    client-supplied directory and a file name into an object key, and the
    listing prefix `userID + "/" [+ Trim(path, "/") + "/"]` that
    `ListUserFiles` and `ListUserFilesWithDetails` scan. */
module StorageKeys {
  import opened GoStrings

  /** The directory part as normalizePath cleans it: backslashes become
      slashes, then ONE leading and ONE trailing slash are removed. */
  function NormalizedDir(path: string): (d: string)
    ensures '\\' !in d
    ensures |d| <= |path|
    ensures var u := ReplaceAll(path, '\\', '/');
            var v := if u != [] && u[0] == '/' then u[1..] else u;
            d == if v != [] && v[|v| - 1] == '/' then v[..|v| - 1] else v
  {
    var u := ReplaceAll(path, '\\', '/');
    HasPrefixChar(u, '/');
    HasSuffixChar(TrimPrefix(u, "/"), '/');
    TrimSuffix(TrimPrefix(u, "/"), "/")
  }

  /** normalizePath(path, filename). */
  function NormalizePath(path: string, filename: string): (key: string)
    ensures HasSuffix(key, filename)
    ensures path == "" || NormalizedDir(path) == "" ==> key == filename
    ensures path != "" && NormalizedDir(path) != "" ==>
              key[..|key| - |filename|] == NormalizedDir(path) + "/"
  {
    if path == "" then filename
    else
      var d := NormalizedDir(path);
      if d == "" then filename else d + "/" + filename
  }

  /** A directory already in canonical form: non-empty, only forward
      slashes, and no slash at either end. */
  predicate Canonical(d: string) {
    d != [] && '\\' !in d && d[0] != '/' && d[|d| - 1] != '/'
  }

  /** The same directory written with backslashes (a Windows-style path). */
  function WithBackslashes(d: string): (w: string)
    ensures |w| == |d| && '/' !in w
  {
    ReplaceAll(d, '/', '\\')
  }

  /** A canonical directory keeps every one of its segments, "." and ".."
      included: nothing is resolved or rejected. */
  lemma CanonicalKept(d: string, filename: string)
    requires Canonical(d)
    ensures NormalizedDir(d) == d
    ensures NormalizePath(d, filename) == d + "/" + filename
  {
    ReplaceAbsent(d, '\\', '/');
    HasPrefixChar(d, '/');
    HasSuffixChar(d, '/');
  }

  /** "/d/", "d", "d" written with backslashes and "\\d" with backslashes
      all give the key "d/<filename>". */
  lemma EquivalentSpellings(d: string, filename: string)
    requires Canonical(d)
    ensures NormalizePath("/" + d + "/", filename) == d + "/" + filename
    ensures NormalizePath(d, filename) == d + "/" + filename
    ensures NormalizePath(WithBackslashes(d), filename) == d + "/" + filename
    ensures NormalizePath("\\" + WithBackslashes(d), filename) == d + "/" + filename
  {
    CanonicalKept(d, filename);
    FramedDir(d);
    KeyOfDir("/" + d + "/", d, filename);
    BackslashDir(d);
    KeyOfDir(WithBackslashes(d), d, filename);
    LeadingBackslashDir(d);
    KeyOfDir("\\" + WithBackslashes(d), d, filename);
  }

  /** A path whose directory part is the non-empty `d` gives "d/<filename>". */
  lemma KeyOfDir(path: string, d: string, filename: string)
    requires NormalizedDir(path) == d && d != ""
    ensures NormalizePath(path, filename) == d + "/" + filename
  {
  }

  /** The framing slashes of "/d/" are removed. */
  lemma FramedDir(d: string)
    requires Canonical(d)
    ensures NormalizedDir("/" + d + "/") == d
  {
    var framed := "/" + d + "/";
    ReplaceAbsent(framed, '\\', '/');
    HasPrefixChar(framed, '/');
    assert framed[1..] == d + "/";
    HasSuffixChar(d + "/", '/');
    assert (d + "/")[..|d|] == d;
  }

  /** Backslashes read as slashes. */
  lemma BackslashDir(d: string)
    requires Canonical(d)
    ensures NormalizedDir(WithBackslashes(d)) == d
  {
    ReplaceRoundTrip(d, '/', '\\');
    CanonicalKept(d, "");
  }

  /** A leading backslash counts as the leading slash. */
  lemma LeadingBackslashDir(d: string)
    requires Canonical(d)
    ensures NormalizedDir("\\" + WithBackslashes(d)) == d
  {
    var w := "\\" + WithBackslashes(d);
    ReplaceRoundTrip(d, '/', '\\');
    assert ReplaceAll(w, '\\', '/') == "/" + d by {
      assert ReplaceAll(w, '\\', '/')[1..] == ReplaceAll(WithBackslashes(d), '\\', '/');
    }
    assert ("/" + d)[1..] == d;
  }

  /** Only one slash goes at each end: a doubled leading slash leaves one
      slash in front of the directory, a doubled trailing slash one after
      it. */
  lemma OnlyOneSlashTrimmed(d: string, filename: string)
    requires Canonical(d)
    ensures NormalizePath("//" + d, filename) == "/" + d + "/" + filename
    ensures NormalizePath(d + "//", filename) == d + "/" + "/" + filename
  {
    var lead := "//" + d;
    ReplaceAbsent(lead, '\\', '/');
    HasPrefixChar(lead, '/');
    assert lead[1..] == "/" + d;
    HasSuffixChar("/" + d, '/');
    var trail := d + "//";
    ReplaceAbsent(trail, '\\', '/');
    HasPrefixChar(trail, '/');
    HasSuffixChar(trail, '/');
    assert trail[..|trail| - 1] == d + "/";
  }

  /** Dot segments pass through: a leading ".." is not rejected and still
      leads the key, so a file name can climb out of its directory in the
      flat key space; a trailing ".." is kept as well. */
  lemma DotSegmentsKept(d: string, filename: string)
    requires Canonical(d)
    ensures NormalizePath("../" + d, filename) == "../" + d + "/" + filename
    ensures NormalizePath(d + "/..", filename) == d + "/.." + "/" + filename
  {
    var up := "../" + d;
    assert up[0] == '.' && up[|up| - 1] == d[|d| - 1];
    CanonicalKept(up, filename);
    var down := d + "/..";
    assert down[0] == d[0] && down[|down| - 1] == '.';
    CanonicalKept(down, filename);
  }

  /** Normalizing twice is not the same as normalizing once: the directory
      "//d//" normalizes to "/d/", which normalizes further to "d". */
  lemma NotIdempotent(d: string, filename: string)
    requires Canonical(d)
    ensures NormalizedDir("//" + d + "//") == "/" + d + "/"
    ensures NormalizePath(NormalizedDir("//" + d + "//"), filename) == d + "/" + filename
    ensures NormalizePath("//" + d + "//", filename) == "/" + d + "/" + "/" + filename
  {
    DoubledDir(d);
    EquivalentSpellings(d, filename);
  }

  /** One slash of each doubled pair is removed. */
  lemma DoubledDir(d: string)
    requires Canonical(d)
    ensures NormalizedDir("//" + d + "//") == "/" + d + "/"
  {
    var s := "//" + d + "//";
    ReplaceAbsent(s, '\\', '/');
    HasPrefixChar(s, '/');
    var t := s[1..];
    assert t == "/" + d + "//";
    HasSuffixChar(t, '/');
    assert t[..|t| - 1] == "/" + d + "/";
  }

  /** The directory normalization is idempotent exactly on the paths whose
      normalized form does not itself start or end with a slash. */
  lemma IdempotentWhenClean(path: string)
    ensures NormalizedDir(NormalizedDir(path)) == NormalizedDir(path) <==>
              NormalizedDir(path) == "" || Canonical(NormalizedDir(path))
  {
    var d := NormalizedDir(path);
    if d == "" || Canonical(d) {
      if d != "" { CanonicalKept(d, ""); }
    } else {
      FramedShrinks(d);
    }
  }

  /** A slash-ended directory loses a character when normalized again. */
  lemma FramedShrinks(d: string)
    requires '\\' !in d && d != [] && (d[0] == '/' || d[|d| - 1] == '/')
    ensures |NormalizedDir(d)| < |d|
  {
    ReplaceAbsent(d, '\\', '/');
  }

  /** The prefix that the per-user listings scan. */
  function ListPrefix(userID: string, path: string): (prefix: string)
    ensures HasPrefix(prefix, userID + "/")
    ensures path == "" ==> prefix == userID + "/"
    ensures path != "" ==> prefix == userID + "/" + Trim(path, '/') + "/"
  {
    userID + "/" + (if path != "" then Trim(path, '/') + "/" else "")
  }

  /** Trim removes the framing slashes of a canonical directory. */
  lemma TrimFramed(d: string)
    requires Canonical(d)
    ensures Trim(d, '/') == d
    ensures Trim("/" + d + "/", '/') == d
  {
    var framed := "/" + d + "/";
    assert framed[1..] == d + "/";
    assert TrimLeft(d + "/", '/') == d + "/";
    assert (d + "/")[..|d|] == d;
    assert TrimRight(d, '/') == d;
  }

  /** Unlike normalizePath, the listing prefix strips EVERY leading and
      trailing slash, and a path made only of slashes still adds one: the
      path "/" scans "u//" rather than the user's root. */
  lemma ListPrefixOfSlashes(userID: string, d: string)
    requires Canonical(d)
    ensures ListPrefix(userID, "//" + d + "//") == userID + "/" + (d + "/")
    ensures ListPrefix(userID, "/") == userID + "//"
  {
    TrimDoubled(d);
    TrimOnlySlash();
    assert userID + "/" + ("" + "/") == userID + "//";
  }

  /** Trim takes off a doubled slash at each end of a canonical directory. */
  lemma TrimDoubled(d: string)
    requires Canonical(d)
    ensures Trim("//" + d + "//", '/') == d
  {
    assert "//" + d + "//" == "//" + (d + "//");
    TrimLeftSkips("//", d + "//", '/');
    assert TrimLeft(d + "//", '/') == d + "//" by { assert (d + "//")[0] == d[0]; }
    TrimRightSkips(d, "//", '/');
  }

  lemma TrimOnlySlash()
    ensures Trim("/", '/') == ""
  {
    assert forall i :: 0 <= i < |"/"| ==> "/"[i] == '/';
  }

  /** The listing prefix of a canonical directory, bare or framed in slashes. */
  lemma ListPrefixCanonical(userID: string, d: string)
    requires Canonical(d)
    ensures ListPrefix(userID, d) == userID + "/" + (d + "/")
    ensures ListPrefix(userID, "/" + d + "/") == userID + "/" + (d + "/")
  {
    TrimFramed(d);
  }

  /** For a canonical directory, `userID + "/"` followed by normalizePath's key
      is the listing prefix of that directory followed by the file name.
      normalizePath itself adds no user ID; the caller must. */
  lemma {:induction false} ListPrefixMatchesKey(userID: string, d: string, filename: string)
    requires Canonical(d)
    ensures ListPrefix(userID, d) + filename == userID + "/" + NormalizePath(d, filename)
    ensures ListPrefix(userID, "/" + d + "/") + filename == userID + "/" + NormalizePath("/" + d + "/", filename)
  {
    EquivalentSpellings(d, filename);
    ListPrefixCanonical(userID, d);
    PrefixThenName(userID, d, filename);
  }

  /** Regrouping of the concatenations above, kept apart from the string
      functions so the solver sees only sequence axioms. */
  lemma PrefixThenName(userID: string, d: string, filename: string)
    ensures userID + "/" + (d + "/") + filename == userID + "/" + (d + "/" + filename)
  {
  }
}
