/** The part of Go's `strings` package that the storage and auth code use,
    on `string == seq<char>`. Only single-character separators and cutsets
    occur in the modelled code, so `Split`, `Trim` and `ReplaceAll` take a char. */
module GoStrings {

  /** strings.HasPrefix: `s` starts with `p`. The empty prefix always
      matches; a match is never longer than the string. */
  predicate HasPrefix(s: string, p: string): (b: bool)
    ensures p == [] ==> b
    ensures b ==> |p| <= |s|
  {
    |p| <= |s| && s[..|p|] == p
  }

  /** strings.HasSuffix: `s` ends with `p`. The empty suffix always
      matches; a match is never longer than the string. */
  predicate HasSuffix(s: string, p: string): (b: bool)
    ensures p == [] ==> b
    ensures b ==> |p| <= |s|
  {
    |p| <= |s| && s[|s| - |p|..] == p
  }

  /** strings.TrimPrefix: removes `p` once when `s` starts with it. */
  function TrimPrefix(s: string, p: string): (r: string)
    ensures HasPrefix(s, p) ==> p + r == s
    ensures !HasPrefix(s, p) ==> r == s
  {
    if HasPrefix(s, p) then s[|p|..] else s
  }

  /** strings.TrimSuffix: removes `p` once when `s` ends with it. */
  function TrimSuffix(s: string, p: string): (r: string)
    ensures HasSuffix(s, p) ==> r + p == s
    ensures !HasSuffix(s, p) ==> r == s
  {
    if HasSuffix(s, p) then s[..|s| - |p|] else s
  }

  /** strings.ReplaceAll with one-character old and new strings. */
  function ReplaceAll(s: string, from: char, to: char): (r: string)
    ensures |r| == |s|
    ensures forall i :: 0 <= i < |s| ==> r[i] == (if s[i] == from then to else s[i])
    ensures from != to ==> from !in r
  {
    seq(|s|, i requires 0 <= i < |s| => if s[i] == from then to else s[i])
  }

  /** strings.TrimLeft with a one-character cutset: drops every leading `c`. */
  function TrimLeft(s: string, c: char): (r: string)
    ensures |r| <= |s| && r == s[|s| - |r|..]
    ensures r != [] ==> r[0] != c
    ensures forall i :: 0 <= i < |s| - |r| ==> s[i] == c
  {
    if s != [] && s[0] == c then TrimLeft(s[1..], c) else s
  }

  /** strings.TrimRight with a one-character cutset: drops every trailing `c`. */
  function TrimRight(s: string, c: char): (r: string)
    ensures |r| <= |s| && r == s[..|r|]
    ensures r != [] ==> r[|r| - 1] != c
    ensures forall i :: |r| <= i < |s| ==> s[i] == c
  {
    if s != [] && s[|s| - 1] == c then TrimRight(s[..|s| - 1], c) else s
  }

  /** strings.Trim with a one-character cutset: drops every leading and
      trailing `c`; what remains is a slice of `s` that neither starts nor
      ends with `c`. */
  function Trim(s: string, c: char): (r: string)
    ensures |r| <= |s|
    ensures r != [] ==> r[0] != c && r[|r| - 1] != c
    ensures (forall i :: 0 <= i < |s| ==> s[i] == c) ==> r == []
    ensures s != [] && s[0] != c && s[|s| - 1] != c ==> r == s
    ensures exists i, j :: 0 <= i <= j <= |s| && r == s[i..j]
                           && (forall k :: 0 <= k < i ==> s[k] == c)
                           && (forall k :: j <= k < |s| ==> s[k] == c)
  {
    TrimIsSlice(s, c);
    TrimRight(TrimLeft(s, c), c)
  }

  /** What Trim keeps is the slice between the leading and the trailing
      run of `c`. */
  lemma TrimIsSlice(s: string, c: char)
    ensures var r := TrimRight(TrimLeft(s, c), c);
            exists i, j :: 0 <= i <= j <= |s| && r == s[i..j]
                           && (forall k :: 0 <= k < i ==> s[k] == c)
                           && (forall k :: j <= k < |s| ==> s[k] == c)
  {
    var l := TrimLeft(s, c);
    SliceOfSlice(s, l, TrimRight(l, c), c);
  }

  /** A prefix `r` of a suffix `l` of `s`, where only `c` was cut off on
      either side, is the slice of `s` between the two cut runs. */
  lemma SliceOfSlice(s: string, l: string, r: string, c: char)
    requires |l| <= |s| && l == s[|s| - |l|..] && forall k :: 0 <= k < |s| - |l| ==> s[k] == c
    requires |r| <= |l| && r == l[..|r|] && forall k :: |r| <= k < |l| ==> l[k] == c
    ensures exists i, j :: 0 <= i <= j <= |s| && r == s[i..j]
                           && (forall k :: 0 <= k < i ==> s[k] == c)
                           && (forall k :: j <= k < |s| ==> s[k] == c)
  {
    var i := |s| - |l|;
    var j := i + |r|;
    assert r == s[i..j];
    forall k | j <= k < |s| ensures s[k] == c {
      assert s[k] == l[k - i];
    }
  }

  /** Index of the first `c` in `s` (strings.IndexByte when it finds one). */
  function IndexOf(s: string, c: char): (i: nat)
    requires c in s
    ensures i < |s| && s[i] == c && c !in s[..i]
  {
    if s[0] == c then 0 else 1 + IndexOf(s[1..], c)
  }

  /** Inverse of Split: the parts glued back together with `c`. */
  function Join(parts: seq<string>, c: char): string
    requires |parts| >= 1
  {
    if |parts| == 1 then parts[0] else parts[0] + [c] + Join(parts[1..], c)
  }

  /** strings.Split with a one-character separator: the pieces between
      the occurrences of `c`; the first piece is everything before the
      first `c`. */
  function Split(s: string, c: char): (parts: seq<string>)
    ensures |parts| >= 1
    ensures c !in s ==> parts == [s]
    ensures c in s ==> parts[0] == s[..IndexOf(s, c)] && |parts| >= 2
    decreases |s|
  {
    if c !in s then [s]
    else
      var i := IndexOf(s, c);
      [s[..i]] + Split(s[i + 1..], c)
  }

  /** A string with n occurrences of `c` splits into n + 1 pieces, none
      containing `c`, which Join reassembles into `s`. */
  lemma {:induction false} JoinSplit(s: string, c: char)
    ensures forall i :: 0 <= i < |Split(s, c)| ==> c !in Split(s, c)[i]
    ensures Join(Split(s, c), c) == s
    decreases |s|
  {
    if c in s {
      var i := IndexOf(s, c);
      JoinSplit(s[i + 1..], c);
      assert s == s[..i] + [c] + s[i + 1..];
      assert Split(s, c)[1..] == Split(s[i + 1..], c);
    }
  }

  /** HasPrefix compares the first |p| characters one by one. */
  lemma HasPrefixPointwise(s: string, p: string)
    ensures HasPrefix(s, p) <==> |p| <= |s| && forall i :: 0 <= i < |p| ==> s[i] == p[i]
  {
  }

  /** HasSuffix compares the last |p| characters one by one. */
  lemma HasSuffixPointwise(s: string, p: string)
    ensures HasSuffix(s, p) <==> |p| <= |s| && forall i :: 0 <= i < |p| ==> s[|s| - |p| + i] == p[i]
  {
    if |p| <= |s| && forall i :: 0 <= i < |p| ==> s[|s| - |p| + i] == p[i] {
      assert s[|s| - |p|..] == p;
    }
  }

  /** A one-character prefix is the first character. */
  lemma HasPrefixChar(s: string, c: char)
    ensures HasPrefix(s, [c]) <==> s != [] && s[0] == c
  {
    if s != [] { assert s[..1][0] == s[0]; }
  }

  /** A one-character suffix is the last character. */
  lemma HasSuffixChar(s: string, c: char)
    ensures HasSuffix(s, [c]) <==> s != [] && s[|s| - 1] == c
  {
    if s != [] { assert s[|s| - 1..][0] == s[|s| - 1]; }
  }

  /** ReplaceAll is the identity on a string without `from`. */
  lemma ReplaceAbsent(s: string, from: char, to: char)
    requires from !in s
    ensures ReplaceAll(s, from, to) == s
  {
    var r := ReplaceAll(s, from, to);
    forall i | 0 <= i < |s| ensures r[i] == s[i] {
    }
  }

  /** Replacing `a` by an absent `b` and back restores the string. */
  lemma ReplaceRoundTrip(s: string, a: char, b: char)
    requires b !in s && a != b
    ensures ReplaceAll(ReplaceAll(s, a, b), b, a) == s
  {
    var w := ReplaceAll(s, a, b);
    var r := ReplaceAll(w, b, a);
    forall i | 0 <= i < |s| ensures r[i] == s[i] {
      assert w[i] == (if s[i] == a then b else s[i]);
    }
  }

  /** TrimLeft skips a run of cutset characters. */
  lemma {:induction false} TrimLeftSkips(p: string, s: string, c: char)
    requires forall i :: 0 <= i < |p| ==> p[i] == c
    ensures TrimLeft(p + s, c) == TrimLeft(s, c)
    decreases |p|
  {
    if p == [] {
      assert p + s == s;
    } else {
      assert (p + s)[1..] == p[1..] + s;
      TrimLeftSkips(p[1..], s, c);
    }
  }

  /** TrimRight skips a trailing run of cutset characters. */
  lemma {:induction false} TrimRightSkips(s: string, p: string, c: char)
    requires forall i :: 0 <= i < |p| ==> p[i] == c
    ensures TrimRight(s + p, c) == TrimRight(s, c)
    decreases |p|
  {
    if p == [] {
      assert s + p == s;
    } else {
      assert (s + p)[..|s + p| - 1] == s + p[..|p| - 1];
      TrimRightSkips(s, p[..|p| - 1], c);
    }
  }

  /** The first `c` in `s` is at `i` when `s[i]` is `c` and nothing
      before it is. */
  lemma {:induction false} IndexOfAt(s: string, c: char, i: nat)
    requires i < |s| && s[i] == c && c !in s[..i]
    ensures IndexOf(s, c) == i
    decreases i
  {
    if i > 0 {
      assert s[0] == s[..i][0];
      assert s[1..][..i - 1] == s[..i][1..];
      IndexOfAt(s[1..], c, i - 1);
    }
  }

  /** Split peels off a first piece without the separator. */
  lemma SplitCons(a: string, c: char, t: string)
    requires c !in a
    ensures Split(a + [c] + t, c) == [a] + Split(t, c)
  {
    var s := a + [c] + t;
    var i := |a|;
    assert s[..i] == a && s[i] == c;
    IndexOfAt(s, c, i);
    assert s[i + 1..] == t;
  }

  /** Split undoes Join for pieces that do not contain the separator. */
  lemma {:induction false} SplitJoin(parts: seq<string>, c: char)
    requires |parts| >= 1
    requires forall i :: 0 <= i < |parts| ==> c !in parts[i]
    ensures Split(Join(parts, c), c) == parts
    decreases |parts|
  {
    if |parts| > 1 {
      var rest := parts[1..];
      var tail := Join(rest, c);
      assert Join(parts, c) == parts[0] + [c] + tail;
      assert c !in parts[0];
      SplitCons(parts[0], c, tail);
      assert forall i :: 0 <= i < |rest| ==> c !in rest[i] by {
        forall i | 0 <= i < |rest| ensures c !in rest[i] {
          assert rest[i] == parts[i + 1];
        }
      }
      SplitJoin(rest, c);
      assert [parts[0]] + rest == parts;
    }
  }
}
