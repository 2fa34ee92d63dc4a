/**
 * String helpers shared by the Go and JavaScript code: `strings.Split` / `String.prototype.split`
 * with a non-empty separator, prefixes, trimming (`strings.TrimSpace`, `strings.TrimLeft`) and
 * `strings.Repeat`. Strings are sequences of Unicode code points.
 */
module Strings {

  /** `sep` occurs in `s` starting at index `k`. */
  predicate OccursAt(s: string, sep: string, k: int) {
    0 <= k && k + |sep| <= |s| && s[k..k + |sep|] == sep
  }

  ghost predicate Contains(s: string, sep: string) {
    exists k :: OccursAt(s, sep, k)
  }

  /** Index of the first occurrence of `sep` in `s`, or -1. */
  function IndexOf(s: string, sep: string): (r: int)
    requires |sep| > 0
    ensures r == -1 || OccursAt(s, sep, r)
    ensures forall k :: 0 <= k && (r == -1 || k < r) ==> !OccursAt(s, sep, k)
    decreases |s|
  {
    if |s| < |sep| then -1
    else if s[..|sep|] == sep then 0
    else
      var j := IndexOf(s[1..], sep);
      assert forall k :: 1 <= k && OccursAt(s, sep, k) ==> OccursAt(s[1..], sep, k - 1) by {
        forall k | 1 <= k && OccursAt(s, sep, k) ensures OccursAt(s[1..], sep, k - 1) {
          assert s[1..][k - 1..k - 1 + |sep|] == s[k..k + |sep|];
        }
      }
      if j == -1 then -1
      else
        assert s[1..][j..j + |sep|] == s[j + 1..j + 1 + |sep|];
        j + 1
  }

  /** Left-to-right, non-overlapping split, as Go's `strings.Split` and JavaScript's `split` do. */
  function Split(s: string, sep: string): (parts: seq<string>)
    requires |sep| > 0
    ensures |parts| >= 1
    decreases |s|
  {
    var i := IndexOf(s, sep);
    if i == -1 then [s] else [s[..i]] + Split(s[i + |sep|..], sep)
  }

  /** Inverse of `Split`: the parts glued back together with the separator. */
  function Join(parts: seq<string>, sep: string): string
    requires |parts| >= 1
  {
    if |parts| == 1 then parts[0] else parts[0] + sep + Join(parts[1..], sep)
  }

  /** One step of `Split`: the text before the first separator, then the split of the rest. */
  lemma SplitStep(s: string, sep: string)
    requires |sep| > 0 && IndexOf(s, sep) != -1
    ensures var i := IndexOf(s, sep);
      && Split(s, sep) == [s[..i]] + Split(s[i + |sep|..], sep)
      && s == s[..i] + sep + s[i + |sep|..]
  {
    var i := IndexOf(s, sep);
    assert s[i..i + |sep|] == sep;
    SliceAround(s, i, i + |sep|);
  }

  lemma SliceOfPrefix(s: string, n: int, i: int, j: int)
    requires 0 <= i <= j <= n <= |s|
    ensures s[..n][i..j] == s[i..j]
  {
  }

  lemma SliceAround(s: string, i: int, j: int)
    requires 0 <= i <= j <= |s|
    ensures s == s[..i] + s[i..j] + s[j..]
  {
  }

  lemma JoinCons(a: string, tail: seq<string>, sep: string)
    requires |tail| >= 1
    ensures Join([a] + tail, sep) == a + sep + Join(tail, sep)
  {
    assert ([a] + tail)[1..] == tail;
  }

  /** Splitting loses nothing: joining the parts gives back the input. */
  lemma {:induction false} SplitJoin(s: string, sep: string)
    requires |sep| > 0
    ensures Join(Split(s, sep), sep) == s
    decreases |s|
  {
    var i := IndexOf(s, sep);
    if i != -1 {
      var rest := s[i + |sep|..];
      SplitJoin(rest, sep);
      SplitStep(s, sep);
      JoinCons(s[..i], Split(rest, sep), sep);
    }
  }

  /** No part of a split holds the separator. */
  lemma {:induction false} SplitPartsFree(s: string, sep: string)
    requires |sep| > 0
    ensures forall j :: 0 <= j < |Split(s, sep)| ==> !Contains(Split(s, sep)[j], sep)
    decreases |s|
  {
    var i := IndexOf(s, sep);
    if i == -1 {
    } else {
      var rest := s[i + |sep|..];
      SplitPartsFree(rest, sep);
      var parts := Split(s, sep);
      assert !Contains(s[..i], sep) by {
        forall k | 0 <= k ensures !OccursAt(s[..i], sep, k) {
          if k + |sep| <= i {
            SliceOfPrefix(s, i, k, k + |sep|);
            assert OccursAt(s[..i], sep, k) <==> OccursAt(s, sep, k);
          }
        }
      }
      forall j | 0 <= j < |parts| ensures !Contains(parts[j], sep) {
        if j > 0 { assert parts[j] == Split(rest, sep)[j - 1]; }
      }
    }
  }

  lemma OccursOne(s: string, c: char, k: int)
    ensures OccursAt(s, [c], k) <==> 0 <= k < |s| && s[k] == c
  {
    if 0 <= k < |s| {
      assert s[k..k + 1] == [s[k]];
    }
  }

  /** Appending a one-character separator moves its first occurrence only if there was none. */
  lemma IndexOfAppend(s: string, c: char)
    ensures IndexOf(s + [c], [c]) == if IndexOf(s, [c]) == -1 then |s| else IndexOf(s, [c])
  {
    var t := s + [c];
    var i := IndexOf(s, [c]);
    var bound := if i == -1 then |s| else i;
    OccursOne(t, c, bound);
    OccursOne(s, c, i);
    forall k | 0 <= k < bound ensures !OccursAt(t, [c], k) {
      OccursOne(s, c, k);
      OccursOne(t, c, k);
    }
    var r := IndexOf(t, [c]);
    assert r != -1 && !(r < bound) && !(bound < r);
  }

  /** A trailing one-character separator adds one empty part at the end. */
  lemma {:induction false} SplitTrailing(s: string, c: char)
    ensures Split(s + [c], [c]) == Split(s, [c]) + [""]
    decreases |s|
  {
    var i := IndexOf(s, [c]);
    if i == -1 {
      TrailingOnly(s, c);
    } else {
      TrailingStep(s, c);
      SplitTrailing(s[i + 1..], c);
    }
  }

  lemma TrailingOnly(s: string, c: char)
    requires IndexOf(s, [c]) == -1
    ensures Split(s + [c], [c]) == [s, ""]
  {
    var t := s + [c];
    IndexOfAppend(s, c);
    assert t[..|s|] == s && t[|s| + 1..] == [];
    assert Split([], [c]) == [""];
  }

  lemma TrailingStep(s: string, c: char)
    requires IndexOf(s, [c]) != -1
    ensures var i := IndexOf(s, [c]);
      && Split(s + [c], [c]) == [s[..i]] + Split(s[i + 1..] + [c], [c])
      && Split(s, [c]) == [s[..i]] + Split(s[i + 1..], [c])
  {
    var t := s + [c];
    var i := IndexOf(s, [c]);
    IndexOfAppend(s, c);
    assert t[..i] == s[..i] && t[i + 1..] == s[i + 1..] + [c];
  }

  /** The separator occurs nowhere in `s` exactly when splitting yields one part. */
  lemma SplitSingle(s: string, sep: string)
    requires |sep| > 0
    ensures |Split(s, sep)| == 1 <==> !Contains(s, sep)
  {
    if IndexOf(s, sep) != -1 {
      assert OccursAt(s, sep, IndexOf(s, sep));
    }
  }

  /** A separator that occurs exactly once splits the text in two around it. */
  lemma SplitOnce(s: string, sep: string, k: int)
    requires |sep| > 0 && OccursAt(s, sep, k)
    requires forall j :: OccursAt(s, sep, j) ==> j == k
    ensures Split(s, sep) == [s[..k], s[k + |sep|..]]
  {
    assert IndexOf(s, sep) == k;
    SplitStep(s, sep);
    NoneAfter(s, sep, k);
    assert Split(s[k + |sep|..], sep) == [s[k + |sep|..]];
  }

  /** After the only occurrence of the separator there is none. */
  lemma NoneAfter(s: string, sep: string, k: int)
    requires |sep| > 0 && 0 <= k && k + |sep| <= |s|
    requires forall j :: OccursAt(s, sep, j) ==> j == k
    ensures IndexOf(s[k + |sep|..], sep) == -1
  {
    var rest := s[k + |sep|..];
    forall j | 0 <= j ensures !OccursAt(rest, sep, j) {
      if j + |sep| <= |rest| {
        assert rest[j..j + |sep|] == s[k + |sep| + j..k + |sep| + j + |sep|];
        assert OccursAt(rest, sep, j) <==> OccursAt(s, sep, k + |sep| + j);
      }
    }
  }

  /** Two occurrences of the separator that do not overlap split the text in at least three. */
  lemma SplitTwice(s: string, sep: string, k1: int, k2: int)
    requires |sep| > 0 && OccursAt(s, sep, k1) && OccursAt(s, sep, k2) && k1 + |sep| <= k2
    ensures |Split(s, sep)| >= 3
  {
    var i := IndexOf(s, sep);
    var rest := s[i + |sep|..];
    var j := k2 - i - |sep|;
    assert rest[j..j + |sep|] == s[k2..k2 + |sep|];
    assert OccursAt(rest, sep, j);
    assert IndexOf(rest, sep) != -1;
  }

  predicate HasPrefix(s: string, p: string) {
    |p| <= |s| && s[..|p|] == p
  }

  /** Go's `unicode.IsSpace`: the Latin-1 spaces plus the Unicode White_Space code points. */
  predicate IsSpace(c: char) {
    c == '\t' || c == '\n' || c == '\U{000B}' || c == '\U{000C}' || c == '\r' || c == ' '
    || c == '\U{0085}' || c == '\U{00A0}' || c == '\U{1680}' || ('\U{2000}' <= c <= '\U{200A}')
    || c == '\U{2028}' || c == '\U{2029}' || c == '\U{202F}' || c == '\U{205F}' || c == '\U{3000}'
  }

  /** `strings.TrimLeft(s, cutset)`: drops the longest prefix made of characters of `cutset`. */
  function TrimLeft(s: string, cutset: set<char>): (r: string)
    ensures |r| <= |s| && r == s[|s| - |r|..]
    ensures forall i :: 0 <= i < |s| - |r| ==> s[i] in cutset
    ensures r == [] || r[0] !in cutset
  {
    if s != [] && s[0] in cutset then TrimLeft(s[1..], cutset) else s
  }

  function TrimLeftSpace(s: string): (r: string)
    ensures |r| <= |s| && r == s[|s| - |r|..]
    ensures forall i :: 0 <= i < |s| - |r| ==> IsSpace(s[i])
    ensures r == [] || !IsSpace(r[0])
  {
    if s != [] && IsSpace(s[0]) then TrimLeftSpace(s[1..]) else s
  }

  function TrimRightSpace(s: string): (r: string)
    ensures |r| <= |s| && r == s[..|r|]
    ensures forall i :: |r| <= i < |s| ==> IsSpace(s[i])
    ensures r == [] || !IsSpace(r[|r| - 1])
  {
    if s != [] && IsSpace(s[|s| - 1]) then TrimRightSpace(s[..|s| - 1]) else s
  }

  /** `strings.TrimSpace`. */
  function TrimSpace(s: string): (r: string)
    ensures r == [] || (!IsSpace(r[0]) && !IsSpace(r[|r| - 1]))
  {
    TrimRightSpace(TrimLeftSpace(s))
  }

  /** No white space at either end: `strings.TrimSpace` leaves such a string as it is. */
  predicate Trimmed(s: string) {
    s == [] || (!IsSpace(s[0]) && !IsSpace(s[|s| - 1]))
  }

  lemma TrimSpaceTrimmed(s: string)
    ensures TrimSpace(s) == s <==> Trimmed(s)
  {
    if Trimmed(s) && s != [] {
      assert TrimLeftSpace(s) == s;
    }
  }

  /** Leading white space makes no difference to `TrimLeftSpace`. */
  lemma {:induction false} TrimLeftSpaceSkip(a: string, b: string)
    requires forall i :: 0 <= i < |a| ==> IsSpace(a[i])
    ensures TrimLeftSpace(a + b) == TrimLeftSpace(b)
  {
    if a != [] {
      assert (a + b)[0] == a[0] && (a + b)[1..] == a[1..] + b;
      TrimLeftSpaceSkip(a[1..], b);
    } else {
      assert a + b == b;
    }
  }

  /** `TrimRightSpace` only looks at the end: a kept tail keeps everything before it. */
  lemma {:induction false} TrimRightSpaceAppend(a: string, b: string)
    requires TrimRightSpace(b) != []
    ensures TrimRightSpace(a + b) == a + TrimRightSpace(b)
  {
    if b != [] && IsSpace(b[|b| - 1]) {
      assert (a + b)[..|a + b| - 1] == a + b[..|b| - 1];
      TrimRightSpaceAppend(a, b[..|b| - 1]);
    }
  }

  /** Characters of the cutset before `b` make no difference to `TrimLeft`. */
  lemma {:induction false} TrimLeftSkip(a: string, b: string, cutset: set<char>)
    requires forall i :: 0 <= i < |a| ==> a[i] in cutset
    ensures TrimLeft(a + b, cutset) == TrimLeft(b, cutset)
  {
    if a != [] {
      assert (a + b)[0] == a[0] && (a + b)[1..] == a[1..] + b;
      TrimLeftSkip(a[1..], b, cutset);
    } else {
      assert a + b == b;
    }
  }

  /** `strings.TrimSpace` on text that starts with one space and then a non-space. */
  lemma TrimLeftOneSpace(rest: string)
    requires rest != [] && !IsSpace(rest[0])
    ensures TrimLeftSpace(" " + rest) == rest
  {
    TrimLeftSpaceSkip(" ", rest);
  }

  /** The right end of `core + " " + m` once trimmed: the space goes with an empty `m`. */
  lemma TrimRightSeparated(core: string, m: string)
    requires core != [] && !IsSpace(core[|core| - 1]) && Trimmed(m)
    ensures TrimRightSpace(core + " " + m) == if m == [] then core else core + " " + m
  {
    var s := core + " " + m;
    if m == [] {
      assert s[..|s| - 1] == core;
    } else {
      assert s[|s| - 1] == m[|m| - 1];
    }
  }

  /** `strings.TrimSpace` of " " + core + " " + m, for a core without white space at its ends and a trimmed m. */
  lemma TrimSpaceSeparated(core: string, m: string)
    requires core != [] && !IsSpace(core[0]) && !IsSpace(core[|core| - 1]) && Trimmed(m)
    ensures TrimSpace(" " + (core + " " + m)) == if m == [] then core else core + " " + m
  {
    TrimLeftOneSpace(core + " " + m);
    TrimRightSeparated(core, m);
  }

  /** `strings.TrimPrefix`. */
  function TrimPrefix(s: string, p: string): (r: string)
    ensures HasPrefix(s, p) ==> p + r == s
    ensures !HasPrefix(s, p) ==> r == s
  {
    if HasPrefix(s, p) then
      assert s == s[..|p|] + s[|p|..];
      s[|p|..]
    else s
  }

  /** `strings.Repeat(s, n)` for n >= 0. */
  function Repeat(s: string, n: nat): (r: string)
    ensures |r| == n * |s|
  {
    if n == 0 then [] else s + Repeat(s, n - 1)
  }

  // ---------------------------------------------------------------- UTF-8

  /** A byte of a Go string. */
  newtype Byte = x: int | 0 <= x < 0x100

  /** The UTF-8 encoding of one code point, which is how a Go string holds it. */
  function Utf8(c: char): (r: seq<Byte>)
    ensures 1 <= |r| <= 4
    ensures c as int < 0x80 ==> r == [c as int as Byte]
    ensures c as int >= 0x80 ==> forall i :: 0 <= i < |r| ==> r[i] >= 0x80
  {
    var n := c as int;
    if n < 0x80 then [n as Byte]
    else if n < 0x800 then [(0xC0 + n / 0x40) as Byte, (0x80 + n % 0x40) as Byte]
    else if n < 0x1_0000 then
      [(0xE0 + n / 0x1000) as Byte, (0x80 + n / 0x40 % 0x40) as Byte, (0x80 + n % 0x40) as Byte]
    else
      [(0xF0 + n / 0x4_0000 % 8) as Byte, (0x80 + n / 0x1000 % 0x40) as Byte,
       (0x80 + n / 0x40 % 0x40) as Byte, (0x80 + n % 0x40) as Byte]
  }

  /** The bytes of a string: `len` and slicing in Go count these, not code points. */
  function Bytes(s: string): (r: seq<Byte>)
    ensures |r| >= |s|
  {
    if s == [] then [] else Utf8(s[0]) + Bytes(s[1..])
  }

  lemma {:induction false} BytesAppend(a: string, b: string)
    ensures Bytes(a + b) == Bytes(a) + Bytes(b)
    decreases |a|
  {
    if a == [] {
      assert a + b == b;
    } else {
      assert (a + b)[0] == a[0] && (a + b)[1..] == a[1..] + b;
      BytesAppend(a[1..], b);
    }
  }

  /**
   * When the first `n` bytes of a string are ASCII, they are its first `n` code points, and the
   * bytes after them are the bytes of the code points after them.
   */
  lemma {:induction false} AsciiPrefix(s: string, n: nat)
    requires n <= |Bytes(s)| && forall i :: 0 <= i < n ==> Bytes(s)[i] < 0x80
    ensures n <= |s|
    ensures forall i :: 0 <= i < n ==> s[i] as int == Bytes(s)[i] as int
    ensures Bytes(s[n..]) == Bytes(s)[n..]
    decreases n
  {
    if n > 0 {
      assert s != [];
      var b := Bytes(s);
      assert b == Utf8(s[0]) + Bytes(s[1..]);
      assert s[0] as int < 0x80 by {
        assert b[0] == Utf8(s[0])[0];
      }
      assert b == [s[0] as int as Byte] + Bytes(s[1..]);
      assert forall i :: 0 <= i < n - 1 ==> Bytes(s[1..])[i] == b[i + 1];
      AsciiPrefix(s[1..], n - 1);
      assert s[1..][n - 1..] == s[n..];
      forall i | 0 <= i < n ensures s[i] as int == b[i] as int {
        if i > 0 {
          assert s[i] == s[1..][i - 1] && b[i] == Bytes(s[1..])[i - 1];
        }
      }
    }
  }
}
