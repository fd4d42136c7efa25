/** String primitives shared by the views, the contact form and the
    settings: Python's whitespace `strip`, `rstrip`, `split` on one
    separator character, `join`, case-insensitive substring search and the
    text ordering the database uses for ORDER BY on a text column. */
module Strings {

  /** The characters Python's `str.isspace` accepts, i.e. the ones that
      `str.strip()` with no argument removes. */
  predicate IsSpace(c: char) {
    || c == ' ' || c == '\t' || c == '\n' || c == '\r' || c == '\U{B}' || c == '\U{C}'
    || ('\U{1C}' <= c <= '\U{1F}') || c == '\U{85}' || c == '\U{A0}' || c == '\U{1680}'
    || ('\U{2000}' <= c <= '\U{200A}') || c == '\U{2028}' || c == '\U{2029}'
    || c == '\U{202F}' || c == '\U{205F}' || c == '\U{3000}'
  }

  ghost predicate AllSpace(s: string) {
    forall i :: 0 <= i < |s| ==> IsSpace(s[i])
  }

  /** Neither end of `s` is whitespace: `s` is a fixed point of `strip`. */
  predicate NoEdgeSpace(s: string) {
    s == [] || (!IsSpace(s[0]) && !IsSpace(s[|s| - 1]))
  }

  /** `s.lstrip()`. */
  function LStrip(s: string): (r: string)
    ensures |r| <= |s|
  {
    if s != [] && IsSpace(s[0]) then LStrip(s[1..]) else s
  }

  /** `s.rstrip()`. */
  function RStrip(s: string): (r: string)
    ensures |r| <= |s|
  {
    if s != [] && IsSpace(s[|s| - 1]) then RStrip(s[..|s| - 1]) else s
  }

  /** `lstrip` removes a run of whitespace from the front and stops at the first other character. */
  lemma {:induction false} LStripSpec(s: string)
    ensures LStrip(s) == s[|s| - |LStrip(s)|..]
    ensures AllSpace(s[..|s| - |LStrip(s)|])
    ensures LStrip(s) == [] || !IsSpace(LStrip(s)[0])
  {
    if s != [] && IsSpace(s[0]) {
      LStripSpec(s[1..]);
    }
  }

  /** `rstrip` removes a run of whitespace from the end and stops at the last other character. */
  lemma {:induction false} RStripSpec(s: string)
    ensures RStrip(s) == s[..|RStrip(s)|]
    ensures AllSpace(s[|RStrip(s)|..])
    ensures RStrip(s) == [] || !IsSpace(RStrip(s)[|RStrip(s)| - 1])
  {
    if s != [] && IsSpace(s[|s| - 1]) {
      var u := s[..|s| - 1];
      RStripSpec(u);
      var n := |RStrip(s)|;
      assert u[..n] == s[..n];
      assert s[n..] == u[n..] + [s[|s| - 1]];
    }
  }

  /** `r` is what `s.strip()` returns: `s` with only whitespace cut from
      both ends, and no whitespace left at either end. */
  ghost predicate IsStripOf(r: string, s: string) {
    && NoEdgeSpace(r)
    && exists i, j {:trigger s[i..j]} :: 0 <= i <= j <= |s| && r == s[i..j] && AllSpace(s[..i]) && AllSpace(s[j..])
  }

  /** `s.strip()`. */
  function Strip(s: string): (r: string)
  {
    RStrip(LStrip(s))
  }

  /** What `strip` leaves is a piece of the original with only whitespace
      cut away at each end and none left at either end. */
  lemma StripSpec(s: string)
    ensures IsStripOf(Strip(s), s)
  {
    var l := LStrip(s);
    var r := RStrip(l);
    LStripSpec(s);
    RStripSpec(l);
    var i := |s| - |l|;
    assert s[i..] == l;
    assert l[|r|..] == s[i + |r|..];
    assert r == s[i..i + |r|];
  }

  lemma {:induction false} LStripIdentity(s: string)
    requires s == [] || !IsSpace(s[0])
    ensures LStrip(s) == s
  {
  }

  lemma {:induction false} RStripIdentity(s: string)
    requires s == [] || !IsSpace(s[|s| - 1])
    ensures RStrip(s) == s
  {
  }

  /** A string with no whitespace at either end is its own strip, so
      stripping twice is stripping once. */
  lemma {:induction false} StripIdentity(s: string)
    requires NoEdgeSpace(s)
    ensures Strip(s) == s
  {
    LStripIdentity(s);
    RStripIdentity(s);
  }

  lemma StripIdempotent(s: string)
    ensures Strip(Strip(s)) == Strip(s)
  {
    StripSpec(s);
    StripIdentity(Strip(s));
  }

  /** Python's `sep.join(parts)`. */
  function Join(parts: seq<string>, sep: string): string {
    if |parts| == 0 then []
    else if |parts| == 1 then parts[0]
    else parts[0] + sep + Join(parts[1..], sep)
  }

  lemma {:induction false} JoinCons(p: string, ps: seq<string>, sep: string)
    requires |ps| >= 1
    ensures Join([p] + ps, sep) == p + sep + Join(ps, sep)
  {
    assert ([p] + ps)[1..] == ps;
  }

  /** Joining from the `i`-th piece on: that piece, the separator, and the rest joined. */
  lemma JoinSuffix(ps: seq<string>, i: nat, sep: string)
    requires i + 1 < |ps|
    ensures Join(ps[i..], sep) == ps[i] + sep + Join(ps[i + 1..], sep)
  {
    assert ps[i..][1..] == ps[i + 1..];
  }

  /** Python's `s.split(sep)` for a one-character separator: the pieces
      between separators, at least one, none of them holding `sep`, that
      `sep.join` puts back together into `s`. */
  function Split(s: string, sep: char): (parts: seq<string>)
    ensures |parts| >= 1
    ensures forall k :: 0 <= k < |parts| ==> sep !in parts[k]
    ensures Join(parts, [sep]) == s
  {
    if s == [] then [[]]
    else
      var rest := Split(s[1..], sep);
      if s[0] == sep then
        JoinCons([], rest, [sep]);
        [[]] + rest
      else
        var parts := [[s[0]] + rest[0]] + rest[1..];
        assert Join(parts, [sep]) == s by {
          if |rest| == 1 {
          } else {
            JoinCons(rest[0], rest[1..], [sep]);
            assert rest == [rest[0]] + rest[1..];
          }
        }
        parts
  }

  /** Splitting a joined list of separator-free pieces gives the pieces back. */
  lemma {:induction false} SplitJoin(parts: seq<string>, sep: char)
    requires |parts| >= 1
    requires forall k :: 0 <= k < |parts| ==> sep !in parts[k]
    ensures Split(Join(parts, [sep]), sep) == parts
  {
    if |parts| == 1 {
      SplitNoSep(parts[0], sep);
    } else {
      var tail := parts[1..];
      SplitJoin(tail, sep);
      SplitPrefix(parts[0], Join(tail, [sep]), sep);
    }
  }

  /** Splitting separator-free pieces joined to a last piece that may hold
      separators gives the pieces followed by the pieces of the last one. */
  lemma {:induction false} SplitJoinLast(parts: seq<string>, last: string, sep: char)
    requires forall k :: 0 <= k < |parts| ==> sep !in parts[k]
    ensures Split(Join(parts + [last], [sep]), sep) == parts + Split(last, sep)
  {
    if parts == [] {
      assert parts + [last] == [last];
    } else {
      var p0, rest := parts[0], parts[1..];
      var sl := Split(last, sep);
      ConsAppend(parts, [last]);
      ConsAppend(parts, sl);
      var tail := rest + [last];
      JoinCons(p0, tail, [sep]);
      var j := Join(tail, [sep]);
      SplitJoinLast(rest, last, sep);
      SplitPrefix(p0, j, sep);
    }
  }

  /** Splitting `a + sep + b` splits `a` and `b` apart: the pieces of `a`
      followed by the pieces of `b`. */
  lemma {:induction false} SplitConcat(a: string, b: string, sep: char)
    ensures Split(a + [sep] + b, sep) == Split(a, sep) + Split(b, sep)
  {
    var s := a + [sep] + b;
    if a == [] {
      assert s[1..] == b;
    } else {
      assert s[0] == a[0] && s[1..] == a[1..] + [sep] + b;
      SplitConcat(a[1..], b, sep);
      var ra := Split(a[1..], sep);
      var rest := Split(s[1..], sep);
      assert rest == ra + Split(b, sep);
      if a[0] != sep {
        assert rest[0] == ra[0] && rest[1..] == ra[1..] + Split(b, sep);
      }
    }
  }

  /** Appending to a non-empty sequence keeps its first element in front. */
  lemma ConsAppend<T>(s: seq<T>, t: seq<T>)
    requires s != []
    ensures s + t == [s[0]] + (s[1..] + t)
  {
  }

  lemma {:induction false} SplitNoSep(s: string, sep: char)
    requires sep !in s
    ensures Split(s, sep) == [s]
  {
    if s != [] {
      SplitNoSep(s[1..], sep);
    }
  }

  /** Splitting `p + sep + t`, where `p` holds no separator, yields `p` followed by the pieces of `t`. */
  lemma {:induction false} SplitPrefix(p: string, t: string, sep: char)
    requires sep !in p
    ensures Split(p + [sep] + t, sep) == [p] + Split(t, sep)
  {
    if p == [] {
      assert (p + [sep] + t)[1..] == t;
    } else {
      var s := p + [sep] + t;
      assert s[1..] == p[1..] + [sep] + t;
      SplitPrefix(p[1..], t, sep);
      var rest := Split(s[1..], sep);
      assert rest == [p[1..]] + Split(t, sep);
      assert rest[0] == p[1..] && rest[1..] == Split(t, sep);
      assert s[0] == p[0] && p[0] != sep;
      assert [s[0]] + rest[0] == p;
    }
  }

  /** The case folding used by `icontains`: ASCII upper-case letters become lower-case. */
  function FoldChar(c: char): char {
    if 'A' <= c <= 'Z' then (c as int + 32) as char else c
  }

  function Lower(s: string): (r: string)
    ensures |r| == |s|
  {
    seq(|s|, i requires 0 <= i < |s| => FoldChar(s[i]))
  }

  /** `needle` occurs in `hay` as a contiguous piece (SQL `LIKE '%needle%'`). */
  predicate Contains(hay: string, needle: string) {
    exists i :: 0 <= i <= |hay| - |needle| && OccursAt(hay, needle, i)
  }

  predicate OccursAt(hay: string, needle: string, i: nat) {
    i + |needle| <= |hay| && hay[i..i + |needle|] == needle
  }

  /** Django's `field__icontains=needle`. */
  predicate IContains(hay: string, needle: string) {
    Contains(Lower(hay), Lower(needle))
  }

  /** Every text contains the empty text, whatever its case. */
  lemma IContainsEmpty(hay: string)
    ensures IContains(hay, "")
  {
    assert Lower("") == "";
    assert OccursAt(Lower(hay), Lower(""), 0);
  }

  /** Text ordering of ORDER BY on a text column: lexicographic by code point. */
  predicate LexLe(a: string, b: string) {
    a == [] || (b != [] && (a[0] < b[0] || (a[0] == b[0] && LexLe(a[1..], b[1..]))))
  }

  lemma {:induction false} LexLeTotal(a: string, b: string)
    ensures LexLe(a, b) || LexLe(b, a)
  {
    if a != [] && b != [] && a[0] == b[0] {
      LexLeTotal(a[1..], b[1..]);
    }
  }

  lemma {:induction false} LexLeTransitive(a: string, b: string, c: string)
    requires LexLe(a, b) && LexLe(b, c)
    ensures LexLe(a, c)
  {
    if a != [] && b != [] && c != [] && a[0] == b[0] == c[0] {
      LexLeTransitive(a[1..], b[1..], c[1..]);
    }
  }
}
