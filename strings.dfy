/**
 * The few string operations of the Python runtime the core relies on:
 * `str.find` for one character, `str.strip()` with no argument and
 * `str.split(sep)` for a one-character separator, with `sep.join` as the
 * inverse of the last.
 */
module Strings {

  predicate StartsWith(s: string, prefix: string) {
    |prefix| <= |s| && s[..|prefix|] == prefix
  }

  predicate EndsWith(s: string, suffix: string) {
    |suffix| <= |s| && s[|s| - |suffix|..] == suffix
  }

  lemma StartsWithConcat(x: string, y: string)
    ensures StartsWith(x + y, x)
  {
    assert (x + y)[..|x|] == x;
  }

  lemma EndsWithConcat(x: string, y: string)
    ensures EndsWith(x + y, y)
  {
    assert (x + y)[|x + y| - |y|..] == y;
  }

  lemma DropPrefix(x: string, y: string)
    ensures (x + y)[|x|..] == y
  {
  }

  lemma ConcatAssoc<T>(a: seq<T>, b: seq<T>, c: seq<T>)
    ensures a + b + c == a + (b + c)
  {
  }

  /** The characters for which Python's `str.isspace()` holds. */
  predicate IsSpace(c: char) {
    || c == ' '
    || ('\t' <= c <= '\r')
    || ('\U{1c}' <= c <= '\U{1f}')
    || c == '\U{85}' || c == '\U{a0}' || c == '\U{1680}'
    || ('\U{2000}' <= c <= '\U{200a}')
    || c == '\U{2028}' || c == '\U{2029}' || c == '\U{202f}'
    || c == '\U{205f}' || c == '\U{3000}'
  }

  predicate AllSpace(s: string) {
    forall i :: 0 <= i < |s| ==> IsSpace(s[i])
  }

  /** A string that `strip()` leaves alone: empty, or no white space at either end. */
  predicate Trimmed(s: string) {
    s == [] || (!IsSpace(s[0]) && !IsSpace(s[|s| - 1]))
  }

  /** `s.find(c)`: the index of the first `c` in `s`, or -1 when there is none. */
  function Find(s: string, c: char): (i: int)
    ensures -1 <= i < |s|
    ensures i == -1 <==> c !in s
    ensures 0 <= i ==> s[i] == c && c !in s[..i]
  {
    if s == [] then -1
    else if s[0] == c then 0
    else
      var j := Find(s[1..], c);
      if j == -1 then -1
      else
        assert s[..j + 1] == [s[0]] + s[1..][..j];
        j + 1
  }

  /** A position holding `c` with no `c` before it is what `find` returns. */
  lemma FindAt(s: string, c: char, k: nat)
    requires k < |s| && s[k] == c && c !in s[..k]
    ensures Find(s, c) == k
  {
    assert c in s by { assert s[k] == c; }
  }

  /** `s.lstrip()`: drops the leading white space. */
  function LeftStrip(s: string): string {
    if s != [] && IsSpace(s[0]) then LeftStrip(s[1..]) else s
  }

  /** `s.rstrip()`: drops the trailing white space. */
  function RightStrip(s: string): string {
    if s != [] && IsSpace(s[|s| - 1]) then RightStrip(s[..|s| - 1]) else s
  }

  /** `s.strip()`: drops the white space at both ends. */
  function Strip(s: string): string {
    RightStrip(LeftStrip(s))
  }

  /** `lstrip()` keeps a suffix that does not start with white space, and drops only white space. */
  lemma {:induction false} LeftStripSuffix(s: string)
    ensures var r := LeftStrip(s);
            |r| <= |s| && r == s[|s| - |r|..] && AllSpace(s[..|s| - |r|]) && (r == [] || !IsSpace(r[0]))
  {
    if s != [] && IsSpace(s[0]) {
      LeftStripSuffix(s[1..]);
      var r := LeftStrip(s[1..]);
      assert s[..|s| - |r|] == [s[0]] + s[1..][..|s| - 1 - |r|];
    }
  }

  /** `rstrip()` keeps a prefix that does not end with white space, and drops only white space. */
  lemma {:induction false} RightStripPrefix(s: string)
    ensures var r := RightStrip(s);
            |r| <= |s| && r == s[..|r|] && AllSpace(s[|r|..]) && (r == [] || !IsSpace(r[|r| - 1]))
  {
    if s != [] && IsSpace(s[|s| - 1]) {
      RightStripPrefix(s[..|s| - 1]);
      var r := RightStrip(s[..|s| - 1]);
      assert s[|r|..] == s[..|s| - 1][|r|..] + [s[|s| - 1]];
    }
  }

  /**
   * What `strip()` keeps is a slice of its input with no white space at
   * either end, and only white space around it.
   */
  lemma StripIsSlice(s: string)
    ensures var r := Strip(s);
            Trimmed(r) &&
            exists a :: 0 <= a <= a + |r| <= |s| && r == s[a..a + |r|]
                        && AllSpace(s[..a]) && AllSpace(s[a + |r|..])
  {
    var l := LeftStrip(s);
    LeftStripSuffix(s);
    RightStripPrefix(l);
    var r := RightStrip(l);
    var a := |s| - |l|;
    SliceOfSlice(s, a, |r|);
    assert r == Strip(s);
    assert 0 <= a <= a + |r| <= |s| && r == s[a..a + |r|] && AllSpace(s[..a]) && AllSpace(s[a + |r|..]);
  }

  lemma SliceOfSlice<T>(s: seq<T>, a: nat, n: nat)
    requires a + n <= |s|
    ensures s[a..][..n] == s[a..a + n] && s[a..][n..] == s[a + n..]
  {
  }

  lemma {:induction false} LeftStripSkipsSpace(p: string, t: string)
    requires AllSpace(p)
    ensures LeftStrip(p + t) == LeftStrip(t)
  {
    if p == [] {
      assert p + t == t;
    } else {
      assert (p + t)[0] == p[0] && IsSpace(p[0]);
      assert (p + t)[1..] == p[1..] + t;
      assert LeftStrip(p + t) == LeftStrip(p[1..] + t);
      LeftStripSkipsSpace(p[1..], t);
    }
  }

  lemma {:induction false} RightStripSkipsSpace(t: string, q: string)
    requires AllSpace(q)
    ensures RightStrip(t + q) == RightStrip(t)
  {
    if q == [] {
      assert t + q == t;
    } else {
      assert (t + q)[|t + q| - 1] == q[|q| - 1] && IsSpace(q[|q| - 1]);
      assert (t + q)[..|t + q| - 1] == t + q[..|q| - 1];
      assert RightStrip(t + q) == RightStrip(t + q[..|q| - 1]);
      RightStripSkipsSpace(t, q[..|q| - 1]);
    }
  }

  /** `strip()` undoes padding a trimmed string with white space on both sides. */
  lemma StripPadded(p: string, r: string, q: string)
    requires AllSpace(p) && AllSpace(q) && Trimmed(r)
    ensures Strip(p + r + q) == r
  {
    assert p + r + q == p + (r + q);
    LeftStripSkipsSpace(p, r + q);
    if r == [] {
      assert r + q == q + [];
      LeftStripSkipsSpace(q, []);
      assert LeftStrip(p + r + q) == [];
    } else {
      assert (r + q)[0] == r[0];
      assert LeftStrip(p + r + q) == r + q;
      RightStripSkipsSpace(r, q);
      assert r[|r| - 1] == r[|r| - 1];
    }
  }

  /** Every piece stripped, in order. */
  function StripAll(pieces: seq<string>): (r: seq<string>)
    ensures |r| == |pieces| && forall i :: 0 <= i < |pieces| ==> r[i] == Strip(pieces[i])
  {
    if pieces == [] then [] else [Strip(pieces[0])] + StripAll(pieces[1..])
  }

  lemma StripAllCons(head: string, tail: seq<string>)
    ensures StripAll([head] + tail) == [Strip(head)] + StripAll(tail)
  {
    assert ([head] + tail)[1..] == tail;
  }

  /** `sep.join(parts)`. */
  function Join(parts: seq<string>, sep: char): string
    requires |parts| >= 1
  {
    if |parts| == 1 then parts[0] else parts[0] + [sep] + Join(parts[1..], sep)
  }

  lemma HeadTail<T>(s: seq<T>)
    requires |s| >= 1
    ensures s == [s[0]] + s[1..]
  {
  }

  lemma ConcatTail<T>(a: seq<T>, b: seq<T>)
    requires |a| >= 1
    ensures (a + b)[0] == a[0] && (a + b)[1..] == a[1..] + b
  {
  }

  lemma SliceAround<T>(s: seq<T>, i: nat)
    requires i < |s|
    ensures s == s[..i] + [s[i]] + s[i + 1..]
  {
  }

  lemma JoinCons(head: string, tail: seq<string>, sep: char)
    requires |tail| >= 1
    ensures Join([head] + tail, sep) == head + [sep] + Join(tail, sep)
  {
    assert ([head] + tail)[1..] == tail;
  }

  /** `s.split(sep)`: the pieces between the separators, in order; never empty. */
  function Split(s: string, sep: char): (parts: seq<string>)
    ensures |parts| >= 1
    decreases |s|
  {
    var i := Find(s, sep);
    if i == -1 then [s] else [s[..i]] + Split(s[i + 1..], sep)
  }

  /** Joining the pieces of a split gives back the string. */
  lemma {:induction false} JoinSplit(s: string, sep: char)
    ensures Join(Split(s, sep), sep) == s
    decreases |s|
  {
    var i := Find(s, sep);
    if i == -1 {
      assert Split(s, sep) == [s];
    } else {
      var head, rest := s[..i], s[i + 1..];
      JoinSplit(rest, sep);
      JoinCons(head, Split(rest, sep), sep);
      SliceAround(s, i);
    }
  }

  /** No piece of a split holds the separator. */
  lemma {:induction false} SplitPieces(s: string, sep: char)
    ensures forall i :: 0 <= i < |Split(s, sep)| ==> sep !in Split(s, sep)[i]
    decreases |s|
  {
    var i := Find(s, sep);
    if i != -1 {
      var rest := s[i + 1..];
      SplitPieces(rest, sep);
      var parts, tail := Split(s, sep), Split(rest, sep);
      assert parts == [s[..i]] + tail;
      forall j | 0 <= j < |parts| ensures sep !in parts[j] {
        if j > 0 {
          assert parts[j] == tail[j - 1];
        }
      }
    }
  }

  lemma FindAfter(head: string, sep: char, tail: string)
    requires sep !in head
    ensures Find(head + [sep] + tail, sep) == |head|
  {
    var s := head + [sep] + tail;
    assert s[..|head|] == head;
    assert s[|head|] == sep;
  }

  /** Cutting a string at the first `sep`, placed right after `head`. */
  lemma SplitAround(head: string, sep: char, tail: string)
    requires sep !in head
    ensures var s := head + [sep] + tail;
            Find(s, sep) == |head| && s[..|head|] == head && s[|head| + 1..] == tail
  {
    FindAfter(head, sep, tail);
    var s := head + [sep] + tail;
    assert s[..|head|] == head && s[|head| + 1..] == tail;
  }

  lemma NotInSnoc(s: string, c: char, d: char)
    requires d !in s && c != d
    ensures d !in s + [c]
  {
  }

  lemma PrefixOfPrefix<T>(s: seq<T>, n: nat, m: nat)
    requires n <= m <= |s|
    ensures s[..m][..n] == s[..n]
  {
  }

  lemma SuffixOfSuffix<T>(s: seq<T>, a: nat, b: nat)
    requires a + b <= |s|
    ensures s[a..][b..] == s[a + b..]
  {
  }

  /** Splitting at a first separator gives the text before it, then the pieces of the rest. */
  lemma SplitAfter(head: string, sep: char, tail: string)
    requires sep !in head
    ensures Split(head + [sep] + tail, sep) == [head] + Split(tail, sep)
  {
    var s := head + [sep] + tail;
    FindAfter(head, sep, tail);
    assert s[..|head|] == head && s[|head| + 1..] == tail;
  }

  /** Splitting a joined sequence gives back its parts when none holds the separator. */
  lemma {:induction false} SplitJoin(parts: seq<string>, sep: char)
    requires |parts| >= 1
    requires forall i :: 0 <= i < |parts| ==> sep !in parts[i]
    ensures Split(Join(parts, sep), sep) == parts
  {
    var s := Join(parts, sep);
    if |parts| == 1 {
      assert sep !in parts[0];
    } else {
      var head, tail := parts[0], Join(parts[1..], sep);
      assert s == head + [sep] + tail;
      assert sep !in head;
      SplitAfter(head, sep, tail);
      SplitJoin(parts[1..], sep);
      assert parts == [head] + parts[1..];
    }
  }
}
