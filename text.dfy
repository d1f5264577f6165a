/** The JavaScript string primitives the generator leans on: `trim`,
    `startsWith`, `split` with a string separator and `Array.prototype.join`.
 */
module Text {

  /** The characters `String.prototype.trim` removes: ECMAScript WhiteSpace
      (TAB, VT, FF, ZWNBSP and the space separators of category Zs) and the
      LineTerminators (LF, CR, LS, PS). */
  predicate IsWhitespace(c: char) {
    c == '\t' || c == '\n' || c == '\U{B}' || c == '\U{C}' || c == '\r'
    || c == ' ' || c == '\U{A0}' || c == '\U{1680}'
    || ('\U{2000}' <= c <= '\U{200A}')
    || c == '\U{2028}' || c == '\U{2029}' || c == '\U{202F}' || c == '\U{205F}'
    || c == '\U{3000}' || c == '\U{FEFF}'
  }

  predicate AllWhitespace(s: string) {
    forall i :: 0 <= i < |s| ==> IsWhitespace(s[i])
  }

  /** `s.startsWith(p)` */
  predicate StartsWith(s: string, p: string) {
    |p| <= |s| && s[..|p|] == p
  }

  /** `s.endsWith(p)`, which is what an anchored `/p$/` tests. */
  predicate EndsWith(s: string, p: string) {
    |p| <= |s| && s[|s| - |p|..] == p
  }

  /** `pat` occurs somewhere in `s`. */
  ghost predicate Contains(s: string, pat: string) {
    exists i :: 0 <= i <= |s| && StartsWith(s[i..], pat)
  }

  lemma {:induction false} SliceSnoc<T>(s: seq<T>, lo: nat, hi: nat)
    requires lo <= hi < |s|
    ensures s[lo..hi + 1] == s[lo..hi] + [s[hi]]
  {
  }

  lemma {:induction false} AppendAssoc<T>(a: seq<T>, b: seq<T>, c: seq<T>)
    ensures (a + b) + c == a + (b + c)
  {
  }

  /** `s.trimStart()` */
  function TrimStart(s: string): string {
    if s != [] && IsWhitespace(s[0]) then TrimStart(s[1..]) else s
  }

  /** `s.trimEnd()` */
  function TrimEnd(s: string): string {
    if s != [] && IsWhitespace(s[|s| - 1]) then TrimEnd(s[..|s| - 1]) else s
  }

  /** `s.trim()`: no longer than `s`, and without whitespace at either edge. */
  function Trim(s: string): (r: string)
    ensures |r| <= |s|
    ensures r == [] || (!IsWhitespace(r[0]) && !IsWhitespace(r[|r| - 1]))
  {
    TrimStartSpec(s);
    TrimEndSpec(TrimStart(s));
    TrimEnd(TrimStart(s))
  }

  /** Leading whitespace removed: a suffix of `s`, all it drops is
      whitespace, and it does not itself start with whitespace. */
  lemma {:induction false} TrimStartSpec(s: string)
    ensures var r := TrimStart(s);
      |r| <= |s| && r == s[|s| - |r|..] && AllWhitespace(s[..|s| - |r|])
      && (r == [] || !IsWhitespace(r[0]))
  {
    if s != [] && IsWhitespace(s[0]) {
      TrimStartSpec(s[1..]);
      var r := TrimStart(s);
      assert s[..|s| - |r|] == [s[0]] + s[1..][..|s| - 1 - |r|];
    }
  }

  /** Trailing whitespace removed: a prefix of `s`, all it drops is
      whitespace, and it does not itself end with whitespace. */
  lemma {:induction false} TrimEndSpec(s: string)
    ensures var r := TrimEnd(s);
      |r| <= |s| && r == s[..|r|] && AllWhitespace(s[|r|..])
      && (r == [] || !IsWhitespace(r[|r| - 1]))
  {
    if s != [] && IsWhitespace(s[|s| - 1]) {
      TrimEndSpec(s[..|s| - 1]);
      var r := TrimEnd(s);
      assert s[|r|..] == s[..|s| - 1][|r|..] + [s[|s| - 1]];
    }
  }

  /** `s.trim()` is the middle of `s` between a whitespace-only head and a
      whitespace-only tail, with no whitespace at either edge. It is empty
      exactly when `s` is blank, and a text that starts with a visible
      character keeps it. */
  lemma {:induction false} TrimSpec(s: string)
    ensures var r := Trim(s);
      (r == [] || (!IsWhitespace(r[0]) && !IsWhitespace(r[|r| - 1])))
      && (exists lo :: 0 <= lo <= |s| - |r| && s[lo..][..|r|] == r
                       && AllWhitespace(s[..lo]) && AllWhitespace(s[lo..][|r|..]))
      && (r == [] <==> AllWhitespace(s))
      && (|s| > 0 && !IsWhitespace(s[0]) ==> |r| > 0 && r[0] == s[0])
  {
    var t := TrimStart(s);
    var r := TrimEnd(t);
    TrimStartSpec(s);
    TrimEndSpec(t);
    assert s[|s| - |t|..] == t;
    assert s[|s| - |t|..][..|r|] == r;
    if r == [] {
      assert t[|r|..] == t;
      assert t == [];
      assert s[..|s| - |t|] == s;
    }
  }

  /** Leading whitespace is skipped whatever follows it. */
  lemma {:induction false} TrimStartSkip(w: string, x: string)
    requires AllWhitespace(w)
    ensures TrimStart(w + x) == TrimStart(x)
  {
    if w != [] {
      assert (w + x)[1..] == w[1..] + x;
      TrimStartSkip(w[1..], x);
    } else {
      assert w + x == x;
    }
  }

  /** Trailing whitespace is skipped whatever precedes it. */
  lemma {:induction false} TrimEndSkip(x: string, w: string)
    requires AllWhitespace(w)
    ensures TrimEnd(x + w) == TrimEnd(x)
  {
    if w != [] {
      var n := |w| - 1;
      assert (x + w)[..|x + w| - 1] == x + w[..n];
      assert (x + w)[|x + w| - 1] == w[n];
      TrimEndSkip(x, w[..n]);
    } else {
      assert x + w == x;
    }
  }

  /** `trim` only removes characters. */
  lemma {:induction false} TrimKeeps(s: string, c: char)
    requires c !in s
    ensures c !in Trim(s)
  {
    TrimSpec(s);
    var r := Trim(s);
    var lo :| 0 <= lo <= |s| - |r| && s[lo..][..|r|] == r
              && AllWhitespace(s[..lo]) && AllWhitespace(s[lo..][|r|..]);
    forall i | 0 <= i < |r| ensures r[i] != c {
      assert r[i] == s[lo + i];
    }
  }

  /** The text before a `c` at position `k` that has no earlier `c`. */
  lemma {:induction false} TakeUntilAt(s: string, c: char, k: nat)
    requires k < |s| && s[k] == c && c !in s[..k]
    ensures TakeUntil(s, c) == s[..k]
  {
    if k > 0 {
      assert s[0] == s[..k][0];
      assert s[1..][..k - 1] == s[..k][1..];
      TakeUntilAt(s[1..], c, k - 1);
      assert s[..k] == [s[0]] + s[1..][..k - 1];
    }
  }

  /** `s.split(pat)` for a non-empty separator: the pieces between the
      leftmost non-overlapping occurrences of `pat`. There is always at
      least one piece, and the first is a prefix of `s`. */
  function SplitOn(s: string, pat: string): (r: seq<string>)
    requires pat != []
    ensures |r| >= 1 && StartsWith(s, r[0])
    decreases |s|
  {
    if StartsWith(s, pat) then [""] + SplitOn(s[|pat|..], pat)
    else if s == [] then [""]
    else
      var rest := SplitOn(s[1..], pat);
      [[s[0]] + rest[0]] + rest[1..]
  }

  /** `parts.join(sep)` */
  function Join(parts: seq<string>, sep: string): string {
    if |parts| == 0 then ""
    else if |parts| == 1 then parts[0]
    else parts[0] + sep + Join(parts[1..], sep)
  }

  /** The text of `s` before the first `c` (all of `s` when there is none). */
  function TakeUntil(s: string, c: char): (r: string)
    ensures StartsWith(s, r) && c !in r
    ensures |r| == |s| || s[|r|] == c
  {
    if s == [] || s[0] == c then "" else [s[0]] + TakeUntil(s[1..], c)
  }

  lemma {:induction false} JoinCons(c: char, parts: seq<string>, sep: string)
    requires |parts| >= 1
    ensures Join([[c] + parts[0]] + parts[1..], sep) == [c] + Join(parts, sep)
  {
    var q := [[c] + parts[0]] + parts[1..];
    if |parts| > 1 {
      assert q[1..] == parts[1..];
    }
  }

  lemma {:induction false} JoinEmptyHead(parts: seq<string>, sep: string)
    requires |parts| >= 1
    ensures Join([""] + parts, sep) == sep + Join(parts, sep)
  {
    assert ([""] + parts)[1..] == parts;
  }

  /** Splitting and joining with the same separator gives back the text. */
  lemma {:induction false} JoinSplit(s: string, pat: string)
    requires pat != []
    ensures Join(SplitOn(s, pat), pat) == s
    decreases |s|
  {
    if StartsWith(s, pat) {
      JoinSplit(s[|pat|..], pat);
      JoinEmptyHead(SplitOn(s[|pat|..], pat), pat);
      assert s == pat + s[|pat|..];
    } else if s == [] {
    } else {
      JoinSplit(s[1..], pat);
      JoinCons(s[0], SplitOn(s[1..], pat), pat);
      assert s == [s[0]] + s[1..];
    }
  }

  /** No piece of a split still contains the separator: every occurrence
      was cut at. */
  lemma {:induction false} SplitPiecesFree(s: string, pat: string)
    requires pat != []
    ensures forall p :: p in SplitOn(s, pat) ==> !Contains(p, pat)
    decreases |s|
  {
    if StartsWith(s, pat) {
      SplitPiecesFree(s[|pat|..], pat);
      assert !Contains("", pat);
    } else if s == [] {
      assert !Contains("", pat);
    } else {
      var rest := SplitOn(s[1..], pat);
      SplitPiecesFree(s[1..], pat);
      var head := [s[0]] + rest[0];
      assert StartsWith(s, head) by {
        assert s[1..][..|rest[0]|] == rest[0];
      }
      forall i | 0 <= i <= |head| ensures !StartsWith(head[i..], pat) {
        if i == 0 {
          if |pat| <= |head| {
            assert s[..|pat|] == head[..|pat|];
          }
        } else {
          assert head[i..] == rest[0][i - 1..];
          assert rest[0] in rest;
        }
      }
      assert !Contains(head, pat);
      forall p | p in rest[1..] ensures !Contains(p, pat) {
        assert p in rest;
      }
    }
  }

  /** For a one-character separator, containment is membership. */
  lemma {:induction false} ContainsChar(s: string, c: char)
    ensures Contains(s, [c]) <==> c in s
  {
    if c in s {
      var i :| 0 <= i < |s| && s[i] == c;
      assert StartsWith(s[i..], [c]);
    }
    if Contains(s, [c]) {
      var i :| 0 <= i <= |s| && StartsWith(s[i..], [c]);
      assert s[i] == c;
    }
  }

  /** A text free of `c` is a single piece. */
  lemma {:induction false} SplitWhole(x: string, c: char)
    requires c !in x
    ensures SplitOn(x, [c]) == [x]
  {
    if x != [] {
      SplitWhole(x[1..], c);
      assert x == [x[0]] + x[1..];
    }
  }

  /** A `c`-free head followed by `c` becomes the first piece. */
  lemma {:induction false} SplitAfter(x: string, c: char, rest: string)
    requires c !in x
    ensures SplitOn(x + [c] + rest, [c]) == [x] + SplitOn(rest, [c])
  {
    var s := x + [c] + rest;
    if x == [] {
      assert s[1..] == rest;
    } else {
      assert s[1..] == x[1..] + [c] + rest;
      SplitAfter(x[1..], c, rest);
      assert !StartsWith(s, [c]);
      assert [s[0]] + x[1..] == x;
    }
  }

  /** Joining `c`-free pieces with `c` and splitting again gives the pieces. */
  lemma {:induction false} SplitJoin(parts: seq<string>, c: char)
    requires |parts| >= 1
    requires forall p :: p in parts ==> c !in p
    ensures SplitOn(Join(parts, [c]), [c]) == parts
  {
    if |parts| == 1 {
      SplitWhole(parts[0], c);
    } else {
      assert forall p :: p in parts[1..] ==> p in parts;
      SplitJoin(parts[1..], c);
      SplitAfter(parts[0], c, Join(parts[1..], [c]));
      assert parts == [parts[0]] + parts[1..];
    }
  }

  /** The first piece of a split on `c` is the text before the first `c`. */
  lemma {:induction false} FirstPiece(s: string, c: char)
    ensures SplitOn(s, [c])[0] == TakeUntil(s, c)
  {
    if s != [] && s[0] != c {
      FirstPiece(s[1..], c);
    }
  }

  /** A join starts with its first part. */
  lemma {:induction false} JoinHead(parts: seq<string>, sep: string)
    requires |parts| >= 1
    ensures StartsWith(Join(parts, sep), parts[0])
  {
    if |parts| > 1 {
      assert (parts[0] + sep + Join(parts[1..], sep))[..|parts[0]|] == parts[0];
    }
  }

  lemma {:induction false} SuffixOfSuffix(s: string, p: string, q: string)
    requires EndsWith(s, p) && EndsWith(p, q)
    ensures EndsWith(s, q)
  {
    assert s[|s| - |q|..] == s[|s| - |p|..][|p| - |q|..];
  }

  /** A join ends with its last part. */
  lemma {:induction false} JoinLast(parts: seq<string>, sep: string)
    requires |parts| >= 1
    ensures EndsWith(Join(parts, sep), parts[|parts| - 1])
  {
    if |parts| > 1 {
      var rest := Join(parts[1..], sep);
      JoinLast(parts[1..], sep);
      var j := parts[0] + sep + rest;
      assert j[|j| - |rest|..] == rest;
      SuffixOfSuffix(j, rest, parts[|parts| - 1]);
    }
  }

  /** A character that appears in a join comes from a part or the separator. */
  lemma {:induction false} JoinFree(parts: seq<string>, sep: string, c: char)
    requires c !in sep
    requires forall p :: p in parts ==> c !in p
    ensures c !in Join(parts, sep)
  {
    if |parts| > 1 {
      assert forall p :: p in parts[1..] ==> p in parts;
      JoinFree(parts[1..], sep, c);
    }
  }
}
