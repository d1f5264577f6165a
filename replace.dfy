/** `s.replace(/pat/g, rep)` of JavaScript for a pattern that is a plain
    literal (as `/{{TITLE}}/g` is) and has no capture groups.
 */
module Replace {
  import opened Text

  /** ECMAScript GetSubstitution for a match without capture groups: in the
      replacement `$$` stands for `$`, `$&` for the matched text, `` $` `` for
      the text before the match and `$'` for the text after it; every other
      character, including any other `$`, is copied. A replacement without
      `$` is inserted as it is. */
  function Expand(rep: string, matched: string, before: string, after: string): (r: string)
    ensures '$' !in rep ==> r == rep
    decreases |rep|
  {
    if |rep| >= 2 && rep[0] == '$' && rep[1] in "$&`'" then
      (if rep[1] == '$' then "$"
       else if rep[1] == '&' then matched
       else if rep[1] == '`' then before
       else after)
      + Expand(rep[2..], matched, before, after)
    else if rep == [] then ""
    else [rep[0]] + Expand(rep[1..], matched, before, after)
  }

  /** The global replace scanning on from position `i`: at a match the
      expanded replacement is emitted and the scan resumes after the match,
      otherwise one character is copied. */
  function ReplaceFrom(s: string, pat: string, rep: string, i: nat): string
    requires pat != [] && i <= |s|
    decreases |s| - i
  {
    if StartsWith(s[i..], pat) then
      Expand(rep, pat, s[..i], s[i + |pat|..]) + ReplaceFrom(s, pat, rep, i + |pat|)
    else if i == |s| then ""
    else [s[i]] + ReplaceFrom(s, pat, rep, i + 1)
  }

  function ReplaceAll(s: string, pat: string, rep: string): string
    requires pat != []
  {
    ReplaceFrom(s, pat, rep, 0)
  }

  lemma {:induction false} ReplaceFromAbsent(s: string, pat: string, rep: string, i: nat)
    requires pat != [] && i <= |s|
    requires forall j :: i <= j <= |s| ==> !StartsWith(s[j..], pat)
    ensures ReplaceFrom(s, pat, rep, i) == s[i..]
    decreases |s| - i
  {
    if i < |s| {
      ReplaceFromAbsent(s, pat, rep, i + 1);
      assert s[i..] == [s[i]] + s[i + 1..];
    }
  }

  /** A pattern that does not occur leaves the text unchanged, whatever the
      replacement. */
  lemma {:induction false} ReplaceAllAbsent(s: string, pat: string, rep: string)
    requires pat != []
    requires !Contains(s, pat)
    ensures ReplaceAll(s, pat, rep) == s
  {
    ReplaceFromAbsent(s, pat, rep, 0);
  }

  lemma {:induction false} ReplaceFromLiteral(s: string, pat: string, rep: string, i: nat)
    requires pat != [] && i <= |s|
    requires '$' !in rep
    ensures ReplaceFrom(s, pat, rep, i) == Join(SplitOn(s[i..], pat), rep)
    decreases |s| - i
  {
    var t := s[i..];
    if StartsWith(t, pat) {
      ReplaceFromLiteral(s, pat, rep, i + |pat|);
      assert t[|pat|..] == s[i + |pat|..];
      JoinEmptyHead(SplitOn(t[|pat|..], pat), rep);
    } else if i == |s| {
    } else {
      ReplaceFromLiteral(s, pat, rep, i + 1);
      assert t[1..] == s[i + 1..];
      JoinCons(t[0], SplitOn(t[1..], pat), rep);
    }
  }

  /** With a `$`-free replacement the global replace cuts the text at every
      occurrence of the pattern (the pieces join back to the text and none
      of them still holds the pattern) and puts the replacement in every
      cut. */
  lemma {:induction false} ReplaceAllEvery(s: string, pat: string, rep: string)
    requires pat != []
    requires '$' !in rep
    ensures Join(SplitOn(s, pat), pat) == s
    ensures forall p :: p in SplitOn(s, pat) ==> !Contains(p, pat)
    ensures ReplaceAll(s, pat, rep) == Join(SplitOn(s, pat), rep)
  {
    JoinSplit(s, pat);
    SplitPiecesFree(s, pat);
    ReplaceFromLiteral(s, pat, rep, 0);
    assert s[0..] == s;
  }
}
