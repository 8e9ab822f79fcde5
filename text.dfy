/** The case-insensitive search both views use:
    `text.toLowerCase().includes(term.toLowerCase())`. */
module Text {

  /** `toLowerCase` on one character, over the ASCII range. */
  function Lower(c: char): (r: char)
    ensures !('A' <= r <= 'Z')
    ensures !('A' <= c <= 'Z') ==> r == c
    ensures 'A' <= c <= 'Z' ==> 'a' <= r <= 'z' && r as int - c as int == 'a' as int - 'A' as int
  {
    if 'A' <= c <= 'Z' then (c as int - 'A' as int + 'a' as int) as char else c
  }

  /** `s.toLowerCase()`, character by character. */
  function LowerStr(s: string): (r: string)
    ensures |r| == |s|
    ensures forall i :: 0 <= i < |s| ==> r[i] == Lower(s[i])
  {
    if s == [] then [] else [Lower(s[0])] + LowerStr(s[1..])
  }

  /** `t` occurs in `s` starting at index `i`. */
  ghost predicate OccursAt(s: string, t: string, i: int)
  {
    0 <= i && i + |t| <= |s| && s[i..i + |t|] == t
  }

  /** `t` occurs somewhere in `s` as a contiguous block. */
  ghost predicate Occurs(s: string, t: string)
  {
    exists i :: OccursAt(s, t, i)
  }

  /** JavaScript's `s.includes(t)`: is `t` a prefix of `s` or of one of its suffixes?
      The empty string is included in every string; a longer one in none. */
  function Includes(s: string, t: string): (r: bool)
    ensures t <= s ==> r
    ensures r ==> |t| <= |s|
  {
    if t <= s then true
    else if s == [] then false
    else Includes(s[1..], t)
  }

  /** `Includes` holds exactly when `t` occurs in `s`. */
  lemma {:induction false} IncludesIffOccurs(s: string, t: string)
    ensures Includes(s, t) <==> Occurs(s, t)
  {
    if t <= s {
      assert OccursAt(s, t, 0);
    } else if s != [] {
      IncludesIffOccurs(s[1..], t);
      if Includes(s[1..], t) {
        var i :| OccursAt(s[1..], t, i);
        assert 0 <= i && i + |t| <= |s| - 1;
        assert s[i + 1..i + 1 + |t|] == s[1..][i..i + |t|];
        assert OccursAt(s, t, i + 1);
      }
      if exists i :: OccursAt(s, t, i) {
        var i :| OccursAt(s, t, i);
        assert i != 0;
        assert s[1..][i - 1..i - 1 + |t|] == s[i..i + |t|];
        assert OccursAt(s[1..], t, i - 1);
      }
    }
  }

  /** Lower-casing twice is lower-casing once. */
  lemma LowerStrIdempotent(s: string)
    ensures LowerStr(LowerStr(s)) == LowerStr(s)
  {
  }

  /** Case-insensitive containment: the lower-cased `term` occurs in the lower-cased `text`.
      An empty term is contained in every text. */
  function MatchesTerm(text: string, term: string): (r: bool)
    ensures r <==> Occurs(LowerStr(text), LowerStr(term))
    ensures term == [] ==> r
  {
    var (lowText, lowTerm) := (LowerStr(text), LowerStr(term));
    IncludesIffOccurs(lowText, lowTerm);
    assert term == [] ==> OccursAt(lowText, lowTerm, 0);
    Includes(lowText, lowTerm)
  }

  /** The search ignores case on both sides: lower-casing the text or the term first
      changes no answer. */
  lemma MatchesTermIgnoresCase(text: string, term: string)
    ensures MatchesTerm(LowerStr(text), term) == MatchesTerm(text, term)
    ensures MatchesTerm(text, LowerStr(term)) == MatchesTerm(text, term)
  {
    LowerStrIdempotent(text);
    LowerStrIdempotent(term);
  }
}
