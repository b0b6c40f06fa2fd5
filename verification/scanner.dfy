/** Model of src/Bigode/Scanner.cs: a forward-only cursor over an immutable template string. */
module Scanning {

  /** `pat` occurs in `s` at position `p`, and `p` is a position of `s` (not its end). */
  predicate Occurs(s: string, p: int, pat: string) {
    0 <= p < |s| && p + |pat| <= |s| && s[p..p + |pat|] == pat
  }

  /** `pat` begins at no position of `s`. */
  predicate NoOccurrence(s: string, pat: string) {
    forall p | 0 <= p < |s| :: !Occurs(s, p, pat)
  }

  /** The scanner's state: the text it was built over and its cursor. */
  datatype Scanner = Scanner(input: string, cursor: nat)

  function Start(input: string): (sc: Scanner)
    ensures sc.input == input && sc.cursor == 0
  {
    Scanner(input, 0)
  }

  predicate IsEOF(sc: Scanner) {
    sc.cursor >= |sc.input|
  }

  /** Lookahead without moving: false at end of input, otherwise whether `pat` starts at the cursor
      (the empty pattern matches anywhere but at the end). */
  predicate Match(sc: Scanner, pat: string) {
    Occurs(sc.input, sc.cursor, pat)
  }

  /** Position `j` of `pat`, laid over the input at the cursor, agrees with the input. */
  predicate AgreesAt(sc: Scanner, pat: string, j: nat)
    requires j < |pat|
  {
    sc.cursor + j < |sc.input| && sc.input[sc.cursor + j] == pat[j]
  }

  /** The element-by-element comparison loop of `Match`, from index `i` of `pat` on: it fails at the
      first index that runs past the input or differs. */
  predicate MatchFrom(sc: Scanner, pat: string, i: nat)
    requires i <= |pat|
    decreases |pat| - i
  {
    if i == |pat| then true
    else if !AgreesAt(sc, pat, i) then false
    else MatchFrom(sc, pat, i + 1)
  }

  /** `Match` as the source writes it: the end-of-input test, then the comparison loop. */
  predicate MatchLoop(sc: Scanner, pat: string) {
    !IsEOF(sc) && MatchFrom(sc, pat, 0)
  }

  lemma {:induction false} MatchFromAll(sc: Scanner, pat: string, i: nat)
    requires i <= |pat|
    ensures MatchFrom(sc, pat, i) <==> forall j :: i <= j < |pat| ==> AgreesAt(sc, pat, j)
    decreases |pat| - i
  {
    if i < |pat| { MatchFromAll(sc, pat, i + 1); }
  }

  /** The comparison loop decides exactly whether `pat` occurs at the cursor; in particular the
      empty pattern matches everywhere except at the end of input. */
  lemma MatchLoopIsMatch(sc: Scanner, pat: string)
    ensures MatchLoop(sc, pat) <==> Match(sc, pat)
    ensures pat == [] ==> (MatchLoop(sc, pat) <==> !IsEOF(sc))
  {
    MatchFromAll(sc, pat, 0);
    var r := MatchLoop(sc, pat);
    assert r ==> sc.cursor + |pat| <= |sc.input| by {
      if r && |pat| > 0 {
        assert AgreesAt(sc, pat, |pat| - 1);
      }
    }
    assert r ==> sc.input[sc.cursor..sc.cursor + |pat|] == pat by {
      if r {
        forall j | 0 <= j < |pat| ensures sc.input[sc.cursor..sc.cursor + |pat|][j] == pat[j] {
          assert AgreesAt(sc, pat, j);
        }
      }
    }
    assert Match(sc, pat) ==> r by {
      if Match(sc, pat) {
        forall j | 0 <= j < |pat| ensures AgreesAt(sc, pat, j) {
          assert sc.input[sc.cursor..sc.cursor + |pat|][j] == pat[j];
        }
      }
    }
  }

  /** Moves the cursor forward by `n`, without clamping it to the input length. */
  function Advance(sc: Scanner, n: nat): (r: Scanner)
    ensures r.input == sc.input
    ensures r.cursor == sc.cursor + n
  {
    Scanner(sc.input, sc.cursor + n)
  }

  /** The `while (!IsEOF() && !Match(seq)) Advance();` loop of `ScanUntil`. */
  function SkipUntil(sc: Scanner, pat: string): (r: Scanner)
    requires sc.cursor <= |sc.input|
    ensures r.input == sc.input
    ensures sc.cursor <= r.cursor <= |sc.input|
    ensures r.cursor < |sc.input| ==> Occurs(sc.input, r.cursor, pat)
    decreases |sc.input| - sc.cursor, 1
  {
    if IsEOF(sc) then sc else SkipUnlessMatch(sc, pat)
  }

  /** The rest of the loop test, before the end of input: stop on a match, else advance and loop. */
  function SkipUnlessMatch(sc: Scanner, pat: string): (r: Scanner)
    requires sc.cursor < |sc.input|
    ensures r.input == sc.input
    ensures sc.cursor <= r.cursor <= |sc.input|
    ensures r.cursor < |sc.input| ==> Occurs(sc.input, r.cursor, pat)
    decreases |sc.input| - sc.cursor, 0
  {
    if Match(sc, pat) then sc else SkipUntil(Advance(sc, 1), pat)
  }

  /** The loop stops at the first occurrence: `pat` begins at no position it stepped over. */
  lemma {:induction false} SkipUntilFirst(sc: Scanner, pat: string)
    requires sc.cursor <= |sc.input|
    ensures forall p :: sc.cursor <= p < SkipUntil(sc, pat).cursor ==> !Occurs(sc.input, p, pat)
    decreases |sc.input| - sc.cursor
  {
    if !IsEOF(sc) {
      assert SkipUntil(sc, pat) == SkipUnlessMatch(sc, pat);
      if !Match(sc, pat) {
        SkipUntilFirst(Advance(sc, 1), pat);
      }
    }
  }

  /** Consumes input up to the first occurrence of `pat` at or after the cursor (or to the end) and
      returns the consumed text with the advanced scanner. The source slices `input[start..cursor]`,
      which demands `start <= length`. */
  function ScanUntil(sc: Scanner, pat: string): (r: (string, Scanner))
    requires sc.cursor <= |sc.input|
    ensures r.1.input == sc.input
    ensures sc.cursor <= r.1.cursor <= |sc.input|
    ensures r.0 == sc.input[sc.cursor..r.1.cursor]
    ensures r.1.cursor < |sc.input| ==> Match(r.1, pat)
  {
    var next := SkipUntil(sc, pat);
    (sc.input[sc.cursor..next.cursor], next)
  }

  /** `ScanUntil` consumes no occurrence of `pat`, and consumes everything when there is none. */
  lemma ScanUntilFirst(sc: Scanner, pat: string)
    requires sc.cursor <= |sc.input|
    ensures forall p :: sc.cursor <= p < ScanUntil(sc, pat).1.cursor ==> !Occurs(sc.input, p, pat)
    ensures (forall p :: sc.cursor <= p ==> !Occurs(sc.input, p, pat)) ==>
      ScanUntil(sc, pat).1.cursor == |sc.input| && ScanUntil(sc, pat).0 == sc.input[sc.cursor..]
  {
    SkipUntilFirst(sc, pat);
  }

  // ---------------------------------------------------------------- the search, on positions

  /** `r` is the first position at or after `from` where `pat` begins, or `|s|` when there is none. */
  predicate IsFirstOccurrence(s: string, from: nat, pat: string, r: nat) {
    from <= r <= |s|
    && (r < |s| ==> Occurs(s, r, pat))
    && (forall p :: from <= p < r ==> !Occurs(s, p, pat))
  }

  /** There is only one first occurrence. */
  lemma FirstOccurrenceUnique(s: string, from: nat, pat: string, a: nat, b: nat)
    requires IsFirstOccurrence(s, from, pat, a) && IsFirstOccurrence(s, from, pat, b)
    ensures a == b
  {
  }

  /** A first occurrence always exists, found by the same left-to-right search as `ScanUntil`'s. */
  lemma {:induction false} SearchFirst(s: string, from: nat, pat: string) returns (r: nat)
    requires from <= |s|
    ensures IsFirstOccurrence(s, from, pat, r)
    decreases |s| - from
  {
    if from == |s| || Occurs(s, from, pat) {
      r := from;
    } else {
      r := SearchFirst(s, from + 1, pat);
    }
  }

  lemma FirstOccurrenceExists(s: string, from: nat, pat: string)
    requires from <= |s|
    ensures exists r: nat :: IsFirstOccurrence(s, from, pat, r)
  {
    var r := SearchFirst(s, from, pat);
  }

  /** The first position at or after `from` where `pat` begins, or `|s|`: a reference, on plain
      positions, for where the loop of `ScanUntil` stops. */
  ghost function NextOccurrence(s: string, from: nat, pat: string): (r: nat)
    requires from <= |s|
    ensures from <= r <= |s|
    ensures r < |s| ==> r + |pat| <= |s|
  {
    FirstOccurrenceExists(s, from, pat);
    var r :| IsFirstOccurrence(s, from, pat, r); r
  }

  lemma NextOccurrenceIsFirst(s: string, from: nat, pat: string)
    requires from <= |s|
    ensures IsFirstOccurrence(s, from, pat, NextOccurrence(s, from, pat))
  {
  }

  /** The search stops at the first occurrence, whichever way that position is known. */
  lemma NextOccurrenceAt(s: string, from: nat, pat: string, q: nat)
    requires IsFirstOccurrence(s, from, pat, q)
    ensures NextOccurrence(s, from, pat) == q
  {
    NextOccurrenceIsFirst(s, from, pat);
    FirstOccurrenceUnique(s, from, pat, q, NextOccurrence(s, from, pat));
  }

  /** The loop of `ScanUntil` stops where the reference search does. */
  lemma SkipUntilIsNext(sc: Scanner, pat: string)
    requires sc.cursor <= |sc.input|
    ensures SkipUntil(sc, pat) == Scanner(sc.input, NextOccurrence(sc.input, sc.cursor, pat))
  {
    SkipUntilFirst(sc, pat);
    NextOccurrenceAt(sc.input, sc.cursor, pat, SkipUntil(sc, pat).cursor);
  }

  /** `ScanUntil` returns the text up to the first occurrence of `pat` (or the rest of the input),
      and leaves the cursor on that occurrence (or at the end). */
  lemma ScanUntilIsNext(sc: Scanner, pat: string)
    requires sc.cursor <= |sc.input|
    ensures var n := NextOccurrence(sc.input, sc.cursor, pat);
      ScanUntil(sc, pat) == (sc.input[sc.cursor..n], Scanner(sc.input, n))
    ensures IsFirstOccurrence(sc.input, sc.cursor, pat, ScanUntil(sc, pat).1.cursor)
  {
    SkipUntilIsNext(sc, pat);
    NextOccurrenceIsFirst(sc.input, sc.cursor, pat);
  }
}
