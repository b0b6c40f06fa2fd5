/** Properties of the tokenizer. The loop of `Tokenize` is first shown to read the same chunks as
    `Chunks`, a reference definition on plain positions; the shape lemmas (a template without tags,
    a template split around one tag, an unterminated tag, clean TEXT tokens) are then proved about
    that reference. */
module TokenizeProofs {
  import opened Wrappers
  import opened Models
  import opened Scanning
  import opened Parser

  // ---------------------------------------------------------------- reference definition

  /** The chunks of `s` from position `k` on, found with the position search: the text up to the
      next `{{`, and the interior up to the next `}}` after it (or up to the end of input). */
  ghost function Chunks(s: string, k: nat): seq<Chunk>
    decreases |s| - k, 1
  {
    if k >= |s| then [] else ChunksAt(s, k)
  }

  /** The chunks from a position of `s` on. Kept apart from `Chunks` so that a mention of the
      chunks of a text does not by itself expose two steps of the search. */
  ghost function ChunksAt(s: string, k: nat): seq<Chunk>
    requires k < |s|
    decreases |s| - k, 0
  {
    var i := NextOccurrence(s, k, OpenTag);
    if i == |s| then [Literal(s[k..])]
    else
      var j := NextOccurrence(s, i + 2, CloseTag);
      [Literal(s[k..i]), TagBody(s[i + 2..j])] + Chunks(s, j + 2)
  }

  lemma ChunksAtEnd(s: string, k: nat)
    requires k < |s| && NextOccurrence(s, k, OpenTag) == |s|
    ensures Chunks(s, k) == [Literal(s[k..])]
  {
    assert Chunks(s, k) == ChunksAt(s, k);
  }

  lemma ChunksAtTag(s: string, k: nat, i: nat, j: nat)
    requires k < |s| && i == NextOccurrence(s, k, OpenTag) && i < |s|
    requires j == NextOccurrence(s, i + 2, CloseTag)
    ensures Chunks(s, k) == [Literal(s[k..i]), TagBody(s[i + 2..j])] + Chunks(s, j + 2)
  {
    assert Chunks(s, k) == ChunksAt(s, k);
  }

  // ---------------------------------------------------------------- the loop agrees with it

  /** A pass whose first scan reaches the end of input reads only literal text, and ends the loop. */
  lemma StepToEnd(sc: Scanner, text: string)
    requires sc.cursor < |sc.input|
    requires ScanUntil(sc, OpenTag) == (text, Scanner(sc.input, |sc.input|))
    ensures LoopBody(sc) == ([Literal(text)], None)
  {
  }

  /** A pass in terms of where its two scans stop. */
  lemma StepWith(sc: Scanner, text: string, p1: nat, content: string, p3: nat)
    requires sc.cursor <= p1 < |sc.input|
    requires ScanUntil(sc, OpenTag) == (text, Scanner(sc.input, p1))
    requires p1 + 2 <= |sc.input|
    requires ScanUntil(Scanner(sc.input, p1 + 2), CloseTag) == (content, Scanner(sc.input, p3))
    ensures LoopBody(sc) == ([Literal(text), TagBody(content)], Some(Scanner(sc.input, p3 + 2)))
  {
    assert |OpenTag| == 2 && |CloseTag| == 2;
    assert Advance(Scanner(sc.input, p1), |OpenTag|) == Scanner(sc.input, p1 + 2);
    assert Advance(Scanner(sc.input, p3), |CloseTag|) == Scanner(sc.input, p3 + 2);
  }

  lemma ChunksFromNone(sc: Scanner)
    requires sc.cursor < |sc.input|
    requires LoopBody(sc).1.None?
    ensures ChunksFrom(sc) == LoopBody(sc).0
  {
    assert ChunksFrom(sc) == Pass(sc);
  }

  lemma ChunksFromSome(sc: Scanner, next: Scanner)
    requires sc.cursor < |sc.input|
    requires LoopBody(sc).1 == Some(next)
    ensures ChunksFrom(sc) == LoopBody(sc).0 + ChunksFrom(next)
  {
    assert ChunksFrom(sc) == Pass(sc);
  }

  /** The loop of `Tokenize`, run from position `k`, reads exactly `Chunks(s, k)`. */
  lemma {:induction false} LoopReadsChunks(s: string, k: nat)
    ensures ChunksFrom(Scanner(s, k)) == Chunks(s, k)
    decreases |s| - k
  {
    if k < |s| {
      var i := NextOccurrence(s, k, OpenTag);
      if i == |s| {
        LoopAtEnd(s, k);
      } else {
        var j := NextOccurrence(s, i + 2, CloseTag);
        LoopReadsChunks(s, j + 2);
        LoopAtTag(s, k, i, j);
      }
    }
  }

  /** The last pass of the loop: no `{{` is left, and the rest of the input is literal text. */
  lemma LoopAtEnd(s: string, k: nat)
    requires k < |s| && NextOccurrence(s, k, OpenTag) == |s|
    ensures ChunksFrom(Scanner(s, k)) == Chunks(s, k)
  {
    var sc := Scanner(s, k);
    ScanUntilIsNext(sc, OpenTag);
    assert s[k..|s|] == s[k..];
    StepToEnd(sc, s[k..]);
    ChunksFromNone(sc);
    ChunksAtEnd(s, k);
  }

  /** A pass over a tag: the loop goes on from just after the closing `}}` (or past the end). */
  lemma LoopAtTag(s: string, k: nat, i: nat, j: nat)
    requires k < |s| && i == NextOccurrence(s, k, OpenTag) && i < |s|
    requires j == NextOccurrence(s, i + 2, CloseTag)
    requires ChunksFrom(Scanner(s, j + 2)) == Chunks(s, j + 2)
    ensures ChunksFrom(Scanner(s, k)) == Chunks(s, k)
  {
    var sc := Scanner(s, k);
    ScanUntilIsNext(sc, OpenTag);
    ScanUntilIsNext(Scanner(s, i + 2), CloseTag);
    StepWith(sc, s[k..i], i, s[i + 2..j], j);
    ChunksFromSome(sc, Scanner(s, j + 2));
    ChunksAtTag(s, k, i, j);
  }

  /** `Tokenize` classifies the reference chunks of the template, in order. */
  lemma TokenizeByChunks(template: string)
    ensures Tokenize(template) == Emit(Chunks(template, 0))
  {
    LoopReadsChunks(template, 0);
  }

  // ---------------------------------------------------------------- reading after a prefix

  /** An occurrence in the text after a prefix is an occurrence in the whole, shifted. */
  lemma OccursShift(pre: string, t: string, p: nat, pat: string)
    ensures Occurs(pre + t, |pre| + p, pat) <==> Occurs(t, p, pat)
  {
    var s := pre + t;
    if |pre| + p < |s| && |pre| + p + |pat| <= |s| {
      assert s[|pre| + p..|pre| + p + |pat|] == t[p..p + |pat|];
    }
  }

  lemma NextOccurrenceShift(pre: string, t: string, k: nat, pat: string)
    requires k <= |t|
    ensures NextOccurrence(pre + t, |pre| + k, pat) == |pre| + NextOccurrence(t, k, pat)
  {
    var q := NextOccurrence(t, k, pat);
    NextOccurrenceIsFirst(t, k, pat);
    OccursShift(pre, t, q, pat);
    forall p | |pre| + k <= p < |pre| + q ensures !Occurs(pre + t, p, pat) {
      OccursShift(pre, t, p - |pre|, pat);
    }
    NextOccurrenceAt(pre + t, |pre| + k, pat, |pre| + q);
  }

  lemma SliceShift(pre: string, t: string, a: nat, b: nat)
    requires a <= b <= |t|
    ensures (pre + t)[|pre| + a..|pre| + b] == t[a..b]
  {
    var s := pre + t;
    forall x | 0 <= x < b - a ensures s[|pre| + a..|pre| + b][x] == t[a..b][x] {
      assert s[|pre| + a + x] == t[a + x];
    }
  }

  /** Reading chunks from a position depends only on the text from that position on. */
  lemma {:induction false} ChunksShift(pre: string, t: string, k: nat)
    ensures Chunks(pre + t, |pre| + k) == Chunks(t, k)
    decreases |t| - k
  {
    if k < |t| {
      NextOccurrenceShift(pre, t, k, OpenTag);
      var i := NextOccurrence(t, k, OpenTag);
      if i == |t| {
        ChunksShiftEnd(pre, t, k);
      } else {
        NextOccurrenceShift(pre, t, i + 2, CloseTag);
        var j := NextOccurrence(t, i + 2, CloseTag);
        ChunksShift(pre, t, j + 2);
        ChunksShiftTag(pre, t, k, i, j);
      }
    }
  }

  /** The last step of `ChunksShift`: no `{{` is left. */
  lemma ChunksShiftEnd(pre: string, t: string, k: nat)
    requires k < |t| && NextOccurrence(t, k, OpenTag) == |t|
    requires NextOccurrence(pre + t, |pre| + k, OpenTag) == |pre| + |t|
    ensures Chunks(pre + t, |pre| + k) == Chunks(t, k)
  {
    var s := pre + t;
    ChunksAtEnd(s, |pre| + k);
    ChunksAtEnd(t, k);
    SliceShift(pre, t, k, |t|);
    assert s[|pre| + k..] == s[|pre| + k..|pre| + |t|];
    assert t[k..] == t[k..|t|];
  }

  /** The tag step of `ChunksShift`, once the rest is known to agree. */
  lemma ChunksShiftTag(pre: string, t: string, k: nat, i: nat, j: nat)
    requires k < |t| && i == NextOccurrence(t, k, OpenTag) && i < |t|
    requires j == NextOccurrence(t, i + 2, CloseTag)
    requires NextOccurrence(pre + t, |pre| + k, OpenTag) == |pre| + i
    requires NextOccurrence(pre + t, |pre| + i + 2, CloseTag) == |pre| + j
    requires Chunks(pre + t, |pre| + j + 2) == Chunks(t, j + 2)
    ensures Chunks(pre + t, |pre| + k) == Chunks(t, k)
  {
    var s := pre + t;
    ChunksAtTag(s, |pre| + k, |pre| + i, |pre| + j);
    ChunksAtTag(t, k, i, j);
    SliceShift(pre, t, k, i);
    SliceShift(pre, t, i + 2, j);
    var head := [Literal(t[k..i]), TagBody(t[i + 2..j])];
    calc {
      Chunks(s, |pre| + k);
      [Literal(s[|pre| + k..|pre| + i]), TagBody(s[|pre| + i + 2..|pre| + j])] + Chunks(s, |pre| + j + 2);
      head + Chunks(s, |pre| + j + 2);
      head + Chunks(t, j + 2);
      Chunks(t, k);
    }
  }

  // ---------------------------------------------------------------- clean TEXT tokens

  /** `NoOccurrence` of `pat` in a slice whose positions all miss `pat` in the whole text. */
  lemma NoOccurrenceInSlice(s: string, lo: int, hi: int, pat: string)
    requires 0 <= lo <= hi <= |s|
    requires forall p :: lo <= p < hi ==> !Occurs(s, p, pat)
    ensures NoOccurrence(s[lo..hi], pat)
  {
    var t := s[lo..hi];
    forall q | 0 <= q < |t| ensures !Occurs(t, q, pat) {
      if q + |pat| <= |t| {
        var u, v := t[q..q + |pat|], s[lo + q..lo + q + |pat|];
        forall k | 0 <= k < |pat| ensures u[k] == v[k] {
          assert t[q + k] == s[lo + q + k];
        }
        assert u == v;
        assert !Occurs(s, lo + q, pat);
      }
    }
  }

  /** Every literal chunk is free of `{{`. */
  predicate CleanChunks(cs: seq<Chunk>) {
    forall i | 0 <= i < |cs| :: cs[i].Literal? ==> NoOccurrence(cs[i].text, OpenTag)
  }

  lemma CleanChunksConcat(a: seq<Chunk>, b: seq<Chunk>)
    requires CleanChunks(a) && CleanChunks(b)
    ensures CleanChunks(a + b)
  {
    forall i | 0 <= i < |a + b| && (a + b)[i].Literal? ensures NoOccurrence((a + b)[i].text, OpenTag) {
      if i < |a| { assert (a + b)[i] == a[i]; } else { assert (a + b)[i] == b[i - |a|]; }
    }
  }

  lemma {:induction false} ChunksClean(s: string, k: nat)
    ensures CleanChunks(Chunks(s, k))
    decreases |s| - k
  {
    if k < |s| {
      NextOccurrenceIsFirst(s, k, OpenTag);
      var i := NextOccurrence(s, k, OpenTag);
      NoOccurrenceInSlice(s, k, i, OpenTag);
      if i == |s| {
        ChunksAtEnd(s, k);
        assert s[k..i] == s[k..];
      } else {
        var j := NextOccurrence(s, i + 2, CloseTag);
        ChunksAtTag(s, k, i, j);
        var head := [Literal(s[k..i]), TagBody(s[i + 2..j])];
        assert CleanChunks(head);
        ChunksClean(s, j + 2);
        CleanChunksConcat(head, Chunks(s, j + 2));
      }
    }
  }

  lemma {:induction false} EmitAppend(a: seq<Chunk>, b: seq<Chunk>)
    ensures Emit(a + b) == Emit(a) + Emit(b)
    decreases |a|
  {
    if a == [] {
      assert a + b == b;
    } else {
      assert (a + b)[1..] == a[1..] + b;
      EmitAppend(a[1..], b);
    }
  }

  lemma AllGoodTextConcat(a: seq<Token>, b: seq<Token>)
    requires AllGoodText(a) && AllGoodText(b)
    ensures AllGoodText(a + b)
  {
    forall i | 0 <= i < |a + b| ensures IsTextToken((a + b)[i]) ==> GoodText((a + b)[i]) {
      if i < |a| { assert (a + b)[i] == a[i]; } else { assert (a + b)[i] == b[i - |a|]; }
    }
  }

  lemma {:induction false} EmitClean(cs: seq<Chunk>)
    requires CleanChunks(cs)
    ensures AllGoodText(Emit(cs))
    decreases |cs|
  {
    if cs != [] {
      assert CleanChunks(cs[1..]) by {
        forall i | 0 <= i < |cs[1..]| && cs[1..][i].Literal? ensures NoOccurrence(cs[1..][i].text, OpenTag) {
          assert cs[1..][i] == cs[i + 1];
        }
      }
      EmitClean(cs[1..]);
      var head := ChunkTokens(cs[0]);
      assert AllGoodText(head) by {
        if cs[0].Literal? {
          assert NoOccurrence(cs[0].text, OpenTag);
        } else {
          assert |head| <= 1 && (head != [] ==> head[0].kind != Text);
        }
      }
      AllGoodTextConcat(head, Emit(cs[1..]));
    }
  }

  /** Every TEXT token of a tokenized template is non-empty, contains no `{{`, and carries its text
      as both value and raw. */
  lemma TokenizeGoodText(template: string)
    ensures AllGoodText(Tokenize(template))
  {
    TokenizeByChunks(template);
    ChunksClean(template, 0);
    EmitClean(Chunks(template, 0));
  }

  // ---------------------------------------------------------------- template shapes

  /** A template without `{{` is one TEXT token holding the whole input, or nothing when empty. */
  lemma TokenizeNoTag(t: string)
    requires NoOccurrence(t, OpenTag)
    ensures t != [] ==> Tokenize(t) == [Token(Text, t, t)]
    ensures t == [] ==> Tokenize(t) == []
  {
    TokenizeByChunks(t);
    if t != [] {
      NextOccurrenceAt(t, 0, OpenTag, |t|);
      ChunksAtEnd(t, 0);
      assert t[0..] == t;
      assert Emit([Literal(t)]) == TextTokens(t) + Emit([]);
    }
  }

  /** In `pre + "{{" + tail`, where `pre` followed by one '{' holds no `{{`, the first `{{` is the one
      right after `pre`. */
  lemma FirstOpenTag(s: string, pre: string, tail: string)
    requires s == pre + OpenTag + tail
    requires NoOccurrence(pre + "{", OpenTag)
    ensures NextOccurrence(s, 0, OpenTag) == |pre|
  {
    assert s[|pre|..|pre| + 2] == OpenTag;
    forall p | 0 <= p < |pre| ensures !Occurs(s, p, OpenTag) {
      assert !Occurs(pre + "{", p, OpenTag);
      if p + 2 <= |s| { assert s[p..p + 2] == (pre + "{")[p..p + 2]; }
    }
    NextOccurrenceAt(s, 0, OpenTag, |pre|);
  }

  /** From position `p2` of `s`, where `content` begins and is followed by `}}`, and `content`
      followed by one '}' holds no `}}`, the first `}}` is the one right after `content`. */
  lemma FirstCloseTag(s: string, p2: nat, content: string)
    requires p2 + |content| + 2 <= |s|
    requires s[p2..p2 + |content| + 2] == content + CloseTag
    requires NoOccurrence(content + "}", CloseTag)
    ensures NextOccurrence(s, p2, CloseTag) == p2 + |content|
    ensures s[p2..p2 + |content|] == content
  {
    var p3 := p2 + |content|;
    var w := s[p2..p3 + 2];
    var u := content + "}";
    SliceOfSlice(s, p2, p3 + 2, |content|, |content| + 2);
    assert w[|content|..|content| + 2] == CloseTag;
    assert u == w[..|u|];
    forall p | p2 <= p < p3 ensures !Occurs(s, p, CloseTag) {
      var q := p - p2;
      assert !Occurs(u, q, CloseTag);
      SliceOfSlice(s, p2, p3 + 2, q, q + 2);
      SliceOfSlice(w, 0, |u|, q, q + 2);
      assert w[..|u|] == w[0..|u|];
    }
    NextOccurrenceAt(s, p2, CloseTag, p3);
    SliceOfSlice(s, p2, p3 + 2, 0, |content|);
    assert w[0..|content|] == content;
  }

  /** A slice of a slice is a slice of the whole. */
  lemma SliceOfSlice(s: string, lo: nat, hi: nat, a: nat, b: nat)
    requires lo <= hi <= |s| && a <= b <= hi - lo
    ensures s[lo..hi][a..b] == s[lo + a..lo + b]
  {
    forall x | 0 <= x < b - a ensures s[lo..hi][a..b][x] == s[lo + a..lo + b][x] {
      assert s[lo..hi][a + x] == s[lo + a + x];
    }
  }

  /** The first `{{` of `pre + "{{" + content + "}}" + rest` is the one after `pre`, and the first
      `}}` after it is the one after `content`: the template is read as the text, the tag interior,
      and whatever the rest is read as. */
  lemma ChunksTag(pre: string, content: string, rest: string)
    requires NoOccurrence(pre + "{", OpenTag)
    requires NoOccurrence(content + "}", CloseTag)
    ensures Chunks(pre + OpenTag + content + CloseTag + rest, 0)
         == [Literal(pre), TagBody(content)] + Chunks(rest, 0)
  {
    var head := pre + OpenTag + content + CloseTag;
    var s := head + rest;
    var p2, p3 := |pre| + 2, |pre| + 2 + |content|;
    TagLayout(pre, content, rest);
    FirstOpenTag(s, pre, content + CloseTag + rest);
    FirstCloseTag(s, p2, content);
    ChunksAtTag(s, 0, |pre|, p3);
    ChunksShift(head, rest, 0);
    assert |head| + 0 == p3 + 2;
    calc {
      Chunks(s, 0);
      [Literal(s[0..|pre|]), TagBody(s[p2..p3])] + Chunks(s, p3 + 2);
      [Literal(pre), TagBody(content)] + Chunks(s, p3 + 2);
      [Literal(pre), TagBody(content)] + Chunks(rest, 0);
    }
  }

  /** Where the parts of `pre + "{{" + content + "}}" + rest` lie. */
  lemma TagLayout(pre: string, content: string, rest: string)
    ensures var s := pre + OpenTag + content + CloseTag + rest;
      && s == pre + OpenTag + (content + CloseTag + rest)
      && |s| == |pre| + |content| + |rest| + 4
      && s[0..|pre|] == pre
      && s[|pre| + 2..|pre| + |content| + 4] == content + CloseTag
  {
    var s := pre + OpenTag + content + CloseTag + rest;
    var p2 := |pre| + 2;
    assert s == pre + OpenTag + (content + CloseTag + rest);
    assert s[p2..p2 + |content| + 2] == content + CloseTag by {
      forall x | 0 <= x < |content| + 2 ensures s[p2..p2 + |content| + 2][x] == (content + CloseTag)[x] {
        assert s[p2 + x] == (content + CloseTag + rest)[x];
      }
    }
  }

  /** Two chunks in front of the rest emit their tokens in front of the rest's. */
  lemma EmitTwoThen(c1: Chunk, c2: Chunk, cs: seq<Chunk>)
    ensures Emit([c1, c2] + cs) == ChunkTokens(c1) + ChunkTokens(c2) + Emit(cs)
  {
    EmitAppend([c1, c2], cs);
    assert Emit([c1, c2]) == ChunkTokens(c1) + (ChunkTokens(c2) + Emit([]));
  }

  /** The template tokenizes as the text, the classified tag, and the tokens of the rest. */
  lemma TokenizeTag(pre: string, content: string, rest: string)
    requires NoOccurrence(pre + "{", OpenTag)
    requires NoOccurrence(content + "}", CloseTag)
    ensures Tokenize(pre + OpenTag + content + CloseTag + rest)
         == TextTokens(pre) + ProcessTag(content) + Tokenize(rest)
  {
    TokenizeByChunks(pre + OpenTag + content + CloseTag + rest);
    TokenizeByChunks(rest);
    EmitChunksTag(pre, content, rest);
  }

  /** `TokenizeTag` on the reference chunks. */
  lemma EmitChunksTag(pre: string, content: string, rest: string)
    requires NoOccurrence(pre + "{", OpenTag)
    requires NoOccurrence(content + "}", CloseTag)
    ensures Emit(Chunks(pre + OpenTag + content + CloseTag + rest, 0))
         == TextTokens(pre) + ProcessTag(content) + Emit(Chunks(rest, 0))
  {
    ChunksTag(pre, content, rest);
    EmitTwoThen(Literal(pre), TagBody(content), Chunks(rest, 0));
  }

  /** A `{{` with no `}}` after it takes the remainder of the input as its tag interior. */
  lemma TokenizeUnterminated(pre: string, content: string)
    requires NoOccurrence(pre + "{", OpenTag)
    requires NoOccurrence(content, CloseTag)
    ensures Tokenize(pre + OpenTag + content) == TextTokens(pre) + ProcessTag(content)
  {
    var s := pre + OpenTag + content;
    var p2 := |pre| + 2;
    FirstOpenTag(s, pre, content);
    forall p | p2 <= p < |s| ensures !Occurs(s, p, CloseTag) {
      assert !Occurs(content, p - p2, CloseTag);
      if p + 2 <= |s| { assert s[p..p + 2] == content[p - p2..p - p2 + 2]; }
    }
    NextOccurrenceAt(s, p2, CloseTag, |s|);
    ChunksAtTag(s, 0, |pre|, |s|);
    assert s[0..|pre|] == pre && s[p2..|s|] == content;
    TokenizeByChunks(s);
    EmitTwoThen(Literal(pre), TagBody(content), []);
    assert [Literal(pre), TagBody(content)] + [] == [Literal(pre), TagBody(content)];
  }

  /** Convenient sufficient conditions for the side conditions above. */
  lemma NoOpenTagWithout(t: string)
    requires '{' !in t
    ensures NoOccurrence(t, OpenTag)
    ensures NoOccurrence(t + "{", OpenTag)
  {
    var u := t + "{";
    forall p | 0 <= p < |t| ensures !Occurs(t, p, OpenTag) {
      if p + 2 <= |t| { assert t[p..p + 2][0] == t[p]; }
    }
    forall p | 0 <= p < |u| ensures !Occurs(u, p, OpenTag) {
      if p + 2 <= |u| { assert u[p..p + 2][0] == u[p] == t[p]; }
    }
  }

  lemma NoCloseTagWithout(t: string)
    requires '}' !in t
    ensures NoOccurrence(t, CloseTag)
    ensures NoOccurrence(t + "}", CloseTag)
  {
    var u := t + "}";
    forall p | 0 <= p < |t| ensures !Occurs(t, p, CloseTag) {
      if p + 2 <= |t| { assert t[p..p + 2][0] == t[p]; }
    }
    forall p | 0 <= p < |u| ensures !Occurs(u, p, CloseTag) {
      if p + 2 <= |u| { assert u[p..p + 2][0] == u[p] == t[p]; }
    }
  }
}
