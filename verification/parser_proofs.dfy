/** Properties of trimming and tag classification, and the round trip from a token list written
    back as template text to the tokens `Tokenize` reads from it. */
module ParserProofs {
  import opened Wrappers
  import opened Models
  import opened Scanning
  import opened Parser
  import opened TokenizeProofs

  // ---------------------------------------------------------------- trimming

  /** The forward scan stops at the first character that is not white space. */
  lemma {:induction false} SkipWhiteSpaceTo(s: string, i: nat, a: nat)
    requires i <= a <= |s|
    requires forall k | i <= k < a :: IsWhiteSpace(s[k])
    requires a < |s| ==> !IsWhiteSpace(s[a])
    ensures SkipWhiteSpace(s, i) == a
    decreases a - i
  {
    if i < a {
      SkipWhiteSpaceTo(s, i + 1, a);
    }
  }

  /** The backward scan stops just after the last character that is not white space. */
  lemma {:induction false} BackWhiteSpaceTo(s: string, lo: nat, j: nat, b: nat)
    requires lo <= b <= j <= |s|
    requires forall k | b <= k < j :: IsWhiteSpace(s[k])
    requires b > lo ==> !IsWhiteSpace(s[b - 1])
    ensures BackWhiteSpace(s, lo, j) == b
    decreases j - b
  {
    if b < j {
      BackWhiteSpaceTo(s, lo, j - 1, b);
    }
  }

  /** `Trim` removes exactly the white space padding around a text with no white space at its ends. */
  lemma TrimPadded(pre: string, x: string, post: string)
    requires AllWhiteSpace(pre) && AllWhiteSpace(post) && Tight(x)
    ensures Trim(pre + x + post) == x
  {
    var s := pre + x + post;
    if x == [] {
      forall k | 0 <= k < |s| ensures IsWhiteSpace(s[k]) {
        if k < |pre| { assert s[k] == pre[k]; } else { assert s[k] == post[k - |pre|]; }
      }
    } else {
      var a, b := |pre|, |pre| + |x|;
      forall k | 0 <= k < a ensures IsWhiteSpace(s[k]) {
        assert s[k] == pre[k];
      }
      assert s[a] == x[0];
      SkipWhiteSpaceTo(s, 0, a);
      forall k | b <= k < |s| ensures IsWhiteSpace(s[k]) {
        assert s[k] == post[k - b];
      }
      assert s[b - 1] == x[|x| - 1];
      BackWhiteSpaceTo(s, a, |s|, b);
      assert s[a..b] == x;
    }
  }

  /** Trimming twice trims nothing more. */
  lemma TrimIdempotent(s: string)
    ensures Trim(Trim(s)) == Trim(s)
  {
    TrimPadded([], Trim(s), []);
    assert [] + Trim(s) + [] == Trim(s);
  }

  // ---------------------------------------------------------------- classification

  /** The characters that select a kind other than VAR. */
  predicate IsSigil(c: char) {
    c == '#' || c == '/' || c == '^' || c == '!' || c == '>'
  }

  /** The character that selects a tag kind other than TEXT and VAR. */
  function Sigil(kind: TokenType): (c: char)
    requires kind != Text && kind != Var
    ensures IsSigil(c) && KindOf(c) == kind
  {
    match kind
    case SectionStart => '#'
    case SectionEnd => '/'
    case InvSectionStart => '^'
    case Comment => '!'
    case Partial => '>'
  }

  /** `KindOf` reads VAR exactly for the characters that are not sigils, and each sigil back to the
      kind it was written for. */
  lemma KindOfSigil(c: char)
    ensures KindOf(c) == Var <==> !IsSigil(c)
    ensures IsSigil(c) ==> Sigil(KindOf(c)) == c
  {
  }

  /** `ProcessTag` once the trimmed interior is known to be `x`. */
  lemma ProcessTagTrimmed(content: string, x: string)
    requires Trim(content) == x && x != []
    ensures KindOf(x[0]) == Var ==> ProcessTag(content) == [Token(Var, x, content)]
    ensures KindOf(x[0]) != Var ==> ProcessTag(content) == [Token(KindOf(x[0]), Trim(x[1..]), content)]
  {
  }

  /** A section, closing, inverted, comment or partial tag, with white space around the sigil and
      after the name, is read back as a token of that kind naming exactly `name`. */
  lemma ProcessTagSigil(kind: TokenType, pre: string, mid: string, name: string, post: string)
    requires kind != Text && kind != Var
    requires AllWhiteSpace(pre) && AllWhiteSpace(mid) && AllWhiteSpace(post)
    requires name != [] && Tight(name)
    ensures var content := pre + [Sigil(kind)] + mid + name + post;
      ProcessTag(content) == [Token(kind, name, content)]
  {
    var y := mid + name;
    var x := [Sigil(kind)] + y;
    var content := pre + [Sigil(kind)] + mid + name + post;
    assert x[|x| - 1] == name[|name| - 1];
    assert content == pre + x + post;
    TrimPadded(pre, x, post);
    assert x[1..] == y;
    TrimLeft(mid, name);
    ProcessTagTrimmed(content, x);
  }

  /** `Trim` removes leading white space from a text that has none at its ends. */
  lemma TrimLeft(pre: string, x: string)
    requires AllWhiteSpace(pre) && Tight(x)
    ensures Trim(pre + x) == x
  {
    TrimPadded(pre, x, []);
    assert pre + x + [] == pre + x;
  }

  /** A variable tag (a name that does not start with a sigil) is read back as a VAR token carrying
      the name without its padding. */
  lemma ProcessTagVar(pre: string, name: string, post: string)
    requires AllWhiteSpace(pre) && AllWhiteSpace(post)
    requires name != [] && Tight(name) && !IsSigil(name[0])
    ensures ProcessTag(pre + name + post) == [Token(Var, name, pre + name + post)]
  {
    TrimPadded(pre, name, post);
    ProcessTagTrimmed(pre + name + post, name);
  }

  // ---------------------------------------------------------------- writing tokens back

  /** The interior a tag token is written with: the name for a variable, the sigil then the name
      otherwise. */
  function TagText(kind: TokenType, name: string): string
    requires kind != Text
  {
    if kind == Var then name else [Sigil(kind)] + name
  }

  /** A token that reads back as itself once written out: literal text that neither holds `{{`
      nor ends in `{`, or a tag with a non-empty, unpadded name (not starting with a sigil for a
      variable) that holds no `}`, written without padding. */
  predicate Lexable(t: Token) {
    if t.kind == Text then
      t.value != [] && NoOccurrence(t.value + "{", OpenTag) && t.raw == t.value
    else
      t.value != [] && Tight(t.value) && (t.kind == Var ==> !IsSigil(t.value[0]))
      && '}' !in t.value && t.raw == TagText(t.kind, t.value)
  }

  /** Every token reads back as itself and no two TEXT tokens are adjacent (they would merge). */
  predicate LexableTokens(ts: seq<Token>) {
    (forall i | 0 <= i < |ts| :: Lexable(ts[i]))
    && (forall i | 0 < i < |ts| :: ts[i].kind == Text ==> ts[i - 1].kind != Text)
  }

  /** The template text of one token: the raw text for TEXT, the raw interior in braces otherwise. */
  function Piece(t: Token): string {
    if t.kind == Text then t.raw else OpenTag + t.raw + CloseTag
  }

  /** A token list written back as template text. */
  function Unlex(ts: seq<Token>): string
    decreases |ts|
  {
    if ts == [] then [] else Piece(ts[0]) + Unlex(ts[1..])
  }

  lemma LexableTail(ts: seq<Token>, n: nat)
    requires LexableTokens(ts) && n <= |ts|
    ensures LexableTokens(ts[n..])
  {
    var u := ts[n..];
    forall i | 0 <= i < |u| ensures Lexable(u[i]) {
      assert u[i] == ts[n + i];
    }
    forall i | 0 < i < |u| ensures u[i].kind == Text ==> u[i - 1].kind != Text {
      assert u[i] == ts[n + i] && u[i - 1] == ts[n + i - 1];
    }
  }

  /** A tag token's raw interior is classified back into the token. */
  lemma ProcessTagText(t: Token)
    requires t.kind != Text && Lexable(t)
    ensures ProcessTag(t.raw) == [t]
  {
    if t.kind == Var {
      ProcessTagTextVar(t);
    } else {
      ProcessTagTextSigil(t);
    }
  }

  lemma ProcessTagTextVar(t: Token)
    requires t.kind == Var && Lexable(t)
    ensures ProcessTag(t.raw) == [t]
  {
    TrimTight(t.value);
    ProcessTagTrimmed(t.raw, t.value);
  }

  lemma ProcessTagTextSigil(t: Token)
    requires t.kind != Text && t.kind != Var && Lexable(t)
    ensures ProcessTag(t.raw) == [t]
  {
    SigilRaw(t);
    TrimTight(t.raw);
    TrimTight(t.value);
    ProcessTagTrimmed(t.raw, t.raw);
  }

  /** The interior of a written-out section, closing, inverted, comment or partial tag: the sigil
      then the name, with no white space at either end. */
  lemma SigilRaw(t: Token)
    requires t.kind != Text && t.kind != Var && Lexable(t)
    ensures t.raw != [] && Tight(t.raw) && t.raw[0] == Sigil(t.kind) && t.raw[1..] == t.value
  {
    var c := Sigil(t.kind);
    assert t.raw == [c] + t.value;
    assert t.raw[|t.raw| - 1] == t.value[|t.value| - 1];
  }

  /** `Trim` leaves a text with no white space at its ends unchanged. */
  lemma TrimTight(x: string)
    requires Tight(x)
    ensures Trim(x) == x
  {
    TrimPadded([], x, []);
    assert [] + x + [] == x;
  }

  /** A written-out tag token holds no `}` inside its braces. */
  lemma RawHasNoBrace(t: Token)
    requires t.kind != Text && Lexable(t)
    ensures '}' !in t.raw
  {
    if t.kind != Var {
      assert t.raw == [Sigil(t.kind)] + t.value;
    }
  }

  /** One tag token, written out, reads back as itself in front of the rest. */
  lemma EmitTagPiece(pre: string, t: Token, rest: string)
    requires t.kind != Text && '}' !in t.raw && ProcessTag(t.raw) == [t]
    requires NoOccurrence(pre + "{", OpenTag)
    ensures Emit(Chunks(pre + (Piece(t) + rest), 0)) == TextTokens(pre) + [t] + Emit(Chunks(rest, 0))
  {
    PieceLayout(pre, t, rest);
    NoCloseTagWithout(t.raw);
    EmitChunksTag(pre, t.raw, rest);
  }

  /** `TokenizeUnlex` on the reference chunks. */
  lemma {:induction false} EmitUnlex(ts: seq<Token>)
    requires LexableTokens(ts)
    ensures Emit(Chunks(Unlex(ts), 0)) == ts
    decreases |ts|
  {
    if ts == [] {
    } else if ts[0].kind != Text {
      LexableTail(ts, 1);
      EmitUnlex(ts[1..]);
      EmitTagThen(ts[0], Unlex(ts[1..]), ts[1..]);
      assert Unlex(ts) == Piece(ts[0]) + Unlex(ts[1..]);
      assert [ts[0]] + ts[1..] == ts;
    } else if |ts| == 1 {
      EmitUnlexText(ts[0]);
      assert Unlex(ts) == ts[0].value + [];
      assert ts[0].value + [] == ts[0].value;
    } else {
      assert ts[1].kind != Text;
      LexableTail(ts, 2);
      EmitUnlex(ts[2..]);
      EmitTextTagThen(ts[0], ts[1], Unlex(ts[2..]), ts[2..]);
      assert ts[1..][1..] == ts[2..];
      assert Unlex(ts[1..]) == Piece(ts[1]) + Unlex(ts[2..]);
      assert Unlex(ts) == ts[0].value + (Piece(ts[1]) + Unlex(ts[2..]));
      assert [ts[0], ts[1]] + ts[2..] == ts;
    }
  }

  /** A tag token written in front of text that reads back as `tail` reads back as the token,
      then `tail`. */
  lemma {:induction false} EmitTagThen(t: Token, rest: string, tail: seq<Token>)
    requires t.kind != Text && Lexable(t)
    requires Emit(Chunks(rest, 0)) == tail
    ensures Emit(Chunks(Piece(t) + rest, 0)) == [t] + tail
  {
    ProcessTagText(t);
    RawHasNoBrace(t);
    EmitTagPiece([], t, rest);
    assert [] + (Piece(t) + rest) == Piece(t) + rest;
    assert TextTokens([]) + [t] + tail == [t] + tail;
  }

  /** The same with a TEXT token written in front of the tag. */
  lemma {:induction false} EmitTextTagThen(x: Token, t: Token, rest: string, tail: seq<Token>)
    requires x.kind == Text && Lexable(x)
    requires t.kind != Text && Lexable(t)
    requires Emit(Chunks(rest, 0)) == tail
    ensures Emit(Chunks(x.value + (Piece(t) + rest), 0)) == [x, t] + tail
  {
    ProcessTagText(t);
    RawHasNoBrace(t);
    EmitTagPiece(x.value, t, rest);
    TextTokenOf(x);
    ConsTwo(x, t, tail);
  }

  /** A good TEXT token is the token of its own text. */
  lemma TextTokenOf(x: Token)
    requires x.kind == Text && Lexable(x)
    ensures TextTokens(x.value) == [x]
  {
  }

  lemma ConsTwo(x: Token, t: Token, tail: seq<Token>)
    ensures [x] + [t] + tail == [x, t] + tail
  {
  }

  /** How a written-out tag sits in the template text. */
  lemma PieceLayout(pre: string, t: Token, rest: string)
    requires t.kind != Text
    ensures pre + (Piece(t) + rest) == pre + OpenTag + t.raw + CloseTag + rest
  {
  }

  /** A last TEXT token reads back as itself. */
  lemma EmitUnlexText(t: Token)
    requires t.kind == Text && Lexable(t)
    ensures Emit(Chunks(t.value, 0)) == [t]
  {
    NoOccurrencePrefix(t.value, OpenTag);
    NextOccurrenceAt(t.value, 0, OpenTag, |t.value|);
    ChunksAtEnd(t.value, 0);
    assert t.value[0..] == t.value;
    assert Emit([Literal(t.value)]) == TextTokens(t.value) + Emit([]);
  }

  /** Writing a well-formed token list out as template text and tokenizing it gives the list back. */
  lemma TokenizeUnlex(ts: seq<Token>)
    requires LexableTokens(ts)
    ensures Tokenize(Unlex(ts)) == ts
  {
    TokenizeByChunks(Unlex(ts));
    EmitUnlex(ts);
  }

  /** Dropping the last character keeps a text free of `pat`. */
  lemma NoOccurrencePrefix(t: string, pat: string)
    requires NoOccurrence(t + "{", pat)
    ensures NoOccurrence(t, pat)
  {
    var u := t + "{";
    forall p | 0 <= p < |t| ensures !Occurs(t, p, pat) {
      assert !Occurs(u, p, pat);
      if p + |pat| <= |t| {
        assert u[p..p + |pat|] == t[p..p + |pat|];
      }
    }
  }
}
