/** Model of src/Bigode/Parser.cs: tokenizing on the fixed `{{` `}}` delimiters, classifying tags,
    and nesting the token list into a tree with an explicit stack. */
module Parser {
  import opened Wrappers
  import opened Errors
  import opened Models
  import opened Scanning

  const OpenTag: string := "{{"
  const CloseTag: string := "}}"

  /** The value of the synthetic root node, which a closing tag is never checked against. */
  const RootName: string := "root"

  // ---------------------------------------------------------------- trimming

  /** The characters .NET's `char.IsWhiteSpace` accepts, which `string.Trim()` removes. */
  predicate IsWhiteSpace(c: char) {
    var n := c as int;
    n == 0x20 || 0x09 <= n <= 0x0D || n == 0x85 || n == 0xA0 || n == 0x1680
    || 0x2000 <= n <= 0x200A || n == 0x2028 || n == 0x2029 || n == 0x202F || n == 0x205F || n == 0x3000
  }

  predicate AllWhiteSpace(s: string) {
    forall k | 0 <= k < |s| :: IsWhiteSpace(s[k])
  }

  /** Neither end of `s` is white space (vacuously true of the empty string). */
  predicate Tight(s: string) {
    s != [] ==> !IsWhiteSpace(s[0]) && !IsWhiteSpace(s[|s| - 1])
  }

  /** The index of the first character of `s` at or after `i` that is not white space, or `|s|`. */
  function SkipWhiteSpace(s: string, i: nat): (n: nat)
    requires i <= |s|
    ensures i <= n <= |s|
    ensures n < |s| ==> !IsWhiteSpace(s[n])
    decreases |s| - i
  {
    if i < |s| && IsWhiteSpace(s[i]) then SkipWhiteSpace(s, i + 1) else i
  }

  /** The index just past the last character of `s[lo..j]` that is not white space, or `lo`. */
  function BackWhiteSpace(s: string, lo: nat, j: nat): (n: nat)
    requires lo <= j <= |s|
    ensures lo <= n <= j
    ensures n > lo ==> !IsWhiteSpace(s[n - 1])
    decreases j
  {
    if j > lo && IsWhiteSpace(s[j - 1]) then BackWhiteSpace(s, lo, j - 1) else j
  }

  lemma {:induction false} SkipWhiteSpaceSpan(s: string, i: nat)
    requires i <= |s|
    ensures AllWhiteSpace(s[i..SkipWhiteSpace(s, i)])
    decreases |s| - i
  {
    if i < |s| && IsWhiteSpace(s[i]) {
      SkipWhiteSpaceSpan(s, i + 1);
      var n := SkipWhiteSpace(s, i);
      forall k | 0 <= k < n - i ensures IsWhiteSpace(s[i..n][k]) {
        if k > 0 { assert s[i..n][k] == s[i + 1..n][k - 1]; }
      }
    }
  }

  lemma {:induction false} BackWhiteSpaceSpan(s: string, lo: nat, j: nat)
    requires lo <= j <= |s|
    ensures AllWhiteSpace(s[BackWhiteSpace(s, lo, j)..j])
    decreases j
  {
    if j > lo && IsWhiteSpace(s[j - 1]) {
      BackWhiteSpaceSpan(s, lo, j - 1);
      var n := BackWhiteSpace(s, lo, j);
      forall k | 0 <= k < j - n ensures IsWhiteSpace(s[n..j][k]) {
        if k < j - 1 - n { assert s[n..j][k] == s[n..j - 1][k]; }
      }
    }
  }

  /** `string.Trim()`: `s` without the white space at both ends. */
  function Trim(s: string): (r: string)
    ensures |r| <= |s|
    ensures Tight(r)
    ensures r == [] <==> AllWhiteSpace(s)
  {
    var a := SkipWhiteSpace(s, 0);
    var b := BackWhiteSpace(s, a, |s|);
    SkipWhiteSpaceSpan(s, 0);
    BackWhiteSpaceSpan(s, a, |s|);
    assert a == b ==> AllWhiteSpace(s) by {
      if a == b {
        forall k | 0 <= k < |s| ensures IsWhiteSpace(s[k]) {
          if k < a { assert s[0..a][k] == s[k]; } else { assert s[b..|s|][k - b] == s[k]; }
        }
      }
    }
    s[a..b]
  }

  /** The trimmed text is a slice of `s` with only white space on either side of it. */
  lemma TrimSplit(s: string) returns (pre: string, post: string)
    ensures s == pre + Trim(s) + post
    ensures AllWhiteSpace(pre) && AllWhiteSpace(post)
  {
    var a := SkipWhiteSpace(s, 0);
    var b := BackWhiteSpace(s, a, |s|);
    SkipWhiteSpaceSpan(s, 0);
    BackWhiteSpaceSpan(s, a, |s|);
    pre, post := s[0..a], s[b..|s|];
    assert s == pre + s[a..b] + post;
  }

  // ---------------------------------------------------------------- tags

  /** The token kind selected by the first character of a trimmed tag interior. */
  function KindOf(c: char): (k: TokenType)
    ensures k != Text
  {
    match c
    case '#' => SectionStart
    case '/' => SectionEnd
    case '^' => InvSectionStart
    case '!' => Comment
    case '>' => Partial
    case _ => Var
  }

  /** Classifies the interior of one `{{ }}` tag: no token when it trims to nothing, otherwise one
      token whose kind comes from the first character and whose raw text is the untrimmed interior. */
  function ProcessTag(content: string): (r: seq<Token>)
    ensures |r| <= 1
    ensures r == [] <==> AllWhiteSpace(content)
    ensures r != [] ==> r[0].kind != Text && r[0].raw == content
  {
    var trimmed := Trim(content);
    if |trimmed| == 0 then []
    else
      var kind := KindOf(trimmed[0]);
      var value := if kind == Var then trimmed else Trim(trimmed[1..]);
      [Token(kind, value, content)]
  }

  // ---------------------------------------------------------------- tokenizing

  /** A token made of literal template text. */
  predicate IsTextToken(t: Token) {
    t.kind == Text
  }

  /** What the tokenizer promises of each TEXT token it emits: non-empty, free of `{{`, raw = value. */
  predicate GoodText(t: Token) {
    t.value != [] && NoOccurrence(t.value, OpenTag) && t.raw == t.value
  }

  /** The TEXT token for a run of literal text, or nothing for an empty run. */
  function TextTokens(text: string): seq<Token> {
    if |text| > 0 then [Token(Text, text, text)] else []
  }

  /** Every TEXT token in `ts` is a good one. */
  predicate AllGoodText(ts: seq<Token>) {
    forall i | 0 <= i < |ts| :: IsTextToken(ts[i]) ==> GoodText(ts[i])
  }

  /** What one pass of the loop of `Tokenize` reads from the template: literal text, or the interior
      of a tag. The loop classifies each as soon as it is read; the model reads them all first and
      classifies them in order afterwards, which emits the same tokens in the same order. */
  datatype Chunk = Literal(text: string) | TagBody(content: string)

  /** One pass of the loop body: the chunks it reads — the text before the next `{{`, then, unless
      that text reached the end of input, the interior up to the next `}}` (or to the end of
      input) — and where the next pass starts, or nothing when the pass ends at the `break`. */
  function LoopBody(sc: Scanner): (r: (seq<Chunk>, Option<Scanner>))
    requires sc.cursor < |sc.input|
    ensures 1 <= |r.0| <= 2 && r.0[0].Literal? && (|r.0| == 2 ==> r.0[1].TagBody?)
    ensures r.1.None? <==> |r.0| == 1
    ensures r.1.Some? ==> r.1.value.input == sc.input && r.1.value.cursor > sc.cursor
  {
    var (text, s1) := ScanUntil(sc, OpenTag);
    if IsEOF(s1) then ([Literal(text)], None)
    else
      var (content, s3) := ScanUntil(Advance(s1, |OpenTag|), CloseTag);
      ([Literal(text), TagBody(content)], Some(Advance(s3, |CloseTag|)))
  }

  /** The `while (!IsEOF())` loop of `Tokenize`, from the scanner's current position. The
      `requires` of each `ScanUntil` (cursor within the input) is met on every pass, including an
      unterminated `{{` whose remainder becomes the tag interior. */
  function ChunksFrom(sc: Scanner): (r: seq<Chunk>)
    decreases |sc.input| - sc.cursor, 1
  {
    if IsEOF(sc) then [] else Pass(sc)
  }

  /** One pass of the loop body, followed by the rest of the loop when the body did not break. */
  function Pass(sc: Scanner): (r: seq<Chunk>)
    requires sc.cursor < |sc.input|
    decreases |sc.input| - sc.cursor, 0
  {
    var (cs, next) := LoopBody(sc);
    match next
    case None => cs
    case Some(n) => cs + ChunksFrom(n)
  }

  /** The tokens a chunk contributes: a TEXT token for non-empty literal text, the classified tag
      for a tag interior. */
  function ChunkTokens(c: Chunk): seq<Token> {
    match c
    case Literal(text) => TextTokens(text)
    case TagBody(content) => ProcessTag(content)
  }

  /** The tokens of a chunk sequence, in order. */
  function Emit(cs: seq<Chunk>): seq<Token>
    decreases |cs|
  {
    if cs == [] then [] else ChunkTokens(cs[0]) + Emit(cs[1..])
  }

  /** Splits a template into its ordered tokens. */
  function Tokenize(template: string): seq<Token> {
    Emit(ChunksFrom(Start(template)))
  }

  // ---------------------------------------------------------------- tree building

  /** An open node on the builder's stack: its kind, value and the children attached so far. */
  datatype Frame = Frame(kind: TokenType, value: string, children: seq<Node>)

  function Close(f: Frame): Node {
    Node(f.kind, f.value, f.children)
  }

  const RootFrame: Frame := Frame(SectionStart, RootName, [])

  /** The builder's state: the stack of open nodes (bottom first), or, once a stray closing tag has
      popped the root, the finished root alone with an empty stack. */
  datatype Builder = Open(stack: seq<Frame>) | Popped(root: Node)

  /** The root sits at the bottom of a non-empty stack. */
  predicate Valid(b: Builder) {
    match b
    case Open(stack) => |stack| > 0 && stack[0].kind == SectionStart && stack[0].value == RootName
    case Popped(root) => root.kind == SectionStart && root.value == RootName
  }

  function Top(stack: seq<Frame>): Frame
    requires |stack| > 0
  {
    stack[|stack| - 1]
  }

  /** Appends `n` to the children of the node on top of the stack. */
  function AddChild(stack: seq<Frame>, n: Node): (r: seq<Frame>)
    requires |stack| > 0
    ensures |r| == |stack| && r[..|r| - 1] == stack[..|stack| - 1]
    ensures Top(r) == Top(stack).(children := Top(stack).children + [n])
  {
    stack[..|stack| - 1] + [Top(stack).(children := Top(stack).children + [n])]
  }

  /** One iteration of the `foreach` loop of `BuildAST`. */
  function Step(b: Builder, t: Token): (r: Result<Builder, Error>)
    requires Valid(b)
    ensures r.Ok? ==> Valid(r.value)
  {
    match b
    case Popped(_) => Err(EmptyStack)
    case Open(stack) =>
      var top := Top(stack);
      match t.kind
      case Text => Ok(Open(AddChild(stack, Node(t.kind, t.value, []))))
      case Var => Ok(Open(AddChild(stack, Node(t.kind, t.value, []))))
      case Partial => Ok(Open(AddChild(stack, Node(t.kind, t.value, []))))
      case SectionStart => Ok(Open(stack + [Frame(t.kind, t.value, [])]))
      case InvSectionStart => Ok(Open(stack + [Frame(t.kind, t.value, [])]))
      case SectionEnd =>
        if t.value != top.value && top.value != RootName then Err(MismatchedSection(top.value, t.value))
        else if |stack| == 1 then Ok(Popped(Close(top)))
        else Ok(Open(AddChild(stack[..|stack| - 1], Close(top))))
      case Comment => Ok(b)
  }

  /** Feeds the tokens to the builder in order, stopping at the first error. */
  function Run(b: Builder, ts: seq<Token>): (r: Result<Builder, Error>)
    requires Valid(b)
    ensures r.Ok? ==> Valid(r.value)
    decreases |ts|
  {
    if ts == [] then Ok(b)
    else
      var b1 :- Step(b, ts[0]);
      Run(b1, ts[1..])
  }

  /** The check after the loop: the root if at most it is still open, otherwise the innermost
      open section is reported as unclosed. */
  function Finish(b: Builder): (r: Result<Node, Error>)
    requires Valid(b)
    ensures r.Ok? ==> r.value.kind == SectionStart && r.value.value == RootName
  {
    match b
    case Popped(root) => Ok(root)
    case Open(stack) =>
      if |stack| > 1 then Err(UnclosedSection(Top(stack).value)) else Ok(Close(stack[0]))
  }

  const Initial: Builder := Open([RootFrame])

  /** Nests the token list into a tree under a synthetic root of kind SECTION_START named "root". */
  function BuildAST(ts: seq<Token>): (r: Result<Node, Error>)
    ensures r.Ok? ==> r.value.kind == SectionStart && r.value.value == RootName
  {
    var b :- Run(Initial, ts);
    Finish(b)
  }

  /** What `ParseAsync` does with a template's text before rendering: tokenize, build, take the
      root's children. */
  function Parse(template: string): Result<seq<Node>, Error> {
    var root :- BuildAST(Tokenize(template));
    Ok(root.children)
  }
}
