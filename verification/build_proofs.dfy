/** Properties of `BuildAST`: how a token list splits across `Run`, the shape of the tree it
    builds, that a pre-order walk of the tree gives back the significant tokens in order, that a
    tree written out as tokens is rebuilt exactly, and the error cases around closing tags. */
module BuildProofs {
  import opened Wrappers
  import opened Errors
  import opened Models
  import opened Parser
  import opened ParserProofs

  // ---------------------------------------------------------------- running in pieces

  /** Feeding `xs + ys` is feeding `xs`, then `ys` to whatever `xs` left, unless `xs` failed. */
  lemma {:induction false} RunAppend(b: Builder, xs: seq<Token>, ys: seq<Token>)
    requires Valid(b)
    ensures Run(b, xs).Err? ==> Run(b, xs + ys) == Run(b, xs)
    ensures Run(b, xs).Ok? ==> Run(b, xs + ys) == Run(Run(b, xs).value, ys)
    decreases |xs|
  {
    if xs == [] {
      assert xs + ys == ys;
    } else {
      assert (xs + ys)[0] == xs[0];
      assert (xs + ys)[1..] == xs[1..] + ys;
      var r := Step(b, xs[0]);
      if r.Ok? {
        RunAppend(r.value, xs[1..], ys);
      }
    }
  }

  /** Feeding one token is one step. */
  lemma {:induction false} RunOne(b: Builder, t: Token)
    requires Valid(b)
    ensures Run(b, [t]) == Step(b, t)
  {
    assert [t][1..] == [];
  }

  /** Tokens agree on everything `BuildAST` reads: kind and value, not the raw text. */
  predicate SameEntries(ts: seq<Token>, us: seq<Token>) {
    |ts| == |us| && forall i | 0 <= i < |ts| :: ts[i].kind == us[i].kind && ts[i].value == us[i].value
  }

  lemma {:induction false} RunSameEntries(b: Builder, ts: seq<Token>, us: seq<Token>)
    requires Valid(b) && SameEntries(ts, us)
    ensures Run(b, ts) == Run(b, us)
    decreases |ts|
  {
    if ts != [] {
      assert Step(b, ts[0]) == Step(b, us[0]);
      var r := Step(b, ts[0]);
      if r.Ok? {
        assert SameEntries(ts[1..], us[1..]) by {
          forall i | 0 <= i < |ts| - 1 ensures ts[1..][i].kind == us[1..][i].kind && ts[1..][i].value == us[1..][i].value {
            assert ts[1..][i] == ts[i + 1] && us[1..][i] == us[i + 1];
          }
        }
        RunSameEntries(r.value, ts[1..], us[1..]);
      }
    }
  }

  /** The tree depends only on the kinds and values of the tokens: how a tag was padded is lost. */
  lemma BuildASTSameEntries(ts: seq<Token>, us: seq<Token>)
    requires SameEntries(ts, us)
    ensures BuildAST(ts) == BuildAST(us)
  {
    RunSameEntries(Initial, ts, us);
  }

  /** A comment leaves the tree as it is, wherever it stands, unless a stray closing tag before
      it has already popped the root (then it fails on the empty stack like any other token). */
  lemma BuildASTDropsComment(xs: seq<Token>, c: Token, ys: seq<Token>)
    requires c.kind == Comment
    requires Run(Initial, xs).Ok? ==> Run(Initial, xs).value.Open?
    ensures BuildAST(xs + [c] + ys) == BuildAST(xs + ys)
  {
    RunAppend(Initial, xs, [c] + ys);
    RunAppend(Initial, xs, ys);
    assert xs + [c] + ys == xs + ([c] + ys);
    var r := Run(Initial, xs);
    if r.Ok? {
      RunAppend(r.value, [c], ys);
      RunOne(r.value, c);
      assert Run(r.value, [c]) == Ok(r.value);
    }
    assert Run(Initial, xs + [c] + ys) == Run(Initial, xs + ys);
  }

  // ---------------------------------------------------------------- pre-order

  /** What a pre-order walk reports of a node: its kind and value. */
  datatype Entry = Entry(kind: TokenType, value: string)

  /** Pre-order walk of a forest: each node, then its children, then its later siblings. */
  function Flatten(ns: seq<Node>): seq<Entry>
    decreases ns
  {
    if ns == [] then [] else [Entry(ns[0].kind, ns[0].value)] + Flatten(ns[0].children) + Flatten(ns[1..])
  }

  /** The entry a token contributes to the tree: none for comments and closing tags. */
  function SigOf(t: Token): seq<Entry> {
    if t.kind == Comment || t.kind == SectionEnd then [] else [Entry(t.kind, t.value)]
  }

  /** The entries of the tokens that become nodes, in order. */
  function Significant(ts: seq<Token>): seq<Entry>
    decreases |ts|
  {
    if ts == [] then [] else SigOf(ts[0]) + Significant(ts[1..])
  }

  lemma {:induction false} FlattenAppend(xs: seq<Node>, ys: seq<Node>)
    ensures Flatten(xs + ys) == Flatten(xs) + Flatten(ys)
    decreases |xs|
  {
    if xs == [] {
      assert xs + ys == ys;
    } else {
      assert (xs + ys)[0] == xs[0];
      assert (xs + ys)[1..] == xs[1..] + ys;
      FlattenAppend(xs[1..], ys);
    }
  }

  lemma {:induction false} SignificantAppend(xs: seq<Token>, ys: seq<Token>)
    ensures Significant(xs + ys) == Significant(xs) + Significant(ys)
    decreases |xs|
  {
    if xs == [] {
      assert xs + ys == ys;
    } else {
      assert (xs + ys)[0] == xs[0];
      assert (xs + ys)[1..] == xs[1..] + ys;
      SignificantAppend(xs[1..], ys);
    }
  }

  /** The entries of one open frame: its header (not for the root) and what it holds so far. */
  function FrameEntries(f: Frame, header: bool): seq<Entry> {
    (if header then [Entry(f.kind, f.value)] else []) + Flatten(f.children)
  }

  /** The entries of the open frames, bottom first: each frame's entries come before the frame
      above it, which becomes its last child once closed. */
  function FlatFrames(stack: seq<Frame>): seq<Entry>
    decreases |stack|
  {
    if stack == [] then [] else FlatFrames(stack[..|stack| - 1]) + FrameEntries(Top(stack), |stack| > 1)
  }

  /** The entries of the builder's tree so far. */
  function Flat(b: Builder): seq<Entry> {
    match b
    case Open(stack) => FlatFrames(stack)
    case Popped(root) => Flatten(root.children)
  }

  lemma {:induction false} FlattenOne(n: Node)
    ensures Flatten([n]) == [Entry(n.kind, n.value)] + Flatten(n.children)
  {
    assert [n][1..] == [];
  }

  /** The frames of a non-empty stack: those below the top, then the top's entries. */
  lemma {:induction false} FlatFramesUnfold(stack: seq<Frame>)
    requires |stack| > 0
    ensures FlatFrames(stack) == FlatFrames(stack[..|stack| - 1]) + FrameEntries(Top(stack), |stack| > 1)
  {
  }

  lemma {:induction false} FrameEntriesAdd(f: Frame, header: bool, n: Node)
    ensures FrameEntries(f.(children := f.children + [n]), header)
         == FrameEntries(f, header) + [Entry(n.kind, n.value)] + Flatten(n.children)
  {
    FlattenAppend(f.children, [n]);
    FlattenOne(n);
  }

  /** Adding a child to the top frame adds that child's entries at the end. */
  lemma {:induction false} FlatFramesAddChild(stack: seq<Frame>, n: Node)
    requires |stack| > 0
    ensures FlatFrames(AddChild(stack, n)) == FlatFrames(stack) + [Entry(n.kind, n.value)] + Flatten(n.children)
  {
    var r := AddChild(stack, n);
    var top := Top(stack);
    var below := FlatFrames(stack[..|stack| - 1]);
    var e := [Entry(n.kind, n.value)] + Flatten(n.children);
    FlatFramesUnfold(r);
    FlatFramesUnfold(stack);
    FrameEntriesAdd(top, |stack| > 1, n);
    AppendAssoc(below, FrameEntries(top, |stack| > 1), [Entry(n.kind, n.value)], Flatten(n.children));
  }

  lemma {:induction false} AppendAssoc<T>(a: seq<T>, b: seq<T>, c: seq<T>, d: seq<T>)
    ensures a + (b + c + d) == a + b + c + d
  {
  }

  /** Opening a section adds its header at the end. */
  lemma {:induction false} FlatFramesPush(stack: seq<Frame>, k: TokenType, v: string)
    requires |stack| > 0
    ensures FlatFrames(stack + [Frame(k, v, [])]) == FlatFrames(stack) + [Entry(k, v)]
  {
    var s := stack + [Frame(k, v, [])];
    assert s[..|s| - 1] == stack;
    assert FrameEntries(Top(s), true) == [Entry(k, v)];
  }

  /** Closing the top section moves its entries into its parent without changing the whole. */
  lemma {:induction false} FlatFramesClose(stack: seq<Frame>)
    requires |stack| > 1
    ensures FlatFrames(AddChild(stack[..|stack| - 1], Close(Top(stack)))) == FlatFrames(stack)
  {
    var below := stack[..|stack| - 1];
    var top := Top(stack);
    FlatFramesAddChild(below, Close(top));
    assert FlatFrames(stack) == FlatFrames(below) + ([Entry(top.kind, top.value)] + Flatten(top.children));
  }

  /** Each step adds exactly the token's entry to the tree. */
  lemma {:induction false} StepFlat(b: Builder, t: Token)
    requires Valid(b) && Step(b, t).Ok?
    ensures Flat(Step(b, t).value) == Flat(b) + SigOf(t)
  {
    var stack := b.stack;
    if IsLeafKind(t.kind) {
      var n := Node(t.kind, t.value, []);
      assert Step(b, t) == Ok(Open(AddChild(stack, n)));
      FlatFramesAddChild(stack, n);
      assert Flatten(n.children) == [];
      assert SigOf(t) == [Entry(n.kind, n.value)];
    } else if IsSectionKind(t.kind) {
      assert Step(b, t) == Ok(Open(stack + [Frame(t.kind, t.value, [])]));
      FlatFramesPush(stack, t.kind, t.value);
    } else if t.kind == SectionEnd {
      StepFlatEnd(stack, t);
    } else {
      assert Step(b, t) == Ok(b);
    }
  }

  lemma {:induction false} StepFlatEnd(stack: seq<Frame>, t: Token)
    requires Valid(Open(stack)) && t.kind == SectionEnd && Step(Open(stack), t).Ok?
    ensures Flat(Step(Open(stack), t).value) == Flat(Open(stack))
  {
    if |stack| > 1 {
      assert Step(Open(stack), t) == Ok(Open(AddChild(stack[..|stack| - 1], Close(Top(stack)))));
      FlatFramesClose(stack);
    } else {
      assert Step(Open(stack), t) == Ok(Popped(Close(Top(stack))));
      FlatFramesUnfold(stack);
      assert stack[..0] == [];
      assert FlatFrames(stack) == [] + FrameEntries(Top(stack), false);
    }
  }

  /** A successful run adds exactly the entries of the tokens it consumed. */
  lemma {:induction false} RunFlat(b: Builder, ts: seq<Token>)
    requires Valid(b) && Run(b, ts).Ok?
    ensures Flat(Run(b, ts).value) == Flat(b) + Significant(ts)
    decreases |ts|
  {
    if ts != [] {
      var b1 := Step(b, ts[0]).value;
      StepFlat(b, ts[0]);
      RunFlat(b1, ts[1..]);
    }
  }

  /** A pre-order walk of the tree that `BuildAST` returns lists the TEXT, VAR, PARTIAL, section and
      inverted-section tokens in their original order; comments and closing tags leave nothing. */
  lemma {:induction false} BuildASTPreOrder(ts: seq<Token>)
    requires BuildAST(ts).Ok?
    ensures Flatten(BuildAST(ts).value.children) == Significant(ts)
  {
    RunFlat(Initial, ts);
    var b := Run(Initial, ts).value;
    assert FlatFrames([RootFrame]) == [];
    match b
    case Popped(root) =>
    case Open(stack) =>
      assert BuildAST(ts) == Finish(b);
      assert |stack| == 1;
      FlatFramesUnfold(stack);
      assert stack[..0] == [];
      assert FlatFrames(stack) == [] + FrameEntries(stack[0], false);
      assert Flatten(BuildAST(ts).value.children) == Flatten(stack[0].children);
      assert FrameEntries(stack[0], false) == Flatten(stack[0].children);
      assert Flat(b) == [] + Significant(ts) == Significant(ts);
  }

  // ---------------------------------------------------------------- shape

  predicate IsLeafKind(k: TokenType) {
    k == Text || k == Var || k == Partial
  }

  predicate IsSectionKind(k: TokenType) {
    k == SectionStart || k == InvSectionStart
  }

  /** A node as `BuildAST` makes them: a TEXT, VAR or PARTIAL leaf, or a (possibly inverted)
      section over well-formed children; never a comment or a closing tag. */
  predicate GoodNode(n: Node)
    decreases n, 1
  {
    (IsLeafKind(n.kind) && n.children == []) || (IsSectionKind(n.kind) && GoodNodes(n.children))
  }

  predicate GoodNodes(ns: seq<Node>)
    decreases ns, 0
  {
    ns == [] || (GoodNode(ns[0]) && GoodNodes(ns[1..]))
  }

  lemma {:induction false} GoodNodesAppend(xs: seq<Node>, ys: seq<Node>)
    requires GoodNodes(xs) && GoodNodes(ys)
    ensures GoodNodes(xs + ys)
    decreases |xs|
  {
    if xs == [] {
      assert xs + ys == ys;
    } else {
      assert (xs + ys)[0] == xs[0];
      assert (xs + ys)[1..] == xs[1..] + ys;
      GoodNodesAppend(xs[1..], ys);
    }
  }

  lemma {:induction false} GoodNodesOne(n: Node)
    requires GoodNode(n)
    ensures GoodNodes([n])
  {
    assert [n][1..] == [];
  }

  /** Every open frame is a section whose children are well formed. */
  predicate GoodFrames(stack: seq<Frame>) {
    forall i | 0 <= i < |stack| :: IsSectionKind(stack[i].kind) && GoodNodes(stack[i].children)
  }

  predicate GoodBuilder(b: Builder) {
    match b
    case Open(stack) => GoodFrames(stack)
    case Popped(root) => GoodNode(root)
  }

  lemma {:induction false} GoodAddChild(stack: seq<Frame>, n: Node)
    requires |stack| > 0 && GoodFrames(stack) && GoodNode(n)
    ensures GoodFrames(AddChild(stack, n))
  {
    var r := AddChild(stack, n);
    GoodNodesOne(n);
    GoodNodesAppend(Top(stack).children, [n]);
    forall i | 0 <= i < |r| ensures IsSectionKind(r[i].kind) && GoodNodes(r[i].children) {
      if i < |r| - 1 {
        assert r[i] == r[..|r| - 1][i] == stack[i];
      }
    }
  }

  lemma {:induction false} StepGood(b: Builder, t: Token)
    requires Valid(b) && GoodBuilder(b) && Step(b, t).Ok?
    ensures GoodBuilder(Step(b, t).value)
  {
    var stack := b.stack;
    match t.kind
    case Text => GoodAddChild(stack, Node(t.kind, t.value, []));
    case Var => GoodAddChild(stack, Node(t.kind, t.value, []));
    case Partial => GoodAddChild(stack, Node(t.kind, t.value, []));
    case SectionStart =>
      var s := stack + [Frame(t.kind, t.value, [])];
      assert forall i | 0 <= i < |stack| :: s[i] == stack[i];
    case InvSectionStart =>
      var s := stack + [Frame(t.kind, t.value, [])];
      assert forall i | 0 <= i < |stack| :: s[i] == stack[i];
    case SectionEnd =>
      var top := Top(stack);
      assert GoodNode(Close(top));
      if |stack| > 1 {
        var below := stack[..|stack| - 1];
        assert forall i | 0 <= i < |below| :: below[i] == stack[i];
        GoodAddChild(below, Close(top));
      }
    case Comment =>
  }

  lemma {:induction false} RunGood(b: Builder, ts: seq<Token>)
    requires Valid(b) && GoodBuilder(b) && Run(b, ts).Ok?
    ensures GoodBuilder(Run(b, ts).value)
    decreases |ts|
  {
    if ts != [] {
      StepGood(b, ts[0]);
      RunGood(Step(b, ts[0]).value, ts[1..]);
    }
  }

  /** `BuildAST` builds a section root whose TEXT, VAR and PARTIAL nodes are leaves and whose only
      inner nodes are sections; no comment or closing tag becomes a node. */
  lemma {:induction false} BuildASTShape(ts: seq<Token>)
    requires BuildAST(ts).Ok?
    ensures GoodNode(BuildAST(ts).value)
  {
    RunGood(Initial, ts);
  }

  // ---------------------------------------------------------------- writing a tree back out

  /** The tokens of a forest: a leaf's own token, or a section's opening token, its children's
      tokens, and a closing token naming it. Each token's raw text is the one it would be written
      with: the text itself, or the tag's sigil and name. */
  function Unparse(ns: seq<Node>): seq<Token>
    decreases ns, 0
  {
    if ns == [] then [] else UnparseNode(ns[0]) + Unparse(ns[1..])
  }

  function UnparseNode(n: Node): seq<Token>
    decreases n, 1
  {
    if IsSectionKind(n.kind) then
      [TokenOf(n.kind, n.value)] + Unparse(n.children) + [TokenOf(SectionEnd, n.value)]
    else [TokenOf(n.kind, n.value)]
  }

  /** The token of the given kind and value, with the raw text it is written with. */
  function TokenOf(k: TokenType, v: string): (t: Token)
    ensures t.kind == k && t.value == v
  {
    Token(k, v, if k == Text then v else TagText(k, v))
  }

  /** Appends `ns` to the children of the top frame. */
  function AddChildren(stack: seq<Frame>, ns: seq<Node>): (r: seq<Frame>)
    requires |stack| > 0
    ensures |r| == |stack|
  {
    stack[..|stack| - 1] + [Top(stack).(children := Top(stack).children + ns)]
  }

  lemma {:induction false} AddChildrenSteps(stack: seq<Frame>, n: Node, ns: seq<Node>)
    requires |stack| > 0
    ensures AddChildren(AddChild(stack, n), ns) == AddChildren(stack, [n] + ns)
  {
    var top := Top(stack);
    assert top.children + [n] + ns == top.children + ([n] + ns);
    var r := AddChild(stack, n);
    assert r[..|r| - 1] == stack[..|stack| - 1];
  }

  lemma {:induction false} AddChildrenNone(stack: seq<Frame>)
    requires |stack| > 0
    ensures AddChildren(stack, []) == stack
  {
    assert Top(stack).children + [] == Top(stack).children;
    assert Top(stack).(children := Top(stack).children) == Top(stack);
  }

  /** Feeding the tokens of a well-formed forest to an open builder appends the forest to the top
      frame's children. */
  lemma {:induction false} RunUnparse(stack: seq<Frame>, ns: seq<Node>)
    requires Valid(Open(stack)) && GoodNodes(ns)
    ensures Run(Open(stack), Unparse(ns)) == Ok(Open(AddChildren(stack, ns)))
    decreases ns, 0
  {
    if ns == [] {
      AddChildrenNone(stack);
    } else {
      var n := ns[0];
      RunAppend(Open(stack), UnparseNode(n), Unparse(ns[1..]));
      RunUnparseNode(stack, n);
      var s1 := AddChild(stack, n);
      RunUnparse(s1, ns[1..]);
      AddChildrenSteps(stack, n, ns[1..]);
      assert [n] + ns[1..] == ns;
    }
  }

  /** Feeding the tokens of one well-formed node adds that node as the top frame's last child. */
  lemma {:induction false} RunUnparseNode(stack: seq<Frame>, n: Node)
    requires Valid(Open(stack)) && GoodNode(n)
    ensures Run(Open(stack), UnparseNode(n)) == Ok(Open(AddChild(stack, n)))
    decreases n, 1
  {
    var open := TokenOf(n.kind, n.value);
    if IsSectionKind(n.kind) {
      var close := TokenOf(SectionEnd, n.value);
      var inner := Unparse(n.children);
      var pushed := stack + [Frame(n.kind, n.value, [])];
      assert [open] + inner + [close] == [open] + (inner + [close]);
      RunAppend(Open(stack), [open], inner + [close]);
      RunOne(Open(stack), open);
      RunAppend(Open(pushed), inner, [close]);
      RunUnparse(pushed, n.children);
      var filled := AddChildren(pushed, n.children);
      assert filled[..|filled| - 1] == stack;
      assert Top(filled) == Frame(n.kind, n.value, n.children);
      RunOne(Open(filled), close);
      assert Close(Top(filled)) == n;
    } else {
      RunOne(Open(stack), open);
      assert Node(n.kind, n.value, []) == n;
    }
  }

  /** Writing a well-formed forest out as tokens and building it again gives the forest back under
      the root. */
  lemma {:induction false} BuildASTUnparse(ns: seq<Node>)
    requires GoodNodes(ns)
    ensures BuildAST(Unparse(ns)) == Ok(Node(SectionStart, RootName, ns))
  {
    RunUnparse([RootFrame], ns);
    assert [RootFrame][..0] == [];
    assert [] + ns == ns;
    assert AddChildren([RootFrame], ns) == [Frame(SectionStart, RootName, ns)];
  }

  // ---------------------------------------------------------------- closing tags and errors

  /** A closing tag fails exactly when it names something other than the innermost open section
      and that section is not named "root"; the error names both. */
  lemma {:induction false} BuildASTMismatch(xs: seq<Token>, stack: seq<Frame>, t: Token, ys: seq<Token>)
    requires Run(Initial, xs) == Ok(Open(stack))
    requires t.kind == SectionEnd
    ensures var top := Top(stack);
      (t.value != top.value && top.value != RootName) <==> Run(Initial, xs + [t]).Err?
    ensures var top := Top(stack);
      t.value != top.value && top.value != RootName ==>
        BuildAST(xs + [t] + ys) == Err(MismatchedSection(top.value, t.value))
  {
    RunAppend(Initial, xs, [t]);
    RunOne(Open(stack), t);
    RunAppend(Initial, xs + [t], ys);
  }

  /** With only the root open, a closing tag of any name pops the root: as the last token it
      leaves the tree as it was, and any token after it fails on the empty stack. */
  lemma {:induction false} BuildASTStrayClose(xs: seq<Token>, f: Frame, t: Token, u: Token, ys: seq<Token>)
    requires Run(Initial, xs) == Ok(Open([f]))
    requires t.kind == SectionEnd
    ensures BuildAST(xs + [t]) == BuildAST(xs) == Ok(Close(f))
    ensures BuildAST(xs + [t] + [u] + ys) == Err(EmptyStack)
  {
    RunAppend(Initial, xs, [t]);
    RunOne(Open([f]), t);
    var popped := Popped(Close(f));
    assert xs + [t] + [u] + ys == (xs + [t]) + ([u] + ys);
    RunAppend(Initial, xs + [t], [u] + ys);
    RunAppend(popped, [u], ys);
    RunOne(popped, u);
  }

  /** Without any closing tag, every opening tag stays open, so a token list holding at least one
      fails as unclosed, naming the last section opened. */
  lemma {:induction false} RunNoClose(b: Builder, ts: seq<Token>)
    requires b.Open? && Valid(b)
    requires forall i | 0 <= i < |ts| :: ts[i].kind != SectionEnd
    ensures Run(b, ts).Ok? && Run(b, ts).value.Open?
    ensures var s := Run(b, ts).value.stack;
      |s| == |b.stack| + Opened(ts)
      && (Opened(ts) > 0 ==> Top(s).value == ts[LastOpened(ts)].value)
      && (Opened(ts) == 0 ==> Top(s).value == Top(b.stack).value)
    decreases |ts|
  {
    if ts != [] {
      var b1 := Step(b, ts[0]).value;
      RunNoClose(b1, ts[1..]);
      OpenedCons(ts);
    }
  }

  /** The number of opening tags (section or inverted section) in `ts`. */
  function Opened(ts: seq<Token>): nat
    decreases |ts|
  {
    if ts == [] then 0 else (if IsSectionKind(ts[0].kind) then 1 else 0) + Opened(ts[1..])
  }

  /** The index of the last opening tag of `ts`. */
  function LastOpened(ts: seq<Token>): (i: nat)
    requires Opened(ts) > 0
    ensures i < |ts| && IsSectionKind(ts[i].kind)
    ensures forall j | i < j < |ts| :: !IsSectionKind(ts[j].kind)
    decreases |ts|
  {
    if Opened(ts[1..]) > 0 then 1 + LastOpened(ts[1..])
    else
      NoneOpened(ts[1..]);
      0
  }

  lemma {:induction false} NoneOpened(ts: seq<Token>)
    requires Opened(ts) == 0
    ensures forall j | 0 <= j < |ts| :: !IsSectionKind(ts[j].kind)
    decreases |ts|
  {
    if ts != [] {
      NoneOpened(ts[1..]);
      forall j | 0 < j < |ts| ensures !IsSectionKind(ts[j].kind) {
        assert ts[j] == ts[1..][j - 1];
      }
    }
  }

  /** How the last opening tag of `ts` relates to that of `ts[1..]`. */
  lemma {:induction false} OpenedCons(ts: seq<Token>)
    requires ts != []
    ensures Opened(ts[1..]) > 0 ==> LastOpened(ts) == 1 + LastOpened(ts[1..])
    ensures Opened(ts[1..]) == 0 && Opened(ts) > 0 ==> LastOpened(ts) == 0
  {
  }

  /** A token list with an opening tag and no closing tag fails as unclosed, naming the last
      section opened. */
  lemma {:induction false} BuildASTUnclosed(ts: seq<Token>)
    requires forall i | 0 <= i < |ts| :: ts[i].kind != SectionEnd
    requires Opened(ts) > 0
    ensures BuildAST(ts) == Err(UnclosedSection(ts[LastOpened(ts)].value))
  {
    RunNoClose(Initial, ts);
  }

  /** Sections still open after the last token make the build fail as unclosed, naming the
      section on top of the stack: the innermost one still open. */
  lemma BuildASTOpenAtEnd(ts: seq<Token>, stack: seq<Frame>)
    requires Run(Initial, ts) == Ok(Open(stack)) && |stack| > 1
    ensures BuildAST(ts) == Err(UnclosedSection(Top(stack).value))
  {
  }

  /** After any tokens the builder accepts with its stack open, an opening tag followed only by
      balanced content (the tokens of a well-formed forest) is the innermost open section at the
      end, so the build fails naming it, whatever was opened and closed after it. */
  lemma {:induction false} BuildASTUnclosedAfter(xs: seq<Token>, stack: seq<Frame>, k: TokenType, a: string,
                                                 ms: seq<Node>)
    requires Run(Initial, xs) == Ok(Open(stack)) && IsSectionKind(k) && GoodNodes(ms)
    ensures BuildAST(xs + [TokenOf(k, a)] + Unparse(ms)) == Err(UnclosedSection(a))
  {
    var t := TokenOf(k, a);
    var pushed := stack + [Frame(k, a, [])];
    RunAppend(Initial, xs, [t]);
    RunOne(Open(stack), t);
    assert Run(Initial, xs + [t]) == Ok(Open(pushed));
    RunAppend(Initial, xs + [t], Unparse(ms));
    RunUnparse(pushed, ms);
    var filled := AddChildren(pushed, ms);
    assert Top(filled).value == a;
    BuildASTOpenAtEnd(xs + [t] + Unparse(ms), filled);
  }

  /** "{{#a}}{{#b}}{{/b}}" fails naming `a`: the innermost section still open, not the last one
      opened. */
  lemma InnermostNotLastOpened()
    ensures BuildAST([TokenOf(SectionStart, "a"), TokenOf(SectionStart, "b"), TokenOf(SectionEnd, "b")])
         == Err(UnclosedSection("a"))
  {
    var b := Node(SectionStart, "b", []);
    assert Unparse([b]) == [TokenOf(SectionStart, "b")] + Unparse([]) + [TokenOf(SectionEnd, "b")] + Unparse([]);
    assert GoodNodes([b]) by { GoodNodesOne(b); }
    BuildASTUnclosedAfter([], [RootFrame], SectionStart, "a", [b]);
    assert [] + [TokenOf(SectionStart, "a")] + Unparse([b])
        == [TokenOf(SectionStart, "a"), TokenOf(SectionStart, "b"), TokenOf(SectionEnd, "b")];
  }
}
