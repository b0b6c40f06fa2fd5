/** End to end: a syntax tree written out as template text is parsed back into the same tree. */
module RoundTrip {
  import opened Wrappers
  import opened Errors
  import opened Models
  import opened Scanning
  import opened Parser
  import opened ParserProofs
  import opened BuildProofs

  /** The template text of a forest: its tokens, each written as its raw text, in braces for tags. */
  function Template(ns: seq<Node>): string {
    Unlex(Unparse(ns))
  }

  /** A name that reads back as itself inside a tag: non-empty, unpadded, without `}`, and for a
      variable not starting with a sigil. */
  predicate WritableName(k: TokenType, v: string) {
    v != [] && Tight(v) && '}' !in v && (k == Var ==> !IsSigil(v[0]))
  }

  /** Literal text that reads back as itself: non-empty, holding no `{{` and not ending in `{`. */
  predicate WritableText(v: string) {
    v != [] && NoOccurrence(v + "{", OpenTag)
  }

  /** A node that can be written out and read back: a leaf with a writable text or name, or a
      section with a writable name over writable children. */
  predicate WritableNode(n: Node)
    decreases n, 1
  {
    if n.kind == Text then n.children == [] && WritableText(n.value)
    else if n.kind == Var || n.kind == Partial then n.children == [] && WritableName(n.kind, n.value)
    else IsSectionKind(n.kind) && WritableName(n.kind, n.value) && WritableNodes(n.children)
  }

  /** Writable nodes, no two adjacent texts among siblings (their texts would run together). */
  predicate WritableNodes(ns: seq<Node>)
    decreases ns, 0
  {
    ns == [] ||
    (WritableNode(ns[0]) && WritableNodes(ns[1..]) && (|ns| > 1 ==> !(ns[0].kind == Text && ns[1].kind == Text)))
  }

  /** One writable node alone is writable. */
  lemma WritableOne(a: Node)
    requires WritableNode(a)
    ensures WritableNodes([a])
  {
    assert [a][1..] == [];
  }

  /** A writable node in front of writable siblings, not a text before a text, stays writable. */
  lemma WritableCons(a: Node, ns: seq<Node>)
    requires WritableNode(a) && WritableNodes(ns)
    requires ns != [] ==> !(a.kind == Text && ns[0].kind == Text)
    ensures WritableNodes([a] + ns)
  {
    assert ([a] + ns)[1..] == ns;
  }

  /** Two writable nodes side by side, not two texts, are writable. */
  lemma WritableTwo(a: Node, b: Node)
    requires WritableNode(a) && WritableNode(b) && !(a.kind == Text && b.kind == Text)
    ensures WritableNodes([a, b])
  {
    WritableOne(b);
    assert [a, b][1..] == [b];
  }

  lemma {:induction false} WritableGood(ns: seq<Node>)
    requires WritableNodes(ns)
    ensures GoodNodes(ns)
    decreases ns, 0
  {
    if ns != [] {
      WritableGoodNode(ns[0]);
      WritableGood(ns[1..]);
    }
  }

  lemma {:induction false} WritableGoodNode(n: Node)
    requires WritableNode(n)
    ensures GoodNode(n)
    decreases n, 1
  {
    if IsSectionKind(n.kind) {
      WritableGood(n.children);
    }
  }

  /** Two lexable token lists stay lexable side by side unless a text ends one and starts the
      other. */
  lemma {:induction false} LexableAppend(a: seq<Token>, b: seq<Token>)
    requires LexableTokens(a) && LexableTokens(b)
    requires a != [] && b != [] ==> !(a[|a| - 1].kind == Text && b[0].kind == Text)
    ensures LexableTokens(a + b)
  {
    var c := a + b;
    forall i | 0 <= i < |c| ensures Lexable(c[i]) {
      if i < |a| { assert c[i] == a[i]; } else { assert c[i] == b[i - |a|]; }
    }
    forall i | 0 < i < |c| ensures c[i].kind == Text ==> c[i - 1].kind != Text {
      if i < |a| {
        assert c[i] == a[i] && c[i - 1] == a[i - 1];
      } else if i == |a| {
        assert c[i] == b[0] && c[i - 1] == a[|a| - 1];
      } else {
        assert c[i] == b[i - |a|] && c[i - 1] == b[i - 1 - |a|];
      }
    }
  }

  lemma LexableOne(t: Token)
    requires Lexable(t)
    ensures LexableTokens([t])
  {
  }

  /** The token of a writable leaf or section header reads back as itself. */
  lemma LexableTokenOf(k: TokenType, v: string)
    requires if k == Text then WritableText(v) else WritableName(k, v)
    ensures Lexable(TokenOf(k, v))
  {
  }

  /** The first token of a non-empty forest is its first node's. */
  lemma {:induction false} UnparseFirst(ns: seq<Node>)
    requires ns != []
    ensures Unparse(ns) != [] && Unparse(ns)[0] == TokenOf(ns[0].kind, ns[0].value)
  {
    var u := UnparseNode(ns[0]);
    assert u[0] == TokenOf(ns[0].kind, ns[0].value);
    assert (u + Unparse(ns[1..]))[0] == u[0];
  }

  /** The tokens of a writable forest are lexable. */
  lemma {:induction false} LexableUnparse(ns: seq<Node>)
    requires WritableNodes(ns)
    ensures LexableTokens(Unparse(ns))
    decreases ns, 0
  {
    if ns != [] {
      var n := ns[0];
      var u := UnparseNode(n);
      LexableUnparseNode(n);
      LexableUnparse(ns[1..]);
      if |ns| > 1 {
        UnparseFirst(ns[1..]);
        assert u[|u| - 1].kind == Text ==> n.kind == Text;
      }
      LexableAppend(u, Unparse(ns[1..]));
    }
  }

  lemma {:induction false} LexableUnparseNode(n: Node)
    requires WritableNode(n)
    ensures LexableTokens(UnparseNode(n))
    ensures var u := UnparseNode(n); u != [] && (u[|u| - 1].kind == Text ==> n.kind == Text)
    decreases n, 1
  {
    var open := TokenOf(n.kind, n.value);
    LexableTokenOf(n.kind, n.value);
    LexableOne(open);
    if IsSectionKind(n.kind) {
      var close := TokenOf(SectionEnd, n.value);
      LexableTokenOf(SectionEnd, n.value);
      LexableOne(close);
      LexableUnparse(n.children);
      if n.children != [] {
        UnparseFirst(n.children);
      }
      LexableAppend([open], Unparse(n.children));
      LexableAppend([open] + Unparse(n.children), [close]);
    }
  }

  /** A writable forest, written out as template text, parses back to itself. */
  lemma ParseTemplate(ns: seq<Node>)
    requires WritableNodes(ns)
    ensures Parse(Template(ns)) == Ok(ns)
  {
    LexableUnparse(ns);
    TokenizeUnlex(Unparse(ns));
    WritableGood(ns);
    BuildASTUnparse(ns);
  }

  // ---------------------------------------------------------------- writing templates piecewise

  lemma {:induction false} UnparseAppend(xs: seq<Node>, ys: seq<Node>)
    ensures Unparse(xs + ys) == Unparse(xs) + Unparse(ys)
    decreases |xs|
  {
    if xs == [] {
      assert xs + ys == ys;
    } else {
      assert (xs + ys)[0] == xs[0];
      assert (xs + ys)[1..] == xs[1..] + ys;
      UnparseAppend(xs[1..], ys);
    }
  }

  lemma {:induction false} UnlexAppend(a: seq<Token>, b: seq<Token>)
    ensures Unlex(a + b) == Unlex(a) + Unlex(b)
    decreases |a|
  {
    if a == [] {
      assert a + b == b;
    } else {
      assert (a + b)[0] == a[0];
      assert (a + b)[1..] == a[1..] + b;
      UnlexAppend(a[1..], b);
    }
  }

  /** The template of siblings is their templates side by side. */
  lemma TemplateAppend(xs: seq<Node>, ys: seq<Node>)
    ensures Template(xs + ys) == Template(xs) + Template(ys)
  {
    UnparseAppend(xs, ys);
    UnlexAppend(Unparse(xs), Unparse(ys));
  }

  /** A text node is written as its text. */
  lemma TemplateText(v: string)
    ensures Template([Node(Text, v, [])]) == v
  {
    assert Unparse([Node(Text, v, [])]) == [TokenOf(Text, v)] + Unparse([]);
    assert Unlex([TokenOf(Text, v)]) == v + Unlex([]);
  }

  /** A variable or partial is written as its tag. */
  lemma TemplateLeaf(k: TokenType, v: string)
    requires k == Var || k == Partial
    ensures Template([Node(k, v, [])]) == OpenTag + TagText(k, v) + CloseTag
  {
    assert Unparse([Node(k, v, [])]) == [TokenOf(k, v)] + Unparse([]);
    assert Unlex([TokenOf(k, v)]) == OpenTag + TagText(k, v) + CloseTag + Unlex([]);
  }

  /** A section is written as its opening tag, its children, and its closing tag. */
  lemma TemplateSection(k: TokenType, v: string, children: seq<Node>)
    requires IsSectionKind(k)
    ensures Template([Node(k, v, children)])
         == OpenTag + TagText(k, v) + CloseTag + Template(children) + OpenTag + TagText(SectionEnd, v) + CloseTag
  {
    var open := TokenOf(k, v);
    var close := TokenOf(SectionEnd, v);
    var u := Unparse(children);
    assert Unparse([Node(k, v, children)]) == [open] + u + [close] + Unparse([]);
    assert [open] + u + [close] + [] == [open] + u + [close];
    UnlexAppend([open] + u, [close]);
    UnlexAppend([open], u);
    var a := OpenTag + TagText(k, v) + CloseTag;
    var b := OpenTag + TagText(SectionEnd, v) + CloseTag;
    assert Unlex([open]) == a + Unlex([]);
    assert Unlex([close]) == b + Unlex([]);
    assert a + Unlex(u) + b == a + Unlex(u) + OpenTag + TagText(SectionEnd, v) + CloseTag;
  }
}
