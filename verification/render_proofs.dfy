/** Properties of the renderer: how it splits over a list of nodes and over the elements of an
    array, what each kind of section does with its key, and that the bound on nested partials is
    only a cut-off. */
module RenderProofs {
  import opened Wrappers
  import opened Errors
  import opened Models
  import opened RenderValues
  import opened Parser
  import opened Bigode

  /** Two renders in sequence: the first failure wins, otherwise the texts are concatenated and the
      second starts from the cache the first left. */
  function Then(a: Rendered, b: Rendered): Rendered {
    if a.out.Err? then a else if b.out.Err? then b else Rendered(Ok(a.out.value + b.out.value), b.cache)
  }

  // ---------------------------------------------------------------- lists and arrays

  /** Rendering `xs + ys` is rendering `xs`, then `ys` from the cache `xs` left. */
  lemma {:induction false} RenderNodesAppend(cfg: Config, files: Files, xs: seq<Node>, ys: seq<Node>, ctx: Model,
                                             dir: string, cache: Cache, fuel: nat)
    ensures var a := RenderNodes(cfg, files, xs, ctx, dir, cache, fuel);
      RenderNodes(cfg, files, xs + ys, ctx, dir, cache, fuel)
        == Then(a, RenderNodes(cfg, files, ys, ctx, dir, a.cache, fuel))
    decreases |xs|
  {
    if xs == [] {
      assert xs + ys == ys;
      var b := RenderNodes(cfg, files, ys, ctx, dir, cache, fuel);
      assert b.out.Ok? ==> "" + b.out.value == b.out.value;
    } else {
      assert (xs + ys)[0] == xs[0];
      assert (xs + ys)[1..] == xs[1..] + ys;
      var first := RenderNode(cfg, files, xs[0], ctx, dir, cache, fuel);
      if first.out.Ok? {
        RenderNodesAppend(cfg, files, xs[1..], ys, ctx, dir, first.cache, fuel);
        var mid := RenderNodes(cfg, files, xs[1..], ctx, dir, first.cache, fuel);
        var b := RenderNodes(cfg, files, ys, ctx, dir, mid.cache, fuel);
        if mid.out.Ok? && b.out.Ok? {
          assert first.out.value + (mid.out.value + b.out.value) == first.out.value + mid.out.value + b.out.value;
        }
      }
    }
  }

  /** The loop over an array in two parts: the passes over `xs`, then those over `ys`. */
  lemma {:induction false} RenderEachAppend(cfg: Config, files: Files, children: seq<Node>, xs: seq<Model>,
                                            ys: seq<Model>, dir: string, cache: Cache, fuel: nat)
    ensures var a := RenderEach(cfg, files, children, xs, dir, cache, fuel);
      RenderEach(cfg, files, children, xs + ys, dir, cache, fuel)
        == Then(a, RenderEach(cfg, files, children, ys, dir, a.cache, fuel))
    decreases |xs|
  {
    if xs == [] {
      assert xs + ys == ys;
      var b := RenderEach(cfg, files, children, ys, dir, cache, fuel);
      assert b.out.Ok? ==> "" + b.out.value == b.out.value;
    } else {
      assert (xs + ys)[0] == xs[0];
      assert (xs + ys)[1..] == xs[1..] + ys;
      var first := RenderNodes(cfg, files, children, xs[0], dir, cache, fuel);
      if first.out.Ok? {
        RenderEachAppend(cfg, files, children, xs[1..], ys, dir, first.cache, fuel);
        var mid := RenderEach(cfg, files, children, xs[1..], dir, first.cache, fuel);
        var b := RenderEach(cfg, files, children, ys, dir, mid.cache, fuel);
        if mid.out.Ok? && b.out.Ok? {
          assert first.out.value + (mid.out.value + b.out.value) == first.out.value + mid.out.value + b.out.value;
        }
      }
    }
  }

  /** One pass of the loop renders the children with the element as the whole context: nothing of
      the enclosing context is visible inside. */
  lemma {:induction false} RenderEachOne(cfg: Config, files: Files, children: seq<Node>, m: Model, dir: string,
                                         cache: Cache, fuel: nat)
    ensures RenderEach(cfg, files, children, [m], dir, cache, fuel)
         == RenderNodes(cfg, files, children, m, dir, cache, fuel)
  {
    assert [m][1..] == [];
    var first := RenderNodes(cfg, files, children, m, dir, cache, fuel);
    assert first.out.Ok? ==> first.out.value + "" == first.out.value;
  }

  /** Each further array element adds one pass at the end. */
  lemma RenderEachSnoc(cfg: Config, files: Files, children: seq<Node>, items: seq<Model>, m: Model, dir: string,
                       cache: Cache, fuel: nat)
    ensures var a := RenderEach(cfg, files, children, items, dir, cache, fuel);
      RenderEach(cfg, files, children, items + [m], dir, cache, fuel)
        == Then(a, RenderNodes(cfg, files, children, m, dir, a.cache, fuel))
  {
    RenderEachAppend(cfg, files, children, items, [m], dir, cache, fuel);
    var a := RenderEach(cfg, files, children, items, dir, cache, fuel);
    RenderEachOne(cfg, files, children, m, dir, a.cache, fuel);
  }

  // ---------------------------------------------------------------- text

  predicate AllText(ns: seq<Node>) {
    forall i | 0 <= i < |ns| :: ns[i].kind == Text
  }

  /** The literal texts of a list of nodes, concatenated. */
  function Texts(ns: seq<Node>): string
    decreases |ns|
  {
    if ns == [] then "" else ns[0].value + Texts(ns[1..])
  }

  /** Text nodes are copied verbatim, whatever the context, and touch no file and no cache entry. */
  lemma {:induction false} RenderTexts(cfg: Config, files: Files, ns: seq<Node>, ctx: Model, dir: string,
                                       cache: Cache, fuel: nat)
    requires AllText(ns)
    ensures RenderNodes(cfg, files, ns, ctx, dir, cache, fuel) == Rendered(Ok(Texts(ns)), cache)
    decreases |ns|
  {
    if ns != [] {
      RenderTexts(cfg, files, ns[1..], ctx, dir, cache, fuel);
    }
  }

  // ---------------------------------------------------------------- keys and sections

  /** Lookups differ by kind: a missing key makes a variable vanish but makes a section or an
      inverted section fail, naming the key. */
  lemma MissingKeyPolicy(cfg: Config, files: Files, k: string, children: seq<Node>, ctx: Model, dir: string,
                         cache: Cache, fuel: nat)
    requires k !in ctx
    ensures RenderNode(cfg, files, Node(Var, k, []), ctx, dir, cache, fuel) == Rendered(Ok(""), cache)
    ensures RenderNode(cfg, files, Node(SectionStart, k, children), ctx, dir, cache, fuel)
         == Rendered(Err(MissingKey(k)), cache)
    ensures RenderNode(cfg, files, Node(InvSectionStart, k, children), ctx, dir, cache, fuel)
         == Rendered(Err(MissingKey(k)), cache)
  {
  }

  /** A variable renders the stored string exactly (no escaping), and fails on any other variant. */
  lemma VarRenders(cfg: Config, files: Files, k: string, ctx: Model, dir: string, cache: Cache, fuel: nat)
    requires k in ctx
    ensures var r := RenderNode(cfg, files, Node(Var, k, []), ctx, dir, cache, fuel);
      r.cache == cache
      && (r.out.Ok? <==> IsString(ctx[k]))
      && (r.out.Ok? ==> GetStringValue(ctx[k]) == Ok(r.out.value))
      && (r.out.Err? ==> r.out.error == InvalidModel(k))
  {
  }

  /** For a boolean key, exactly one of a section and an inverted section over the same children
      shows them: the pair renders like the children alone. */
  lemma {:induction false} SectionAndInverted(cfg: Config, files: Files, k: string, children: seq<Node>, ctx: Model,
                                              dir: string, cache: Cache, fuel: nat)
    requires k in ctx && IsBool(ctx[k])
    ensures RenderNodes(cfg, files, [Node(SectionStart, k, children), Node(InvSectionStart, k, children)],
                        ctx, dir, cache, fuel)
         == RenderNodes(cfg, files, children, ctx, dir, cache, fuel)
  {
    var s := Node(SectionStart, k, children);
    var v := Node(InvSectionStart, k, children);
    RenderNodesAppend(cfg, files, [s], [v], ctx, dir, cache, fuel);
    assert [s] + [v] == [s, v];
    var body := RenderNodes(cfg, files, children, ctx, dir, cache, fuel);
    SingleNode(cfg, files, s, ctx, dir, cache, fuel);
    if ctx[k].flag {
      SingleNode(cfg, files, v, ctx, dir, body.cache, fuel);
      assert body.out.Ok? ==> body.out.value + "" == body.out.value;
    } else {
      SingleNode(cfg, files, v, ctx, dir, cache, fuel);
      assert body.out.Ok? ==> "" + body.out.value == body.out.value;
    }
  }

  /** A list of one node renders as that node. */
  lemma {:induction false} SingleNode(cfg: Config, files: Files, n: Node, ctx: Model, dir: string, cache: Cache,
                                      fuel: nat)
    ensures RenderNodes(cfg, files, [n], ctx, dir, cache, fuel) == RenderNode(cfg, files, n, ctx, dir, cache, fuel)
  {
    assert [n][1..] == [];
    var r := RenderNode(cfg, files, n, ctx, dir, cache, fuel);
    assert r.out.Ok? ==> r.out.value + "" == r.out.value;
  }

  /** A section over an array renders its children once per element, in order, each pass with the
      element as its context; an empty array renders nothing. The enclosing context matters only
      through the key's value. */
  lemma ArraySection(cfg: Config, files: Files, k: string, children: seq<Node>, ctx: Model, dir: string,
                     cache: Cache, fuel: nat)
    requires k in ctx && IsArray(ctx[k])
    ensures RenderNode(cfg, files, Node(SectionStart, k, children), ctx, dir, cache, fuel)
         == RenderEach(cfg, files, children, ctx[k].items, dir, cache, fuel)
    ensures ctx[k].items == [] ==>
      RenderNode(cfg, files, Node(SectionStart, k, children), ctx, dir, cache, fuel) == Rendered(Ok(""), cache)
    ensures forall other: Model | k in other && other[k] == ctx[k] ::
      RenderNode(cfg, files, Node(SectionStart, k, children), other, dir, cache, fuel)
        == RenderNode(cfg, files, Node(SectionStart, k, children), ctx, dir, cache, fuel)
  {
  }

  /** A section over a lambda renders its children in the current context and hands the text to
      the lambda, whose result is what appears. */
  lemma LambdaSection(cfg: Config, files: Files, k: string, children: seq<Node>, ctx: Model, dir: string,
                      cache: Cache, fuel: nat)
    requires k in ctx && IsLambda(ctx[k])
    ensures var inner := RenderNodes(cfg, files, children, ctx, dir, cache, fuel);
      var r := RenderNode(cfg, files, Node(SectionStart, k, children), ctx, dir, cache, fuel);
      r.cache == inner.cache
      && (r.out.Ok? <==> inner.out.Ok?)
      && (r.out.Ok? ==> r.out.value == ctx[k].fn(inner.out.value))
  {
  }

  /** A section over a string or a model fails, naming the key; an inverted section over anything
      but `false` renders nothing. */
  lemma InvalidSections(cfg: Config, files: Files, k: string, children: seq<Node>, ctx: Model, dir: string,
                        cache: Cache, fuel: nat)
    requires k in ctx
    ensures (IsString(ctx[k]) || IsModel(ctx[k])) ==>
      RenderNode(cfg, files, Node(SectionStart, k, children), ctx, dir, cache, fuel)
        == Rendered(Err(InvalidModel(k)), cache)
    ensures !(IsBool(ctx[k]) && !ctx[k].flag) ==>
      RenderNode(cfg, files, Node(InvSectionStart, k, children), ctx, dir, cache, fuel) == Rendered(Ok(""), cache)
  {
  }

  // ---------------------------------------------------------------- files

  /** An existing file whose tree is found renders that tree with the file's folder as the base of
      its partials, one level of nesting used; the cache is extended before rendering and a failure
      of the render comes back wrapped as a parsing error. */
  lemma ParseAsyncRenders(cfg: Config, files: Files, path: string, ctx: Model, cache: Cache, fuel: nat,
                          tree: seq<Node>)
    requires path in files && Lookup(cfg, files, path, cache) == Ok(tree) && fuel > 0
    ensures var inner := RenderNodes(cfg, files, tree, ctx, DirName(path), Store(cfg, path, tree, cache), fuel - 1);
      var r := ParseAsync(cfg, files, path, ctx, cache, fuel);
      r.cache == inner.cache
      && (inner.out.Ok? ==> r.out == inner.out)
      && (inner.out.Err? ==> r.out == Err(ParsingError(inner.out.error)))
  {
  }

  // ---------------------------------------------------------------- the bound on partials

  /** The error is the depth bound running out, possibly wrapped by the enclosing files. */
  predicate CutOff(e: Error) {
    e == DepthExhausted || (e.ParsingError? && CutOff(e.inner))
  }

  /** An outcome the bound on partials did not decide: a success, or any failure other than the
      bound running out. */
  predicate Settled(out: Result<string, Error>) {
    out.Ok? || !CutOff(out.error)
  }

  /** A render that the bound on nested partials did not cut off gives the same outcome, text or
      failure, and the same cache under any larger bound: the bound cuts off runaway recursion
      and changes nothing else. */
  lemma {:induction false} FuelParseAsync(cfg: Config, files: Files, path: string, ctx: Model, cache: Cache,
                                          fuel: nat, more: nat)
    requires Settled(ParseAsync(cfg, files, path, ctx, cache, fuel).out)
    ensures ParseAsync(cfg, files, path, ctx, cache, fuel + more) == ParseAsync(cfg, files, path, ctx, cache, fuel)
    decreases fuel, 0, 0, 2
  {
    if path in files && Lookup(cfg, files, path, cache).Ok? {
      var tree := Lookup(cfg, files, path, cache).value;
      FuelRenderFile(cfg, files, path, tree, ctx, Store(cfg, path, tree, cache), fuel, more);
    }
  }

  lemma {:induction false} FuelRenderFile(cfg: Config, files: Files, path: string, tree: seq<Node>, ctx: Model,
                                          cache: Cache, fuel: nat, more: nat)
    requires Settled(RenderFile(cfg, files, path, tree, ctx, cache, fuel).out)
    ensures RenderFile(cfg, files, path, tree, ctx, cache, fuel + more)
         == RenderFile(cfg, files, path, tree, ctx, cache, fuel)
    decreases fuel, 0, 0, 1
  {
    FuelNodes(cfg, files, tree, ctx, DirName(path), cache, fuel - 1, more);
    assert fuel + more - 1 == fuel - 1 + more;
  }

  lemma {:induction false} FuelNodes(cfg: Config, files: Files, nodes: seq<Node>, ctx: Model, dir: string,
                                     cache: Cache, fuel: nat, more: nat)
    requires Settled(RenderNodes(cfg, files, nodes, ctx, dir, cache, fuel).out)
    ensures RenderNodes(cfg, files, nodes, ctx, dir, cache, fuel + more)
         == RenderNodes(cfg, files, nodes, ctx, dir, cache, fuel)
    decreases fuel, NodesSize(nodes), 1, 0
  {
    if nodes != [] {
      var first := RenderNode(cfg, files, nodes[0], ctx, dir, cache, fuel);
      FuelNode(cfg, files, nodes[0], ctx, dir, cache, fuel, more);
      if first.out.Ok? {
        FuelNodes(cfg, files, nodes[1..], ctx, dir, first.cache, fuel, more);
      }
    }
  }

  lemma {:induction false} FuelNode(cfg: Config, files: Files, node: Node, ctx: Model, dir: string,
                                    cache: Cache, fuel: nat, more: nat)
    requires Settled(RenderNode(cfg, files, node, ctx, dir, cache, fuel).out)
    ensures RenderNode(cfg, files, node, ctx, dir, cache, fuel + more)
         == RenderNode(cfg, files, node, ctx, dir, cache, fuel)
    decreases fuel, NodesSize([node]), 0, 0
  {
    assert NodesSize([node]) > NodesSize(node.children);
    match node.kind {
      case SectionStart =>
        if node.value in ctx {
          match ctx[node.value] {
            case Arr(items) => FuelEach(cfg, files, node.children, items, dir, cache, fuel, more);
            case Lambda(f) => FuelNodes(cfg, files, node.children, ctx, dir, cache, fuel, more);
            case Bool(b) =>
              if b {
                FuelNodes(cfg, files, node.children, ctx, dir, cache, fuel, more);
              }
            case Str(_) =>
            case Obj(_) =>
          }
        }
      case InvSectionStart =>
        if node.value in ctx && IsBool(ctx[node.value]) && !ctx[node.value].flag {
          FuelNodes(cfg, files, node.children, ctx, dir, cache, fuel, more);
        }
      case Partial =>
        FuelParseAsync(cfg, files, PartialPath(cfg, dir, node.value), ctx, cache, fuel, more);
      case Text =>
      case Var =>
      case SectionEnd =>
      case Comment =>
    }
  }

  lemma {:induction false} FuelEach(cfg: Config, files: Files, children: seq<Node>, items: seq<Model>, dir: string,
                                    cache: Cache, fuel: nat, more: nat)
    requires Settled(RenderEach(cfg, files, children, items, dir, cache, fuel).out)
    ensures RenderEach(cfg, files, children, items, dir, cache, fuel + more)
         == RenderEach(cfg, files, children, items, dir, cache, fuel)
    decreases fuel, NodesSize(children), 2, |items|
  {
    if items != [] {
      var first := RenderNodes(cfg, files, children, items[0], dir, cache, fuel);
      FuelNodes(cfg, files, children, items[0], dir, cache, fuel, more);
      if first.out.Ok? {
        FuelEach(cfg, files, children, items[1..], dir, first.cache, fuel, more);
      }
    }
  }
}
