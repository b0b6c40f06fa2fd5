/** Properties of the per-path cache of syntax trees: it is transparent while the files do not
    change, it only ever stores successful parses, and once a path is stored later edits to that
    file are not seen. */
module CacheProofs {
  import opened Wrappers
  import opened Errors
  import opened Models
  import opened RenderValues
  import opened Parser
  import opened Bigode

  /** Every cached tree is the successful parse of its file's current text. */
  predicate Coherent(files: Files, cache: Cache) {
    forall q | q in cache :: q in files && Parse(files[q]) == Ok(cache[q])
  }

  /** The same engine with caching switched off. */
  function NoCache(cfg: Config): (c: Config)
    ensures c.disableCachingFiles && c.fileExtension == cfg.fileExtension
  {
    cfg.(disableCachingFiles := true)
  }

  // ---------------------------------------------------------------- what gets stored

  /** A file not yet cached is parsed; a successful parse is stored under its path (and stays for
      the rest of the render, even if rendering fails), a failed one stores nothing and is
      reported wrapped. */
  lemma ParseAsyncStores(cfg: Config, files: Files, path: string, ctx: Model, cache: Cache, fuel: nat)
    requires path in files && !cfg.disableCachingFiles && path !in cache
    ensures var r := ParseAsync(cfg, files, path, ctx, cache, fuel);
      (Parse(files[path]).Ok? ==> path in r.cache && r.cache[path] == Parse(files[path]).value)
      && (Parse(files[path]).Err? ==> r == Rendered(Err(ParsingError(Parse(files[path]).error)), cache))
  {
    var tree := Parse(files[path]);
    if tree.Ok? {
      var c1 := Store(cfg, path, tree.value, cache);
      assert c1 == cache[path := tree.value];
      var inner := RenderFile(cfg, files, path, tree.value, ctx, c1, fuel);
      assert Extends(c1, inner.cache);
    }
  }

  // ---------------------------------------------------------------- transparency

  /** While the files do not change, a coherent cache changes nothing about what a render produces:
      the text or error is the one the same engine with caching off gives, and the cache stays
      coherent. */
  lemma {:induction false} TransparentParseAsync(cfg: Config, files: Files, path: string, ctx: Model, cache: Cache,
                                                 fuel: nat)
    requires Coherent(files, cache)
    ensures var r := ParseAsync(cfg, files, path, ctx, cache, fuel);
      Coherent(files, r.cache) && r.out == ParseAsync(NoCache(cfg), files, path, ctx, map[], fuel).out
    decreases fuel, 0, 0, 2
  {
    if path in files {
      var parsed := Lookup(cfg, files, path, cache);
      assert parsed == Parse(files[path]) == Lookup(NoCache(cfg), files, path, map[]);
      if parsed.Ok? {
        var c1 := Store(cfg, path, parsed.value, cache);
        assert Coherent(files, c1);
        assert Store(NoCache(cfg), path, parsed.value, map[]) == map[];
        TransparentRenderFile(cfg, files, path, parsed.value, ctx, c1, fuel);
      }
    }
  }

  lemma {:induction false} TransparentRenderFile(cfg: Config, files: Files, path: string, tree: seq<Node>, ctx: Model,
                                                 cache: Cache, fuel: nat)
    requires Coherent(files, cache)
    ensures var r := RenderFile(cfg, files, path, tree, ctx, cache, fuel);
      Coherent(files, r.cache) && r.out == RenderFile(NoCache(cfg), files, path, tree, ctx, map[], fuel).out
    decreases fuel, 0, 0, 1
  {
    if fuel > 0 {
      TransparentNodes(cfg, files, tree, ctx, DirName(path), cache, fuel - 1);
    }
  }

  lemma {:induction false} TransparentNodes(cfg: Config, files: Files, nodes: seq<Node>, ctx: Model, dir: string,
                                            cache: Cache, fuel: nat)
    requires Coherent(files, cache)
    ensures var r := RenderNodes(cfg, files, nodes, ctx, dir, cache, fuel);
      Coherent(files, r.cache) && r.out == RenderNodes(NoCache(cfg), files, nodes, ctx, dir, map[], fuel).out
    decreases fuel, NodesSize(nodes), 1, 0
  {
    if nodes != [] {
      var first := RenderNode(cfg, files, nodes[0], ctx, dir, cache, fuel);
      TransparentNode(cfg, files, nodes[0], ctx, dir, cache, fuel);
      if first.out.Ok? {
        TransparentNodes(cfg, files, nodes[1..], ctx, dir, first.cache, fuel);
      }
    }
  }

  lemma {:induction false} TransparentNode(cfg: Config, files: Files, node: Node, ctx: Model, dir: string,
                                           cache: Cache, fuel: nat)
    requires Coherent(files, cache)
    ensures var r := RenderNode(cfg, files, node, ctx, dir, cache, fuel);
      Coherent(files, r.cache) && r.out == RenderNode(NoCache(cfg), files, node, ctx, dir, map[], fuel).out
    decreases fuel, NodesSize([node]), 0, 1
  {
    match node.kind {
      case SectionStart => TransparentSection(cfg, files, node, ctx, dir, cache, fuel);
      case InvSectionStart => TransparentInverted(cfg, files, node, ctx, dir, cache, fuel);
      case Partial =>
        TransparentParseAsync(cfg, files, PartialPath(cfg, dir, node.value), ctx, cache, fuel);
      case Text =>
      case Var =>
      case SectionEnd =>
      case Comment =>
    }
  }

  lemma {:induction false} TransparentSection(cfg: Config, files: Files, node: Node, ctx: Model, dir: string,
                                              cache: Cache, fuel: nat)
    requires Coherent(files, cache) && node.kind == SectionStart
    ensures var r := RenderNode(cfg, files, node, ctx, dir, cache, fuel);
      Coherent(files, r.cache) && r.out == RenderNode(NoCache(cfg), files, node, ctx, dir, map[], fuel).out
    decreases fuel, NodesSize([node]), 0, 0
  {
    assert NodesSize([node]) > NodesSize(node.children);
    if node.value in ctx {
      match ctx[node.value] {
        case Arr(items) => TransparentEach(cfg, files, node.children, items, dir, cache, fuel);
        case Lambda(f) => TransparentNodes(cfg, files, node.children, ctx, dir, cache, fuel);
        case Bool(b) =>
          if b {
            TransparentNodes(cfg, files, node.children, ctx, dir, cache, fuel);
          }
        case Str(_) =>
        case Obj(_) =>
      }
    }
  }

  lemma {:induction false} TransparentInverted(cfg: Config, files: Files, node: Node, ctx: Model, dir: string,
                                               cache: Cache, fuel: nat)
    requires Coherent(files, cache) && node.kind == InvSectionStart
    ensures var r := RenderNode(cfg, files, node, ctx, dir, cache, fuel);
      Coherent(files, r.cache) && r.out == RenderNode(NoCache(cfg), files, node, ctx, dir, map[], fuel).out
    decreases fuel, NodesSize([node]), 0, 0
  {
    assert NodesSize([node]) > NodesSize(node.children);
    if node.value in ctx && IsBool(ctx[node.value]) && !ctx[node.value].flag {
      TransparentNodes(cfg, files, node.children, ctx, dir, cache, fuel);
    }
  }

  lemma {:induction false} TransparentEach(cfg: Config, files: Files, children: seq<Node>, items: seq<Model>,
                                           dir: string, cache: Cache, fuel: nat)
    requires Coherent(files, cache)
    ensures var r := RenderEach(cfg, files, children, items, dir, cache, fuel);
      Coherent(files, r.cache) && r.out == RenderEach(NoCache(cfg), files, children, items, dir, map[], fuel).out
    decreases fuel, NodesSize(children), 2, |items|
  {
    if items != [] {
      var first := RenderNodes(cfg, files, children, items[0], dir, cache, fuel);
      TransparentNodes(cfg, files, children, items[0], dir, cache, fuel);
      if first.out.Ok? {
        TransparentEach(cfg, files, children, items[1..], dir, first.cache, fuel);
      }
    }
  }

  /** Consecutive calls on one engine, each starting from the cache the previous one left, give
      the same results as an engine without a cache, as long as the files stay the same. */
  lemma SecondCallSeesSameResult(cfg: Config, files: Files, p1: string, m1: Model, p2: string, m2: Model, fuel: nat)
    ensures var first := ParseAsync(cfg, files, p1, m1, map[], fuel);
      var second := ParseAsync(cfg, files, p2, m2, first.cache, fuel);
      first.out == ParseAsync(NoCache(cfg), files, p1, m1, map[], fuel).out
      && second.out == ParseAsync(NoCache(cfg), files, p2, m2, map[], fuel).out
  {
    TransparentParseAsync(cfg, files, p1, m1, map[], fuel);
    var first := ParseAsync(cfg, files, p1, m1, map[], fuel);
    TransparentParseAsync(cfg, files, p2, m2, first.cache, fuel);
  }

  // ---------------------------------------------------------------- staleness

  /** Once `p` is cached, the text of `p` is never read again: a render gives the same result
      whatever that file now holds. This is why caching must be switched off for files that
      change on disk. */
  lemma {:induction false} StaleParseAsync(cfg: Config, files: Files, p: string, text: string, path: string,
                                           ctx: Model, cache: Cache, fuel: nat)
    requires p in files && p in cache && !cfg.disableCachingFiles
    ensures var r := ParseAsync(cfg, files, path, ctx, cache, fuel);
      p in r.cache && ParseAsync(cfg, files[p := text], path, ctx, cache, fuel) == r
    decreases fuel, 0, 0, 2
  {
    var edited := files[p := text];
    if path in files {
      assert Lookup(cfg, files, path, cache) == Lookup(cfg, edited, path, cache);
      var parsed := Lookup(cfg, files, path, cache);
      if parsed.Ok? {
        StaleRenderFile(cfg, files, p, text, path, parsed.value, ctx, Store(cfg, path, parsed.value, cache), fuel);
      }
    }
  }

  lemma {:induction false} StaleRenderFile(cfg: Config, files: Files, p: string, text: string, path: string,
                                           tree: seq<Node>, ctx: Model, cache: Cache, fuel: nat)
    requires p in files && p in cache && !cfg.disableCachingFiles
    ensures var r := RenderFile(cfg, files, path, tree, ctx, cache, fuel);
      p in r.cache && RenderFile(cfg, files[p := text], path, tree, ctx, cache, fuel) == r
    decreases fuel, 0, 0, 1
  {
    if fuel > 0 {
      StaleNodes(cfg, files, p, text, tree, ctx, DirName(path), cache, fuel - 1);
    }
  }

  lemma {:induction false} StaleNodes(cfg: Config, files: Files, p: string, text: string, nodes: seq<Node>,
                                      ctx: Model, dir: string, cache: Cache, fuel: nat)
    requires p in files && p in cache && !cfg.disableCachingFiles
    ensures var r := RenderNodes(cfg, files, nodes, ctx, dir, cache, fuel);
      p in r.cache && RenderNodes(cfg, files[p := text], nodes, ctx, dir, cache, fuel) == r
    decreases fuel, NodesSize(nodes), 1, 0
  {
    if nodes != [] {
      var first := RenderNode(cfg, files, nodes[0], ctx, dir, cache, fuel);
      StaleNode(cfg, files, p, text, nodes[0], ctx, dir, cache, fuel);
      if first.out.Ok? {
        StaleNodes(cfg, files, p, text, nodes[1..], ctx, dir, first.cache, fuel);
      }
    }
  }

  lemma {:induction false} StaleNode(cfg: Config, files: Files, p: string, text: string, node: Node, ctx: Model,
                                     dir: string, cache: Cache, fuel: nat)
    requires p in files && p in cache && !cfg.disableCachingFiles
    ensures var r := RenderNode(cfg, files, node, ctx, dir, cache, fuel);
      p in r.cache && RenderNode(cfg, files[p := text], node, ctx, dir, cache, fuel) == r
    decreases fuel, NodesSize([node]), 0, 0
  {
    assert NodesSize([node]) > NodesSize(node.children);
    match node.kind {
      case SectionStart =>
        if node.value in ctx {
          match ctx[node.value] {
            case Arr(items) => StaleEach(cfg, files, p, text, node.children, items, dir, cache, fuel);
            case Lambda(f) => StaleNodes(cfg, files, p, text, node.children, ctx, dir, cache, fuel);
            case Bool(b) =>
              if b {
                StaleNodes(cfg, files, p, text, node.children, ctx, dir, cache, fuel);
              }
            case Str(_) =>
            case Obj(_) =>
          }
        }
      case InvSectionStart =>
        if node.value in ctx && IsBool(ctx[node.value]) && !ctx[node.value].flag {
          StaleNodes(cfg, files, p, text, node.children, ctx, dir, cache, fuel);
        }
      case Partial =>
        StaleParseAsync(cfg, files, p, text, PartialPath(cfg, dir, node.value), ctx, cache, fuel);
      case Text =>
      case Var =>
      case SectionEnd =>
      case Comment =>
    }
  }

  lemma {:induction false} StaleEach(cfg: Config, files: Files, p: string, text: string, children: seq<Node>,
                                     items: seq<Model>, dir: string, cache: Cache, fuel: nat)
    requires p in files && p in cache && !cfg.disableCachingFiles
    ensures var r := RenderEach(cfg, files, children, items, dir, cache, fuel);
      p in r.cache && RenderEach(cfg, files[p := text], children, items, dir, cache, fuel) == r
    decreases fuel, NodesSize(children), 2, |items|
  {
    if items != [] {
      var first := RenderNodes(cfg, files, children, items[0], dir, cache, fuel);
      StaleNodes(cfg, files, p, text, children, items[0], dir, cache, fuel);
      if first.out.Ok? {
        StaleEach(cfg, files, p, text, children, items[1..], dir, first.cache, fuel);
      }
    }
  }
}
