/** Model of src/Bigode/Bigode.cs: the engine façade (`ParseAsync`) and the recursive renderer.
    The file system is a map from path to text; the per-path cache of syntax trees is a map that
    every call takes and hands back, so that its growth is visible. */
module Bigode {
  import opened Wrappers
  import opened Errors
  import opened Models
  import opened RenderValues
  import opened Parser

  /** The engine's configuration: `fileExtension` with its dots removed, and the cache switch. */
  datatype Config = Config(fileExtension: string, disableCachingFiles: bool)

  type Files = map<string, string>
  type Cache = map<string, seq<Node>>

  /** What a render hands back: its text or error, and the cache as it stands afterwards (entries
      added before a failure stay). */
  datatype Rendered = Rendered(out: Result<string, Error>, cache: Cache)

  /** `fileExtension.Replace(".", "")`. */
  function RemoveDots(s: string): (r: string)
    ensures '.' !in r
    ensures |r| <= |s|
    ensures '.' !in s ==> r == s
    ensures forall c | c != '.' :: multiset(r)[c] == multiset(s)[c]
    decreases |s|
  {
    if s == [] then []
    else
      var rest := RemoveDots(s[1..]);
      assert s == [s[0]] + s[1..];
      if s[0] == '.' then rest else [s[0]] + rest
  }

  /** Removing dots works piece by piece: the kept characters stay in their order. */
  lemma {:induction false} RemoveDotsAppend(a: string, b: string)
    ensures RemoveDots(a + b) == RemoveDots(a) + RemoveDots(b)
    decreases |a|
  {
    if a != [] {
      assert (a + b)[0] == a[0];
      assert (a + b)[1..] == a[1..] + b;
      RemoveDotsAppend(a[1..], b);
    } else {
      assert a + b == b;
    }
  }

  /** A single character is dropped exactly when it is a dot. */
  lemma RemoveDotsChar(c: char)
    ensures RemoveDots([c]) == if c == '.' then [] else [c]
  {
    assert [c][1..] == [];
  }

  /** The constructor `Bigode(fileExtension = "html", disableCachingFiles = false)`. */
  function NewBigode(fileExtension: string := "html", disableCachingFiles: bool := false): (c: Config)
    ensures '.' !in c.fileExtension
    ensures c.fileExtension == RemoveDots(fileExtension)
    ensures c.disableCachingFiles == disableCachingFiles
  {
    Config(RemoveDots(fileExtension), disableCachingFiles)
  }

  // ---------------------------------------------------------------- paths

  /** Index of the last '/' in `p`, or -1. */
  function LastSlash(p: string): (i: int)
    ensures -1 <= i < |p|
    ensures i >= 0 ==> p[i] == '/'
    ensures forall k | i < k < |p| :: p[k] != '/'
    decreases |p|
  {
    if p == [] then -1
    else if p[|p| - 1] == '/' then |p| - 1
    else LastSlash(p[..|p| - 1])
  }

  /** `Path.GetDirectoryName` for '/'-separated paths: everything before the last separator
      ("/" for a file at the root, "" for a bare file name). */
  function DirName(p: string): string {
    var i := LastSlash(p);
    if i < 0 then "" else if i == 0 then "/" else p[..i]
  }

  /** `Path.Combine(dir, name)` for '/'-separated paths. */
  function Combine(dir: string, name: string): string {
    if |name| > 0 && name[0] == '/' then name
    else if dir == "" then name
    else if dir[|dir| - 1] == '/' then dir + name
    else dir + "/" + name
  }

  /** The folder of a path is empty exactly when the path has no '/'; otherwise it is "/" or the
      part of the path before its last '/'. */
  lemma DirNameParts(p: string)
    ensures DirName(p) == [] <==> '/' !in p
    ensures var r := DirName(p);
      r != [] && r != "/" ==> r < p && p[|r|] == '/' && '/' !in p[|r| + 1..]
  {
    var i := LastSlash(p);
    assert i < 0 ==> forall k | 0 <= k < |p| :: p[k] != '/';
    assert i > 0 ==> p[i + 1..] == p[|p[..i]| + 1..];
  }

  /** The last '/' of `p` is at `i` when `p[i]` is one and none follows it. */
  lemma LastSlashAt(p: string, i: nat)
    requires i < |p| && p[i] == '/'
    requires forall k | i < k < |p| :: p[k] != '/'
    ensures LastSlash(p) == i
  {
  }

  /** The folder of a file name joined onto a folder is that folder, when the folder is the root or
      does not end in a separator. */
  lemma DirNameCombine(dir: string, name: string)
    requires dir != [] && (dir == "/" || dir[|dir| - 1] != '/')
    requires name != [] && '/' !in name
    ensures DirName(Combine(dir, name)) == dir
  {
    if dir == "/" {
      var p := Combine(dir, name);
      assert p == "/" + name;
      forall k | 0 < k < |p| ensures p[k] != '/' {
        assert p[k] == name[k - 1];
      }
      LastSlashAt(p, 0);
    } else {
      var p := Combine(dir, name);
      assert p == dir + "/" + name;
      forall k | |dir| < k < |p| ensures p[k] != '/' {
        assert p[k] == name[k - |dir| - 1];
      }
      LastSlashAt(p, |dir|);
      assert p[..|dir|] == dir;
    }
  }

  /** Where the partial `{{> name }}` of a file in `baseDir` is read from. */
  function PartialPath(cfg: Config, baseDir: string, name: string): string {
    Combine(baseDir, name + "." + cfg.fileExtension)
  }

  // ---------------------------------------------------------------- cache

  /** Every entry of `before` is still in `after`, unchanged. */
  predicate Extends(before: Cache, after: Cache) {
    forall q | q in before :: q in after && after[q] == before[q]
  }

  /** The guarantee every render gives about the cache it hands back: entries are only added, and
      not at all when caching is off. */
  predicate CacheGrowth(cfg: Config, before: Cache, after: Cache) {
    Extends(before, after) && (cfg.disableCachingFiles ==> after == before)
  }

  // ---------------------------------------------------------------- rendering

  /** The tree of an existing file: the cached one when caching is on and the path has an entry,
      otherwise a fresh parse of the file's text. */
  function Lookup(cfg: Config, files: Files, path: string, cache: Cache): Result<seq<Node>, Error>
    requires path in files
  {
    if !cfg.disableCachingFiles && path in cache then Ok(cache[path]) else Parse(files[path])
  }

  /** The cache after a successful lookup: a freshly parsed tree is stored when caching is on. */
  function Store(cfg: Config, path: string, tree: seq<Node>, cache: Cache): (r: Cache)
    ensures Extends(cache, r)
    ensures cfg.disableCachingFiles ==> r == cache
  {
    if cfg.disableCachingFiles || path in cache then cache else cache[path := tree]
  }

  /** The `catch` of `ParseAsync`: any failure is rethrown wrapped as a parsing error. */
  function Wrap(r: Rendered): (w: Rendered)
    ensures w.cache == r.cache
    ensures w.out.Ok? <==> r.out.Ok?
    ensures r.out.Ok? ==> w == r
    ensures r.out.Err? ==> w.out.error == ParsingError(r.out.error)
  {
    if r.out.Err? then Rendered(Err(ParsingError(r.out.error)), r.cache) else r
  }

  /** `ParseAsync(filePath, model)`: a missing file fails unwrapped; otherwise the tree is taken from
      the cache or parsed (and cached), then rendered with the file's folder as the base of its
      partials, and any failure is wrapped as a parsing error. `fuel` bounds the nesting of
      partials, which the source leaves unbounded. */
  function ParseAsync(cfg: Config, files: Files, path: string, ctx: Model, cache: Cache, fuel: nat)
    : (r: Rendered)
    ensures CacheGrowth(cfg, cache, r.cache)
    ensures path !in files ==> r == Rendered(Err(FileNotFound(path)), cache)
    ensures path in files && r.out.Err? ==> r.out.error.ParsingError?
    decreases fuel, 0, 0, 2
  {
    if path !in files then Rendered(Err(FileNotFound(path)), cache)
    else
      var parsed := Lookup(cfg, files, path, cache);
      if parsed.Err? then Wrap(Rendered(Err(parsed.error), cache))
      else
        Wrap(RenderFile(cfg, files, path, parsed.value, ctx, Store(cfg, path, parsed.value, cache), fuel))
  }

  /** The render inside `ParseAsync`'s try block: the tree rendered into a fresh buffer, with the
      file's folder as the base of its partials, one level of partials down. */
  function RenderFile(cfg: Config, files: Files, path: string, tree: seq<Node>, ctx: Model, cache: Cache, fuel: nat)
    : (r: Rendered)
    ensures CacheGrowth(cfg, cache, r.cache)
    decreases fuel, 0, 0, 1
  {
    if fuel == 0 then Rendered(Err(DepthExhausted), cache)
    else RenderNodes(cfg, files, tree, ctx, DirName(path), cache, fuel - 1)
  }

  /** `Render(nodes, context, partialBasePath, sb)`: the nodes rendered in order and concatenated;
      the first failure aborts the whole list. */
  function RenderNodes(cfg: Config, files: Files, nodes: seq<Node>, ctx: Model, baseDir: string,
                       cache: Cache, fuel: nat): (r: Rendered)
    ensures CacheGrowth(cfg, cache, r.cache)
    decreases fuel, NodesSize(nodes), 1, 0
  {
    if nodes == [] then Rendered(Ok(""), cache)
    else
      var first := RenderNode(cfg, files, nodes[0], ctx, baseDir, cache, fuel);
      if first.out.Err? then first
      else
        var rest := RenderNodes(cfg, files, nodes[1..], ctx, baseDir, first.cache, fuel);
        if rest.out.Err? then rest
        else Rendered(Ok(first.out.value + rest.out.value), rest.cache)
  }

  /** One iteration of `Render`'s loop: the text one node contributes. */
  function RenderNode(cfg: Config, files: Files, node: Node, ctx: Model, baseDir: string,
                      cache: Cache, fuel: nat): (r: Rendered)
    ensures CacheGrowth(cfg, cache, r.cache)
    decreases fuel, NodesSize([node]), 0, 0
  {
    assert NodesSize([node]) > NodesSize(node.children);
    match node.kind
    case Text => Rendered(Ok(node.value), cache)
    case Var =>
      // tolerant lookup: a missing key contributes nothing
      if node.value !in ctx then Rendered(Ok(""), cache)
      else if !IsString(ctx[node.value]) then Rendered(Err(InvalidModel(node.value)), cache)
      else Rendered(Ok(ctx[node.value].text), cache)
    case SectionStart =>
      // strict lookup: a missing key is a failure
      if node.value !in ctx then Rendered(Err(MissingKey(node.value)), cache)
      else
        (match ctx[node.value]
        case Arr(items) => RenderEach(cfg, files, node.children, items, baseDir, cache, fuel)
        case Lambda(f) =>
          var inner := RenderNodes(cfg, files, node.children, ctx, baseDir, cache, fuel);
          if inner.out.Err? then inner else Rendered(Ok(f(inner.out.value)), inner.cache)
        case Bool(b) =>
          if b then RenderNodes(cfg, files, node.children, ctx, baseDir, cache, fuel)
          else Rendered(Ok(""), cache)
        case Str(_) => Rendered(Err(InvalidModel(node.value)), cache)
        case Obj(_) => Rendered(Err(InvalidModel(node.value)), cache))
    case InvSectionStart =>
      if node.value !in ctx then Rendered(Err(MissingKey(node.value)), cache)
      else if IsBool(ctx[node.value]) && !ctx[node.value].flag then
        RenderNodes(cfg, files, node.children, ctx, baseDir, cache, fuel)
      else Rendered(Ok(""), cache)
    case Partial =>
      ParseAsync(cfg, files, PartialPath(cfg, baseDir, node.value), ctx, cache, fuel)
    case SectionEnd => Rendered(Ok(""), cache)
    case Comment => Rendered(Ok(""), cache)
  }

  /** The array branch of a section: the children rendered once per element, each element being
      the whole context of its pass, the passes concatenated in order. */
  function RenderEach(cfg: Config, files: Files, children: seq<Node>, items: seq<Model>, baseDir: string,
                      cache: Cache, fuel: nat): (r: Rendered)
    ensures CacheGrowth(cfg, cache, r.cache)
    decreases fuel, NodesSize(children), 2, |items|
  {
    if items == [] then Rendered(Ok(""), cache)
    else
      var first := RenderNodes(cfg, files, children, items[0], baseDir, cache, fuel);
      if first.out.Err? then first
      else
        var rest := RenderEach(cfg, files, children, items[1..], baseDir, first.cache, fuel);
        if rest.out.Err? then rest
        else Rendered(Ok(first.out.value + rest.out.value), rest.cache)
  }
}
