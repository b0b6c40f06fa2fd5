/** Worked examples: the templates and models of the repository's parser tests
    (src/Bigode.UnitTests/ParserTests.cs), each parsed and rendered through `ParseAsync`. */
module Examples {
  import opened Wrappers
  import opened Errors
  import opened Models
  import opened RenderValues
  import opened Scanning
  import opened Parser
  import opened TokenizeProofs
  import opened ParserProofs
  import opened BuildProofs
  import opened RoundTrip
  import opened Bigode
  import opened RenderProofs

  /** The engine of the tests: extension given as ".html", caching on. */
  const Engine: Config := Config("html", false)

  lemma EngineIsDefault()
    ensures NewBigode(".html") == Engine
  {
    assert ".html"[1..] == "html";
  }

  const Dir: string := "/tmp/Bigode.UnitTests"

  function PathOf(name: string): string {
    Dir + "/" + name + ".html"
  }

  /** A file of the test folder lies in that folder, and a partial named after another file of the
      folder resolves to that file. */
  lemma PathOfParts(name: string)
    requires name != [] && '/' !in name
    ensures DirName(PathOf(name)) == Dir
    ensures PartialPath(Engine, Dir, name) == PathOf(name)
  {
    var p := PathOf(name);
    assert p == Dir + "/" + (name + ".html");
    assert p[|Dir|] == '/';
    forall k | |Dir| < k < |p| ensures p[k] != '/' {
      if k < |Dir| + 1 + |name| {
        assert p[k] == name[k - |Dir| - 1];
      } else {
        assert p[k] == ".html"[k - |Dir| - 1 - |name|];
      }
    }
    assert LastSlash(p) == |Dir|;
    assert p[..|Dir|] == Dir;
    assert Dir[|Dir| - 1] == 's';
    assert name + "." + Engine.fileExtension == name + ".html";
  }

  /** "Hello {{name}}!" with name = "World" renders "Hello World!". */
  function SimpleVarTree(): seq<Node> {
    [Node(Text, "Hello ", []), Node(Var, "name", []), Node(Text, "!", [])]
  }

  lemma SimpleVarWritable()
    ensures WritableNodes(SimpleVarTree())
  {
    NoOpenTagWithout("Hello ");
    NoOpenTagWithout("!");
    WritableTwo(Node(Var, "name", []), Node(Text, "!", []));
    WritableCons(Node(Text, "Hello ", []), [Node(Var, "name", []), Node(Text, "!", [])]);
  }

  lemma SimpleVarTemplate()
    ensures Template(SimpleVarTree()) == "Hello {{name}}!"
  {
  }

  lemma SimpleVarParses()
    ensures Parse("Hello {{name}}!") == Ok([Node(Text, "Hello ", []), Node(Var, "name", []), Node(Text, "!", [])])
  {
    SimpleVarWritable();
    SimpleVarTemplate();
    ParseTemplate(SimpleVarTree());
  }

  lemma SimpleVarRenders(files: Files, dir: string, cache: Cache, fuel: nat)
    ensures var ns := [Node(Text, "Hello ", []), Node(Var, "name", []), Node(Text, "!", [])];
      RenderNodes(Engine, files, ns, map["name" := Str("World")], dir, cache, fuel) == Rendered(Ok("Hello World!"), cache)
  {
    var ctx := map["name" := Str("World")];
    var ns := [Node(Text, "Hello ", []), Node(Var, "name", []), Node(Text, "!", [])];
    assert ns[2..][1..] == [];
    assert "!" + "" == "!";
    assert RenderNodes(Engine, files, ns[2..], ctx, dir, cache, fuel) == Rendered(Ok("!"), cache);
    assert "World" + "!" == "World!";
    assert RenderNodes(Engine, files, ns[1..], ctx, dir, cache, fuel) == Rendered(Ok("World!"), cache);
    assert "Hello " + "World!" == "Hello World!";
  }

  lemma SimpleVar()
    ensures var files := map[PathOf("basic") := "Hello {{name}}!"];
      ParseAsync(Engine, files, PathOf("basic"), map["name" := Str("World")], map[], 1).out == Ok("Hello World!")
  {
    var files := map[PathOf("basic") := "Hello {{name}}!"];
    var path := PathOf("basic");
    var ns := [Node(Text, "Hello ", []), Node(Var, "name", []), Node(Text, "!", [])];
    SimpleVarParses();
    assert Lookup(Engine, files, path, map[]) == Ok(ns);
    SimpleVarRenders(files, DirName(path), map[path := ns], 0);
  }

  // ---------------------------------------------------------------- one tag between texts

  /** The node list of a literal text: nothing for the empty text. */
  function TextNodes(s: string): seq<Node> {
    if s == [] then [] else [Node(Text, s, [])]
  }

  lemma UnparseTextNodes(s: string)
    ensures Unparse(TextNodes(s)) == TextTokens(s)
  {
    if s != [] {
      assert Unparse(TextNodes(s)) == UnparseNode(Node(Text, s, [])) + Unparse([]);
    }
  }

  lemma SameEntriesAppend(a: seq<Token>, b: seq<Token>, c: seq<Token>, d: seq<Token>)
    requires SameEntries(a, c) && SameEntries(b, d)
    ensures SameEntries(a + b, c + d)
  {
    forall i | 0 <= i < |a + b| ensures (a + b)[i].kind == (c + d)[i].kind && (a + b)[i].value == (c + d)[i].value {
      if i < |a| {
        assert (a + b)[i] == a[i] && (c + d)[i] == c[i];
      } else {
        assert (a + b)[i] == b[i - |a|] && (c + d)[i] == d[i - |a|];
      }
    }
  }

  /** The tokens of a template that is one tag between two literal texts. */
  lemma TokenizeOneTag(pre: string, content: string, post: string)
    requires '{' !in pre && '{' !in post && '}' !in content
    ensures Tokenize(pre + OpenTag + content + CloseTag + post) == TextTokens(pre) + ProcessTag(content) + TextTokens(post)
  {
    NoOpenTagWithout(pre);
    NoCloseTagWithout(content);
    NoOpenTagWithout(post);
    TokenizeTag(pre, content, post);
    TokenizeNoTag(post);
  }

  /** A template that is one VAR or PARTIAL tag between two literal texts parses to the texts
      around the tag's leaf, however the tag is padded. */
  lemma ParseOneLeaf(pre: string, content: string, post: string, t: Token)
    requires '{' !in pre && '{' !in post && '}' !in content
    requires ProcessTag(content) == [t] && (t.kind == Var || t.kind == Partial)
    ensures Parse(pre + OpenTag + content + CloseTag + post)
         == Ok(TextNodes(pre) + [Node(t.kind, t.value, [])] + TextNodes(post))
  {
    TokenizeOneTag(pre, content, post);
    var ns := TextNodes(pre) + [Node(t.kind, t.value, [])] + TextNodes(post);
    UnparseOneLeaf(pre, t, post);
    BuildASTSameEntries(TextTokens(pre) + [t] + TextTokens(post), Unparse(ns));
    GoodOneLeaf(pre, t, post);
    BuildASTUnparse(ns);
  }

  lemma UnparseOneLeaf(pre: string, t: Token, post: string)
    requires t.kind == Var || t.kind == Partial
    ensures SameEntries(TextTokens(pre) + [t] + TextTokens(post),
                        Unparse(TextNodes(pre) + [Node(t.kind, t.value, [])] + TextNodes(post)))
  {
    var leaf := Node(t.kind, t.value, []);
    UnparseAppend(TextNodes(pre) + [leaf], TextNodes(post));
    UnparseAppend(TextNodes(pre), [leaf]);
    UnparseTextNodes(pre);
    UnparseTextNodes(post);
    assert Unparse([leaf]) == [TokenOf(t.kind, t.value)] + Unparse([]);
    SameEntriesAppend(TextTokens(pre), [t], TextTokens(pre), [TokenOf(t.kind, t.value)]);
    SameEntriesAppend(TextTokens(pre) + [t], TextTokens(post), TextTokens(pre) + [TokenOf(t.kind, t.value)], TextTokens(post));
  }

  lemma GoodOneLeaf(pre: string, t: Token, post: string)
    requires t.kind == Var || t.kind == Partial
    ensures GoodNodes(TextNodes(pre) + [Node(t.kind, t.value, [])] + TextNodes(post))
  {
    var leaf := Node(t.kind, t.value, []);
    GoodTextNodes(pre);
    GoodTextNodes(post);
    GoodNodesOne(leaf);
    GoodNodesAppend(TextNodes(pre), [leaf]);
    GoodNodesAppend(TextNodes(pre) + [leaf], TextNodes(post));
  }

  lemma GoodTextNodes(s: string)
    ensures GoodNodes(TextNodes(s))
  {
    if s != [] {
      GoodNodesOne(Node(Text, s, []));
    }
  }

  /** A template that is one comment between two literal texts parses to the texts alone. */
  lemma ParseOneComment(pre: string, content: string, post: string, t: Token)
    requires '{' !in pre && '{' !in post && '}' !in content
    requires ProcessTag(content) == [t] && t.kind == Comment
    ensures Parse(pre + OpenTag + content + CloseTag + post) == Ok(TextNodes(pre) + TextNodes(post))
  {
    TokenizeOneTag(pre, content, post);
    var ns := TextNodes(pre) + TextNodes(post);
    RunTextTokens(pre);
    BuildASTDropsComment(TextTokens(pre), t, TextTokens(post));
    UnparseAppend(TextNodes(pre), TextNodes(post));
    UnparseTextNodes(pre);
    UnparseTextNodes(post);
    BuildASTSameEntries(TextTokens(pre) + TextTokens(post), Unparse(ns));
    GoodTextNodes(pre);
    GoodTextNodes(post);
    GoodNodesAppend(TextNodes(pre), TextNodes(post));
    BuildASTUnparse(ns);
  }

  /** Literal text leaves the builder open. */
  lemma RunTextTokens(s: string)
    ensures Run(Initial, TextTokens(s)).Ok? && Run(Initial, TextTokens(s)).value.Open?
  {
    if s != [] {
      RunOne(Initial, Token(Text, s, s));
    }
  }

  /** A variable tag, its name padded with white space on both sides, between two literal texts
      parses to the texts around the variable: the padding is not part of the name. */
  lemma ParseVarTag(pre: string, p1: string, name: string, p2: string, post: string)
    requires '{' !in pre && '{' !in post && '}' !in name
    requires AllWhiteSpace(p1) && AllWhiteSpace(p2) && name != [] && Tight(name) && !IsSigil(name[0])
    ensures Parse(pre + OpenTag + (p1 + name + p2) + CloseTag + post)
         == Ok(TextNodes(pre) + [Node(Var, name, [])] + TextNodes(post))
  {
    var content := p1 + name + p2;
    ProcessTagVar(p1, name, p2);
    assert '}' !in content by {
      assert forall i | 0 <= i < |content| :: content[i] == '}' ==> IsWhiteSpace('}') || '}' in name;
    }
    ParseOneLeaf(pre, content, post, Token(Var, name, content));
  }

  /** The content of a sigil tag written with one space after the sigil and one after the name
      reads back as that kind and name, and holds no closing brace. */
  lemma SigilContent(kind: TokenType, name: string)
    requires kind != Text && kind != Var
    requires name != [] && Tight(name) && '}' !in name
    ensures var content := [Sigil(kind)] + " " + name + " ";
      ProcessTag(content) == [Token(kind, name, content)] && '}' !in content
  {
    var content := [Sigil(kind)] + " " + name + " ";
    assert "" + [Sigil(kind)] + " " + name + " " == content;
    ProcessTagSigil(kind, "", " ", name, " ");
    NotInAppend('}', [Sigil(kind)], " ");
    NotInAppend('}', [Sigil(kind)] + " ", name);
    NotInAppend('}', [Sigil(kind)] + " " + name, " ");
  }

  /** A character in neither of two strings is not in the two side by side. */
  lemma NotInAppend(c: char, a: string, b: string)
    requires c !in a && c !in b
    ensures c !in a + b
  {
    forall i | 0 <= i < |a + b| ensures (a + b)[i] != c {
      if i < |a| { assert (a + b)[i] == a[i]; } else { assert (a + b)[i] == b[i - |a|]; }
    }
  }

  /** A partial tag "{{> name }}" between two literal texts parses to the texts around the
      partial. */
  lemma ParsePartialTag(pre: string, name: string, post: string)
    requires '{' !in pre && '{' !in post && '}' !in name
    requires name != [] && Tight(name)
    ensures Parse(pre + OpenTag + ("> " + name + " ") + CloseTag + post)
         == Ok(TextNodes(pre) + [Node(Partial, name, [])] + TextNodes(post))
  {
    assert [Sigil(Partial)] + " " == "> ";
    SigilContent(Partial, name);
    ParseOneLeaf(pre, "> " + name + " ", post, Token(Partial, name, "> " + name + " "));
  }

  /** "Hello {{ name }}!" parses to the same nodes as "Hello {{name}}!". */
  lemma SimpleVarSpacedParses()
    ensures Parse("Hello " + OpenTag + (" " + "name" + " ") + CloseTag + "!")
         == Ok([Node(Text, "Hello ", []), Node(Var, "name", []), Node(Text, "!", [])])
  {
    assert TextNodes("Hello ") + [Node(Var, "name", [])] + TextNodes("!")
        == [Node(Text, "Hello ", []), Node(Var, "name", []), Node(Text, "!", [])];
    ParseVarTag("Hello ", " ", "name", " ", "!");
  }

  /** Rendering the nodes of a literal text. */
  lemma RenderTextNodes(cfg: Config, files: Files, s: string, ctx: Model, dir: string, cache: Cache, fuel: nat)
    ensures RenderNodes(cfg, files, TextNodes(s), ctx, dir, cache, fuel) == Rendered(Ok(s), cache)
  {
    RenderTexts(cfg, files, TextNodes(s), ctx, dir, cache, fuel);
    if s != [] {
      assert TextNodes(s)[1..] == [];
      assert s + "" == s;
    }
  }

  /** One node between two literal texts renders as the node, the texts copied around its output;
      a failure of the node is the failure of the whole. */
  lemma RenderAround(cfg: Config, files: Files, pre: string, n: Node, post: string, ctx: Model, dir: string,
                     cache: Cache, fuel: nat)
    ensures var m := RenderNode(cfg, files, n, ctx, dir, cache, fuel);
      var r := RenderNodes(cfg, files, TextNodes(pre) + [n] + TextNodes(post), ctx, dir, cache, fuel);
      r.cache == m.cache && r.out == (if m.out.Ok? then Ok(pre + m.out.value + post) else m.out)
  {
    var m := RenderNode(cfg, files, n, ctx, dir, cache, fuel);
    RenderNodesAppend(cfg, files, TextNodes(pre) + [n], TextNodes(post), ctx, dir, cache, fuel);
    RenderNodesAppend(cfg, files, TextNodes(pre), [n], ctx, dir, cache, fuel);
    RenderTextNodes(cfg, files, pre, ctx, dir, cache, fuel);
    SingleNode(cfg, files, n, ctx, dir, cache, fuel);
    RenderTextNodes(cfg, files, post, ctx, dir, m.cache, fuel);
  }

  /** "Nothing here: [{{ missing }}]" with an empty model: the missing variable renders as nothing. */
  lemma MissingVar()
    ensures var files := map[PathOf("missing") := "Nothing here: [" + OpenTag + (" " + "missing" + " ") + CloseTag + "]"];
      ParseAsync(Engine, files, PathOf("missing"), map[], map[], 1).out == Ok("Nothing here: []")
  {
    var text := "Nothing here: [" + OpenTag + (" " + "missing" + " ") + CloseTag + "]";
    var files := map[PathOf("missing") := text];
    var path := PathOf("missing");
    var ns := TextNodes("Nothing here: [") + [Node(Var, "missing", [])] + TextNodes("]");
    ParseVarTag("Nothing here: [", " ", "missing", " ", "]");
    assert Lookup(Engine, files, path, map[]) == Ok(ns);
    var n := Node(Var, "missing", []);
    MissingKeyPolicy(Engine, files, "missing", [], map[], DirName(path), map[path := ns], 0);
    RenderAround(Engine, files, "Nothing here: [", n, "]", map[], DirName(path), map[path := ns], 0);
    assert "Nothing here: [" + "" + "]" == "Nothing here: []";
  }

  // ---------------------------------------------------------------- comments

  /** A comment tag, "{{! name }}", between two literal texts leaves the two texts, as two nodes. */
  lemma ParseCommentTag(pre: string, name: string, post: string)
    requires '{' !in pre && '{' !in post && '}' !in name
    requires name != [] && Tight(name)
    ensures Parse(pre + OpenTag + ("! " + name + " ") + CloseTag + post) == Ok(TextNodes(pre) + TextNodes(post))
  {
    assert [Sigil(Comment)] + " " == "! ";
    SigilContent(Comment, name);
    ParseOneComment(pre, "! " + name + " ", post, Token(Comment, name, "! " + name + " "));
  }

  /** "Visible {{! This is hidden }} Content" keeps both texts, as two nodes, and drops the comment. */
  lemma CommentParses()
    ensures Parse("Visible " + OpenTag + ("! " + "This is hidden" + " ") + CloseTag + " Content")
         == Ok([Node(Text, "Visible ", []), Node(Text, " Content", [])])
  {
    assert TextNodes("Visible ") + TextNodes(" Content")
        == [Node(Text, "Visible ", []), Node(Text, " Content", [])];
    ParseCommentTag("Visible ", "This is hidden", " Content");
  }

  /** Rendering those two texts gives "Visible  Content", the two spaces around the comment kept. */
  lemma CommentRenders(files: Files, dir: string, cache: Cache, fuel: nat)
    ensures RenderNodes(Engine, files, [Node(Text, "Visible ", []), Node(Text, " Content", [])], map[], dir, cache, fuel)
         == Rendered(Ok("Visible  Content"), cache)
  {
    var ns := [Node(Text, "Visible ", []), Node(Text, " Content", [])];
    RenderTexts(Engine, files, ns, map[], dir, cache, fuel);
    assert ns[1..][1..] == [];
    assert Texts(ns) == "Visible " + (" Content" + "");
    assert "Visible " + (" Content" + "") == "Visible  Content";
  }

  // ---------------------------------------------------------------- partials

  /** The two files of the partials test: "User: {{ name }}" and "<div>{{> user_card }}</div>". */
  function PartialFiles(): Files {
    map[PathOf("user_card") := "User: " + OpenTag + (" " + "name" + " ") + CloseTag + "",
        PathOf("main_template") := "<div>" + OpenTag + ("> " + "user_card" + " ") + CloseTag + "</div>"]
  }

  /** Files of the test folder whose names start differently lie at different paths. */
  lemma PathOfDistinct(a: string, b: string)
    requires a != [] && b != [] && a[0] != b[0]
    ensures PathOf(a) != PathOf(b)
  {
    assert PathOf(a)[|Dir| + 1] == a[0];
    assert PathOf(b)[|Dir| + 1] == b[0];
  }

  /** A file of the test folder whose text parses to one node between two texts: `tree`. */
  predicate OneNodeFile(files: Files, name: string, pre: string, n: Node, post: string, tree: seq<Node>) {
    && name != [] && '/' !in name
    && PathOf(name) in files
    && tree == TextNodes(pre) + [n] + TextNodes(post)
    && Parse(files[PathOf(name)]) == Ok(tree)
  }

  /** Such a file, not yet cached, renders as its tree does from the test folder, with the tree
      stored in the cache and one level of nesting less. */
  lemma FileRenders(files: Files, name: string, pre: string, n: Node, post: string, tree: seq<Node>, ctx: Model,
                    cache: Cache, fuel: nat)
    requires OneNodeFile(files, name, pre, n, post, tree) && PathOf(name) !in cache && fuel > 0
    ensures var inner := RenderNodes(Engine, files, tree, ctx, Dir, cache[PathOf(name) := tree], fuel - 1);
      inner.out.Ok? ==> ParseAsync(Engine, files, PathOf(name), ctx, cache, fuel).out == inner.out
  {
    PathOfParts(name);
    ParseAsyncRenders(Engine, files, PathOf(name), ctx, cache, fuel, tree);
  }

  /** Such a file, not yet cached, renders as the texts around what the node renders to, the node
      seeing the cache with the file's tree added and one level of nesting less. */
  lemma FileAround(files: Files, name: string, pre: string, n: Node, post: string, tree: seq<Node>, ctx: Model,
                   cache: Cache, fuel: nat, mid: string)
    requires OneNodeFile(files, name, pre, n, post, tree)
    requires PathOf(name) !in cache && fuel > 0
    requires RenderNode(Engine, files, n, ctx, Dir, cache[PathOf(name) := tree], fuel - 1).out == Ok(mid)
    ensures ParseAsync(Engine, files, PathOf(name), ctx, cache, fuel).out == Ok(pre + mid + post)
  {
    FileRenders(files, name, pre, n, post, tree, ctx, cache, fuel);
    RenderAround(Engine, files, pre, n, post, ctx, Dir, cache[PathOf(name) := tree], fuel - 1);
  }

  /** A partial tag rendered from the test folder renders the file of that name in the folder. */
  lemma PartialTag(files: Files, name: string, ctx: Model, cache: Cache, fuel: nat, mid: string)
    requires name != [] && '/' !in name
    requires ParseAsync(Engine, files, PathOf(name), ctx, cache, fuel).out == Ok(mid)
    ensures RenderNode(Engine, files, Node(Partial, name, []), ctx, Dir, cache, fuel).out == Ok(mid)
  {
    assert PartialPath(Engine, Dir, name) == PathOf(name) by {
      PathOfParts(name);
    }
  }

  /** A file of the test folder, not yet cached, whose tree is one variable tag between two texts
      renders as the texts around the variable's string. */
  lemma VarFile(files: Files, name: string, pre: string, key: string, post: string, tree: seq<Node>, ctx: Model,
                s: string, cache: Cache, fuel: nat)
    requires OneNodeFile(files, name, pre, Node(Var, key, []), post, tree)
    requires key in ctx && ctx[key] == Str(s)
    requires PathOf(name) !in cache && fuel > 0
    ensures ParseAsync(Engine, files, PathOf(name), ctx, cache, fuel).out == Ok(pre + s + post)
  {
    FileAround(files, name, pre, Node(Var, key, []), post, tree, ctx, cache, fuel, s);
  }

  /** A file of the test folder whose text parses to one partial tag between two texts, the
      partial named by a plain file name. */
  predicate IncludingFile(files: Files, outer: string, pre: string, inner: string, post: string, tree: seq<Node>) {
    OneNodeFile(files, outer, pre, Node(Partial, inner, []), post, tree) && inner != [] && '/' !in inner
  }

  /** A file of the test folder, not yet cached, whose tree is one partial tag between two texts
      renders as the texts around the partial's own rendering, one level of nesting further down. */
  lemma IncludeFile(files: Files, outer: string, pre: string, inner: string, post: string, tree: seq<Node>,
                    ctx: Model, cache: Cache, fuel: nat, mid: string)
    requires IncludingFile(files, outer, pre, inner, post, tree)
    requires PathOf(outer) !in cache && fuel > 0
    requires ParseAsync(Engine, files, PathOf(inner), ctx, cache[PathOf(outer) := tree], fuel - 1).out == Ok(mid)
    ensures ParseAsync(Engine, files, PathOf(outer), ctx, cache, fuel).out == Ok(pre + mid + post)
  {
    assert RenderNode(Engine, files, Node(Partial, inner, []), ctx, Dir, cache[PathOf(outer) := tree], fuel - 1).out
        == Ok(mid) by {
      PartialTag(files, inner, ctx, cache[PathOf(outer) := tree], fuel - 1, mid);
    }
    FileAround(files, outer, pre, Node(Partial, inner, []), post, tree, ctx, cache, fuel, mid);
  }

  function UserCardTree(): seq<Node> {
    TextNodes("User: ") + [Node(Var, "name", [])] + TextNodes("")
  }

  function MainTree(): seq<Node> {
    TextNodes("<div>") + [Node(Partial, "user_card", [])] + TextNodes("</div>")
  }

  predicate UserCardIn(files: Files) {
    OneNodeFile(files, "user_card", "User: ", Node(Var, "name", []), "", UserCardTree())
  }

  predicate MainIn(files: Files) {
    IncludingFile(files, "main_template", "<div>", "user_card", "</div>", MainTree())
  }

  lemma UserCardParses()
    ensures UserCardIn(PartialFiles())
  {
    PathOfDistinct("user_card", "main_template");
    ParseVarTag("User: ", " ", "name", " ", "");
  }

  lemma MainParses()
    ensures MainIn(PartialFiles())
  {
    PathOfDistinct("user_card", "main_template");
    ParsePartialTag("<div>", "user_card", "</div>");
  }

  /** Storing the including file's tree leaves the partial's path uncached. */
  lemma MainStored(cache: Cache)
    requires PathOf("user_card") !in cache
    ensures PathOf("user_card") !in cache[PathOf("main_template") := MainTree()]
  {
    PathOfDistinct("user_card", "main_template");
  }

  /** In any folder whose two files parse as the partials test's do, the including file renders
      with the partial's rendering in place of the tag, from any cache that holds neither file and
      with any nesting budget of two levels or more. */
  lemma PartialsIn(files: Files, cache: Cache, fuel: nat)
    requires UserCardIn(files) && MainIn(files)
    requires PathOf("user_card") !in cache && PathOf("main_template") !in cache && fuel >= 2
    ensures ParseAsync(Engine, files, PathOf("main_template"), map["name" := Str("Alice")], cache, fuel).out
         == Ok("<div>" + ("User: " + "Alice" + "") + "</div>")
  {
    MainStored(cache);
    VarFile(files, "user_card", "User: ", "name", "", UserCardTree(), map["name" := Str("Alice")], "Alice",
            cache[PathOf("main_template") := MainTree()], fuel - 1);
    IncludeFile(files, "main_template", "<div>", "user_card", "</div>", MainTree(), map["name" := Str("Alice")],
                cache, fuel, "User: " + "Alice" + "");
  }

  /** "<div>{{> user_card }}</div>" with name = "Alice" renders "<div>User: Alice</div>", from any
      cache that holds neither file. */
  lemma Partials(cache: Cache)
    requires PathOf("user_card") !in cache && PathOf("main_template") !in cache
    ensures ParseAsync(Engine, PartialFiles(), PathOf("main_template"), map["name" := Str("Alice")], cache, 2).out
         == Ok("<div>User: Alice</div>")
  {
    assert "<div>" + ("User: " + "Alice" + "") + "</div>" == "<div>User: Alice</div>";
    UserCardParses();
    MainParses();
    PartialsIn(PartialFiles(), cache, 2);
  }

  /** The three files of the nested partials test: "I am the {{name}}.",
      "Branch including: {{> leaf }}" and "Root starts: {{> branch }}". */
  function NestedFiles(): Files {
    map[PathOf("leaf") := "I am the " + OpenTag + ("" + "name" + "") + CloseTag + ".",
        PathOf("branch") := "Branch including: " + OpenTag + ("> " + "leaf" + " ") + CloseTag + "",
        PathOf("root") := "Root starts: " + OpenTag + ("> " + "branch" + " ") + CloseTag + ""]
  }

  function LeafTree(): seq<Node> {
    TextNodes("I am the ") + [Node(Var, "name", [])] + TextNodes(".")
  }

  function BranchTree(): seq<Node> {
    TextNodes("Branch including: ") + [Node(Partial, "leaf", [])] + TextNodes("")
  }

  function RootTree(): seq<Node> {
    TextNodes("Root starts: ") + [Node(Partial, "branch", [])] + TextNodes("")
  }

  predicate LeafIn(files: Files) {
    OneNodeFile(files, "leaf", "I am the ", Node(Var, "name", []), ".", LeafTree())
  }

  predicate BranchIn(files: Files) {
    IncludingFile(files, "branch", "Branch including: ", "leaf", "", BranchTree())
  }

  predicate RootIn(files: Files) {
    IncludingFile(files, "root", "Root starts: ", "branch", "", RootTree())
  }

  lemma LeafParses()
    ensures LeafIn(NestedFiles())
  {
    PathOfDistinct("leaf", "branch");
    PathOfDistinct("leaf", "root");
    ParseVarTag("I am the ", "", "name", "", ".");
  }

  lemma BranchParses()
    ensures BranchIn(NestedFiles())
  {
    PathOfDistinct("branch", "root");
    ParsePartialTag("Branch including: ", "leaf", "");
  }

  lemma RootParses()
    ensures RootIn(NestedFiles())
  {
    ParsePartialTag("Root starts: ", "branch", "");
  }

  lemma BranchStored(cache: Cache)
    requires PathOf("leaf") !in cache
    ensures PathOf("leaf") !in cache[PathOf("branch") := BranchTree()]
  {
    PathOfDistinct("leaf", "branch");
  }

  lemma RootStored(cache: Cache)
    requires PathOf("leaf") !in cache && PathOf("branch") !in cache
    ensures PathOf("leaf") !in cache[PathOf("root") := RootTree()]
    ensures PathOf("branch") !in cache[PathOf("root") := RootTree()]
  {
    PathOfDistinct("leaf", "root");
    PathOfDistinct("branch", "root");
  }

  /** The model gives "name" the text `s`. */
  predicate Named(ctx: Model, s: string) {
    "name" in ctx && ctx["name"] == Str(s)
  }

  lemma LeafFile(files: Files, ctx: Model, s: string, cache: Cache, fuel: nat)
    requires LeafIn(files) && Named(ctx, s) && PathOf("leaf") !in cache && fuel >= 1
    ensures ParseAsync(Engine, files, PathOf("leaf"), ctx, cache, fuel).out == Ok("I am the " + s + ".")
  {
    VarFile(files, "leaf", "I am the ", "name", ".", LeafTree(), ctx, s, cache, fuel);
  }

  lemma BranchFile(files: Files, ctx: Model, s: string, cache: Cache, fuel: nat)
    requires LeafIn(files) && BranchIn(files) && Named(ctx, s)
    requires PathOf("leaf") !in cache && PathOf("branch") !in cache && fuel >= 2
    ensures ParseAsync(Engine, files, PathOf("branch"), ctx, cache, fuel).out
         == Ok("Branch including: " + ("I am the " + s + ".") + "")
  {
    BranchStored(cache);
    LeafFile(files, ctx, s, cache[PathOf("branch") := BranchTree()], fuel - 1);
    IncludeFile(files, "branch", "Branch including: ", "leaf", "", BranchTree(), ctx, cache, fuel,
                "I am the " + s + ".");
  }

  /** For any files holding the three nested templates, any model naming `s` and any cache holding
      none of the three, the root renders all three texts in order. */
  lemma RootFile(files: Files, ctx: Model, s: string, cache: Cache, fuel: nat)
    requires LeafIn(files) && BranchIn(files) && RootIn(files) && Named(ctx, s)
    requires PathOf("leaf") !in cache && PathOf("branch") !in cache && PathOf("root") !in cache && fuel >= 3
    ensures ParseAsync(Engine, files, PathOf("root"), ctx, cache, fuel).out
         == Ok("Root starts: " + ("Branch including: " + ("I am the " + s + ".") + "") + "")
  {
    var mid := "Branch including: " + ("I am the " + s + ".") + "";
    assert ParseAsync(Engine, files, PathOf("branch"), ctx, cache[PathOf("root") := RootTree()], fuel - 1).out
        == Ok(mid) by {
      RootStored(cache);
      BranchFile(files, ctx, s, cache[PathOf("root") := RootTree()], fuel - 1);
    }
    IncludeFile(files, "root", "Root starts: ", "branch", "", RootTree(), ctx, cache, fuel, mid);
  }

  /** Partials nest: "Root starts: Branch including: I am the leaf.", three levels deep, from any
      cache that holds none of the three files. */
  lemma NestedPartials(cache: Cache)
    requires PathOf("leaf") !in cache && PathOf("branch") !in cache && PathOf("root") !in cache
    ensures ParseAsync(Engine, NestedFiles(), PathOf("root"), map["name" := Str("leaf")], cache, 3).out
         == Ok("Root starts: Branch including: I am the leaf.")
  {
    assert "Root starts: " + ("Branch including: " + ("I am the " + "leaf" + ".") + "") + ""
        == "Root starts: Branch including: I am the leaf.";
    LeafParses();
    BranchParses();
    RootParses();
    RootFile(NestedFiles(), map["name" := Str("leaf")], "leaf", cache, 3);
  }

  // ---------------------------------------------------------------- sections

  /** The lambda of the lambda test: the rendered body wrapped in bold tags. */
  function Bold(s: string): string {
    "<b>" + s + "</b>"
  }

  function LambdaTree(): seq<Node> {
    [Node(SectionStart, "wrapped", [Node(Var, "name", []), Node(Text, " is awesome.", [])])]
  }

  /** The text of the lambda test's template, "{{#wrapped}}{{name}} is awesome.{{/wrapped}}". */
  function LambdaText(): string {
    OpenTag + "#wrapped" + CloseTag + (OpenTag + "name" + CloseTag + " is awesome.") + OpenTag + "/wrapped" + CloseTag
  }

  lemma LambdaWritable()
    ensures WritableNodes(LambdaTree())
  {
    NoOpenTagWithout(" is awesome.");
    WritableTwo(Node(Var, "name", []), Node(Text, " is awesome.", []));
    WritableOne(Node(SectionStart, "wrapped", [Node(Var, "name", []), Node(Text, " is awesome.", [])]));
  }

  lemma LambdaTemplate()
    ensures Template(LambdaTree()) == LambdaText()
  {
    var ns := LambdaTree();
    var v := Node(Var, "name", []);
    var t := Node(Text, " is awesome.", []);
    assert TagText(SectionStart, "wrapped") == "#wrapped" && TagText(SectionEnd, "wrapped") == "/wrapped";
    assert ns[0].children == [v] + [t];
    TemplateLeaf(Var, "name");
    TemplateText(" is awesome.");
    TemplateAppend([v], [t]);
    TemplateSection(SectionStart, "wrapped", ns[0].children);
  }

  /** The lambda test's template parses to one section holding the variable and the text. */
  lemma LambdaParses()
    ensures Parse(LambdaText()) == Ok(LambdaTree())
  {
    LambdaWritable();
    LambdaTemplate();
    ParseTemplate(LambdaTree());
  }

  /** With wrapped = Bold and name = "Lambda" the body renders "Lambda is awesome." and the lambda
      wraps it: "<b>Lambda is awesome.</b>". */
  lemma LambdaRenders(files: Files, dir: string, cache: Cache, fuel: nat)
    ensures RenderNodes(Engine, files, LambdaTree(), map["wrapped" := Lambda(Bold), "name" := Str("Lambda")], dir, cache, fuel)
         == Rendered(Ok("<b>Lambda is awesome.</b>"), cache)
  {
    assert "" + "Lambda" + " is awesome." == "Lambda is awesome.";
    assert "<b>" + "Lambda is awesome." + "</b>" == "<b>Lambda is awesome.</b>";
    var ctx := map["wrapped" := Lambda(Bold), "name" := Str("Lambda")];
    var section := LambdaTree()[0];
    RenderAround(Engine, files, "", Node(Var, "name", []), " is awesome.", ctx, dir, cache, fuel);
    assert TextNodes("") + [Node(Var, "name", [])] + TextNodes(" is awesome.") == section.children;
    LambdaSection(Engine, files, "wrapped", section.children, ctx, dir, cache, fuel);
    SingleNode(Engine, files, section, ctx, dir, cache, fuel);
    assert ctx["wrapped"].fn("Lambda is awesome.") == Bold("Lambda is awesome.");
  }

  /** The lambda test end to end: "<b>Lambda is awesome.</b>". */
  lemma LambdaFile()
    ensures ParseAsync(Engine, map[PathOf("lambda") := LambdaText()], PathOf("lambda"),
                       map["wrapped" := Lambda(Bold), "name" := Str("Lambda")], map[], 1).out
         == Ok("<b>Lambda is awesome.</b>")
  {
    var files := map[PathOf("lambda") := LambdaText()];
    var path := PathOf("lambda");
    LambdaParses();
    ParseAsyncRenders(Engine, files, path, map["wrapped" := Lambda(Bold), "name" := Str("Lambda")], map[], 1, LambdaTree());
    LambdaRenders(files, DirName(path), map[path := LambdaTree()], 0);
  }

  // ---------------------------------------------------------------- loops

  /** The loop test's tree: a text, then a section over `users` holding a variable and a text. */
  function LoopTree(): seq<Node> {
    [Node(Text, "Users: ", []), Node(SectionStart, "users", [Node(Var, "name", []), Node(Text, ", ", [])])]
  }

  /** "Users: {{#users}}{{name}}, {{/users}}". */
  function LoopText(): string {
    "Users: " + (OpenTag + "#users" + CloseTag + (OpenTag + "name" + CloseTag + ", ") + OpenTag + "/users" + CloseTag)
  }

  lemma LoopWritable()
    ensures WritableNodes(LoopTree())
  {
    NoOpenTagWithout("Users: ");
    NoOpenTagWithout(", ");
    WritableTwo(Node(Var, "name", []), Node(Text, ", ", []));
    WritableTwo(Node(Text, "Users: ", []), Node(SectionStart, "users", [Node(Var, "name", []), Node(Text, ", ", [])]));
  }

  lemma LoopTemplate()
    ensures Template(LoopTree()) == LoopText()
  {
    var ns := LoopTree();
    var v := Node(Var, "name", []);
    var t := Node(Text, ", ", []);
    assert TagText(SectionStart, "users") == "#users" && TagText(SectionEnd, "users") == "/users";
    assert ns[1].children == [v] + [t];
    TemplateLeaf(Var, "name");
    TemplateText(", ");
    TemplateAppend([v], [t]);
    TemplateSection(SectionStart, "users", ns[1].children);
    TemplateText("Users: ");
    assert ns == [ns[0]] + [ns[1]];
    TemplateAppend([ns[0]], [ns[1]]);
  }

  lemma LoopParses()
    ensures Parse(LoopText()) == Ok(LoopTree())
  {
    LoopWritable();
    LoopTemplate();
    ParseTemplate(LoopTree());
  }

  /** One pass of the loop body "{{name}}, " over an element naming `who`. */
  lemma LoopPass(files: Files, who: string, dir: string, cache: Cache, fuel: nat)
    ensures RenderNodes(Engine, files, [Node(Var, "name", []), Node(Text, ", ", [])], map["name" := Str(who)], dir, cache, fuel)
         == Rendered(Ok(who + ", "), cache)
  {
    RenderAround(Engine, files, "", Node(Var, "name", []), ", ", map["name" := Str(who)], dir, cache, fuel);
    assert TextNodes("") + [Node(Var, "name", [])] + TextNodes(", ") == [Node(Var, "name", []), Node(Text, ", ", [])];
    assert "" + who + ", " == who + ", ";
  }

  /** With users = [{name: Alice}, {name: Bob}] the body is rendered once per user, in order:
      "Users: Alice, Bob, ". */
  lemma LoopRenders(files: Files, dir: string, cache: Cache, fuel: nat)
    ensures RenderNodes(Engine, files, LoopTree(), map["users" := Arr([map["name" := Str("Alice")], map["name" := Str("Bob")]])],
                        dir, cache, fuel)
         == Rendered(Ok("Users: Alice, Bob, "), cache)
  {
    assert "Alice" + ", " == "Alice, " && "Bob" + ", " == "Bob, ";
    assert "Users: " + ("Alice, " + "Bob, ") + "" == "Users: Alice, Bob, ";
    var alice: Model := map["name" := Str("Alice")];
    var bob: Model := map["name" := Str("Bob")];
    var ctx := map["users" := Arr([alice, bob])];
    var ns := LoopTree();
    var body := ns[1].children;
    assert body == [Node(Var, "name", []), Node(Text, ", ", [])];
    LoopPass(files, "Alice", dir, cache, fuel);
    LoopPass(files, "Bob", dir, cache, fuel);
    RenderEachOne(Engine, files, body, alice, dir, cache, fuel);
    RenderEachOne(Engine, files, body, bob, dir, cache, fuel);
    assert RenderEach(Engine, files, body, [alice], dir, cache, fuel) == Rendered(Ok("Alice, "), cache);
    assert RenderEach(Engine, files, body, [bob], dir, cache, fuel) == Rendered(Ok("Bob, "), cache);
    RenderEachAppend(Engine, files, body, [alice], [bob], dir, cache, fuel);
    assert RenderEach(Engine, files, body, [alice] + [bob], dir, cache, fuel) == Rendered(Ok("Alice, " + "Bob, "), cache);
    assert [alice] + [bob] == [alice, bob];
    assert RenderEach(Engine, files, body, [alice, bob], dir, cache, fuel) == Rendered(Ok("Alice, " + "Bob, "), cache);
    assert ctx["users"].items == [alice, bob];
    ArraySection(Engine, files, "users", body, ctx, dir, cache, fuel);
    assert RenderNode(Engine, files, ns[1], ctx, dir, cache, fuel) == Rendered(Ok("Alice, " + "Bob, "), cache);
    RenderAround(Engine, files, "Users: ", ns[1], "", ctx, dir, cache, fuel);
    assert TextNodes("Users: ") + [ns[1]] + TextNodes("") == ns;
  }

  // ---------------------------------------------------------------- conditionals

  function CondTree(): seq<Node> {
    [Node(SectionStart, "isAdmin", [Node(Text, "Welcome Admin", [])]),
     Node(SectionStart, "isGuest", [Node(Text, "Welcome Guest", [])])]
  }

  /** "{{#isAdmin}}Welcome Admin{{/isAdmin}}{{#isGuest}}Welcome Guest{{/isGuest}}". */
  function CondText(): string {
    (OpenTag + "#isAdmin" + CloseTag + "Welcome Admin" + OpenTag + "/isAdmin" + CloseTag)
    + (OpenTag + "#isGuest" + CloseTag + "Welcome Guest" + OpenTag + "/isGuest" + CloseTag)
  }

  lemma CondWritable()
    ensures WritableNodes(CondTree())
  {
    NoOpenTagWithout("Welcome Admin");
    NoOpenTagWithout("Welcome Guest");
    WritableOne(Node(Text, "Welcome Admin", []));
    WritableOne(Node(Text, "Welcome Guest", []));
    WritableTwo(Node(SectionStart, "isAdmin", [Node(Text, "Welcome Admin", [])]),
                Node(SectionStart, "isGuest", [Node(Text, "Welcome Guest", [])]));
  }

  lemma CondTemplate()
    ensures Template(CondTree()) == CondText()
  {
    var ns := CondTree();
    assert TagText(SectionStart, "isAdmin") == "#isAdmin" && TagText(SectionEnd, "isAdmin") == "/isAdmin";
    assert TagText(SectionStart, "isGuest") == "#isGuest" && TagText(SectionEnd, "isGuest") == "/isGuest";
    TemplateText("Welcome Admin");
    TemplateText("Welcome Guest");
    TemplateSection(SectionStart, "isAdmin", ns[0].children);
    TemplateSection(SectionStart, "isGuest", ns[1].children);
    assert ns == [ns[0]] + [ns[1]];
    TemplateAppend([ns[0]], [ns[1]]);
  }

  lemma CondParses()
    ensures Parse(CondText()) == Ok(CondTree())
  {
    CondWritable();
    CondTemplate();
    ParseTemplate(CondTree());
  }

  /** With isAdmin = true and isGuest = false only the first section shows: "Welcome Admin". */
  lemma CondRenders(files: Files, dir: string, cache: Cache, fuel: nat)
    ensures RenderNodes(Engine, files, CondTree(), map["isAdmin" := Bool(true), "isGuest" := Bool(false)], dir, cache, fuel)
         == Rendered(Ok("Welcome Admin"), cache)
  {
    assert "Welcome Admin" + "" == "Welcome Admin";
    var ctx := map["isAdmin" := Bool(true), "isGuest" := Bool(false)];
    var ns := CondTree();
    assert ns == [ns[0]] + [ns[1]];
    RenderNodesAppend(Engine, files, [ns[0]], [ns[1]], ctx, dir, cache, fuel);
    SingleNode(Engine, files, ns[0], ctx, dir, cache, fuel);
    SingleNode(Engine, files, ns[1], ctx, dir, cache, fuel);
    RenderTextNodes(Engine, files, "Welcome Admin", ctx, dir, cache, fuel);
    assert TextNodes("Welcome Admin") == ns[0].children;
  }

  // ---------------------------------------------------------------- inverted sections

  function InvertedTree(): seq<Node> {
    [Node(InvSectionStart, "data", [Node(Text, "No Data Found", [])])]
  }

  /** "{{^data}}No Data Found{{/data}}". */
  function InvertedText(): string {
    OpenTag + "^data" + CloseTag + "No Data Found" + OpenTag + "/data" + CloseTag
  }

  lemma InvertedParses()
    ensures Parse(InvertedText()) == Ok(InvertedTree())
  {
    var ns := InvertedTree();
    assert WritableNodes(ns) by {
      NoOpenTagWithout("No Data Found");
    }
    assert Template(ns) == InvertedText() by {
      assert TagText(InvSectionStart, "data") == "^data" && TagText(SectionEnd, "data") == "/data";
      TemplateText("No Data Found");
      TemplateSection(InvSectionStart, "data", ns[0].children);
    }
    ParseTemplate(ns);
  }

  /** With data = false the inverted section shows its body: "No Data Found". */
  lemma InvertedRenders(files: Files, dir: string, cache: Cache, fuel: nat)
    ensures RenderNodes(Engine, files, InvertedTree(), map["data" := Bool(false)], dir, cache, fuel)
         == Rendered(Ok("No Data Found"), cache)
  {
    var ns := InvertedTree();
    SingleNode(Engine, files, ns[0], map["data" := Bool(false)], dir, cache, fuel);
    RenderTextNodes(Engine, files, "No Data Found", map["data" := Bool(false)], dir, cache, fuel);
    assert TextNodes("No Data Found") == ns[0].children;
  }

  // ---------------------------------------------------------------- errors

  /** The tokens of "{{#open}} ... {{/close}}". */
  function MismatchTokens(): seq<Token> {
    [Token(SectionStart, "open", "#open"), Token(Text, " ... ", " ... "), Token(SectionEnd, "close", "/close")]
  }

  function MismatchText(): string {
    (OpenTag + "#open" + CloseTag) + (" ... " + (OpenTag + "/close" + CloseTag))
  }

  lemma MismatchUnlex()
    ensures Unlex(MismatchTokens()) == MismatchText()
  {
    var ts := MismatchTokens();
    assert (OpenTag + "/close" + CloseTag) + "" == OpenTag + "/close" + CloseTag;
    assert Unlex(ts[2..]) == (OpenTag + "/close" + CloseTag) + Unlex([]);
    assert Unlex(ts[1..]) == " ... " + Unlex(ts[2..]);
  }

  lemma MismatchLexable()
    ensures LexableTokens(MismatchTokens())
  {
    NoOpenTagWithout(" ... ");
    assert TagText(SectionStart, "open") == "#open" && TagText(SectionEnd, "close") == "/close";
  }

  lemma MismatchTokenize()
    ensures Tokenize(MismatchText()) == MismatchTokens()
  {
    MismatchUnlex();
    MismatchLexable();
    TokenizeUnlex(MismatchTokens());
  }

  /** "{{#open}} ... {{/close}}" fails: the closing tag names another section than the open one. */
  lemma MismatchParses()
    ensures Parse(MismatchText()) == Err(MismatchedSection("open", "close"))
  {
    var ts := MismatchTokens();
    MismatchTokenize();
    RunOpenThenText(ts[0], ts[1]);
    var stack := [RootFrame, Frame(SectionStart, "open", [Node(Text, " ... ", [])])];
    assert ts == [ts[0], ts[1]] + [ts[2]] + [];
    BuildASTMismatch([ts[0], ts[1]], stack, ts[2], []);
  }

  /** An opening tag then a text: the section is open, holding the text. */
  lemma RunOpenThenText(s: Token, t: Token)
    requires s.kind == SectionStart && t.kind == Text
    ensures Run(Initial, [s, t]) == Ok(Open([RootFrame, Frame(SectionStart, s.value, [Node(Text, t.value, [])])]))
  {
    var open := Frame(SectionStart, s.value, []);
    RunAppend(Initial, [s], [t]);
    RunOne(Initial, s);
    assert [RootFrame] + [open] == [RootFrame, open];
    RunOne(Open([RootFrame, open]), t);
    assert [s] + [t] == [s, t];
    assert [RootFrame, open][..1] == [RootFrame];
    assert [] + [Node(Text, t.value, [])] == [Node(Text, t.value, [])];
    assert [RootFrame] + [open.(children := [Node(Text, t.value, [])])]
        == [RootFrame, Frame(SectionStart, s.value, [Node(Text, t.value, [])])];
  }

  /** The mismatch test end to end: the error comes back wrapped as a parsing error. */
  lemma MismatchFile()
    ensures ParseAsync(Engine, map[PathOf("mismatch") := MismatchText()], PathOf("mismatch"), map[], map[], 1).out
         == Err(ParsingError(MismatchedSection("open", "close")))
  {
    MismatchParses();
  }

  /** The tokens of "{{#open}} ... ". */
  function UnclosedTokens(): seq<Token> {
    [Token(SectionStart, "open", "#open"), Token(Text, " ... ", " ... ")]
  }

  function UnclosedText(): string {
    (OpenTag + "#open" + CloseTag) + " ... "
  }

  /** "{{#open}} ... " fails: the section is still open at the end, and is named. */
  lemma UnclosedParses()
    ensures Parse(UnclosedText()) == Err(UnclosedSection("open"))
  {
    var ts := UnclosedTokens();
    assert Unlex(ts) == UnclosedText() by {
      assert " ... " + "" == " ... ";
      assert Unlex(ts[1..]) == " ... " + Unlex([]);
    }
    assert LexableTokens(ts) by {
      NoOpenTagWithout(" ... ");
      assert TagText(SectionStart, "open") == "#open";
    }
    TokenizeUnlex(ts);
    assert Opened(ts[1..]) == 0 by {
      assert ts[1..][1..] == [];
    }
    assert LastOpened(ts) == 0;
    BuildASTUnclosed(ts);
  }

  /** `s` holds `part` somewhere, as the tests' `HasMessageContaining` asks. */
  predicate Contains(s: string, part: string) {
    exists i | 0 <= i <= |s| :: part <= s[i..]
  }

  /** What a text contains, it still contains with more text after it. */
  lemma ContainsAfter(s: string, b: string, part: string)
    requires Contains(s, part)
    ensures Contains(s + b, part)
  {
    var i :| 0 <= i <= |s| && part <= s[i..];
    assert (s + b)[i..] == s[i..] + b;
  }

  /** What a text contains, it still contains with more text before it. */
  lemma ContainsBefore(a: string, s: string, part: string)
    requires Contains(s, part)
    ensures Contains(a + s, part)
  {
    var i :| 0 <= i <= |s| && part <= s[i..];
    assert (a + s)[|a| + i..] == s[i..];
  }

  /** A text contains what starts at one of its positions. */
  lemma ContainsAt(s: string, part: string, i: nat)
    requires i <= |s| && part <= s[i..]
    ensures Contains(s, part)
  {
  }

  /** Whatever the section names, the message of a mismatch, wrapped as a parsing error, contains
      "Mismatched section". */
  lemma MismatchMessage(x: string, y: string)
    ensures Contains(Message(ParsingError(MismatchedSection(x, y))), "Mismatched section")
  {
    var head := "Bigode: Mismatched section. Expected ";
    assert "Mismatched section" <= head[8..];
    ContainsAt(head, "Mismatched section", 8);
    ContainsAfter(head, x, "Mismatched section");
    ContainsAfter(head + x, ", got ", "Mismatched section");
    ContainsAfter(head + x + ", got ", y, "Mismatched section");
    ContainsBefore("Bigode Parsing Error: ", Message(MismatchedSection(x, y)), "Mismatched section");
  }

  /** Whatever the section's name, the message of an unclosed section, wrapped as a parsing error,
      contains "Unclosed section". */
  lemma UnclosedMessage(x: string)
    ensures Contains(Message(ParsingError(UnclosedSection(x))), "Unclosed section")
  {
    var head := "Bigode: Unclosed section \"";
    assert "Unclosed section" <= head[8..];
    ContainsAt(head, "Unclosed section", 8);
    ContainsAfter(head, x, "Unclosed section");
    ContainsAfter(head + x, "\"", "Unclosed section");
    ContainsBefore("Bigode Parsing Error: ", Message(UnclosedSection(x)), "Unclosed section");
  }
}
