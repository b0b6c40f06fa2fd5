# Bigode in Dafny

Bigode is a small C# template engine for a subset of Mustache. It works as one pipeline:

1. A `Scanner` walks the template text.
2. `Parser.Tokenize` splits the text on the fixed `{{` `}}` delimiters. `ProcessTag` classifies each tag by its first character.
3. `Parser.BuildAST` nests the tokens into a tree under a synthetic root named `"root"`, using an explicit stack.
4. `Bigode.Render` interprets the tree against a model of `RenderValue`s.

`Bigode.ParseAsync` is the public entry point. It reads the file, takes the tree from a per-path cache or parses and caches it, renders it, and wraps every failure in a "Bigode Parsing Error".

This project restates that pipeline as pure Dafny functions and proves properties of it.

**Modules.** There is one module per source component:

- `Scanning` for `Scanner.cs`;
- `Parser` for `Parser.cs`;
- `RenderValues` for `Models/RenderValue.cs` and `RenderModel.cs`;
- `Models` for `Token.cs`, `ASTNode.cs` and `TokenType.cs`;
- `Bigode` for `Bigode.cs`;
- `Errors` for the exceptions the engine raises.

The proofs live in these modules:

- `ParserProofs`: tag classification, trimming, and writing tokens back out as text.
- `TokenizeProofs`: the tokenizer loop against a position-based reference.
- `BuildProofs`: the tree builder against a pre-order walk and against an unparser.
- `RoundTrip`: a tree written out as template text parses back to itself.
- `RenderProofs`: the rendering rules, node kind by node kind.
- `CacheProofs`: the cache is invisible while files do not change, and stale once they do.
- `Examples`: the templates of the repository's parser tests, parsed and rendered end to end.

**How the source maps to the model.**

- **Scanner.** The scanner is an immutable `Scanner(input, cursor)` value. Its operations return new values.
  - `Match` is a predicate, so it cannot move the cursor. `MatchLoop` is the source's comparison loop, and `MatchLoopIsMatch` shows the two agree.
  - The `while` loop of `ScanUntil` is the recursive `SkipUntil`.
  - `NextOccurrence` is an independent reference: the unique first occurrence of a pattern at or after a position.
- **Tokenize.** The `Tokenize` loop is `ChunksFrom` / `Pass` / `LoopBody`.
  - Each pass reads the literal text and then the tag interior, as `Chunk`s.
  - `Emit` classifies the chunks in order. This gives the same tokens, in the same order, as classifying each tag as soon as it is read.
- **BuildAST.** `BuildAST` is a fold of `Step` over the tokens, followed by `Finish`.
  - The builder is a stack of `Frame`s (open nodes), or the popped root once a stray closing tag has removed it.
  - The source appends a section node to its parent when the section opens, and the node keeps growing through the shared reference. The model appends the finished node when the section closes. The final tree of a successful build is the same either way. Failed builds return no tree.
- **Values.** `RenderValue` is a five-variant `datatype`, and `RenderModel` is a `map<string, Value>`.
  - A datatype value cannot change, which is what the source's readonly fields promise.
  - Lambdas are pure `string -> string` functions.
- **ParseAsync and rendering.** The file system is a `map<string, string>` from path to text. The cache is a `map<string, seq<Node>>` that every render takes and hands back, so its growth can be stated.
  - `ParseAsync`, `RenderFile`, `RenderNodes`, `RenderNode` and `RenderEach` are mutually recursive.
  - A `fuel` argument bounds how deeply partials can nest.

**Where the code and the documentation disagree.** The repository's tests call `bigode.Parse(path, model)`. `Bigode.cs` defines only `ParseAsync`. The model follows the code and its examples go through `ParseAsync`.

## Model

| member | source | states |
|---|---|---|
| Scanning.Start | src/Bigode/Scanner.cs:3-7 | A new scanner is over the given text, with its cursor at 0. |
| Scanning.MatchLoopIsMatch | src/Bigode/Scanner.cs:14-24 | `Match`'s comparison loop returns true exactly when the cursor is before the end and the pattern occurs there in full. The empty pattern therefore matches exactly when the scanner is not at the end. |
| Scanning.Advance | src/Bigode/Scanner.cs:26-29 | The cursor moves forward by exactly `n`, with no clamping to the input length. The text is unchanged. |
| Scanning.SkipUntil | src/Bigode/Scanner.cs:33-37 | The scanning loop never moves the cursor back or past the end. It stops either at the end or where the pattern occurs. |
| Scanning.SkipUntilFirst | src/Bigode/Scanner.cs:34-37 | The pattern begins nowhere between the start and the place where the loop stops. |
| Scanning.ScanUntil | src/Bigode/Scanner.cs:31-39 | It returns exactly `input[start..cursor']`, with `start <= cursor' <= length`. If `cursor' < length`, the pattern matches at `cursor'`. |
| Scanning.ScanUntilFirst | src/Bigode/Scanner.cs:34-38 | No occurrence of the pattern begins in `[start, cursor')`. If the pattern never occurs from `start` on, the whole remainder is returned and the cursor ends at the length. |
| Scanning.FirstOccurrenceUnique | src/Bigode/Scanner.cs:34-38 | There is at most one first occurrence at or after a position, so the stopping point of `ScanUntil` is determined by the text. |
| Scanning.SkipUntilIsNext | src/Bigode/Scanner.cs:33-37 | The scanning loop stops exactly at the reference position: the first occurrence at or after the start, or the length. |
| Scanning.ScanUntilIsNext | src/Bigode/Scanner.cs:31-39 | `ScanUntil` equals the reference: the slice up to the first occurrence, and a scanner at that occurrence. |
| Parser.Trim | src/Bigode/Parser.cs:39-41 | The trimmed text is no longer than the input and has no white space at either end. It is empty exactly when the input is all white space. |
| Parser.TrimSplit | src/Bigode/Parser.cs:39 | The input is the trimmed text with only white space before and after it. |
| ParserProofs.TrimPadded | src/Bigode/Parser.cs:39 | Trimming white space around text that has no white space at its ends gives that text back. |
| ParserProofs.TrimIdempotent | src/Bigode/Parser.cs:39-50 | Trimming twice is trimming once. |
| ParserProofs.Sigil | src/Bigode/Parser.cs:47-71 | Each kind other than TEXT and VAR has a first character that selects exactly that kind. |
| ParserProofs.KindOfSigil | src/Bigode/Parser.cs:43-71 | The first character selects VAR exactly when it is none of `#` `/` `^` `!` `>`. Each of those five maps back to its own character. |
| Parser.KindOf | src/Bigode/Parser.cs:43-71 | Classification never yields a TEXT token. |
| Parser.ProcessTag | src/Bigode/Parser.cs:37-79 | A tag interior yields at most one token, and none exactly when it is all white space. The token is never TEXT and its raw text is the untrimmed interior. |
| ParserProofs.ProcessTagTrimmed | src/Bigode/Parser.cs:43-78 | A VAR token's value is the whole trimmed interior. Any other kind's value is the rest after the first character, trimmed again. |
| ParserProofs.ProcessTagSigil | src/Bigode/Parser.cs:47-78 | A sigil followed by a name, with any white space around either, yields one token of that kind carrying the bare name. |
| ParserProofs.ProcessTagVar | src/Bigode/Parser.cs:43-78 | A name that does not start with a sigil, with any white space around it, yields one VAR token carrying the bare name. |
| Parser.LoopBody | src/Bigode/Parser.cs:15-31 | Each pass reads literal text, then (unless that reached the end) one tag interior. Every `ScanUntil` call starts with the cursor within the input, even after an unterminated `{{`. A pass that continues moves the cursor strictly forward. |
| TokenizeProofs.LoopReadsChunks | src/Bigode/Parser.cs:15-32 | The tokenizer loop reads exactly the chunks that the position-based reference defines: text up to the first `{{`, then the interior up to the first `}}` after it. |
| TokenizeProofs.TokenizeByChunks | src/Bigode/Parser.cs:11-35 | `Tokenize` emits the tokens of the reference chunks, in order. |
| TokenizeProofs.TokenizeNoTag | src/Bigode/Parser.cs:15-23 | A template without `{{` tokenizes to one TEXT token equal to the input, or to no token when the input is empty. |
| TokenizeProofs.ChunksClean | src/Bigode/Parser.cs:17 | No literal chunk contains `{{`. |
| TokenizeProofs.TokenizeGoodText | src/Bigode/Parser.cs:17-21 | Every TEXT token is non-empty and free of `{{`, and its raw text equals its value. |
| TokenizeProofs.TokenizeTag | src/Bigode/Parser.cs:17-31 | Text before the first `{{`, then a tag closed by the first `}}`, tokenizes as the text's token, then the classified tag, then the tokens of the rest on their own. |
| TokenizeProofs.TokenizeUnterminated | src/Bigode/Parser.cs:23-31 | After a `{{` with no `}}`, the whole remainder becomes the tag interior. |
| ParserProofs.TokenizeUnlex | src/Bigode/Parser.cs:11-79 | Tokens written out as template text tokenize back to themselves, provided they can be read back: unpadded names without `}`, and texts that hold no `{{`, do not end in `{` and are not adjacent. |
| Parser.AddChild | src/Bigode/Parser.cs:95-113 | A node joins the children of the innermost open node, at the end. Every other frame of the stack is unchanged. |
| Parser.Step | src/Bigode/Parser.cs:91-121 | One token keeps the builder valid: the root stays at the bottom of a non-empty stack, or it is the popped root. |
| Parser.Run | src/Bigode/Parser.cs:91-122 | Feeding the tokens in order keeps the builder valid. |
| Parser.BuildAST | src/Bigode/Parser.cs:81-128 | A successful build returns a root of kind SECTION_START named `"root"`. |
| Parser.Finish | src/Bigode/Parser.cs:124-127 | When the build succeeds after the last token, the result is the root: SECTION_START named `"root"`. |
| BuildProofs.RunAppend | src/Bigode/Parser.cs:91-122 | The tokens are processed strictly in order. The first error ends the build, and later tokens do not matter. |
| BuildProofs.BuildASTSameEntries | src/Bigode/Parser.cs:95-121 | The tree depends only on the tokens' kinds and values, never on their raw text. |
| BuildProofs.BuildASTDropsComment | src/Bigode/Parser.cs:91-122 | A COMMENT token changes nothing: removing it gives the same result, unless it follows a stray close that popped the root. |
| BuildProofs.BuildASTPreOrder | src/Bigode/Parser.cs:91-114 | The pre-order walk of a successfully built tree lists the kind and value of every TEXT, VAR, PARTIAL and section-opening token, in their original order. |
| BuildProofs.BuildASTShape | src/Bigode/Parser.cs:95-114 | In a built tree, TEXT, VAR and PARTIAL nodes are leaves. Only SECTION_START and INV_SECTION_START nodes have children. No COMMENT or SECTION_END node appears. |
| BuildProofs.BuildASTUnparse | src/Bigode/Parser.cs:81-128 | Writing a well-formed forest as tokens and building it gives back that forest under the root. |
| BuildProofs.BuildASTMismatch | src/Bigode/Parser.cs:115-118 | A closing tag fails exactly when its name differs from the open node's and the open node is not named `"root"`. The error names the expected section and the one found. This covers a user section named `root`. |
| BuildProofs.BuildASTStrayClose | src/Bigode/Parser.cs:93-120 | A closing tag at top level pops the root. As the last token, the root comes back normally. Any further token fails on the empty stack. |
| BuildProofs.RunNoClose | src/Bigode/Parser.cs:91-114 | Without closing tags, every section token pushes one frame. The innermost open frame is the last section opened. |
| BuildProofs.BuildASTUnclosed | src/Bigode/Parser.cs:124-125 | Sections opened and never closed make the build fail with "Unclosed section", naming the innermost one. |
| BuildProofs.BuildASTOpenAtEnd | src/Bigode/Parser.cs:124-125 | Whenever the tokens leave more than the root frame open, the build fails with "Unclosed section", naming the innermost open section. |
| BuildProofs.BuildASTUnclosedAfter | src/Bigode/Parser.cs:124-125 | After any prefix that leaves sections open (matched sections included), a section tag followed by the tokens of any well-formed nodes fails with "Unclosed section" naming that tag. |
| BuildProofs.InnermostNotLastOpened | src/Bigode/Parser.cs:104-125 | When a later section is opened and closed, the error names the earlier, still-open section rather than the last one opened. |
| RoundTrip.ParseTemplate | src/Bigode/Parser.cs:11-128 | Parse is a left inverse of writing out. A forest whose texts hold no `{{` and whose names are unpadded and free of `}` is written out as template text. Tokenizing and building that text gives back the same forest. |
| RenderValues.ExactlyOneFlag | src/Bigode/Models/RenderValue.cs:44-108 | Every value has exactly one of `IsString`, `IsModel`, `IsArray`, `IsLambda`, `IsBool` set. |
| RenderValues.GetModel | src/Bigode/Models/RenderValue.cs:116-122 | Succeeds exactly on a model. Otherwise it fails with "not a model". |
| RenderValues.GetBoolValue | src/Bigode/Models/RenderValue.cs:130-136 | Succeeds exactly on a bool. Otherwise it fails with "not a bool". |
| RenderValues.GetStringValue | src/Bigode/Models/RenderValue.cs:144-150 | Succeeds exactly on a string. Otherwise it fails with "not a string". |
| RenderValues.GetLambda | src/Bigode/Models/RenderValue.cs:158-164 | Succeeds exactly on a lambda. Otherwise it fails with "not a lambda". |
| RenderValues.GetArray | src/Bigode/Models/RenderValue.cs:172-178 | Succeeds exactly on an array. Otherwise it fails with "not an array". |
| RenderValues.GettersReturnStoredValue | src/Bigode/Models/RenderValue.cs:116-178 | Each getter returns the value its constructor stored. `GetBoolValue` returns `false` for a false bool. |
| Bigode.RemoveDots | src/Bigode/Bigode.cs:14 | The extension keeps every character except `.`, each as often as before, and has no `.` left. An extension without dots is unchanged. |
| Bigode.RemoveDotsAppend | src/Bigode/Bigode.cs:14 | Removing dots from two texts joined is the same as removing them from each and joining, so the other characters keep their order. |
| Bigode.RemoveDotsChar | src/Bigode/Bigode.cs:14 | A single `.` disappears and any other single character stays. |
| Bigode.NewBigode | src/Bigode/Bigode.cs:12-14 | The engine stores the extension without its dots, and the caching switch as given. |
| Bigode.LastSlash | src/Bigode/Bigode.cs:54 | The index of the last `/` of a path, or -1 when there is none. |
| Bigode.DirNameParts | src/Bigode/Bigode.cs:54 | The folder of a path is empty exactly when the path has no `/`. Otherwise it is `/` or the part of the path before its last `/`. |
| Bigode.DirNameCombine | src/Bigode/Bigode.cs:119 | The folder of a file name joined onto a folder (the root, or one without a trailing `/`) is that folder again. |
| Bigode.Store | src/Bigode/Bigode.cs:40-51 | Storing a parsed tree never removes or changes an entry. With caching off the cache is untouched. |
| Bigode.Wrap | src/Bigode/Bigode.cs:57-60 | A success passes through unchanged. A failure becomes a parsing error around the original one. The cache is kept either way. |
| Bigode.ParseAsync | src/Bigode/Bigode.cs:31-61 | A missing file fails with FileNotFound, unwrapped, and leaves the cache untouched. Every other failure is a parsing error. The cache only grows, and not at all with caching off. |
| Bigode.RenderNodes | src/Bigode/Bigode.cs:63-123 | Rendering never removes or changes a cache entry, and adds none with caching off. |
| Bigode.RenderNode | src/Bigode/Bigode.cs:65-122 | Rendering one node, partials included, never removes or changes a cache entry, and adds none with caching off. |
| Bigode.RenderEach | src/Bigode/Bigode.cs:84-91 | The passes of an array section never remove or change a cache entry, and add none with caching off. |
| RenderProofs.RenderNodesAppend | src/Bigode/Bigode.cs:65-122 | Nodes render in order, concatenated. Rendering `xs + ys` is rendering `xs`, then `ys` from the cache `xs` left. The first failure aborts the rest. |
| RenderProofs.RenderTexts | src/Bigode/Bigode.cs:67-70 | TEXT nodes render as their values verbatim, and the cache is unchanged. |
| RenderProofs.MissingKeyPolicy | src/Bigode/Bigode.cs:71-116 | A missing key renders nothing for a variable, but fails for a section and for an inverted section. |
| RenderProofs.VarRenders | src/Bigode/Bigode.cs:71-80 | A variable present in the context renders exactly when it holds a string, and then renders that string. Otherwise it fails with "invalid model" naming the key. |
| RenderProofs.ArraySection | src/Bigode/Bigode.cs:84-91 | A section over an array renders its children once per element, each element being the whole context. An empty array renders "". The rest of the enclosing context has no effect. |
| RenderProofs.RenderEachAppend | src/Bigode/Bigode.cs:87-90 | The passes over `xs + ys` are the passes over `xs`, then those over `ys`, concatenated. |
| RenderProofs.RenderEachSnoc | src/Bigode/Bigode.cs:87-90 | One more element adds one more pass at the end, rendered in that element's context. |
| RenderProofs.LambdaSection | src/Bigode/Bigode.cs:92-98 | A lambda section renders its children with the same context apart from the output. It then renders exactly the lambda applied to that text. It fails exactly when the children fail. |
| RenderProofs.SectionAndInverted | src/Bigode/Bigode.cs:99-116 | A bool section followed by the inverted section on the same key renders the children exactly once, whichever the bool. |
| RenderProofs.InvalidSections | src/Bigode/Bigode.cs:106-116 | A section over a string or a model fails with "invalid model". An inverted section renders nothing, and does not fail, unless its value is the bool `false`. |
| RenderProofs.ParseAsyncRenders | src/Bigode/Bigode.cs:36-60 | For an existing file whose tree was found, the result is that tree rendered from the file's folder, with the tree stored. A failure is wrapped once. |
| RenderProofs.FuelParseAsync | src/Bigode/Bigode.cs:117-121 | Any outcome not cut off by the bound stays the same with more fuel. That covers a text and every failure other than `DepthExhausted` (however wrapped), so the bound only cuts off renders that would nest deeper. |
| CacheProofs.ParseAsyncStores | src/Bigode/Bigode.cs:40-51 | With caching on, a path that is not yet cached gets its parsed tree stored when parsing succeeds. When parsing fails, the failure is wrapped and the cache is unchanged. |
| CacheProofs.TransparentParseAsync | src/Bigode/Bigode.cs:40-51 | From a cache that agrees with the files, a render yields the same text or error as a render with caching off, and leaves the cache agreeing. |
| CacheProofs.SecondCallSeesSameResult | src/Bigode/Bigode.cs:40-51 | Two calls in a row on one engine each give what an uncached engine gives, while the files do not change. |
| CacheProofs.StaleParseAsync | src/Bigode/Bigode.cs:40-51 | Once a path is cached with caching on, changing that file's text changes no render result. |
| Examples.EngineIsDefault | src/Bigode.UnitTests/ParserTests.cs:7 | `new Bigode(".html")` is the engine with extension `html` and caching on. |
| Examples.PathOfParts | src/Bigode/Bigode.cs:54-121 | A template of the tests' folder lies in that folder. A partial named after another template of that folder resolves to that template's path. |
| Examples.ParseVarTag | src/Bigode/Parser.cs:11-128 | Texts without `{` around one tag holding a name (no `}`, no leading sigil) parse to one VAR leaf between text nodes, whatever white space pads the name. |
| Examples.ParsePartialTag | src/Bigode/Parser.cs:11-128 | `{{> name }}` between two texts without `{` parses to one PARTIAL leaf between text nodes. |
| Examples.ParseCommentTag | src/Bigode/Parser.cs:11-128 | A comment tag between two texts without `{` leaves only the two text nodes. |
| Examples.VarFile | src/Bigode/Bigode.cs:31-61 | A not-yet-cached file made of one variable tag between two texts renders as the texts around the variable's string. |
| Examples.IncludeFile | src/Bigode/Bigode.cs:117-121 | A not-yet-cached file made of one partial tag between two texts renders as the texts around the partial's own rendering. The partial is rendered with the same context, one level of nesting further down. |
| Examples.SimpleVarParses | src/Bigode.UnitTests/ParserTests.cs:12 | "Hello {{name}}!" parses to a text node, a variable node and a text node. |
| Examples.SimpleVar | src/Bigode.UnitTests/ParserTests.cs:9-19 | "Hello {{name}}!" with name = "World" renders "Hello World!". |
| Examples.SimpleVarSpacedParses | src/Bigode.UnitTests/ParserTests.cs:21-31 | "Hello {{ name }}!" parses to the same tree as the unspaced form, so it renders the same. |
| Examples.CommentParses | src/Bigode.UnitTests/ParserTests.cs:36 | "Visible {{! This is hidden }} Content" parses to the two text nodes alone. |
| Examples.CommentRenders | src/Bigode.UnitTests/ParserTests.cs:33-40 | Those two text nodes render "Visible  Content", with both spaces kept. |
| Examples.LambdaParses | src/Bigode.UnitTests/ParserTests.cs:45 | The lambda template parses to one section over a variable and a text. |
| Examples.LambdaFile | src/Bigode.UnitTests/ParserTests.cs:42-56 | The lambda template renders "<b>Lambda is awesome.</b>" through `ParseAsync`. |
| Examples.LoopParses | src/Bigode.UnitTests/ParserTests.cs:61 | "Users: {{#users}}{{name}}, {{/users}}" parses to a text and a section over a variable and a text. |
| Examples.LoopRenders | src/Bigode.UnitTests/ParserTests.cs:58-77 | With two users, the loop renders "Users: Alice, Bob, ". |
| Examples.CondParses | src/Bigode.UnitTests/ParserTests.cs:82-84 | The conditional template parses to two sections, each over one text. |
| Examples.CondRenders | src/Bigode.UnitTests/ParserTests.cs:79-93 | With isAdmin true and isGuest false, it renders "Welcome Admin". |
| Examples.InvertedParses | src/Bigode.UnitTests/ParserTests.cs:98-100 | "{{^data}}No Data Found{{/data}}" parses to one inverted section over one text. |
| Examples.InvertedRenders | src/Bigode.UnitTests/ParserTests.cs:95-108 | With data false, it renders "No Data Found". |
| Examples.MissingVar | src/Bigode.UnitTests/ParserTests.cs:148-156 | "Nothing here: [{{ missing }}]" with an empty model renders "Nothing here: []". |
| Examples.MismatchParses | src/Bigode.UnitTests/ParserTests.cs:161 | "{{#open}} ... {{/close}}" fails to parse with a mismatch between `open` and `close`. |
| Examples.MismatchFile | src/Bigode.UnitTests/ParserTests.cs:158-169 | Through `ParseAsync`, that mismatch surfaces wrapped as a parsing error. |
| Examples.MismatchMessage | src/Bigode.UnitTests/ParserTests.cs:168 | The wrapped mismatch message contains "Mismatched section". |
| Examples.UnclosedParses | src/Bigode.UnitTests/ParserTests.cs:174 | "{{#open}} ... " fails with the unclosed section `open`. |
| Examples.UnclosedMessage | src/Bigode.UnitTests/ParserTests.cs:181 | The wrapped unclosed-section message contains "Unclosed section". |
| Examples.PartialsIn | src/Bigode.UnitTests/ParserTests.cs:184-195 | For any files holding the two test templates, and any cache holding neither, the main template renders the card's text inside the `div`. |
| Examples.Partials | src/Bigode.UnitTests/ParserTests.cs:184-195 | "<div>{{> user_card }}</div>" with name = "Alice" renders "<div>User: Alice</div>". |
| Examples.RootFile | src/Bigode.UnitTests/ParserTests.cs:217-229 | For any files holding the three nested templates, any model whose `name` is a text `s`, and any cache holding none of the files, the root renders all three texts in order with `s` in the leaf. |
| Examples.NestedPartials | src/Bigode.UnitTests/ParserTests.cs:217-229 | Root including branch including leaf renders "Root starts: Branch including: I am the leaf.". |

## Left out

- **File I/O.** `File.Exists` and `File.ReadAllTextAsync` become lookups in a map from path to text. A file cannot disappear between the existence check and the read.
- **Paths.** `Path.GetDirectoryName` and `Path.Combine` are modelled for `/`-separated paths only (`DirName`, `Combine`). Windows separators and drive roots are not modelled.
- Bigode.DirName: repeated separators are neither trimmed nor collapsed. `Path.GetDirectoryName` normalises them ("a//b/c.html" gives "a/b", the model gives "a//b"), so a partial under such a path would be looked up and cached under a different key.
- **Async.** `Task`s and `await` are sequential composition. Lambdas are pure, total `string -> string` functions. A lambda that throws or has side effects is not modelled.
- **Concurrency.** The cache `Dictionary` is shared without locks. The model is sequential, so interleaved calls and `cache.Add` racing on a duplicate key are not modelled.
- Bigode.ParseAsync: the source recurses into partials without limit, and a partial that includes itself overflows the stack. The model bounds the nesting with `fuel` and reports `DepthExhausted` (wrapped) when it runs out. `RenderProofs.FuelParseAsync` shows that every outcome other than `DepthExhausted` is independent of the bound.
- Errors.Message: the error kinds are exact. The texts are the source's where the source writes them. The missing-key text approximates .NET's `KeyNotFoundException` message. The `DepthExhausted` text exists only in the model.
- Scanning.Advance: takes a non-negative count. The source's `int` parameter could move the cursor backwards, but its only callers pass 2 (the delimiter length) and the default 1.
- Scanning.ScanUntil: requires the cursor to be within the input. The source's slice would throw otherwise. `Parser.LoopBody` shows that every call from the tokenizer meets this, including after an unterminated `{{`.
- **Integers.** 32-bit overflow of the cursor and of string lengths is not modelled. A .NET string is shorter than 2^31 characters, so a cursor never passes `length + 2`.
- **Trim.** `string.Trim()` uses the Unicode white-space set of `char.IsWhiteSpace`, written out as `Parser.IsWhiteSpace`. Surrogate pairs and normalisation are not considered.
- **RenderModel.** The constructors are thin `Dictionary` wrappers, and a model is a Dafny `map`. The duplicate-key exceptions of collection initialisers are not modelled.
- **ASP.NET.** `src/Bigode.AspNet`, `src/Bigode.AspNet.Example`, the benchmark and the test attributes are not part of this model.
- **Two test cases** have no concrete example here: nested sections (src/Bigode.UnitTests/ParserTests.cs:110-146) and partials inside a loop (src/Bigode.UnitTests/ParserTests.cs:197-215).
  - Their rendering rules are covered for all inputs by `RenderProofs.ArraySection`, `RenderProofs.RenderEachSnoc` and `Examples.IncludeFile`.
  - Worked through on literals, their templates are too large for the verifier's budget.
- **The custom extension test** (src/Bigode.UnitTests/CustomExtensionTests.cs) has no worked example. It differs from the nested-partials test only in the extension, whose handling `Bigode.RemoveDots` and `Bigode.NewBigode` state.
- Parser.BuildAST: the source links a section node into its parent when the section opens. The model links it when the section closes. The trees of successful builds are the same. The partially built trees that a failing build throws away are not modelled.
