/** The failure kinds the engine can raise, each carrying what its message names. */
module Errors {

  datatype Error =
    /** `FileNotFoundException` from `ParseAsync` when the template path does not exist. */
    | FileNotFound(path: string)
    /** A closing tag whose name differs from the innermost open section. */
    | MismatchedSection(expected: string, got: string)
    /** Sections still open once every token has been consumed; names the innermost one. */
    | UnclosedSection(name: string)
    /** `Stack.Peek` on an empty stack: a token follows a stray close that popped the root. */
    | EmptyStack
    /** A context value whose variant the node kind cannot use. */
    | InvalidModel(key: string)
    /** The strict dictionary indexer of a section found no entry for the key. */
    | MissingKey(key: string)
    /** A `RenderValue` getter called on a value of another variant; names the wanted variant. */
    | NotA(variant: string)
    /** The wrapper `ParseAsync` puts around every failure raised inside its try block. */
    | ParsingError(inner: Error)
    /** The bound on nested partials this model imposes in place of unbounded recursion. */
    | DepthExhausted

  /** The text of the exception message for each kind. */
  function Message(e: Error): string {
    match e
    case FileNotFound(p) => "Bigode file not found: " + p
    case MismatchedSection(x, y) => "Bigode: Mismatched section. Expected " + x + ", got " + y
    case UnclosedSection(n) => "Bigode: Unclosed section \"" + n + "\""
    case EmptyStack => "Stack empty."
    case InvalidModel(k) => "Bigode Render Error: Section " + k + " invalid model"
    case MissingKey(k) => "The given key '" + k + "' was not present in the dictionary."
    case NotA(v) => "RenderValue is not " + v
    case ParsingError(inner) => "Bigode Parsing Error: " + Message(inner)
    case DepthExhausted => "Bigode: partial nesting too deep"
  }
}
