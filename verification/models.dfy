/** Tokens and syntax-tree nodes (src/Bigode/Models/Token.cs, ASTNode.cs, TokenType.cs). */
module Models {

  datatype TokenType =
    | Text
    | Var
    | SectionStart
    | SectionEnd
    | InvSectionStart
    | Comment
    | Partial

  /** One lexical unit: `value` is the trimmed identifier (or the literal text), `raw` the untrimmed tag interior. */
  datatype Token = Token(kind: TokenType, value: string, raw: string)

  /** A node of the syntax tree; leaves have no children. */
  datatype Node = Node(kind: TokenType, value: string, children: seq<Node>)

  /** Number of nodes in a forest; the measure that renders terminate on. */
  function NodesSize(ns: seq<Node>): (r: nat)
    ensures ns != [] ==> r > NodesSize(ns[0].children) && r > NodesSize(ns[1..])
    decreases ns
  {
    if ns == [] then 0 else 1 + NodesSize(ns[0].children) + NodesSize(ns[1..])
  }
}
