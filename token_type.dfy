/**
 * The token-type symbol table of the tokenizer (TokenType.java) and the
 * (type, value) record it produces (Token.java).
 */
module TokenTypes {

  /** The eight token types, in declaration order. */
  datatype TokenType = Text | Bold | Italics | Strikethrough | Highlight | Header | CodeBlock | Break

  /** TokenType.values(): the enum constants in declaration order. */
  const AllTypes: seq<TokenType> := [Text, Bold, Italics, Strikethrough, Highlight, Header, CodeBlock, Break]

  /** A token: its type and the text it stands for. */
  datatype Token = Token(tokenType: TokenType, value: string)

  /** The symbols each type lists; TEXT lists none. */
  function Symbols(t: TokenType): seq<string>
  {
    match t
    case Text => []
    case Bold => ["**", "__"]
    case Italics => ["*", "_"]
    case Strikethrough => ["~~"]
    case Highlight => ["=="]
    case Header => ["###", "##", "#"]
    case CodeBlock => ["```"]
    case Break => ["\n"]
  }

  /** Linear search with early return, as in TokenType.contains. */
  function ListContains(list: seq<string>, symbol: string): (b: bool)
    ensures b <==> symbol in list
  {
    if list == [] then false
    else if symbol == list[0] then true
    else ListContains(list[1..], symbol)
  }

  /** TokenType.contains: true exactly when the symbol is one of the type's own. */
  function Contains(t: TokenType, symbol: string): (b: bool)
    ensures b <==> symbol in Symbols(t)
    ensures t == Text ==> !b
  {
    ListContains(Symbols(t), symbol)
  }


  /** No symbol is listed by two different types. */
  lemma SymbolsDisjoint(t: TokenType, u: TokenType, symbol: string)
    requires t != u
    ensures !(Contains(t, symbol) && Contains(u, symbol))
  {
  }
}
