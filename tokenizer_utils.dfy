/**
 * Stateless character and token-type helpers of the tokenizer
 * (TokenizerUtils in Tokenizer.java).
 *
 * Unicode punctuation (Java's Character.getType categories) is not computed
 * here: the scanner receives it as a parameter `punct`. `JavaAsciiPunctuation`
 * records what those categories say about the ASCII range.
 */
module TokenizerUtils {
  import opened TokenTypes

  /** ASCII punctuation: 0x21-0x2F, 0x3A-0x40, 0x5B-0x60, 0x7B-0x7E. */
  predicate IsAsciiPunctuation(c: char)
  {
    ('!' <= c <= '/') || (':' <= c <= '@') ||
    ('[' <= c <= '`') || ('{' <= c <= '~')
  }

  /**
   * The ASCII characters that Java files under the connector, dash, open,
   * close, initial-quote, final-quote, other-punctuation and math-symbol
   * categories: all ASCII punctuation except '$' (currency symbol) and
   * '^' and '`' (modifier symbols).
   */
  predicate JavaAsciiPunctuation(c: char)
  {
    IsAsciiPunctuation(c) && c != '$' && c != '^' && c != '`'
  }

  /** A punctuation classifier that agrees with Java's on the ASCII range. */
  ghost predicate AgreesOnAscii(punct: char -> bool)
  {
    forall c: char :: c < '\U{80}' ==> (punct(c) <==> JavaAsciiPunctuation(c))
  }

  /** Whitespace for flanking purposes: NUL, space, newline, carriage return, tab. */
  predicate IsWhiteSpace(c: char)
  {
    c == '\0' || c == ' ' || c == '\n' || c == '\r' || c == '\t'
  }

  /** The four types that open and close a formatting context. */
  predicate IsFormatToken(t: TokenType)
  {
    t == Italics || t == Bold || t == Highlight || t == Strikethrough
  }

  /** First listing of `value` among `types` (each searched in its own order), TEXT if none. */
  function FirstListing(types: seq<TokenType>, value: string): (t: TokenType)
    ensures Contains(t, value) || (t == Text && forall u :: u in types ==> !Contains(u, value))
    ensures t != Text ==> t in types
  {
    if types == [] then Text
    else if ListContains(Symbols(types[0]), value) then types[0]
    else FirstListing(types[1..], value)
  }

  /**
   * getTokenType: the type whose symbol list holds `value`; TEXT when no list
   * does. Because the lists are disjoint, that type is unique.
   */
  function GetTokenType(value: string): (t: TokenType)
    ensures Contains(t, value) || (t == Text && forall u: TokenType :: !Contains(u, value))
    ensures forall u: TokenType :: Contains(u, value) ==> t == u
  {
    EveryTypeListed();
    var t := FirstListing(AllTypes, value);
    OnlyListing(t, value);
    t
  }

  /** A symbol that type t lists is listed by no other type. */
  lemma OnlyListing(t: TokenType, value: string)
    ensures Contains(t, value) ==> forall u: TokenType :: Contains(u, value) ==> t == u
  {
    forall u: TokenType | Contains(t, value) && Contains(u, value) ensures t == u {
      if t != u {
        SymbolsDisjoint(t, u, value);
      }
    }
  }

  /** The type table lists every token type. */
  lemma EveryTypeListed()
    ensures forall u: TokenType :: u in AllTypes
  {
    forall u: TokenType ensures u in AllTypes {
      match u
      case Text => assert AllTypes[0] == u;
      case Bold => assert AllTypes[1] == u;
      case Italics => assert AllTypes[2] == u;
      case Strikethrough => assert AllTypes[3] == u;
      case Highlight => assert AllTypes[4] == u;
      case Header => assert AllTypes[5] == u;
      case CodeBlock => assert AllTypes[6] == u;
      case Break => assert AllTypes[7] == u;
    }
  }

  /** The types of the six format symbols. */
  lemma FormatSymbolTypes()
    ensures GetTokenType("*") == Italics && GetTokenType("_") == Italics
    ensures GetTokenType("**") == Bold && GetTokenType("__") == Bold
    ensures GetTokenType("~~") == Strikethrough && GetTokenType("==") == Highlight
  {
    assert Contains(Italics, "*") && Contains(Italics, "_");
    assert Contains(Bold, "**") && Contains(Bold, "__");
    assert Contains(Strikethrough, "~~") && Contains(Highlight, "==");
  }

  /** One emphasis character is italics, two are bold. */
  lemma EmphasisTypes(c: char)
    requires c == '*' || c == '_'
    ensures GetTokenType([c]) == Italics && GetTokenType([c, c]) == Bold
  {
    FormatSymbolTypes();
    if c == '*' {
      assert [c] == "*" && [c, c] == "**";
    } else {
      assert [c] == "_" && [c, c] == "__";
    }
  }

  /** The format symbols: exactly the values whose type opens a formatting context. */
  lemma FormatSymbols(value: string)
    ensures IsFormatToken(GetTokenType(value)) <==> value in {"*", "_", "**", "__", "~~", "=="}
  {
  }
}
