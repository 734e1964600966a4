/** Token kinds and the keyword table of the lexer (token/token.go). */
module Tokens {

  /** A token kind is its name, as in the source. */
  type TokenType = string

  const ILLEGAL: TokenType := "ILLEGAL"
  const EOF: TokenType := "EOF"

  const IDENT: TokenType := "IDENT"
  const INT: TokenType := "INT"
  const STRING: TokenType := "STRING"
  const COMMENT: TokenType := "COMMENT"

  const ASSIGN: TokenType := "="
  const PLUS: TokenType := "+"
  const MINUS: TokenType := "-"
  const BANG: TokenType := "!"
  const ASTERISK: TokenType := "*"
  const SLASH: TokenType := "/"

  const LT: TokenType := "<"
  const GT: TokenType := ">"
  const LT_EQ: TokenType := "<="
  const GT_EQ: TokenType := ">="

  const EQ: TokenType := "=="
  const NOT_EQ: TokenType := "!="

  const COMMA: TokenType := ","
  const SEMICOLON: TokenType := ";"

  const LPAREN: TokenType := "("
  const RPAREN: TokenType := ")"
  const LBRACE: TokenType := "{"
  const RBRACE: TokenType := "}"
  const LBRACKET: TokenType := "["
  const RBRACKET: TokenType := "]"

  const FUNCTION: TokenType := "FUNCTION"
  const LET: TokenType := "LET"
  const TRUE: TokenType := "TRUE"
  const FALSE: TokenType := "FALSE"
  const IF: TokenType := "IF"
  const ELSE: TokenType := "ELSE"
  const RETURN: TokenType := "RETURN"

  /** A token: its kind and the text it was scanned from. */
  datatype Token = Token(typ: TokenType, literal: string)

  /** The reserved words and the kind each one is scanned as. */
  const Keywords: map<string, TokenType> := map[
    "fn" := FUNCTION,
    "let" := LET,
    "true" := TRUE,
    "false" := FALSE,
    "if" := IF,
    "else" := ELSE,
    "return" := RETURN
  ]

  /** The seven keyword kinds. */
  const KeywordTypes: set<TokenType> := {FUNCTION, LET, TRUE, FALSE, IF, ELSE, RETURN}

  /** Reference definition of a reserved word, written out independently of the table. */
  predicate IsKeyword(s: string) {
    s == "fn" || s == "let" || s == "true" || s == "false" ||
    s == "if" || s == "else" || s == "return"
  }

  /** Classifies a scanned word: the keyword's kind if the word is exactly a
      reserved word, otherwise IDENT. */
  function LookupIdent(ident: string): (t: TokenType)
    ensures t == IDENT || t in KeywordTypes
    ensures t != IDENT <==> IsKeyword(ident)
    ensures IsKeyword(ident) ==> t == Keywords[ident]
  {
    if ident in Keywords then Keywords[ident] else IDENT
  }

  /** Each reserved word is scanned as its own kind. */
  lemma KeywordKinds()
    ensures LookupIdent("fn") == FUNCTION
    ensures LookupIdent("let") == LET
    ensures LookupIdent("true") == TRUE
    ensures LookupIdent("false") == FALSE
    ensures LookupIdent("if") == IF
    ensures LookupIdent("else") == ELSE
    ensures LookupIdent("return") == RETURN
  {
  }

  /** The lookup is case sensitive: capitalised spellings are plain identifiers. */
  lemma CaseVariantsAreIdentifiers()
    ensures LookupIdent("Let") == IDENT
    ensures LookupIdent("FN") == IDENT
    ensures LookupIdent("True") == IDENT
    ensures LookupIdent("Return") == IDENT
    ensures LookupIdent("") == IDENT
  {
  }

  /** Distinct reserved words get distinct kinds, and none of them is IDENT. */
  lemma KeywordLookupInjective(a: string, b: string)
    requires IsKeyword(a) && IsKeyword(b)
    ensures LookupIdent(a) != IDENT
    ensures LookupIdent(a) == LookupIdent(b) ==> a == b
  {
  }
}
