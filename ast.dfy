/** The syntax-tree nodes whose token-literal accessors are modelled (ast/ast.go). */
module Ast {
  import opened Tokens

  /** An identifier node: the token it came from and its name. */
  datatype Identifier = Identifier(token: Token, value: string) {
    function TokenLiteral(): (lit: string)
      ensures lit == token.literal
    {
      token.literal
    }
  }

  /** An expression node. Only identifiers are defined here; every other kind
      of expression node is carried as its token only. */
  datatype Expression =
    | IdentifierExpression(ident: Identifier)
    | OtherExpression(token: Token)

  /** A statement node: `let <name> = <value>;`, `return <value>;`, or a
      statement kind defined outside this model, carried as its token. That
      such a statement answers with its own token's literal is an assumption:
      its definition is not part of this model. */
  datatype Statement =
    | LetStatement(token: Token, name: Identifier, value: Expression)
    | ReturnStatement(token: Token, returnValue: Expression)
    | OtherStatement(token: Token)
  {
    /** Every statement answers with the literal of its own token, not with
        that of a child node. */
    function TokenLiteral(): (lit: string)
      ensures lit == token.literal
    {
      match this
      case LetStatement(t, _, _) => t.literal
      case ReturnStatement(t, _) => t.literal
      case OtherStatement(t) => t.literal
    }
  }

  /** The root of every tree: the statements in source order. */
  datatype Program = Program(statements: seq<Statement>) {
    /** The literal of the first statement's token, or "" for an empty program. */
    function TokenLiteral(): (lit: string)
      ensures statements == [] ==> lit == ""
      ensures statements != [] ==> lit == statements[0].token.literal
    {
      if |statements| > 0 then statements[0].TokenLiteral() else ""
    }
  }

  /** Adding statements after a non-empty program leaves its literal alone, and
      the literal of a non-empty program is fixed by its first statement alone. */
  lemma AppendKeepsTokenLiteral(p: Program, more: seq<Statement>)
    requires p.statements != []
    ensures Program(p.statements + more).TokenLiteral() == p.TokenLiteral()
    ensures Program(p.statements + more).TokenLiteral() == Program([p.statements[0]]).TokenLiteral()
  {
    assert (p.statements + more)[0] == p.statements[0];
  }

  /** A program that starts with `let x = ...` answers "let" when the lexer gave
      that token the literal "let", whatever follows. */
  lemma LetProgramLiteral(t: Token, name: Identifier, value: Expression, rest: seq<Statement>)
    requires t.literal == "let"
    ensures Program([LetStatement(t, name, value)] + rest).TokenLiteral() == "let"
  {
    assert ([LetStatement(t, name, value)] + rest)[0] == LetStatement(t, name, value);
  }
}
