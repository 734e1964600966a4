# zlang runtime core, modelled in Dafny

This project models the parts of the zlang interpreter that sit around its
evaluator. Each part gets its own module:

- **Builtins** (`builtins.dfy`): the native functions `len`, `str`, `int` and
  `type`, the array mutators `set` and `append`, and `split`. Each one checks its
  arity and argument types in the source's order and returns an Error object on
  a mismatch. Arrays are references (`ArrayObject`, a class with a
  `seq<Object>` field). `set` and `append` are methods that write that field in
  place, so every binding that holds the same array sees the change.
- **Environments** (`environment.dfy`): a scope is a class with a `store` map
  and an optional `outer` scope. `Get` walks outward, nearest scope first.
  `Set` writes only the local store. A ghost footprint `Repr` (the chain of
  scopes) gives termination and frames.
- **Objects** (`objects.dfy`): the runtime values (Integer, Boolean, Null, None,
  String, Error, Array), their type tags and their renderings.
- **Tokens** (`tokens.dfy`): the token kinds, the seven-entry keyword table and
  `LookupIdent`.
- **Ast** (`ast.dfy`): `Program`, `LetStatement`, `ReturnStatement` and
  `Identifier` with their token-literal accessors.
- **Decimal** (`decimal.dfy`): the int64 type, `%d` rendering and
  `strconv.ParseInt(s, 10, 64)`. The object renderings and `int` depend on them.
- **Text** (`text.dfy`): the UTF-8 byte length that `len` reports for a string,
  and `strings.Split` / `strings.Join`.
- **Scenarios** (`scenarios.dfy`): client code that uses only the contracts. It
  shows array aliasing through two bindings, shadowing, and a nested scope that
  sees a binding added to its enclosing scope after the nested scope was made.

Decisions where the text of the source leaves things open:

- `object/object.go` defines only Integer, Boolean and Null. The String, Array,
  None and Error variants, and their tags `STRING`, `ARRAY`, `NONE` and `ERROR`,
  are modelled as further distinct constants. Only their distinctness is used.
  None (the `NONE` singleton that `set` and `append` return) is kept distinct
  from Null.
- The rendering of String, Array, None and Error objects is defined outside the
  modelled files. `Inspect` takes it as a parameter `render`.
- Errors are `Error(Failure)`. A `Failure` records which message format was used
  and its arguments (counts, type tags, the index), not the message text.
- `split` defaults to a single space `" "` (evaluator/builtins.go:155), not to
  any whitespace; the model follows the code.
- Dafny strings are sequences of Unicode scalar values. Go strings are their
  UTF-8 bytes. `len` of a string is therefore the UTF-8 encoded length
  (`Text.Utf8Length`). On valid text, splitting on characters gives the same
  pieces as Go's byte-level split.

## Model

| member | source | states |
|---|---|---|
| `Tokens.LookupIdent` | token/token.go:71-76 | the result is IDENT or one of the seven keyword kinds; it differs from IDENT exactly when the word is one of the seven reserved words, and then it is that word's kind from the table |
| `Tokens.KeywordKinds` | token/token.go:59-67 | `fn`, `let`, `true`, `false`, `if`, `else`, `return` map to FUNCTION, LET, TRUE, FALSE, IF, ELSE, RETURN |
| `Tokens.CaseVariantsAreIdentifiers` | token/token.go:71-76 | the match is exact: `Let`, `FN`, `True`, `Return` and the empty word are IDENT |
| `Tokens.KeywordLookupInjective` | token/token.go:44-67 | no reserved word maps to IDENT, and two reserved words with the same kind are the same word |
| `Ast.Identifier.TokenLiteral` | ast/ast.go:56 | an identifier answers with its own token's literal |
| `Ast.Statement.TokenLiteral` | ast/ast.go:45-67 | let and return statements answer with their own token's literal, not a child's |
| `Ast.Program.TokenLiteral` | ast/ast.go:28-33 | the empty program answers ""; a non-empty one answers its first statement's token literal |
| `Ast.AppendKeepsTokenLiteral` | ast/ast.go:28-33 | appending statements to a non-empty program does not change its literal, which is that of the program holding only its first statement |
| `Ast.LetProgramLiteral` | ast/ast.go:28-45 | a program starting with a let statement whose token literal is "let" answers "let" |
| `Decimal.Wrap64` | evaluator/builtins.go:21-23 | Go's conversion to int64 is the identity on values in range and is congruent modulo 2^64 otherwise |
| `Decimal.Render` | object/object.go:29 | the `%d` rendering is never empty, starts with '-' exactly for negative values, and is digits after that sign |
| `Decimal.ParseInt64` | evaluator/builtins.go:80 | a successful parse had an optional sign followed only by digits, and its value is those digits read in base 10 with that sign; conversely the parse succeeds exactly when the text is an optional sign followed by at least one digit and the signed value lies within int64; the empty string and a lone sign fail |
| `Decimal.DigitsShape` | object/object.go:29 | the digits of n are decimal digits, never empty, and start with '0' exactly when n is 0 |
| `Decimal.DigitsValueOfDigits` | object/object.go:29 | reading the digits of n back as base 10 gives n |
| `Decimal.RenderShape` | object/object.go:29 | the `%d` rendering starts with '-' exactly for negative values, is "0" exactly for 0, and otherwise has no leading zero |
| `Decimal.ParseRender` | object/object.go:29 | parsing the rendering of any int64 gives the same int64 back |
| `Text.Utf8Width` | evaluator/builtins.go:23 | a character takes 1 to 4 bytes, and 1 exactly when it is ASCII |
| `Text.Utf8Length` | evaluator/builtins.go:23 | the byte length of a string lies between its character count and four times it |
| `Text.AsciiLength` | evaluator/builtins.go:23 | for ASCII text the byte length is the character count |
| `Text.Utf8LengthConcat` | evaluator/builtins.go:23 | the byte length of a concatenation is the sum of the byte lengths |
| `Text.SplitOn` | evaluator/builtins.go:167 | splitting on a non-empty separator yields at least one piece |
| `Text.Explode` | evaluator/builtins.go:167 | splitting on the empty separator yields one single-character piece per character, in order |
| `Text.JoinSplitOn` | evaluator/builtins.go:167 | joining the pieces of a split with the separator gives the original string |
| `Text.PiecesAvoidSeparator` | evaluator/builtins.go:167 | no piece of a split contains the separator |
| `Text.Split` | evaluator/builtins.go:167 | `strings.Split(str, sep)`: the pieces join back to the string with the separator; a non-empty separator gives at least one piece, no piece contains it, the first piece ends at the leftmost occurrence and the other pieces are the split of the text after it; the empty separator gives exactly the single-character pieces of `Text.Explode` |
| `Text.SplitOnWithoutSeparator` | evaluator/builtins.go:167 | a string in which the separator does not occur splits into the one piece holding the whole string |
| `Text.SplitOnAbsentChar` | evaluator/builtins.go:167 | a string without the character c splits on c into the one piece holding the whole string |
| `Text.SplitOnLeftmost` | evaluator/builtins.go:167 | the first piece of a split runs up to the leftmost occurrence of the separator, and the remaining pieces are the split of the text after that occurrence |
| `Text.JoinExplode` | evaluator/builtins.go:167 | joining the single-character pieces gives the original string |
| `Objects.Object.Type` | object/object.go:26-46 | each tag belongs to exactly one variant: INTEGER, BOOLEAN, NULL, STRING, ARRAY, NONE, ERROR |
| `Objects.Object.Inspect` | object/object.go:29-49 | null renders "null"; booleans render "true"/"false"; an integer renders as its `%d` text (`Decimal.Render`), which parses back to it, that starts with '-' exactly when it is negative, that is "0" exactly for 0, and that has no leading zero otherwise |
| `Objects.ArrayObject.constructor` | evaluator/builtins.go:156 | a new array holds exactly the given elements |
| `Objects.TypeIdentifiesVariant` | object/object.go:9-46 | two objects have the same tag exactly when they are the same variant |
| `Objects.TagsDistinct` | object/object.go:9-11 | the seven tags are pairwise distinct |
| `Builtins.Len` | evaluator/builtins.go:13-27 | arity other than 1 is an error; an array gives its element count, a string gives its UTF-8 byte count, and any other type is an unsupported-argument error naming its tag |
| `Builtins.Str` | evaluator/builtins.go:58-69 | arity other than 1 is an error; with one argument the result is a string: the argument itself if it is a string, otherwise its rendering |
| `Builtins.Int` | evaluator/builtins.go:70-92 | arity other than 1 is an error; integers come back unchanged, TRUE gives 1 and FALSE 0, strings give their base-10 int64 value or a conversion error, and other types are an unsupported-argument error |
| `Builtins.Type` | evaluator/builtins.go:93-101 | arity other than 1 is an error; otherwise the result is the string of the argument's tag |
| `Builtins.StrIdempotent` | evaluator/builtins.go:63-67 | `str(str(x))` equals `str(x)` |
| `Builtins.IntOfStrRoundTrip` | evaluator/builtins.go:77-82 | `int(str(n))` gives back the integer n for every int64 n |
| `Builtins.TypeDistinguishesVariants` | evaluator/builtins.go:95-99 | `type(a)` and `type(b)` agree exactly when `a` and `b` are the same variant, and `type(type(x))` is "STRING" |
| `Builtins.Set` | evaluator/builtins.go:116-135 | errors in order for arity other than 3, a non-array, a non-integer index, or an index outside `[0, len)`, and writes nothing then; otherwise element i becomes v in place, the length and all other elements stay, only that array is written, and NONE is returned |
| `Builtins.Append` | evaluator/builtins.go:136-149 | errors in order for arity other than 2 or a non-array, writing nothing; otherwise the array's old elements are followed by exactly v, in place, only that array is written, and NONE is returned |
| `Builtins.SplitArgumentsAsWritten` | evaluator/builtins.go:152-165 | as written, a non-string separator is reported with the type of the first argument |
| `Builtins.SeparatorTypeMisreported` | evaluator/builtins.go:158-160 | for a string and a non-string separator, the as-written error names STRING, never the separator's own type |
| `Builtins.SplitArguments` | evaluator/builtins.go:152-165 | 1 or 2 arguments only; the separator's type is checked before the string's; success exactly when both are strings, giving the string and the separator, or one space when none is given; every outcome other than a non-string separator, successes included, equals the code as written |
| `Builtins.Strings` | evaluator/builtins.go:168-170 | the pieces become string objects, one per piece, in order |
| `Builtins.Split` | evaluator/builtins.go:150-173 | an argument error comes back as an Error object; otherwise a fresh array holds the pieces of `strings.Split`, in order, and every element is a string |
| `Builtins.DefaultSeparatorIsOneSpace` | evaluator/builtins.go:155-167 | with one argument the separator is one space, not any whitespace: every string without a space, whatever tabs or newlines it holds, is one piece |
| `Environments.Environment.constructor` | object/environment.go:11-14 | a new environment has an empty store and no outer scope |
| `Environments.Environment.Enclosed` | object/environment.go:4-8 | an enclosed environment has an empty store and the given outer scope, whose chain it extends |
| `Environments.Environment.Get` | object/environment.go:23-29 | a local binding wins over any outer one; a name absent locally gives exactly the outer scope's answer, or not-found when there is no outer scope |
| `Environments.Environment.Set` | object/environment.go:32-35 | returns the value; afterwards the name resolves to it; the store changes only at that key; other names resolve as before; every outer scope answers as before (shadowing) |
| `Environments.NotFoundMeansUnbound` | object/environment.go:23-29 | a lookup fails exactly when no scope of the chain binds the name |
| `Environments.FoundComesFromChain` | object/environment.go:23-29 | a successful lookup returns a binding held by some scope of the chain |

## Left out

- The `exit`, `print` and `input` builtins (evaluator/builtins.go:29-57, 102-115): process exit, writes to standard output and reads from standard input are I/O. `print` returns NONE.
- The builtin name table itself (evaluator/builtins.go:12): each modelled builtin is a member of `Builtins` under its own name.
- The Float, Function, Builtin and ReturnValue object variants: their definitions are not part of this model, so the builtins are modelled only over the seven variants above.
- The rendering of String, Array, None and Error objects is a parameter `render: Object -> string`. A heap-dependent rendering, such as an array's current elements, is not captured.
- Error message text: `newError` is not part of this model. Failures are kept as data.
- `Builtins.Int`: the source tests a boolean against the `TRUE` singleton by identity (evaluator/builtins.go:85); the model compares by value. This assumes every Boolean object is one of the evaluator's TRUE/FALSE singletons: a separately allocated true Boolean would give 0 in the source and 1 here.
- `Builtins.Set`: the index is compared and used as an unbounded integer, which assumes Go's `int` is 64 bits wide. On a 32-bit target `int(index.Value)` (evaluator/builtins.go:129, 132) truncates, so `set(a, 4294967296, v)` would pass the bounds check and write element 0; that is not modelled.
- `Decimal.ParseInt64`: the two failure kinds of strconv.ParseInt (syntax and range) are not told apart; `int` reports the same error for both.
- `Builtins.Len`: the result is stated to equal the count only when the count fits in int64. Go's `len` can never exceed that bound, and beyond it the model wraps the value the way the int64 conversion would.
- Strings that are not valid UTF-8 cannot be represented: a string is a sequence of Unicode scalar values. This affects `len` of a string (evaluator/builtins.go:23) and `split` with any separator (evaluator/builtins.go:167), including the per-byte pieces Go produces for invalid bytes with the empty separator.
- The lexer, parser, evaluator, `main.go`, `file/file.go` and `logs/build_string.py`: their behaviour is not part of this model. They are either not among the modelled files or are I/O wiring and build tooling.

## Findings

| source | as written | input that shows it | evidently intended | confidence | as-written member | corrected member |
|---|---|---|---|---|---|---|
| evaluator/builtins.go:158-159 | the error for a non-string separator reports `args[0].Type()`, the type of the string being split (lemma `Builtins.SeparatorTypeMisreported`) | `split("a b", 5)` reports `got=STRING` | report the separator's own type, `args[1].Type()` (`got=INTEGER`) | high; not executed | `Builtins.SplitArgumentsAsWritten` | `Builtins.SplitArguments` |

`Builtins.Split` uses the corrected argument check. Every other outcome of the
check agrees with the code as written, and `Builtins.SplitArguments` states
that agreement in its contract.
