/** The native functions `len`, `str`, `int`, `type`, `set`, `append` and
    `split` (evaluator/builtins.go). Each takes the evaluated argument list,
    checks its length and the argument types in a fixed order, and returns an
    Error object on a mismatch. */
module Builtins {
  import opened Wrappers
  import opened Decimal
  import Text
  import opened Objects

  /** The singletons the evaluator shares. */
  const NONE: Object := Object.None
  const TRUE: Object := Boolean(true)

  /** The arrays an argument list refers to. */
  function ArgArrays(args: seq<Object>): set<ArrayObject> {
    set i | 0 <= i < |args| && args[i].Array? :: args[i].arr
  }

  /** `len(x)`: the element count of an array, the UTF-8 byte count of a string. */
  function Len(args: seq<Object>): (r: Object)
    reads ArgArrays(args)
    ensures |args| != 1 ==> r == Error(WrongArgumentCount(|args|, "1"))
    ensures |args| == 1 && args[0].Array? ==>
      r.Integer? && (|args[0].arr.elements| <= MAX_INT64 ==> r.value as int == |args[0].arr.elements|)
    ensures |args| == 1 && args[0].String? ==>
      r.Integer? && (Text.Utf8Length(args[0].text) <= MAX_INT64 ==> r.value as int == Text.Utf8Length(args[0].text))
    ensures |args| == 1 && !args[0].Array? && !args[0].String? ==>
      r == Error(UnsupportedArgument("len", args[0].Type()))
  {
    if |args| != 1 then Error(WrongArgumentCount(|args|, "1"))
    else
      match args[0]
      case Array(a) => Integer(Wrap64(|a.elements|))
      case String(s) => Integer(Wrap64(Text.Utf8Length(s)))
      case _ => Error(UnsupportedArgument("len", args[0].Type()))
  }

  /** `str(x)`: a string is returned as it is; anything else becomes the string
      of its rendering. */
  function Str(args: seq<Object>, render: Object -> string): (r: Object)
    ensures |args| != 1 ==> r == Error(WrongArgumentCount(|args|, "1"))
    ensures |args| == 1 ==> r.String?
    ensures |args| == 1 && args[0].String? ==> r == args[0]
    ensures |args| == 1 && !args[0].String? ==> r.text == args[0].Inspect(render)
  {
    if |args| != 1 then Error(WrongArgumentCount(|args|, "1"))
    else if args[0].Type() == STRING_OBJ then args[0]
    else String(args[0].Inspect(render))
  }

  /** `int(x)`: integers unchanged, strings parsed as base-10 int64, TRUE as 1
      and any other boolean as 0; other types are an error. */
  function Int(args: seq<Object>): (r: Object)
    ensures |args| != 1 ==> r == Error(WrongArgumentCount(|args|, "1"))
    ensures |args| == 1 && args[0].Integer? ==> r == args[0]
    ensures |args| == 1 && args[0].Boolean? ==> r == Integer(if args[0].truth then 1 else 0)
    ensures |args| == 1 && args[0].String? ==>
      match ParseInt64(args[0].text)
      case Parsed(n) => r == Integer(n)
      case _ => r == Error(ConversionFailed)
    ensures |args| == 1 && !args[0].Integer? && !args[0].Boolean? && !args[0].String? ==>
      r == Error(UnsupportedArgument("int", args[0].Type()))
  {
    if |args| != 1 then Error(WrongArgumentCount(|args|, "1"))
    else
      match args[0]
      case Integer(_) => args[0]
      case String(s) =>
        (match ParseInt64(s)
         case Parsed(n) => Integer(n)
         case _ => Error(ConversionFailed))
      case Boolean(_) => if args[0] == TRUE then Integer(1) else Integer(0)
      case _ => Error(UnsupportedArgument("int", args[0].Type()))
  }

  /** `type(x)`: the type tag of x, as a string. */
  function Type(args: seq<Object>): (r: Object)
    ensures |args| != 1 ==> r == Error(WrongArgumentCount(|args|, "1"))
    ensures |args| == 1 ==> r.String? && r.text == args[0].Type()
  {
    if |args| != 1 then Error(WrongArgumentCount(|args|, "1"))
    else String(args[0].Type())
  }

  /** `str` is idempotent: converting its result again changes nothing. */
  lemma StrIdempotent(x: Object, render: Object -> string)
    ensures Str([Str([x], render)], render) == Str([x], render)
  {
  }

  /** `int(str(n))` gives n back for every int64 n. */
  lemma IntOfStrRoundTrip(n: int64, render: Object -> string)
    ensures Int([Str([Integer(n)], render)]) == Integer(n)
  {
  }

  /** `type` tells the variants apart, and `type(type(x))` is "STRING". */
  lemma TypeDistinguishesVariants(a: Object, b: Object)
    ensures Type([a]) == Type([b]) <==> a.Type() == b.Type()
    ensures Type([Type([a])]) == String(STRING_OBJ)
  {
  }

  /** The arrays `set` may write: the first argument's, when the arity is right. */
  function SetTarget(args: seq<Object>): set<ArrayObject> {
    if |args| == 3 && args[0].Array? then {args[0].arr} else {}
  }

  /** `set(a, i, v)`: element i of array a becomes v, in place, so every other
      holder of a sees it. Checked in order: three arguments, an array, an
      integer index, 0 <= i < len(a). On any failure nothing is written. */
  method Set(args: seq<Object>) returns (r: Object)
    modifies SetTarget(args)
    ensures |args| != 3 ==> r == Error(WrongArgumentCount(|args|, "3"))
    ensures |args| == 3 && !args[0].Array? ==> r == Error(InvalidArrayType(args[0].Type()))
    ensures |args| == 3 && args[0].Array? && !args[1].Integer? ==>
      r == Error(InvalidIndexType(args[1].Type())) && unchanged(args[0].arr)
    ensures |args| == 3 && args[0].Array? && args[1].Integer? ==>
      var a, i := args[0].arr, args[1].value as int;
      if 0 <= i < |old(a.elements)| then
        r == NONE && |a.elements| == |old(a.elements)| &&
        a.elements == old(a.elements)[i := args[2]]
      else
        r == Error(IndexOutOfRange(args[1].value)) && unchanged(a)
  {
    if |args| != 3 {
      return Error(WrongArgumentCount(|args|, "3"));
    }
    if args[0].Type() != ARRAY_OBJ {
      return Error(InvalidArrayType(args[0].Type()));
    }
    var arr := args[0].arr;
    if args[1].Type() != INTEGER_OBJ {
      return Error(InvalidIndexType(args[1].Type()));
    }
    var index := args[1].value;
    if index as int >= |arr.elements| || index < 0 {
      return Error(IndexOutOfRange(index));
    }
    arr.elements := arr.elements[index as int := args[2]];
    return NONE;
  }

  /** The arrays `append` may write: the first argument's, when the arity is right. */
  function AppendTarget(args: seq<Object>): set<ArrayObject> {
    if |args| == 2 && args[0].Array? then {args[0].arr} else {}
  }

  /** `append(a, v)`: v is added at the end of array a, in place. Checked in
      order: two arguments, an array. On a failure nothing is written. */
  method Append(args: seq<Object>) returns (r: Object)
    modifies AppendTarget(args)
    ensures |args| != 2 ==> r == Error(WrongArgumentCount(|args|, "2"))
    ensures |args| == 2 && !args[0].Array? ==> r == Error(InvalidArrayType(args[0].Type()))
    ensures |args| == 2 && args[0].Array? ==>
      r == NONE && args[0].arr.elements == old(args[0].arr.elements) + [args[1]]
  {
    if |args| != 2 {
      return Error(WrongArgumentCount(|args|, "2"));
    }
    if args[0].Type() != ARRAY_OBJ {
      return Error(InvalidArrayType(args[0].Type()));
    }
    var elements := args[0].arr.elements;
    elements := elements + [args[1]];
    args[0].arr.elements := elements;
    return NONE;
  }

  /** Argument checking of `split(s)` / `split(s, sep)` as written: one or two
      arguments, then the separator's type, then the string's type. The
      separator error reports the type of the first argument. */
  function SplitArgumentsAsWritten(args: seq<Object>): (r: Result<(string, string), Failure>)
    ensures |args| == 2 && !args[1].String? ==> r == Err(InvalidSeparatorType(args[0].Type()))
  {
    if |args| > 2 || |args| < 1 then Err(WrongArgumentCount(|args|, "1 or 2"))
    else if |args| == 2 && args[1].Type() != STRING_OBJ then Err(InvalidSeparatorType(args[0].Type()))
    else if args[0].Type() != STRING_OBJ then Err(InvalidStringType(args[0].Type()))
    else Ok((args[0].text, if |args| == 2 then args[1].text else " "))
  }

  /** With a string and a non-string separator, the message as written names
      the string's type, never the separator's. */
  lemma SeparatorTypeMisreported(s: string, sep: Object)
    requires !sep.String?
    ensures SplitArgumentsAsWritten([String(s), sep]) == Err(InvalidSeparatorType(STRING_OBJ))
    ensures SplitArgumentsAsWritten([String(s), sep]).error.got != sep.Type()
  {
  }

  /** Argument checking of `split`, with the separator error reporting the
      separator's own type. The separator defaults to a single space. */
  function SplitArguments(args: seq<Object>): (r: Result<(string, string), Failure>)
    ensures (|args| < 1 || |args| > 2) ==> r == Err(WrongArgumentCount(|args|, "1 or 2"))
    ensures |args| == 2 && !args[1].String? ==> r == Err(InvalidSeparatorType(args[1].Type()))
    ensures (|args| == 1 || (|args| == 2 && args[1].String?)) && !args[0].String? ==>
      r == Err(InvalidStringType(args[0].Type()))
    ensures r.Ok? <==> (|args| == 1 || (|args| == 2 && args[1].String?)) && args[0].String?
    ensures r.Ok? ==> r.value == (args[0].text, if |args| == 2 then args[1].text else " ")
    ensures !(|args| == 2 && !args[1].String?) ==> r == SplitArgumentsAsWritten(args)
  {
    if |args| > 2 || |args| < 1 then Err(WrongArgumentCount(|args|, "1 or 2"))
    else if |args| == 2 && args[1].Type() != STRING_OBJ then Err(InvalidSeparatorType(args[1].Type()))
    else if args[0].Type() != STRING_OBJ then Err(InvalidStringType(args[0].Type()))
    else Ok((args[0].text, if |args| == 2 then args[1].text else " "))
  }

  /** The pieces as string objects, in order. */
  function Strings(parts: seq<string>): (objs: seq<Object>)
    ensures |objs| == |parts|
    ensures forall i :: 0 <= i < |parts| ==> objs[i] == String(parts[i])
  {
    seq(|parts|, i requires 0 <= i < |parts| => String(parts[i]))
  }

  /** `split(s, sep)`: a fresh array holding, as strings, the pieces of s
      between the occurrences of sep (a single space by default). */
  method Split(args: seq<Object>) returns (r: Object)
    ensures SplitArguments(args).Err? ==> r == Error(SplitArguments(args).error)
    ensures SplitArguments(args).Ok? ==>
      var (s, sep) := SplitArguments(args).value;
      r.Array? && fresh(r.arr) && r.arr.elements == Strings(Text.Split(s, sep))
    ensures r.Array? ==> forall i :: 0 <= i < |r.arr.elements| ==> r.arr.elements[i].String?
  {
    match SplitArguments(args)
    case Err(f) =>
      return Error(f);
    case Ok((s, sep)) =>
      var arr := new ArrayObject([]);
      var parts := Text.Split(s, sep);
      var i := 0;
      while i < |parts|
        invariant 0 <= i <= |parts|
        invariant arr.elements == Strings(parts[..i])
      {
        arr.elements := arr.elements + [String(parts[i])];
        i := i + 1;
      }
      assert parts[..i] == parts;
      return Array(arr);
  }

  /** With one argument the separator is one space, not any whitespace: a
      string without a space, tabs and newlines included, is one piece. */
  lemma DefaultSeparatorIsOneSpace(s: string)
    ensures SplitArguments([String(s)]) == Ok((s, " "))
    ensures (forall i :: 0 <= i < |s| ==> s[i] != ' ') ==> Text.Split(s, " ") == [s]
  {
    if forall i :: 0 <= i < |s| ==> s[i] != ' ' {
      Text.SplitOnAbsentChar(s, ' ');
    }
  }
}
