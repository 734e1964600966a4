/** The runtime objects the builtins work on, with their type tags and
    renderings (object/object.go). */
module Objects {
  import opened Decimal

  /** A type tag is its name, as in the source. */
  type ObjectType = string

  const INTEGER_OBJ: ObjectType := "INTEGER"
  const BOOLEAN_OBJ: ObjectType := "BOOLEAN"
  const NULL_OBJ: ObjectType := "NULL"
  // The tags of the remaining variants are defined outside object/object.go;
  // they are modelled as further distinct constants.
  const STRING_OBJ: ObjectType := "STRING"
  const ARRAY_OBJ: ObjectType := "ARRAY"
  const NONE_OBJ: ObjectType := "NONE"
  const ERROR_OBJ: ObjectType := "ERROR"

  /** Why a builtin failed: the format and arguments of its error message. */
  datatype Failure =
    | WrongArgumentCount(count: nat, want: string)
    | UnsupportedArgument(builtin: string, got: ObjectType)
    | ConversionFailed
    | InvalidArrayType(got: ObjectType)
    | InvalidIndexType(got: ObjectType)
    | IndexOutOfRange(index: int64)
    | InvalidSeparatorType(got: ObjectType)
    | InvalidStringType(got: ObjectType)

  /** A runtime value. Arrays are references: every Object holding the same
      ArrayObject sees the same, mutable, elements. */
  datatype Object =
    | Integer(value: int64)
    | Boolean(truth: bool)
    | Null
    | None
    | String(text: string)
    | Error(failure: Failure)
    | Array(arr: ArrayObject)
  {
    /** The variant's type tag. */
    function Type(): (t: ObjectType)
      ensures t == INTEGER_OBJ <==> Integer?
      ensures t == BOOLEAN_OBJ <==> Boolean?
      ensures t == NULL_OBJ <==> Null?
      ensures t == STRING_OBJ <==> String?
      ensures t == ARRAY_OBJ <==> Array?
      ensures t == NONE_OBJ <==> None?
      ensures t == ERROR_OBJ <==> Error?
    {
      match this
      case Integer(_) => INTEGER_OBJ
      case Boolean(_) => BOOLEAN_OBJ
      case Null => NULL_OBJ
      case None => NONE_OBJ
      case String(_) => STRING_OBJ
      case Error(_) => ERROR_OBJ
      case Array(_) => ARRAY_OBJ
    }

    /** The human-readable rendering. Integers, booleans and null are rendered
        here; the rendering of the other variants is defined outside this model
        and is supplied as `render`. */
    function Inspect(render: Object -> string): (r: string)
      ensures Null? ==> r == "null"
      ensures Boolean? ==> r == if truth then "true" else "false"
      ensures Integer? ==> r == Render(value as int)
      ensures Integer? ==> ParseInt64(r) == Parsed(value)
      ensures Integer? ==> |r| >= 1 && (r[0] == '-' <==> value < 0)
      ensures Integer? ==> (r == "0" <==> value == 0)
      ensures Integer? && value != 0 ==> r[if value < 0 then 1 else 0] != '0'
    {
      match this
      case Integer(n) =>
        RenderShape(n as int);
        ParseRender(n);
        Render(n as int)
      case Boolean(b) => if b then "true" else "false"
      case Null => "null"
      case _ => render(this)
    }
  }

  /** An array object: a mutable sequence of elements. */
  class ArrayObject {
    var elements: seq<Object>

    constructor (elements: seq<Object>)
      ensures this.elements == elements
    {
      this.elements := elements;
    }
  }

  /** Two objects have the same type tag exactly when they are the same variant. */
  lemma TypeIdentifiesVariant(a: Object, b: Object)
    ensures a.Type() == b.Type() <==>
      (a.Integer? && b.Integer?) || (a.Boolean? && b.Boolean?) || (a.Null? && b.Null?) ||
      (a.None? && b.None?) || (a.String? && b.String?) || (a.Error? && b.Error?) ||
      (a.Array? && b.Array?)
  {
  }

  /** The tags are pairwise distinct. */
  lemma TagsDistinct()
    ensures |{INTEGER_OBJ, BOOLEAN_OBJ, NULL_OBJ, STRING_OBJ, ARRAY_OBJ, NONE_OBJ, ERROR_OBJ}| == 7
  {
  }
}
