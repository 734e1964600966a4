/** Client code showing what callers can conclude from the contracts alone:
    array reference semantics through two bindings, shadowing, and a nested
    scope seeing a binding added to its enclosing scope after it was made. */
module Scenarios {
  import opened Wrappers
  import opened Objects
  import Builtins
  import opened Environments

  /** `let a = [1, 2, 3]; let b = a; set(a, 0, 9)`: b sees 9 at index 0;
      `append(b, 4)`: a sees four elements; `set(a, 99, 0)` is an error and
      writes nothing. */
  method ArrayAliasing() {
    var arr := new ArrayObject([Integer(1), Integer(2), Integer(3)]);
    var env := new Environment();
    var _ := env.Set("a", Array(arr));
    var _ := env.Set("b", Array(arr));

    var r := Builtins.Set([Array(arr), Integer(0), Integer(9)]);
    assert r == Builtins.NONE;
    var b := env.Get("b");
    assert b == Some(Array(arr));
    assert b.value.arr.elements == [Integer(9), Integer(2), Integer(3)];

    r := Builtins.Append([b.value, Integer(4)]);
    var a := env.Get("a");
    assert a.value.arr.elements == [Integer(9), Integer(2), Integer(3), Integer(4)];

    r := Builtins.Set([Array(arr), Integer(99), Integer(0)]);
    assert r == Error(IndexOutOfRange(99));
    assert arr.elements == [Integer(9), Integer(2), Integer(3), Integer(4)];
  }

  /** `let x = 5; let f = fn() { let x = 10; x }; f(); x;`: inside the call x
      is 10, outside it is still 5. */
  method Shadowing() {
    var global := new Environment();
    var _ := global.Set("x", Integer(5));
    var local := new Environment.Enclosed(global);
    var _ := local.Set("x", Integer(10));
    var inner := local.Get("x");
    var outer := global.Get("x");
    assert inner == Some(Integer(10));
    assert outer == Some(Integer(5));
  }

  /** A scope made before a binding is added further out still finds that
      binding: scopes are shared, not copied. */
  method LiveEnclosingScope() {
    var global := new Environment();
    var local := new Environment.Enclosed(global);
    var before := local.Get("y");
    assert before == Nothing;
    var _ := global.Set("y", Boolean(true));
    var after := local.Get("y");
    assert after == Some(Boolean(true));
  }
}
