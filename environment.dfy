/** Lexical scopes (object/environment.go): a store of bindings plus an
    optional enclosing scope. Lookups walk outward; writes stay local. */
module Environments {
  import opened Wrappers
  import opened Objects

  class Environment {
    var store: map<string, Object>
    var outer: Environment?
    /** This scope and every scope it encloses, out to the outermost one. */
    ghost var Repr: set<Environment>

    /** The chain of enclosing scopes is finite and acyclic. It depends only on
        the `outer` links, so writing a store never disturbs it. */
    ghost predicate Valid()
      reads this`outer, this`Repr, Repr`outer, Repr`Repr
      decreases Repr
    {
      this in Repr &&
      if outer == null then Repr == {this}
      else
        outer in Repr && this !in outer.Repr && Repr == {this} + outer.Repr &&
        outer.Valid()
    }

    /** The binding of `name` seen from this scope: the nearest scope that has one. */
    ghost function Lookup(name: string): Option<Object>
      reads this, Repr
      requires Valid()
      decreases Repr
    {
      if name in store then Some(store[name])
      else if outer != null then outer.Lookup(name)
      else Nothing
    }

    /** NewEnvironment: an empty scope with nothing around it. */
    constructor ()
      ensures Valid() && fresh(this)
      ensures store == map[] && outer == null && Repr == {this}
    {
      store := map[];
      outer := null;
      Repr := {this};
    }

    /** NewEnclosedEnvironment: an empty scope inside `outer`. */
    constructor Enclosed(outer: Environment?)
      requires outer != null ==> outer.Valid()
      ensures Valid()
      ensures store == map[] && this.outer == outer
      ensures Repr == {this} + (if outer != null then outer.Repr else {})
    {
      store := map[];
      this.outer := outer;
      Repr := {this} + (if outer != null then outer.Repr else {});
    }

    /** Get: the local binding if there is one, otherwise whatever the
        enclosing scope answers, otherwise not found. */
    method Get(name: string) returns (r: Option<Object>)
      requires Valid()
      ensures r == Lookup(name)
      ensures name in store ==> r == Some(store[name])
      ensures name !in store && outer != null ==> r == outer.Lookup(name)
      ensures name !in store && outer == null ==> r == Nothing
      decreases Repr
    {
      if name in store {
        r := Some(store[name]);
      } else if outer != null {
        r := outer.Get(name);
      } else {
        r := Nothing;
      }
    }

    /** Set: binds `name` in this scope only and returns the value. A binding
        of the same name further out is shadowed, not changed. */
    method Set(name: string, val: Object) returns (r: Object)
      requires Valid()
      modifies this`store
      ensures Valid() && outer == old(outer) && Repr == old(Repr)
      ensures r == val
      ensures store == old(store)[name := val]
      ensures Lookup(name) == Some(val)
      ensures forall n :: n != name ==> Lookup(n) == old(Lookup(n))
      ensures outer != null ==> forall n :: outer.Lookup(n) == old(outer.Lookup(n))
    {
      store := store[name := val];
      r := val;
    }
  }

  /** A name is not found exactly when no scope of the chain binds it. */
  lemma {:induction false} NotFoundMeansUnbound(e: Environment, name: string)
    requires e.Valid()
    ensures e.Lookup(name) == Nothing <==> forall s :: s in e.Repr ==> name !in s.store
    decreases e.Repr
  {
    if name !in e.store && e.outer != null {
      NotFoundMeansUnbound(e.outer, name);
    }
  }

  /** A binding that is found belongs to some scope of the chain. */
  lemma {:induction false} FoundComesFromChain(e: Environment, name: string)
    requires e.Valid()
    requires e.Lookup(name).Some?
    ensures exists s :: s in e.Repr && name in s.store && s.store[name] == e.Lookup(name).value
    decreases e.Repr
  {
    if name !in e.store {
      FoundComesFromChain(e.outer, name);
    }
  }
}
