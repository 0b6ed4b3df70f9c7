/** Environments (src/environment.c): a chain of scopes, each with a table
    from names to Objects and a link to the enclosing environment. The
    chain is read as a sequence of scopes, the innermost first. A scope's
    table is the map that its hash table (`Hash.HashTable`) implements:
    inserting a name that is already bound overwrites that binding, so
    the table holds one Object per name. */
module Environments {
  import opened Wrappers
  import opened Objects

  type Scope = map<string, Object>

  /** The binding environment_retrieve finds: the first scope, innermost
      first, that binds the name. */
  function Lookup(scopes: seq<Scope>, name: string): Option<Object>
  {
    if |scopes| == 0 then None
    else if name in scopes[0] then Some(scopes[0][name])
    else Lookup(scopes[1..], name)
  }

  /** environment_insert on the innermost scope: the name is bound to a
      copy of the Object, whether or not it was bound before. */
  function Bind(scopes: seq<Scope>, name: string, o: Object): (r: seq<Scope>)
    requires |scopes| > 0
    ensures |r| == |scopes| && r[1..] == scopes[1..]
    ensures r[0] == scopes[0][name := Copy(o)]
  {
    scopes[0 := scopes[0][name := Copy(o)]]
  }

  /** Retrieval fails exactly when no scope binds the name. */
  lemma {:induction false} LookupFailsIffUnbound(scopes: seq<Scope>, name: string)
    ensures Lookup(scopes, name).None? <==> forall i :: 0 <= i < |scopes| ==> name !in scopes[i]
  {
    if |scopes| > 0 {
      LookupFailsIffUnbound(scopes[1..], name);
      if name !in scopes[0] && Lookup(scopes, name).None? {
        forall i | 0 <= i < |scopes|
          ensures name !in scopes[i]
        {
          if i > 0 { assert scopes[i] == scopes[1..][i - 1]; }
        }
      }
    }
  }

  /** Retrieval finds the innermost binding: the result is the binding in
      scope i exactly when scope i binds the name and no scope inside it
      does, so inner bindings shadow outer ones. */
  lemma {:induction false} LookupInnermost(scopes: seq<Scope>, name: string, i: nat)
    requires i < |scopes| && name in scopes[i]
    requires forall j :: 0 <= j < i ==> name !in scopes[j]
    ensures Lookup(scopes, name) == Some(scopes[i][name])
  {
    if i > 0 {
      assert forall j :: 0 <= j < i - 1 ==> scopes[1..][j] == scopes[j + 1];
      LookupInnermost(scopes[1..], name, i - 1);
    }
  }

  /** After an insert the name retrieves a copy of the inserted Object,
      with the returned mark clear, and every other name retrieves what
      it did before. */
  lemma InsertThenRetrieve(scopes: seq<Scope>, name: string, other: string, o: Object)
    requires |scopes| > 0
    ensures Lookup(Bind(scopes, name, o), name) == Some(Copy(o))
    ensures Lookup(Bind(scopes, name, o), name).value.returned == false
    ensures other != name ==> Lookup(Bind(scopes, name, o), other) == Lookup(scopes, other)
  {
  }

  /** A new innermost scope binds nothing, so it changes no retrieval. */
  lemma PushHidesNothing(scopes: seq<Scope>, name: string)
    ensures Lookup([map[]] + scopes, name) == Lookup(scopes, name)
  {
    assert ([map[]] + scopes)[1..] == scopes;
  }

  /** Every stored Object is unmarked: inserts store copies. */
  ghost predicate Unmarked(scopes: seq<Scope>)
  {
    forall i, name :: 0 <= i < |scopes| && name in scopes[i] ==> !scopes[i][name].returned
  }

  /** Inserting keeps every stored Object unmarked, and then whatever a
      retrieval finds is unmarked. */
  lemma {:induction false} StoredObjectsUnmarked(scopes: seq<Scope>, name: string, o: Object, key: string)
    requires |scopes| > 0 && Unmarked(scopes)
    ensures Unmarked(Bind(scopes, name, o))
    ensures Lookup(scopes, key).Some? ==> !Lookup(scopes, key).value.returned
    decreases |scopes|
  {
    if name in scopes[0] && key == name {
    } else if key !in scopes[0] && |scopes| > 1 {
      assert Unmarked(scopes[1..]) by {
        forall i, n | 0 <= i < |scopes[1..]| && n in scopes[1..][i]
          ensures !scopes[1..][i][n].returned
        {
          assert scopes[1..][i] == scopes[i + 1];
        }
      }
      StoredObjectsUnmarked(scopes[1..], name, o, key);
    }
  }

  class Environment {
    var table: Scope
    const next: Environment?
    ghost const Repr: set<Environment>

    /** The chain from this environment outward is finite and acyclic. */
    ghost predicate Valid()
      decreases Repr
    {
      this in Repr &&
      (next == null ==> Repr == {this}) &&
      (next != null ==> next in Repr && next.Repr <= Repr && this !in next.Repr && next.Valid())
    }

    /** The scopes of the chain, this one first. */
    ghost function Scopes(): (s: seq<Scope>)
      requires Valid()
      reads Repr
      ensures |s| > 0 && s[0] == table
      decreases Repr
    {
      [table] + (if next == null then [] else next.Scopes())
    }

    /** environment_push: a new environment with an empty table whose
        enclosing environment is the given one. */
    constructor Push(parent: Environment?)
      requires parent != null ==> parent.Valid()
      ensures Valid() && next == parent && table == map[]
      ensures Scopes() == [map[]] + (if parent == null then [] else parent.Scopes())
      ensures fresh(Repr - (if parent == null then {} else parent.Repr))
    {
      table := map[];
      next := parent;
      Repr := {this} + (if parent == null then {} else parent.Repr);
    }

    /** environment_insert: look the name up in this table only; copy the
        Object over the existing binding, or bind a new copy. Enclosing
        environments are not touched. */
    method Insert(name: string, source: ObjectCell)
      requires Valid()
      modifies this
      ensures table == old(table)[name := Copy(source.Get())]
      ensures Scopes() == Bind(old(Scopes()), name, source.Get())
    {
      // An existing binding is overwritten in place and a missing one is
      // added; either way the table maps the name to the copy.
      table := table[name := Copy(source.Get())];
    }

    /** environment_retrieve_aux: this table only. */
    method RetrieveHere(name: string, destination: ObjectCell) returns (found: bool)
      modifies destination
      ensures found <==> name in table
      ensures found ==> destination.Get() == Copy(table[name])
      ensures !found ==> destination.Get() == old(destination.Get())
    {
      found := name in table;
      if found {
        destination.value := Copy(table[name]).value;
        destination.returned := false;
      }
    }

    /** environment_retrieve: walk outward from this environment and copy
        the first binding found into the destination. */
    method Retrieve(name: string, destination: ObjectCell) returns (found: bool)
      requires Valid()
      modifies destination
      ensures found <==> Lookup(Scopes(), name).Some?
      ensures found ==> destination.Get() == Copy(Lookup(Scopes(), name).value)
      ensures !found ==> destination.Get() == old(destination.Get())
    {
      var e := this;
      while e != null
        invariant e != null ==> e.Valid() && e.Repr <= Repr
        invariant Lookup(Scopes(), name) == if e == null then None else Lookup(e.Scopes(), name)
        invariant destination.Get() == old(destination.Get())
        decreases if e == null then {} else e.Repr
      {
        found := e.RetrieveHere(name, destination);
        if found {
          return;
        }
        assert e.Scopes()[1..] == if e.next == null then [] else e.next.Scopes();
        e := e.next;
      }
      found := false;
    }
  }
}
