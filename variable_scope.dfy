/**
 * `VariableScope`: a table from variable names to their declared type and
 * initialisation flag, chained to an enclosing scope for lookups, and
 * sharing with every other scope the list of type aliases whose `isUsed`
 * flag a declaration sets.
 */
module VariableScopes {
  import opened Wrappers

  /** A type alias declaration with the `isUsed` marker the emitter sets on it. */
  class TypeAlias {
    const name: string
    var isUsed: bool

    constructor(name: string)
      ensures this.name == name && !isUsed
    {
      this.name := name;
      isUsed := false;
    }
  }

  /** Lines 4-8: the declared type and whether the variable has been set. */
  datatype VariableData = VariableData(typeName: string, isInitialized: bool)

  /** The position of the first alias called `name` (`Array.prototype.find`), or -1. */
  function FindAlias(types: seq<TypeAlias>, name: string): (r: int)
    ensures -1 <= r < |types|
    ensures r == -1 <==> forall i :: 0 <= i < |types| ==> types[i].name != name
    ensures r >= 0 ==> types[r].name == name && forall i :: 0 <= i < r ==> types[i].name != name
    decreases |types|
  {
    if types == [] then -1
    else
      var r := FindAlias(types[..|types| - 1], name);
      if r >= 0 then r
      else if types[|types| - 1].name == name then |types| - 1
      else -1
  }

  class VariableScope {
    var data: map<string, VariableData>
    /** The aliases of the emit context, shared by all scopes. */
    const types: seq<TypeAlias>
    const parent: Option<VariableScope>
    /** This scope and its enclosing scopes. */
    ghost const Repr: set<VariableScope>

    /** The enclosing scopes form a finite chain without cycles. */
    ghost predicate Valid()
      reads this, Repr
      decreases Repr
    {
      this in Repr &&
      match parent
      case None => true
      case Some(p) => p in Repr && p.Repr <= Repr && this !in p.Repr && p.Valid()
    }

    /** Lines 15-20: an empty table below an optional enclosing scope. */
    constructor(types: seq<TypeAlias>, parent: Option<VariableScope>)
      requires parent.Some? ==> parent.value.Valid()
      ensures Valid() && data == map[] && this.types == types && this.parent == parent
    {
      data := map[];
      this.types := types;
      this.parent := parent;
      Repr := {this} + if parent.Some? then parent.value.Repr else {};
    }

    /**
     * Lines 43-45: the type this scope records for `name`, else what the
     * enclosing scope finds, else nothing.
     */
    function GetType(name: string): (r: Option<string>)
      requires Valid()
      reads this, Repr
      ensures name in data ==> r == Some(data[name].typeName)
      decreases Repr
    {
      if name in data then Some(data[name].typeName)
      else
        match parent
        case None => None
        case Some(p) => p.GetType(name)
    }

    /** The scopes a lookup visits, innermost first. */
    ghost function Chain(): (r: seq<VariableScope>)
      requires Valid()
      reads this, Repr
      ensures |r| > 0 && r[0] == this
      ensures forall i :: 0 <= i < |r| ==> r[i] in Repr && r[i].Valid()
      decreases Repr
    {
      [this] + match parent
        case None => []
        case Some(p) => p.Chain()
    }

    /**
     * Lines 22-34: a name already in this scope is an error; otherwise it is
     * recorded with its type, not yet initialised, and the first alias
     * named like the type is marked as used. A name of an enclosing scope
     * may be shadowed.
     */
    method Declare(name: string, typeName: string) returns (r: Outcome<string>)
      modifies this, types
      requires Valid()
      ensures Valid()
      ensures r.Fail? <==> name in old(data)
      ensures r.Fail? ==> r.error == "Variable " + name + " is already declared." && data == old(data)
      ensures r.Pass? ==> data == old(data)[name := VariableData(typeName, false)]
      ensures r.Pass? ==> GetType(name) == Some(typeName)
      ensures forall a :: a in types ==>
        a.isUsed == (old(a.isUsed) || (r.Pass? && FindAlias(types, typeName) >= 0 && a == types[FindAlias(types, typeName)]))
    {
      if name in data {
        return Fail("Variable " + name + " is already declared.");
      }
      data := data[name := VariableData(typeName, false)];
      var k := FindAlias(types, typeName);
      if k >= 0 {
        types[k].isUsed := true;
      }
      r := Pass;
    }

    /**
     * Lines 36-41: only this scope is consulted; the type is kept and the
     * variable becomes initialised.
     */
    method Set(name: string) returns (r: Outcome<string>)
      modifies this
      requires Valid()
      ensures Valid()
      ensures r.Fail? <==> name !in old(data)
      ensures r.Fail? ==> r.error == "Variable is not declared." && data == old(data)
      ensures r.Pass? ==> data == old(data)[name := VariableData(old(data)[name].typeName, true)]
    {
      if name !in data {
        return Fail("Variable is not declared.");
      }
      data := data[name := data[name].(isInitialized := true)];
      r := Pass;
    }
  }

  /**
   * A lookup finds a type exactly when some scope of the chain declares the
   * name, and then it is the type of the innermost such scope.
   */
  lemma {:induction false} GetTypeInnermost(s: VariableScope, name: string)
    requires s.Valid()
    ensures s.GetType(name).Some? <==> exists i :: 0 <= i < |s.Chain()| && name in s.Chain()[i].data
    ensures forall i ::
      (0 <= i < |s.Chain()| && name in s.Chain()[i].data && forall j :: 0 <= j < i ==> name !in s.Chain()[j].data) ==>
      s.GetType(name) == Some(s.Chain()[i].data[name].typeName)
    decreases s.Repr
  {
    var chain := s.Chain();
    match s.parent
    case None =>
      assert chain == [s];
    case Some(p) =>
      GetTypeInnermost(p, name);
      var rest := p.Chain();
      assert chain == [s] + rest;
      if name !in s.data {
        assert forall i :: 1 <= i < |chain| ==> chain[i] == rest[i - 1];
        if exists i :: 0 <= i < |chain| && name in chain[i].data {
          var i :| 0 <= i < |chain| && name in chain[i].data;
          assert name in rest[i - 1].data;
        }
        if p.GetType(name).Some? {
          var i :| 0 <= i < |rest| && name in rest[i].data;
          assert name in chain[i + 1].data;
        }
        forall i | 0 <= i < |chain| && name in chain[i].data &&
          (forall j :: 0 <= j < i ==> name !in chain[j].data)
          ensures s.GetType(name) == Some(chain[i].data[name].typeName)
        {
          assert i >= 1 && chain[i] == rest[i - 1];
          forall j | 0 <= j < i - 1
            ensures name !in rest[j].data
          {
            assert rest[j] == chain[j + 1];
          }
        }
      }
  }
}
