/**
  Maintenance of the environment's computers: finding a component by its
  identifier, preventive maintenance of one component (a lifespan boost) and
  corrective maintenance of a computer (repair of its broken components).
  The catalog lookups the maintenance staff use (a fault's cost and remedy, the
  draw of a fault for a component) are `Catalog.RepairCost` and
  `Catalog.ProblemDetails`.
 */
module Maintenance {
  import opened Wrappers
  import opened Catalog
  import opened Components
  import opened Computers
  import opened Environments

  /**
    The value a component's identifier is compared with. The search compares
    with `==`, and a component's identifier is a str: it can only equal a str,
    never an int.
   */
  datatype IdKey = IntKey(n: int) | StrKey(s: string)

  /** Whether the identifier `id` equals the key. */
  predicate IdIs(id: string, key: IdKey)
  {
    key.StrKey? && key.s == id
  }

  /** Whether component j of computer i carries the identifier `key`. */
  predicate Matches(ms: seq<MachineState>, key: IdKey, i: nat, j: nat)
    requires i < |ms| && j < 5
  {
    IdIs(ComponentId(ms[i].id, Kinds[j]), key)
  }

  /** Position (a, b) comes before position (i, j) in the search order: computer by computer, then component by component. */
  predicate Before(a: nat, b: nat, i: nat, j: nat)
  {
    a < i || (a == i && b < j)
  }

  /** The search from computer i, component j on: the first position whose component carries `key`. */
  function LocateFrom(ms: seq<MachineState>, key: IdKey, i: nat, j: nat): (r: Option<(nat, nat)>)
    requires i <= |ms| && j <= 5
    ensures r.Some? ==> r.value.0 < |ms| && r.value.1 < 5
    decreases |ms| - i, 5 - j
  {
    if i == |ms| then None
    else if j == 5 then LocateFrom(ms, key, i + 1, 0)
    else if Matches(ms, key, i, j) then Some((i, j))
    else LocateFrom(ms, key, i, j + 1)
  }

  /** The search over every computer's components, in list order: the position of the first match, if any. */
  function Locate(ms: seq<MachineState>, key: IdKey): (r: Option<(nat, nat)>)
    ensures r.Some? ==> r.value.0 < |ms| && r.value.1 < 5
  {
    LocateFrom(ms, key, 0, 0)
  }

  /** A search from (i, j) that finds a position finds a match at or after (i, j), with no match between (i, j) and it. */
  lemma {:induction false} LocateFromFound(ms: seq<MachineState>, key: IdKey, i: nat, j: nat)
    requires i <= |ms| && j <= 5 && LocateFrom(ms, key, i, j).Some?
    ensures var (a, b) := LocateFrom(ms, key, i, j).value;
      && a < |ms| && b < 5 && !Before(a, b, i, j) && Matches(ms, key, a, b)
      && forall x, y :: 0 <= x < |ms| && 0 <= y < 5 && !Before(x, y, i, j) && Before(x, y, a, b) ==>
           !Matches(ms, key, x, y)
    decreases |ms| - i, 5 - j
  {
    if j == 5 {
      LocateFromFound(ms, key, i + 1, 0);
    } else if !Matches(ms, key, i, j) {
      LocateFromFound(ms, key, i, j + 1);
    }
  }

  /** A search from (i, j) that finds nothing means no component from (i, j) on carries the key. */
  lemma {:induction false} LocateFromNone(ms: seq<MachineState>, key: IdKey, i: nat, j: nat)
    requires i <= |ms| && j <= 5 && LocateFrom(ms, key, i, j).None?
    ensures forall x, y :: 0 <= x < |ms| && 0 <= y < 5 && !Before(x, y, i, j) ==> !Matches(ms, key, x, y)
    decreases |ms| - i, 5 - j
  {
    if i < |ms| {
      if j == 5 {
        LocateFromNone(ms, key, i + 1, 0);
      } else {
        LocateFromNone(ms, key, i, j + 1);
      }
    }
  }

  /**
    The search finds the first component, in list order, that carries the
    identifier, and finds nothing iff no component carries it.
   */
  lemma LocateMeaning(ms: seq<MachineState>, key: IdKey)
    ensures var r := Locate(ms, key);
      && (r.Some? ==> var (a, b) := r.value;
            && a < |ms| && b < 5 && Matches(ms, key, a, b)
            && forall x, y :: 0 <= x < |ms| && 0 <= y < 5 && Before(x, y, a, b) ==> !Matches(ms, key, x, y))
      && (r.None? <==> forall x, y :: 0 <= x < |ms| && 0 <= y < 5 ==> !Matches(ms, key, x, y))
  {
    if Locate(ms, key).Some? {
      LocateFromFound(ms, key, 0, 0);
    } else {
      LocateFromNone(ms, key, 0, 0);
    }
    assert forall x, y :: !Before(x, y, 0, 0);
  }

  /** When the computers carry distinct numbers, the component found is the only one that carries the identifier. */
  lemma LocateOnlyMatch(ms: seq<MachineState>, key: IdKey, x: nat, y: nat)
    requires forall a, b :: 0 <= a < b < |ms| ==> ms[a].id != ms[b].id
    requires Locate(ms, key).Some?
    requires x < |ms| && y < 5 && Matches(ms, key, x, y)
    ensures Locate(ms, key) == Some((x, y))
  {
    LocateMeaning(ms, key);
    var (a, b) := Locate(ms, key).value;
    ComponentIdsUnique(ms[x].id, Kinds[y], ms[a].id, Kinds[b]);
    assert x == a;
    assert y == b;
  }

  /** No component identifier equals an integer: a search by an int finds nothing. */
  lemma IntKeyNeverFound(ms: seq<MachineState>, n: int)
    ensures Locate(ms, IntKey(n)) == None
  {
    LocateMeaning(ms, IntKey(n));
  }

  /** When the computers carry distinct numbers, searching by a component's identifier finds that component. */
  lemma IdFindsItsComponent(ms: seq<MachineState>, i: nat, j: nat)
    requires forall a, b :: 0 <= a < b < |ms| ==> ms[a].id != ms[b].id
    requires i < |ms| && j < 5
    ensures Locate(ms, StrKey(ComponentId(ms[i].id, Kinds[j]))) == Some((i, j))
  {
    var key := StrKey(ComponentId(ms[i].id, Kinds[j]));
    LocateMeaning(ms, key);
    assert Matches(ms, key, i, j);
    LocateOnlyMatch(ms, key, i, j);
  }

  /** Preventive maintenance of component j of a computer: its lifespan boosted, working again, warning cleared. */
  function Maintained(m: MachineState, j: nat, boost: int): (r: MachineState)
    requires j < |m.parts| && 10 <= boost <= 20
    ensures r.id == m.id && r.working == m.working && |r.parts| == |m.parts|
    ensures r.parts[j] == Boosted(m.parts[j], boost)
    ensures forall a :: 0 <= a < |m.parts| && a != j ==> r.parts[a] == m.parts[a]
  {
    m.(parts := m.parts[j := Boosted(m.parts[j], boost)])
  }

  /** Preventive maintenance keeps a computer healthy: it never breaks a component and leaves the flag alone. */
  lemma MaintainedKeepsHealthy(m: MachineState, j: nat, boost: int)
    requires Healthy(m.parts, m.working) && j < 5 && 10 <= boost <= 20
    ensures Healthy(Maintained(m, j, boost).parts, Maintained(m, j, boost).working)
  {
    var r := Maintained(m, j, boost);
    assert r.parts[j] == Boosted(m.parts[j], boost);
    assert Sound(r.parts[j], Kinds[j]);
  }

  /** Look for the component carrying `key`: its computer's position and its own, or None. */
  method FindComponentById(env: Environment, key: IdKey) returns (r: Option<(nat, nat)>)
    requires env.Valid()
    ensures r == Locate(env.Views(), key)
  {
    ghost var vs := env.Views();
    var i := 0;
    while i < |env.computers|
      invariant 0 <= i <= |env.computers|
      invariant LocateFrom(vs, key, i, 0) == Locate(vs, key)
    {
      var c := env.computers[i];
      var j := 0;
      while j < 5
        invariant 0 <= j <= 5
        invariant LocateFrom(vs, key, i, j) == Locate(vs, key)
      {
        if IdIs(ComponentId(c.id, Kinds[j]), key) {
          return Some((i, j));
        }
        j := j + 1;
      }
      i := i + 1;
    }
    return None;
  }

  /** Boost component j of the computer at position i: that computer changes as `Maintained` says, the others not at all. */
  method BoostAt(env: Environment, i: nat, j: nat, boost: int)
    requires env.Valid() && i < |env.computers| && j < 5 && 10 <= boost <= 20
    modifies env.computers[i]
    ensures env.Valid()
    ensures env.Views() == old(env.Views())[i := Maintained(old(env.Views())[i], j, boost)]
  {
    var c := env.computers[i];
    assert Healthy(c.parts, c.working);
    MaintainedKeepsHealthy(c.View(), j, boost);
    c.parts := c.parts[j := Boosted(c.parts[j], boost)];
  }

  /**
    Preventive maintenance of the component carrying `key`, with the drawn
    boost: an unknown identifier changes nothing and reports false; otherwise
    the first component carrying it is boosted and the result is true. The
    computer's flag is left alone, and a fault the component carries stays.
   */
  method PreventiveMaintenance(env: Environment, key: IdKey, boost: int) returns (done: bool)
    requires env.Valid() && 10 <= boost <= 20
    modifies env.computers
    ensures env.Valid()
    ensures var r := Locate(old(env.Views()), key);
      && (done <==> r.Some?)
      && (r.None? ==> env.Views() == old(env.Views()))
      && (r.Some? ==> var (i, j) := r.value;
            env.Views() == old(env.Views())[i := Maintained(old(env.Views())[i], j, boost)])
  {
    var r := FindComponentById(env, key);
    if r.Some? {
      var (i, j) := r.value;
      BoostAt(env, i, j, boost);
      done := true;
    } else {
      done := false;
    }
  }

  /** Corrective maintenance of a computer: its broken components repaired with the drawn lifespans, the computer working. */
  method CorrectiveMaintenance(c: Computer, ls: seq<int>)
    requires |c.parts| == 5 && RepairLifespans(ls)
    modifies c
    ensures c.parts == RepairedAll(old(c.parts), ls) && c.working
  {
    c.Repair(ls);
  }
}
