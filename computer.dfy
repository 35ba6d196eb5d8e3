/**
  A computer: five components in a fixed kind order and a `working` flag.
  Checking its components wears them in order and stops at the first one found
  broken; repairing it repairs every broken component and sets the flag again.
 */
module Computers {
  import opened Wrappers
  import opened Catalog
  import opened Components

  /** A computer as a value: its number, its components' states in kind order, and its flag. */
  datatype MachineState = MachineState(id: nat, parts: seq<ComponentState>, working: bool)

  /** The draws of one cycle over a computer: the catalog entry each component would take on breaking. */
  predicate ValidPicks(picks: seq<nat>)
  {
    |picks| == 5 && forall j :: 0 <= j < 5 ==> picks[j] < 3
  }

  /** The lifespans drawn for a new computer's components, each between 5 and 10. */
  predicate NewLifespans(ls: seq<int>)
  {
    |ls| == 5 && forall j :: 0 <= j < 5 ==> 5 <= ls[j] <= 10
  }

  /** The lifespans drawn for a corrective repair, each between 5 and 15. */
  predicate RepairLifespans(ls: seq<int>)
  {
    |ls| == 5 && forall j :: 0 <= j < 5 ==> 5 <= ls[j] <= 15
  }

  /** Whether a component is broken once worn: it already was, or it had at most one cycle left. */
  predicate EndsCheck(s: ComponentState)
  {
    s.status == Broken || s.lifespan <= 1
  }

  /** The first component from j on that is broken once worn, or 5 when there is none. */
  function FirstStop(ss: seq<ComponentState>, j: nat): (k: nat)
    requires |ss| == 5 && j <= 5
    ensures j <= k <= 5
    ensures k < 5 ==> EndsCheck(ss[k])
    ensures forall a :: j <= a < k ==> !EndsCheck(ss[a])
    decreases 5 - j
  {
    if j == 5 then 5 else if EndsCheck(ss[j]) then j else FirstStop(ss, j + 1)
  }

  /**
    A check pass from component j on: wear component j; if it is broken, the
    pass ends there; otherwise it goes on with the next component. The flag
    says whether the pass ended at a broken component.
   */
  function CheckFrom(ss: seq<ComponentState>, picks: seq<nat>, j: nat): (r: (seq<ComponentState>, bool))
    requires |ss| == 5 && ValidPicks(picks) && j <= 5
    ensures |r.0| == 5
    decreases 5 - j
  {
    if j == 5 then (ss, false)
    else
      var t := Degraded(ss[j], Kinds[j], picks[j]);
      if t.status == Broken then (ss[j := t], true) else CheckFrom(ss[j := t], picks, j + 1)
  }

  /** One pass of checking a computer's components, from the first one. */
  function Checked(ss: seq<ComponentState>, picks: seq<nat>): (r: (seq<ComponentState>, bool))
    requires |ss| == 5 && ValidPicks(picks)
    ensures |r.0| == 5
  {
    CheckFrom(ss, picks, 0)
  }

  /** A pass resumed at j, with the components before j worn and not broken, ends as the pass over o does. */
  lemma {:induction false} CheckFromMeaning(o: seq<ComponentState>, ss: seq<ComponentState>, picks: seq<nat>, j: nat)
    requires |o| == 5 && |ss| == 5 && ValidPicks(picks) && j <= 5
    requires forall a :: 0 <= a < j ==> ss[a] == Degraded(o[a], Kinds[a], picks[a]) && !EndsCheck(o[a])
    requires forall a :: j <= a < 5 ==> ss[a] == o[a]
    ensures var r := CheckFrom(ss, picks, j); var k := FirstStop(o, j);
      && (forall a :: 0 <= a < 5 ==> r.0[a] == if a <= k then Degraded(o[a], Kinds[a], picks[a]) else o[a])
      && (r.1 <==> k < 5)
    decreases 5 - j
  {
    if j < 5 && !EndsCheck(o[j]) {
      CheckFromMeaning(o, ss[j := Degraded(ss[j], Kinds[j], picks[j])], picks, j + 1);
    }
  }

  /**
    What a check pass does, with k the first component broken once worn: the
    components before k were working, still work and lost exactly one cycle;
    those up to k are worn; those after k are untouched; and the pass stops
    the computer iff some component is broken afterwards.
   */
  lemma CheckedMeaning(ss: seq<ComponentState>, picks: seq<nat>)
    requires |ss| == 5 && ValidPicks(picks)
    ensures var r := Checked(ss, picks); var k := FirstStop(ss, 0);
      && (forall j :: 0 <= j < k ==>
            ss[j].status == Working && r.0[j].status == Working && r.0[j].lifespan == ss[j].lifespan - 1)
      && (forall j :: 0 <= j <= k && j < 5 ==> r.0[j] == Degraded(ss[j], Kinds[j], picks[j]))
      && (forall j :: k < j < 5 ==> r.0[j] == ss[j])
      && (r.1 <==> exists j :: 0 <= j < 5 && r.0[j].status == Broken)
  {
    var r := Checked(ss, picks);
    var k := FirstStop(ss, 0);
    CheckFromMeaning(ss, ss, picks, 0);
    if k < 5 {
      assert r.0[k].status == Broken;
    }
  }

  /** Corrective repair of a computer's components: the broken ones get a fresh lifespan, the others stay. */
  function RepairedAll(ss: seq<ComponentState>, ls: seq<int>): (r: seq<ComponentState>)
    requires |ss| == 5 && RepairLifespans(ls)
    ensures |r| == 5
    ensures forall j :: 0 <= j < 5 ==> r[j].status == Working
    ensures forall j :: 0 <= j < 5 && ss[j].status == Working ==> r[j] == ss[j]
    ensures forall j :: 0 <= j < 5 && ss[j].status == Broken ==> r[j] == Repaired(ss[j], ls[j])
  {
    seq(5, j requires 0 <= j < 5 => if ss[j].status == Broken then Repaired(ss[j], ls[j]) else ss[j])
  }

  /** What a computer keeps true: its flag set means all five components work, and each component is sound. */
  predicate Healthy(ss: seq<ComponentState>, working: bool)
  {
    && |ss| == 5
    && (working ==> forall j :: 0 <= j < 5 ==> ss[j].status == Working)
    && (forall j :: 0 <= j < 5 ==> Sound(ss[j], Kinds[j]))
  }

  /** A check pass keeps a computer healthy: if it does not stop at a broken component, none is broken. */
  lemma CheckedKeepsHealthy(ss: seq<ComponentState>, working: bool, picks: seq<nat>)
    requires ValidPicks(picks) && Healthy(ss, working)
    ensures var r := Checked(ss, picks); Healthy(r.0, if r.1 then false else working)
  {
    var r := Checked(ss, picks);
    var k := FirstStop(ss, 0);
    CheckedMeaning(ss, picks);
    forall j | 0 <= j < 5
      ensures Sound(r.0[j], Kinds[j])
    {
      if j <= k {
        DegradedKeepsSound(ss[j], Kinds[j], picks[j]);
      }
    }
  }

  /** Repair keeps a computer healthy and leaves it working. */
  lemma RepairedAllKeepsHealthy(ss: seq<ComponentState>, working: bool, ls: seq<int>)
    requires RepairLifespans(ls) && Healthy(ss, working)
    ensures Healthy(RepairedAll(ss, ls), true)
  {
    var r := RepairedAll(ss, ls);
    forall j | 0 <= j < 5
      ensures Sound(r[j], Kinds[j])
    {
      if ss[j].status == Broken {
        assert r[j] == Repaired(ss[j], ls[j]);
      }
    }
  }

  /** Repairing a computer none of whose components is broken changes none of them. */
  lemma RepairWithoutBrokenChangesNothing(ss: seq<ComponentState>, ls: seq<int>)
    requires |ss| == 5 && RepairLifespans(ls)
    requires forall j :: 0 <= j < 5 ==> ss[j].status == Working
    ensures RepairedAll(ss, ls) == ss
  {
  }

  class Computer {
    const id: nat
    var parts: seq<ComponentState>
    var working: bool

    /** The computer as a value. */
    function View(): (m: MachineState)
      reads this
      ensures m.id == id && m.parts == parts && m.working == working
    {
      MachineState(id, parts, working)
    }

    /**
      A new computer: its five components working, without fault or warning,
      with the drawn lifespans (each between 5 and 10), and the computer
      itself working.
     */
    constructor (id: nat, ls: seq<int>)
      requires NewLifespans(ls)
      ensures this.id == id && working && |parts| == 5
      ensures forall j :: 0 <= j < 5 ==> parts[j] == ComponentState(ls[j], Working, None, false)
      ensures Healthy(parts, working)
    {
      this.id := id;
      parts := seq(5, j requires 0 <= j < 5 => ComponentState(ls[j], Working, None, false));
      working := true;
    }

    /**
      One check pass: wear the components in order and stop at the first one
      found broken, marking the computer as not working.
     */
    method CheckComponents(picks: seq<nat>)
      requires |parts| == 5 && ValidPicks(picks)
      modifies this
      ensures var r := Checked(old(parts), picks);
        && parts == r.0
        && working == (if r.1 then false else old(working))
    {
      var j := 0;
      while j < 5
        invariant 0 <= j <= 5 && |parts| == 5
        invariant working == old(working)
        invariant CheckFrom(parts, picks, j) == Checked(old(parts), picks)
      {
        parts := parts[j := Degraded(parts[j], Kinds[j], picks[j])];
        if parts[j].status == Broken {
          working := false;
          return;
        }
        j := j + 1;
      }
    }

    /** Repair every broken component (with the drawn lifespans) and mark the computer working. */
    method Repair(ls: seq<int>)
      requires |parts| == 5 && RepairLifespans(ls)
      modifies this
      ensures parts == RepairedAll(old(parts), ls)
      ensures working
    {
      ghost var before := parts;
      var j := 0;
      while j < 5
        invariant 0 <= j <= 5 && |parts| == 5
        invariant forall i :: 0 <= i < j ==> parts[i] == RepairedAll(before, ls)[i]
        invariant forall i :: j <= i < 5 ==> parts[i] == before[i]
      {
        if parts[j].status == Broken {
          parts := parts[j := Repaired(parts[j], ls[j])];
        }
        j := j + 1;
      }
      working := true;
    }
  }
}
