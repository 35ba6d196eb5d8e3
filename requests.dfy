/**
  What the simulator's requests do to the environment, without the web layer:
  repairing the computer at a position, and adding a new computer numbered
  after the ones present.
 */
module Requests {
  import opened Wrappers
  import opened Components
  import opened Computers
  import opened Environments
  import opened Maintenance

  /** The computer after a repair request: one that is not working is repaired; a working one is left as it is. */
  function AfterRepair(m: MachineState, ls: seq<int>): (r: MachineState)
    requires |m.parts| == 5 && RepairLifespans(ls)
    ensures r.id == m.id && r.working && |r.parts| == 5
    ensures m.working ==> r == m
    ensures !m.working ==> r.parts == RepairedAll(m.parts, ls)
  {
    if m.working then m else MachineState(m.id, RepairedAll(m.parts, ls), true)
  }

  /** A repair request keeps a healthy computer healthy. */
  lemma AfterRepairKeepsHealthy(m: MachineState, ls: seq<int>)
    requires Healthy(m.parts, m.working) && RepairLifespans(ls)
    ensures Healthy(AfterRepair(m, ls).parts, AfterRepair(m, ls).working)
  {
    if !m.working {
      RepairedAllKeepsHealthy(m.parts, m.working, ls);
    }
  }

  /**
    The repair request for position `index`: a position outside the list is
    reported as not found and changes nothing; otherwise the computer there is
    repaired if it is not working.
   */
  method RepairRequest(env: Environment, index: int, ls: seq<int>) returns (found: bool)
    requires env.Valid() && RepairLifespans(ls)
    modifies env.computers
    ensures env.Valid()
    ensures found <==> 0 <= index < |env.computers|
    ensures !found ==> env.Views() == old(env.Views())
    ensures found ==> env.Views() == old(env.Views())[index := AfterRepair(old(env.Views())[index], ls)]
  {
    if 0 <= index < |env.computers| {
      var c := env.computers[index];
      assert Healthy(c.parts, c.working);
      AfterRepairKeepsHealthy(c.View(), ls);
      if !c.working {
        CorrectiveMaintenance(c, ls);
      }
      found := true;
    } else {
      found := false;
    }
  }

  /**
    The preventive-maintenance request as routed: the URL converter hands over
    an integer, which no component identifier equals, so the request never
    finds a component, changes nothing and reports failure.
   */
  method PreventiveRequestByNumber(env: Environment, n: int, boost: int) returns (done: bool)
    requires env.Valid() && 10 <= boost <= 20
    modifies env.computers
    ensures env.Valid() && !done && env.Views() == old(env.Views())
  {
    IntKeyNeverFound(env.Views(), n);
    done := PreventiveMaintenance(env, IntKey(n), boost);
  }

  /**
    The preventive-maintenance request taking a component's identifier (a
    str), as the route evidently means to: the first component carrying it is
    boosted, and success is reported iff there is one. Which component that is
    when the computers carry distinct numbers is `IdFindsItsComponent`.
   */
  method PreventiveRequest(env: Environment, id: string, boost: int) returns (done: bool)
    requires env.Valid() && 10 <= boost <= 20
    modifies env.computers
    ensures env.Valid()
    ensures var vs := old(env.Views()); var r := Locate(vs, StrKey(id));
      && (done <==> r.Some?)
      && (r.None? ==> env.Views() == vs)
      && (r.Some? ==> env.Views() == vs[r.value.0 := Maintained(vs[r.value.0], r.value.1, boost)])
  {
    done := PreventiveMaintenance(env, StrKey(id), boost);
  }

  /**
    The request that adds a computer: a new computer, numbered by the length
    of the list, with the drawn lifespans, appended to the list.
   */
  method AddRequest(env: Environment, ls: seq<int>) returns (c: Computer)
    requires env.Valid() && NewLifespans(ls)
    modifies env
    ensures env.Valid() && fresh(c)
    ensures c.id == |old(env.computers)| && env.computers == old(env.computers) + [c]
    ensures env.history == old(env.history)
    ensures c.working && |c.parts| == 5 && forall j :: 0 <= j < 5 ==> c.parts[j] == ComponentState(ls[j], Working, None, false)
    ensures (forall i :: 0 <= i < |old(env.computers)| ==> old(env.computers[i].id) == i) ==>
      forall i :: 0 <= i < |env.computers| ==> env.computers[i].id == i
  {
    c := new Computer(|env.computers|, ls);
    env.AddComputer(c);
  }
}
