/**
  A component of a computer: a lifespan counter that wears down one unit per
  cycle, a working/broken state, the fault stored when it broke, and a
  maintenance warning raised when exactly three cycles are left.

  Every change a component undergoes is first defined on a value
  (ComponentState) by a pure function; the class Component updates its fields
  in place and promises that its new state is that function of its old one.
 */
module Components {
  import opened Wrappers
  import opened Catalog

  datatype Status = Working | Broken

  /** The mutable part of a component, as a value. */
  datatype ComponentState = ComponentState(lifespan: int, status: Status, problem: Option<Fault>, warning: bool)

  /**
    What every component keeps true: its lifespan is never negative, a working
    one has at least one cycle left, and a broken one is at zero and carries a
    fault from its own kind's catalog entry. A working component may still
    carry a stale fault (preventive maintenance does not clear it).
   */
  predicate Sound(s: ComponentState, k: Kind)
  {
    && s.lifespan >= 0
    && (s.status == Working ==> s.lifespan >= 1)
    && (s.status == Broken ==> s.lifespan == 0 && s.problem.Some? && s.problem.value in Faults(k))
  }

  /**
    One cycle of wear. A broken component is left as it is. A working one loses
    one cycle; at zero or below it breaks and stores the catalog fault `pick`
    (the draw) of its kind; landing on exactly three raises the warning.
   */
  function Degraded(s: ComponentState, k: Kind, pick: nat): (t: ComponentState)
    requires pick < 3
    ensures s.status == Broken ==> t == s
    ensures s.status == Working ==>
      && t.lifespan == s.lifespan - 1
      && (t.status == Broken <==> t.lifespan <= 0)
      && (t.status == Broken ==> t.problem == Some(Faults(k)[pick]))
      && (t.status == Working ==> t.problem == s.problem)
      && (t.warning <==> s.warning || t.lifespan == 3)
  {
    if s.status == Broken then s
    else
      var n := s.lifespan - 1;
      if n <= 0 then ComponentState(n, Broken, Some(Faults(k)[pick]), s.warning || n == 3)
      else ComponentState(n, Working, s.problem, s.warning || n == 3)
  }

  /** Corrective repair with a freshly drawn lifespan between 5 and 15. */
  function Repaired(s: ComponentState, lifespan: int): (t: ComponentState)
    requires 5 <= lifespan <= 15
    ensures t.status == Working && t.problem == None
    ensures 5 <= t.lifespan <= 15
    ensures t.warning == s.warning
    ensures forall k :: Sound(t, k)
  {
    ComponentState(lifespan, Working, None, s.warning)
  }

  /** Preventive maintenance: a lifespan boost between 10 and 20, working again, warning cleared. */
  function Boosted(s: ComponentState, boost: int): (t: ComponentState)
    requires 10 <= boost <= 20
    ensures s.lifespan + 10 <= t.lifespan <= s.lifespan + 20
    ensures t.status == Working && !t.warning
    ensures t.problem == s.problem
    ensures forall k :: Sound(s, k) ==> Sound(t, k)
  {
    s.(lifespan := s.lifespan + boost, status := Working, warning := false)
  }

  /** Wear keeps a component sound. */
  lemma DegradedKeepsSound(s: ComponentState, k: Kind, pick: nat)
    requires pick < 3 && Sound(s, k)
    ensures Sound(Degraded(s, k, pick), k)
  {
  }

  /** Once broken, further wear changes nothing, whatever is drawn. */
  lemma BrokenIsFixpoint(s: ComponentState, k: Kind, pick: nat, pick': nat)
    requires pick < 3 && pick' < 3
    requires Degraded(s, k, pick).status == Broken
    ensures Degraded(Degraded(s, k, pick), k, pick') == Degraded(s, k, pick)
  {
  }

  /** A sound working component with one cycle left breaks on the next cycle; with more it does not. */
  lemma BreaksExactlyAtLastCycle(s: ComponentState, k: Kind, pick: nat)
    requires pick < 3 && Sound(s, k) && s.status == Working
    ensures Degraded(s, k, pick).status == Broken <==> s.lifespan == 1
    ensures Degraded(s, k, pick).status == Broken ==> Degraded(s, k, pick).lifespan == 0
  {
  }

  /** Without an earlier warning, one cycle of wear raises it only on landing exactly on three, that is from four. */
  lemma WarningOnlyAtThree(s: ComponentState, k: Kind, pick: nat)
    requires pick < 3 && s.status == Working && !s.warning
    ensures Degraded(s, k, pick).warning <==> s.lifespan == 4
  {
  }

  /**
    After preventive maintenance on a broken component, the component is
    working and still carries its old fault: "a fault is stored iff broken"
    does not survive that operation.
   */
  lemma BoostKeepsStaleProblem(s: ComponentState, k: Kind, boost: int)
    requires Sound(s, k) && s.status == Broken && 10 <= boost <= 20
    ensures Boosted(s, boost).status == Working && Boosted(s, boost).problem.Some?
  {
  }

  class Component {
    const id: string
    const kind: Kind
    var lifespan: int
    var status: Status
    var problem: Option<Fault>
    var warning: bool

    /** The component's mutable fields, as a value. */
    function State(): ComponentState
      reads this
    {
      ComponentState(lifespan, status, problem, warning)
    }

    /** A new component is working, carries no fault and no warning. */
    constructor (kind: Kind, lifespan: int, id: string)
      ensures this.id == id && this.kind == kind
      ensures State() == ComponentState(lifespan, Working, None, false)
    {
      this.id := id;
      this.kind := kind;
      this.lifespan := lifespan;
      this.status := Working;
      this.problem := None;
      this.warning := false;
    }

    /** One cycle of wear; `pick` is the catalog entry drawn should the component break. */
    method Degrade(pick: nat)
      requires pick < 3
      modifies this
      ensures State() == Degraded(old(State()), kind, pick)
    {
      if status == Working {
        lifespan := lifespan - 1;
        if lifespan <= 0 {
          status := Broken;
          problem := Some(Faults(kind)[pick]);
        }
        if lifespan == 3 && !warning {
          warning := true;
        }
      }
    }

    /** Corrective repair; `drawn` is the newly drawn lifespan. */
    method Repair(drawn: int)
      requires 5 <= drawn <= 15
      modifies this
      ensures State() == Repaired(old(State()), drawn)
    {
      lifespan := drawn;
      status := Working;
      problem := None;
    }
  }
}
