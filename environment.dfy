/**
  The environment: the list of computers and the global failure history. Each
  cycle (`VerifyStatus`) wears the components of every working computer in
  order; the first component to go from working to broken stops its computer
  and appends one entry to the history. Broken computers are skipped.

  A cycle is first defined on values (`Ticked` for one computer, `TickAll` for
  the list); the class Environment performs it in place on its objects and
  promises that its new state is that function of the old one.
 */
module Environments {
  import opened Wrappers
  import opened Catalog
  import opened Components
  import opened Computers

  /** One entry of the failure history: the computer, the kind of component that broke, and the catalog entry logged. */
  datatype Incident = Incident(computerId: nat, component: Kind, fault: Fault)

  /** An entry of the history as it is shown: the computer's number, the component's name and the fault's details. */
  datatype HistoryRow = HistoryRow(computerId: nat, component: string, problem: string, cost: int, remedy: string)

  /**
    The draws of one cycle over one computer: the catalog entry each component
    stores should it break, and the separate draw of the details that go into
    the history entry.
   */
  datatype TickDraw = TickDraw(wear: seq<nat>, logged: nat)

  predicate ValidDraw(d: TickDraw)
  {
    ValidPicks(d.wear) && d.logged < 3
  }

  /** The history entry for computer `id` whose component of kind k broke, with the drawn fault details. */
  function Report(id: nat, k: Kind, pick: nat): (e: Incident)
    requires pick < 3
    ensures e.computerId == id && e.component == k && e.fault in Faults(k)
  {
    Incident(id, k, ProblemDetails(k, pick))
  }

  /** How a history entry is shown, with the texts of its catalog entry. */
  function Shown(e: Incident): (row: HistoryRow)
    ensures row.computerId == e.computerId && row.component == Name(e.component)
    ensures FaultText(row.problem, row.cost, row.remedy) == Details(e.fault)
  {
    var t := Details(e.fault);
    HistoryRow(e.computerId, Name(e.component), t.problem, t.cost, t.remedy)
  }

  /** The entry a computer's cycle adds to the history: none, or one. */
  function Entry(e: Option<Incident>): (log: seq<Incident>)
    ensures e.None? ==> log == []
    ensures e.Some? ==> log == [e.value]
  {
    if e.Some? then [e.value] else []
  }

  /** One component's step in a cycle: wear, then the warning raised when exactly three cycles are left. */
  function TickStep(s: ComponentState, k: Kind, pick: nat): (t: ComponentState)
    requires pick < 3
    ensures var w := Degraded(s, k, pick);
      && t.lifespan == w.lifespan && t.status == w.status && t.problem == w.problem
      && (t.warning <==> w.warning || w.lifespan == 3)
  {
    var w := Degraded(s, k, pick);
    if w.lifespan == 3 then w.(warning := true) else w
  }

  /** On a sound component the cycle's own warning line adds nothing: the step is the component's wear. */
  lemma TickStepIsWear(s: ComponentState, k: Kind, pick: nat)
    requires pick < 3 && Sound(s, k)
    ensures TickStep(s, k, pick) == Degraded(s, k, pick)
  {
  }

  /** Whether this cycle breaks a component: it was working with at most one cycle left. */
  predicate BreaksNow(s: ComponentState)
  {
    s.status == Working && s.lifespan <= 1
  }

  /** The first component from j on that this cycle breaks, or 5 when there is none. */
  function FirstBreak(ss: seq<ComponentState>, j: nat): (k: nat)
    requires |ss| == 5 && j <= 5
    ensures j <= k <= 5
    ensures k < 5 ==> BreaksNow(ss[k])
    ensures forall a :: j <= a < k ==> !BreaksNow(ss[a])
    decreases 5 - j
  {
    if j == 5 then 5 else if BreaksNow(ss[j]) then j else FirstBreak(ss, j + 1)
  }

  /**
    The inner loop of a cycle over a working computer, from component j on:
    step component j; if it went from working to broken, stop there with one
    history entry for it; otherwise go on with the next component.
   */
  function TickFrom(id: nat, ss: seq<ComponentState>, d: TickDraw, j: nat): (r: (seq<ComponentState>, Option<Incident>))
    requires |ss| == 5 && ValidDraw(d) && j <= 5
    ensures |r.0| == 5
    decreases 5 - j
  {
    if j == 5 then (ss, None)
    else
      var t := TickStep(ss[j], Kinds[j], d.wear[j]);
      if ss[j].status == Working && t.status == Broken then (ss[j := t], Some(Report(id, Kinds[j], d.logged)))
      else TickFrom(id, ss[j := t], d, j + 1)
  }

  /**
    One cycle over one computer: a computer that is not working is skipped; a
    working one runs the inner loop and stops iff one of its components broke.
   */
  function Ticked(m: MachineState, d: TickDraw): (r: (MachineState, Option<Incident>))
    requires |m.parts| == 5 && ValidDraw(d)
    ensures r.0.id == m.id && |r.0.parts| == 5
  {
    if !m.working then (m, None)
    else
      var (ss, e) := TickFrom(m.id, m.parts, d, 0);
      (MachineState(m.id, ss, e.None?), e)
  }

  /** The inner loop resumed at j, with the components before j stepped and none of them broken, ends as the loop over o does. */
  lemma {:induction false} TickFromMeaning(id: nat, o: seq<ComponentState>, ss: seq<ComponentState>, d: TickDraw, j: nat)
    requires |o| == 5 && |ss| == 5 && ValidDraw(d) && j <= 5
    requires forall a :: 0 <= a < j ==> ss[a] == TickStep(o[a], Kinds[a], d.wear[a]) && !BreaksNow(o[a])
    requires forall a :: j <= a < 5 ==> ss[a] == o[a]
    ensures var r := TickFrom(id, ss, d, j); var k := FirstBreak(o, j);
      && (forall a :: 0 <= a < 5 ==> r.0[a] == if a <= k then TickStep(o[a], Kinds[a], d.wear[a]) else o[a])
      && r.1 == if k < 5 then Some(Report(id, Kinds[k], d.logged)) else None
    decreases 5 - j
  {
    if j < 5 && !BreaksNow(o[j]) {
      TickFromMeaning(id, o, ss[j := TickStep(ss[j], Kinds[j], d.wear[j])], d, j + 1);
    }
  }

  /**
    What a cycle does to one computer, with k the first component it breaks: a
    stopped computer is left as it is and logs nothing; in a working one the
    components up to k are stepped, the ones after k are untouched, the
    computer still works iff nothing broke, and exactly then no entry is
    logged; otherwise the entry reports the computer, component k, and details
    drawn from its catalog entry.
   */
  lemma TickedMeaning(m: MachineState, d: TickDraw)
    requires |m.parts| == 5 && ValidDraw(d)
    ensures var r := Ticked(m, d);
      && (!m.working ==> r.0 == m && r.1 == None)
      && (m.working ==> var k := FirstBreak(m.parts, 0);
        && (forall j :: 0 <= j <= k && j < 5 ==> r.0.parts[j] == TickStep(m.parts[j], Kinds[j], d.wear[j]))
        && (forall j :: k < j < 5 ==> r.0.parts[j] == m.parts[j])
        && (r.0.working <==> k == 5)
        && (r.1 == if k < 5 then Some(Report(m.id, Kinds[k], d.logged)) else None))
  {
    if m.working {
      TickFromMeaning(m.id, m.parts, m.parts, d, 0);
    }
  }

  /**
    In a working computer the components before the one that breaks were
    working, still work and lost exactly one cycle; the one that breaks was
    working and is now broken, at zero, with the fault drawn for it.
   */
  lemma TickedWears(m: MachineState, d: TickDraw)
    requires |m.parts| == 5 && ValidDraw(d) && m.working
    ensures var r := Ticked(m, d).0; var k := FirstBreak(m.parts, 0);
      && (forall j :: 0 <= j < k && m.parts[j].status == Working ==>
            r.parts[j].status == Working && r.parts[j].lifespan == m.parts[j].lifespan - 1)
      && (k < 5 ==> (m.parts[k].status == Working && r.parts[k].status == Broken
                     && r.parts[k].problem == Some(Faults(Kinds[k])[d.wear[k]])))
  {
    TickedMeaning(m, d);
  }

  /** A cycle keeps a computer healthy: still working means every component still works. */
  lemma TickedKeepsHealthy(m: MachineState, d: TickDraw)
    requires ValidDraw(d) && Healthy(m.parts, m.working)
    ensures Healthy(Ticked(m, d).0.parts, Ticked(m, d).0.working)
  {
    if m.working {
      var r := Ticked(m, d).0;
      var k := FirstBreak(m.parts, 0);
      TickedMeaning(m, d);
      forall j | 0 <= j < 5
        ensures Sound(r.parts[j], Kinds[j])
        ensures j < k ==> r.parts[j].status == Working
      {
        if j <= k {
          TickStepIsWear(m.parts[j], Kinds[j], d.wear[j]);
          DegradedKeepsSound(m.parts[j], Kinds[j], d.wear[j]);
        }
      }
    }
  }

  /**
    The fault written to the history is drawn apart from the one the component
    stores: with different draws the two differ.
   */
  lemma LoggedFaultMayDiffer()
    ensures var s := ComponentState(1, Working, None, false);
      var m := MachineState(0, [s, s, s, s, s], true);
      var r := Ticked(m, TickDraw([0, 0, 0, 0, 0], 1));
      && r.1.Some? && r.0.parts[0].problem.Some?
      && r.1.value.fault != r.0.parts[0].problem.value
      && Details(r.1.value.fault).cost == 150 && Details(r.0.parts[0].problem.value).cost == 300
  {
    var s := ComponentState(1, Working, None, false);
    var m := MachineState(0, [s, s, s, s, s], true);
    TickedMeaning(m, TickDraw([0, 0, 0, 0, 0], 1));
    assert FirstBreak(m.parts, 0) == 0;
  }

  /** Indices 0 to 4 of the fixed kind order. */
  lemma KindsAt()
    ensures Kinds[0] == Motherboard && Kinds[1] == Processor && Kinds[2] == Memory
    ensures Kinds[3] == Storage && Kinds[4] == PowerSupply
  {
  }

  /**
    A working computer whose components have 5, 4, 3, 2 and 1 cycles left:
    the first four lose one cycle (the one reaching three raises its warning),
    the power supply breaks, and one entry naming it is logged.
   */
  lemma LastComponentBreaks(d: TickDraw)
    requires ValidDraw(d)
    ensures var c := (n: int) => ComponentState(n, Working, None, false);
      var m := MachineState(7, [c(5), c(4), c(3), c(2), c(1)], true);
      var r := Ticked(m, d);
      && r.0.parts[..4] == [c(4), c(3).(warning := true), c(2), c(1)]
      && r.0.parts[4].status == Broken && r.0.parts[4].lifespan == 0
      && !r.0.working
      && r.1.Some? && r.1.value.computerId == 7 && r.1.value.component == PowerSupply
  {
    var c := (n: int) => ComponentState(n, Working, None, false);
    var m := MachineState(7, [c(5), c(4), c(3), c(2), c(1)], true);
    KindsAt();
    assert FirstBreak(m.parts, 0) == 4;
    TickedMeaning(m, d);
  }

  /** The draws of a cycle over a list: one valid draw per computer, each computer with five components. */
  predicate Drawable(ms: seq<MachineState>, ds: seq<TickDraw>)
  {
    |ms| == |ds| && forall i :: 0 <= i < |ms| ==> |ms[i].parts| == 5 && ValidDraw(ds[i])
  }

  /** The number of working computers among the first i of a list. */
  function CountWorking(ms: seq<MachineState>, i: nat): (n: nat)
    requires i <= |ms|
    ensures n <= i
  {
    if i == 0 then 0 else CountWorking(ms, i - 1) + (if ms[i - 1].working then 1 else 0)
  }

  /** The entries a cycle appends to the history for the first i computers of a list, in list order. */
  function LogUpTo(ms: seq<MachineState>, ds: seq<TickDraw>, i: nat): (log: seq<Incident>)
    requires Drawable(ms, ds) && i <= |ms|
    ensures |log| <= i
  {
    if i == 0 then [] else LogUpTo(ms, ds, i - 1) + Entry(Ticked(ms[i - 1], ds[i - 1]).1)
  }

  /**
    One cycle over the whole list, computer by computer in list order: the
    computers after the cycle, and the entries it appends to the history, in
    order.
   */
  function TickAll(ms: seq<MachineState>, ds: seq<TickDraw>): (r: (seq<MachineState>, seq<Incident>))
    requires Drawable(ms, ds)
    ensures |r.0| == |ms|
  {
    (seq(|ms|, i requires 0 <= i < |ms| => Ticked(ms[i], ds[i]).0), LogUpTo(ms, ds, |ms|))
  }

  /** The history grows by at most one entry per working computer. */
  lemma {:induction false} LogBoundedByWorking(ms: seq<MachineState>, ds: seq<TickDraw>, i: nat)
    requires Drawable(ms, ds) && i <= |ms|
    ensures |LogUpTo(ms, ds, i)| <= CountWorking(ms, i)
  {
    if i > 0 {
      LogBoundedByWorking(ms, ds, i - 1);
    }
  }

  /** A cycle over the whole list appends at most one entry per working computer. */
  lemma CycleLogBounded(ms: seq<MachineState>, ds: seq<TickDraw>)
    requires Drawable(ms, ds)
    ensures |TickAll(ms, ds).1| <= CountWorking(ms, |ms|)
  {
    LogBoundedByWorking(ms, ds, |ms|);
  }

  /**
    Every entry a cycle appends comes from one computer that was working and
    is stopped now: it carries that computer's number, a component name and
    fault details from that name's catalog entry.
   */
  lemma {:induction false} LogEntriesAreBreaks(ms: seq<MachineState>, ds: seq<TickDraw>, i: nat, e: Incident)
    requires Drawable(ms, ds) && i <= |ms|
    requires e in LogUpTo(ms, ds, i)
    ensures exists a :: (0 <= a < i && ms[a].working && !Ticked(ms[a], ds[a]).0.working
      && Ticked(ms[a], ds[a]).1 == Some(e) && e.computerId == ms[a].id)
    ensures e.fault in Faults(e.component)
  {
    var last := Ticked(ms[i - 1], ds[i - 1]).1;
    if e in LogUpTo(ms, ds, i - 1) {
      LogEntriesAreBreaks(ms, ds, i - 1, e);
    } else {
      assert last == Some(e);
      TickedMeaning(ms[i - 1], ds[i - 1]);
    }
  }

  /** Computers that are not working come out of a cycle unchanged. */
  lemma StoppedComputersUntouched(ms: seq<MachineState>, ds: seq<TickDraw>, i: nat)
    requires Drawable(ms, ds)
    requires i < |ms| && !ms[i].working
    ensures TickAll(ms, ds).0[i] == ms[i]
  {
    TickedMeaning(ms[i], ds[i]);
  }

  /** The invariant of the environment's computers, on values. */
  predicate AllHealthy(ms: seq<MachineState>)
  {
    forall i :: 0 <= i < |ms| ==> Healthy(ms[i].parts, ms[i].working)
  }

  /** A cycle keeps every computer healthy. */
  lemma TickAllKeepsHealthy(ms: seq<MachineState>, ds: seq<TickDraw>)
    requires Drawable(ms, ds) && AllHealthy(ms)
    ensures AllHealthy(TickAll(ms, ds).0)
  {
    forall i | 0 <= i < |ms|
      ensures Healthy(TickAll(ms, ds).0[i].parts, TickAll(ms, ds).0[i].working)
    {
      TickedKeepsHealthy(ms[i], ds[i]);
    }
  }

  /**
    Part way through a cycle over ms: the first i computers are cycled, the
    rest untouched, and the history is h0 followed by the entries so far.
   */
  predicate CycledUpTo(ms: seq<MachineState>, ds: seq<TickDraw>, i: nat, h0: seq<Incident>, vs: seq<MachineState>, h: seq<Incident>)
  {
    && Drawable(ms, ds) && i <= |ms| && |vs| == |ms|
    && (forall a :: 0 <= a < i ==> vs[a] == Ticked(ms[a], ds[a]).0)
    && (forall a :: i <= a < |ms| ==> vs[a] == ms[a])
    && h == h0 + LogUpTo(ms, ds, i)
  }

  /** Cycling the computer at i moves the cycled prefix one computer on. */
  lemma TickAllStep(ms: seq<MachineState>, ds: seq<TickDraw>, i: nat, h0: seq<Incident>,
                    vs: seq<MachineState>, h: seq<Incident>, vs': seq<MachineState>, h': seq<Incident>)
    requires CycledUpTo(ms, ds, i, h0, vs, h) && i < |ms|
    requires vs' == vs[i := Ticked(vs[i], ds[i]).0] && h' == h + Entry(Ticked(vs[i], ds[i]).1)
    ensures CycledUpTo(ms, ds, i + 1, h0, vs', h')
  {
    assert vs[i] == ms[i];
    Appended(h0, LogUpTo(ms, ds, i), Entry(Ticked(ms[i], ds[i]).1));
  }

  /** A cycle begins with nothing done and ends with the whole list cycled. */
  lemma CycledBounds(ms: seq<MachineState>, ds: seq<TickDraw>, h0: seq<Incident>, vs: seq<MachineState>, h: seq<Incident>)
    requires Drawable(ms, ds)
    ensures CycledUpTo(ms, ds, 0, h0, ms, h0)
    ensures CycledUpTo(ms, ds, |ms|, h0, vs, h) ==> vs == TickAll(ms, ds).0 && h == h0 + TickAll(ms, ds).1
  {
    assert h0 + [] == h0;
  }

  /** Appending is associative. */
  lemma Appended<T>(a: seq<T>, b: seq<T>, c: seq<T>)
    ensures (a + b) + c == a + (b + c)
  {
  }

  /** What the status page shows of a component. */
  datatype ComponentRow = ComponentRow(name: string, lifespan: int, status: Status, warning: bool)

  /** What the status page shows of a computer. */
  datatype MachineRow = MachineRow(id: nat, components: seq<ComponentRow>, working: bool)

  /** What the status page shows of a computer: its number, each component's row, and its flag. */
  function RowOf(m: MachineState): (row: MachineRow)
    requires |m.parts| == 5
    ensures row.id == m.id && row.working == m.working && |row.components| == 5
    ensures forall j :: 0 <= j < 5 ==>
      row.components[j] == ComponentRow(Name(Kinds[j]), m.parts[j].lifespan, m.parts[j].status, m.parts[j].warning)
  {
    var ps := m.parts;
    MachineRow(m.id, seq(5, j requires 0 <= j < 5 => ComponentRow(Name(Kinds[j]), ps[j].lifespan, ps[j].status, ps[j].warning)), m.working)
  }

  class Environment {
    var computers: seq<Computer>
    var history: seq<Incident>

    /** No computer is listed twice, and every computer is healthy. */
    ghost predicate Valid()
      reads this, computers
    {
      && (forall a, b :: 0 <= a < b < |computers| ==> computers[a] != computers[b])
      && (forall i :: 0 <= i < |computers| ==> Healthy(computers[i].parts, computers[i].working))
    }

    /** The computers as values, in list order. */
    function Views(): (vs: seq<MachineState>)
      reads this, computers
      ensures |vs| == |computers|
      ensures forall i :: 0 <= i < |computers| ==> vs[i] == computers[i].View()
    {
      var cs := computers;
      seq(|cs|, i requires 0 <= i < |cs| reads cs => cs[i].View())
    }

    /** The invariant, stated on the computers as values. */
    lemma ValidViews()
      requires Valid()
      ensures AllHealthy(Views())
    {
    }

    /** An empty environment: no computers, no history. */
    constructor ()
      ensures Valid() && computers == [] && history == []
    {
      computers := [];
      history := [];
    }

    /** Append a healthy computer not already in the list. */
    method AddComputer(c: Computer)
      requires Valid() && Healthy(c.parts, c.working) && c !in computers
      modifies this`computers
      ensures Valid()
      ensures computers == old(computers) + [c]
    {
      computers := computers + [c];
    }

    /** Append one entry to the history. */
    method RecordProblem(computerId: nat, component: Kind, fault: Fault)
      modifies this`history
      ensures history == old(history) + [Incident(computerId, component, fault)]
    {
      history := history + [Incident(computerId, component, fault)];
    }

    /** The history as it is shown, oldest entry first. */
    function FailureHistory(): (rows: seq<HistoryRow>)
      reads this
      ensures |rows| == |history|
      ensures forall i :: 0 <= i < |rows| ==> rows[i] == Shown(history[i])
    {
      seq(|history|, i requires 0 <= i < |history| reads this => Shown(history[i]))
    }

    /** The cycle over one working computer: step its components until one breaks, then log it and stop the computer. */
    method TickComputer(c: Computer, d: TickDraw)
      requires |c.parts| == 5 && ValidDraw(d) && c.working
      modifies this`history, c
      ensures var r := Ticked(old(c.View()), d);
        c.View() == r.0 && history == old(history) + Entry(r.1)
    {
      ghost var m := c.View();
      var j := 0;
      while j < 5
        invariant 0 <= j <= 5 && |c.parts| == 5
        invariant history == old(history) && c.working
        invariant TickFrom(c.id, c.parts, d, j) == TickFrom(c.id, m.parts, d, 0)
      {
        var prior := c.parts[j].status;
        var p := Degraded(c.parts[j], Kinds[j], d.wear[j]);
        if p.lifespan == 3 {
          p := p.(warning := true);
        }
        c.parts := c.parts[j := p];
        if prior == Working && p.status == Broken {
          RecordProblem(c.id, Kinds[j], ProblemDetails(Kinds[j], d.logged));
          c.working := false;
          return;
        }
        j := j + 1;
      }
    }

    /** The cycle over the computer at position i alone: the list and the other computers are kept, and so is the invariant. */
    method TickAt(i: nat, d: TickDraw)
      requires Valid() && i < |computers| && ValidDraw(d)
      modifies this`history, computers[i]
      ensures Valid() && computers == old(computers)
      ensures var r := Ticked(old(Views())[i], d);
        Views() == old(Views())[i := r.0] && history == old(history) + Entry(r.1)
    {
      var c := computers[i];
      TickedKeepsHealthy(c.View(), d);
      if c.working {
        TickComputer(c, d);
      }
    }

    /**
      One simulation cycle over every computer, in list order, with one draw
      per computer: the computers that are not working are skipped. The list
      itself is not changed and the history only grows.
     */
    method VerifyStatus(draws: seq<TickDraw>)
      requires Valid()
      requires |draws| == |computers| && forall i :: 0 <= i < |draws| ==> ValidDraw(draws[i])
      modifies this`history, computers
      ensures Valid() && computers == old(computers)
      ensures var r := TickAll(old(Views()), draws);
        Views() == r.0 && history == old(history) + r.1
    {
      ghost var before := Views();
      ghost var cur := before;
      CycledBounds(before, draws, old(history), before, history);
      var i := 0;
      while i < |computers|
        invariant 0 <= i <= |computers| && computers == old(computers) && Valid()
        invariant Views() == cur
        invariant CycledUpTo(before, draws, i, old(history), cur, history)
      {
        ghost var h := history;
        TickAt(i, draws[i]);
        ghost var next := cur[i := Ticked(cur[i], draws[i]).0];
        TickAllStep(before, draws, i, old(history), cur, h, next, history);
        cur := next;
        i := i + 1;
      }
      CycledBounds(before, draws, old(history), cur, history);
    }

    /**
      The status page: for every computer its number, each component's name,
      lifespan, state and warning, and whether the computer works. Reading it
      changes nothing.
     */
    function Status(): (rows: seq<MachineRow>)
      requires Valid()
      reads this, computers
      ensures |rows| == |computers|
      ensures forall i :: 0 <= i < |rows| ==>
        var m := Views()[i];
        && rows[i].id == m.id && rows[i].working == m.working && |rows[i].components| == 5
        && forall j :: 0 <= j < 5 ==>
             rows[i].components[j] == ComponentRow(Name(Kinds[j]), m.parts[j].lifespan, m.parts[j].status, m.parts[j].warning)
      ensures forall i, j :: 0 <= i < |rows| && 0 <= j < |rows[i].components| && rows[i].working ==>
        rows[i].components[j].status == Working
    {
      var cs := computers;
      seq(|cs|, i requires 0 <= i < |cs| && |cs[i].parts| == 5 reads cs => RowOf(cs[i].View()))
    }
  }
}
