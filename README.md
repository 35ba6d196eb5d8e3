# Hardware degradation simulator, modelled in Dafny

The simulator keeps an environment of computers. Every computer holds five
components in a fixed order: motherboard, processor, RAM, storage and power
supply. Each component has a lifespan counter that loses one unit per
simulation cycle. When the counter reaches zero the component breaks and
stores a fault drawn from a fixed catalog: three faults per kind of
component, each with a problem, a repair cost and a remedy. When exactly
three cycles are left, a maintenance warning is raised.

A cycle visits the working computers in list order. Each computer's
components are visited in order. The first component that goes from working
to broken stops its computer and appends one entry to a global failure
history. The operations are:

- corrective maintenance, which repairs every broken component of a computer
  with a fresh lifespan and sets the computer working again;
- preventive maintenance, which finds a component by its identifier and
  boosts its lifespan;
- adding a computer, numbered by the length of the list;
- reading the status page and the history.

The model is split into modules:

- `Wrappers`: the `Option` type.
- `Catalog`: the fault catalog, component names and identifiers, and the
  catalog lookups.
- `Components`: a component's state, and its wear, repair and boost as pure
  functions. The class `Component` updates its fields in place to match them.
- `Computers`: a computer's check pass and its repair, as functions on
  values. The class `Computer` runs them in place, with loops.
- `Environments`: one cycle over a computer (`Ticked`) and over the list
  (`TickAll`), the history, and the status page. The class `Environment`
  holds the computers and the history; its methods run the cycle in place
  and promise the new state that those functions give.
- `Maintenance`: the search by identifier, and preventive and corrective
  maintenance on the environment.
- `Requests`: what the repair, preventive-maintenance and add requests do to
  the environment, without the web layer.

Every random draw of the source is a parameter whose range is stated in the
`requires`:

- `random.choice` among a kind's three faults becomes an index below 3;
- `random.randint(5, 10)`, `(5, 15)` and `(10, 20)` become integers in those
  ranges.

Each method is therefore deterministic in its parameters.

The invariant the environment keeps is `Environment.Valid`:

- no computer is listed twice;
- a working computer has every component working;
- every component is `Sound`: its lifespan is never negative, a working
  component has at least one cycle left, and a broken one is at zero and
  stores a fault of its own kind.

## Model

| member | source | states |
|---|---|---|
| `Catalog.Faults` | Home.py:10-36 | each kind has exactly three catalog entries, in catalog order |
| `Catalog.Name` | Home.py:68-75 | every kind's name is non-empty; `NameRoundTrip` and `KindNamed` characterise the names as the catalog's keys |
| `Catalog.Details` | Home.py:10-36 | the problem, cost and remedy of each of the fifteen entries, as listed; no contract of its own, `CostsInRange` bounds its costs and `RepairCost` projects it |
| `Catalog.CostsInRange` | Home.py:10-36 | every repair cost in the catalog is between 100 and 400 |
| `Catalog.KindNamed` | Home.py:132 | looking a name up in the catalog yields the kind carrying that name, or nothing when no kind carries it (the dictionary lookup that would fail) |
| `Catalog.NameRoundTrip` | Home.py:10-36 | every component name is a catalog key and leads back to its own kind |
| `Catalog.NatToStringInjective` | Home.py:68-75 | different computer numbers are written differently |
| `Catalog.ComponentId` | Home.py:68-75 | a component identifier is the computer's number followed by the kind's suffix, at least three characters long; `ComponentIdsUnique` characterises it |
| `Catalog.ComponentIdsUnique` | Home.py:41-41 | two component identifiers are equal only for the same computer number and the same kind, so identifiers are unique across computers with distinct numbers |
| `Catalog.ProblemDetails` | Home.py:131-134 | the drawn details belong to the catalog entry of the named kind |
| `Catalog.RepairCost` | Home.py:126-128 | the cost and the remedy of a catalog entry, its problem dropped: the projection the source performs |
| `Components.Degraded` | Home.py:48-56 | one cycle of wear: a broken component is unchanged; a working one loses one cycle, is broken iff it reaches zero or below, then stores the drawn fault of its own kind, keeps its fault otherwise, and has the warning iff it had it or reached exactly three |
| `Components.Repaired` | Home.py:58-61 | repair leaves the component working, without a fault, with a lifespan in 5..15, the warning unchanged, and sound for every kind |
| `Components.Boosted` | Home.py:113-115 | preventive maintenance adds 10..20 cycles, sets the component working, clears the warning, keeps any stored fault, and keeps it sound |
| `Components.DegradedKeepsSound` | Home.py:48-56 | wear keeps a component sound |
| `Components.BrokenIsFixpoint` | Home.py:49 | once broken, further wear changes nothing, whatever is drawn |
| `Components.BreaksExactlyAtLastCycle` | Home.py:50-53 | a sound working component breaks on the next cycle iff it has one cycle left, and is then at zero |
| `Components.WarningOnlyAtThree` | Home.py:55-56 | without an earlier warning, one cycle of wear raises it iff the lifespan was four, that is iff it lands exactly on three |
| `Components.BoostKeepsStaleProblem` | Home.py:113-115 | after preventive maintenance a broken component works again yet still stores its fault |
| `Components.Component.constructor` | Home.py:40-46 | a new component works and has no fault and no warning |
| `Components.Component.Degrade` | Home.py:48-56 | the component's new state is `Degraded` of its old state |
| `Components.Component.Repair` | Home.py:58-61 | the component's new state is `Repaired` of its old state |
| `Computers.CheckFrom` | Home.py:81-85 | a check pass from one component on keeps five components; `CheckFromMeaning` characterises it |
| `Computers.Checked` | Home.py:79-85 | a check pass keeps five components; `CheckedMeaning` characterises it |
| `Computers.CheckFromMeaning` | Home.py:81-85 | a check pass resumed part-way ends as the pass from the start does: components up to the first one broken once worn are worn, the rest untouched, and it stops iff there is such a component |
| `Computers.CheckedMeaning` | Home.py:79-85 | a check pass, with k the first component broken once worn: those before k were working and lost exactly one cycle, those up to k are worn, those after k are untouched, and the computer stops iff some component is broken afterwards |
| `Computers.RepairedAll` | Home.py:87-92 | repair leaves every component working, repairs exactly the broken ones, and leaves the others as they were |
| `Computers.CheckedKeepsHealthy` | Home.py:79-85 | a check pass keeps a computer healthy |
| `Computers.RepairedAllKeepsHealthy` | Home.py:87-92 | repair keeps every component sound and leaves the computer healthy and working |
| `Computers.RepairWithoutBrokenChangesNothing` | Home.py:89-91 | repairing a computer with no broken component changes no component |
| `Computers.Computer.constructor` | Home.py:65-77 | a new computer works, and its five components work with the drawn lifespans and have no fault and no warning |
| `Computers.Computer.CheckComponents` | Home.py:79-85 | the new components are `Checked` of the old ones, and the flag is cleared iff the pass stopped at a broken component |
| `Computers.Computer.Repair` | Home.py:87-92 | the new components are `RepairedAll` of the old ones, and the computer works |
| `Environments.Report` | Home.py:155-159 | a history entry names the computer, the component's kind and a fault from that kind's catalog entry |
| `Environments.Shown` | Home.py:163-170 | a history entry is shown with the computer's number, the component's name and exactly its catalog entry's problem, cost and remedy |
| `Environments.TickStep` | Home.py:150-154 | a component's step in a cycle is its wear, except that the warning is also raised when the lifespan lands on three |
| `Environments.TickFrom` | Home.py:148-161 | the inner loop from one component on keeps five components; `TickFromMeaning` characterises it |
| `Environments.Ticked` | Home.py:147-161 | a cycle over one computer keeps its number and five components; `TickedMeaning` characterises it |
| `Environments.TickStepIsWear` | Home.py:150-154 | on a sound component, the cycle's extra warning line changes nothing beyond the wear itself |
| `Environments.TickFromMeaning` | Home.py:148-161 | the inner loop resumed part-way ends as the loop from the start does: components up to the first one that breaks are stepped, the rest untouched, and exactly one entry is logged iff one breaks |
| `Environments.TickedMeaning` | Home.py:146-161 | one cycle over a computer: a stopped computer is unchanged and logs nothing; in a working one the components up to the first breaking one are stepped and the rest are untouched, the computer keeps working iff none breaks, and exactly then no entry is logged, otherwise one entry for that component |
| `Environments.TickedWears` | Home.py:148-155 | in a working computer, components before the breaking one lose exactly one cycle and still work; the breaking one goes from working to broken with the fault drawn for it |
| `Environments.TickedKeepsHealthy` | Home.py:146-161 | a cycle keeps a computer healthy |
| `Environments.LoggedFaultMayDiffer` | Home.py:53-53 | the fault written to the history is drawn apart from the fault the component stores, and with different draws they differ (cost 150 logged, 300 stored) |
| `Environments.LastComponentBreaks` | Home.py:146-161 | with lifespans 5, 4, 3, 2 and 1, the first four lose one cycle (the one reaching three raises its warning), the power supply breaks, the computer stops and one entry for the power supply is logged |
| `Environments.TickAll` | Home.py:145-161 | a cycle over the list keeps its length |
| `Environments.LogUpTo` | Home.py:146-161 | the entries logged for the first i computers, in list order, number at most i; `LogBoundedByWorking` and `LogEntriesAreBreaks` characterise them |
| `Environments.LogBoundedByWorking` | Home.py:146-161 | the entries logged for the first i computers number at most the working computers among them |
| `Environments.CycleLogBounded` | Home.py:145-161 | a cycle appends at most one history entry per working computer |
| `Environments.LogEntriesAreBreaks` | Home.py:155-161 | every entry a cycle logs comes from a computer that was working and is stopped now, carries its number, and holds a fault from its component's catalog entry |
| `Environments.StoppedComputersUntouched` | Home.py:147-147 | computers that are not working come out of a cycle unchanged |
| `Environments.TickAllKeepsHealthy` | Home.py:145-161 | a cycle keeps every computer healthy |
| `Environments.RowOf` | Home.py:178-189 | the status row of a computer has its number and flag, and per component its name, lifespan, state and warning, in kind order |
| `Environments.Environment.ValidViews` | Home.py:137-143 | the environment's invariant holds of its computers as values |
| `Environments.Environment.constructor` | Home.py:138-140 | a new environment has no computers and an empty history |
| `Environments.Environment.AddComputer` | Home.py:142-143 | the computer is appended and the invariant is kept |
| `Environments.Environment.RecordProblem` | Home.py:163-170 | the history gains exactly that one entry at its end |
| `Environments.Environment.FailureHistory` | Home.py:172-173 | the history is shown entry by entry, oldest first |
| `Environments.Environment.TickComputer` | Home.py:148-161 | the computer's new state and the history's new entry are those of `Ticked` |
| `Environments.Environment.TickAt` | Home.py:146-161 | the cycle over one position changes that computer as `Ticked` says, no other, keeps the list and the invariant, and appends that computer's entry |
| `Environments.Environment.VerifyStatus` | Home.py:145-161 | after a cycle the list is the same, the invariant holds, the computers are `TickAll` of the old ones, and the history is the old one followed by the cycle's entries in list order |
| `Environments.Environment.Status` | Home.py:175-191 | the status page has one row per computer with its number, flag, and each component's name, lifespan, state and warning; a working computer's row shows every component working |
| `Maintenance.LocateFrom` | Home.py:100-104 | a search from one position finds, if anything, a valid position; `LocateFromFound` and `LocateFromNone` characterise it |
| `Maintenance.Locate` | Home.py:98-104 | the search over all components finds, if anything, a valid position; `LocateMeaning` characterises it |
| `Maintenance.LocateFromFound` | Home.py:100-103 | a search from a position that finds something finds a component carrying the identifier, with none between the start and it |
| `Maintenance.LocateFromNone` | Home.py:100-104 | a search from a position that finds nothing means no component from there on carries the identifier |
| `Maintenance.LocateMeaning` | Home.py:98-104 | the search finds the first component, in list order, carrying the identifier, and finds nothing iff none carries it |
| `Maintenance.LocateOnlyMatch` | Home.py:98-104 | with distinct computer numbers, the component found is the only one carrying the identifier |
| `Maintenance.IntKeyNeverFound` | Home.py:102-102 | no component identifier equals an integer, so a search by an integer finds nothing |
| `Maintenance.IdFindsItsComponent` | Home.py:98-104 | with distinct computer numbers, searching by a component's own identifier finds exactly that component |
| `Maintenance.Maintained` | Home.py:113-115 | preventive maintenance of component j makes it `Boosted` (10..20 more cycles, working, warning cleared, fault kept) and leaves the computer's number, flag and other components as they were |
| `Maintenance.MaintainedKeepsHealthy` | Home.py:113-115 | preventive maintenance keeps a computer healthy |
| `Maintenance.FindComponentById` | Home.py:98-104 | the nested search returns what `Locate` specifies |
| `Maintenance.BoostAt` | Home.py:113-115 | boosting one component changes only its computer, as `Maintained` says, and keeps the invariant |
| `Maintenance.PreventiveMaintenance` | Home.py:107-118 | success iff some component carries the identifier; an unknown identifier changes nothing; otherwise the first such component is boosted and nothing else changes |
| `Maintenance.CorrectiveMaintenance` | Home.py:121-123 | the computer's components become `RepairedAll` of the old ones, and it works |
| `Requests.AfterRepair` | Home.py:216-219 | after a repair request the computer works; a working one is unchanged, a stopped one has its broken components repaired |
| `Requests.AfterRepairKeepsHealthy` | Home.py:216-219 | a repair request keeps a computer healthy |
| `Requests.RepairRequest` | Home.py:214-221 | a position outside the list is reported as not found and changes nothing; otherwise only the computer there changes, as `AfterRepair` says |
| `Requests.PreventiveRequestByNumber` | Home.py:200-204 | the preventive request as routed, with an integer, never succeeds and changes nothing |
| `Requests.PreventiveRequest` | Home.py:107-118 | the preventive request with a component identifier boosts the first component carrying it and reports success iff there is one |
| `Requests.AddRequest` | Home.py:224-228 | the new computer is numbered by the length of the list, appended with five working components with the drawn lifespans, and the history is unchanged; if every computer's number was its position, it still is |

## Left out

- The web layer is not modelled: Flask routes, JSON responses, the HTML page and the 404 status. The requests are modelled by what they do to the environment (`Requests`).
- The background thread, its 10-second `sleep` and the endless `simular_ciclos` loop are not modelled. One call of `VerifyStatus` is one cycle. The source has no locking, so races between the cycle thread and requests are not modelled: every operation runs alone.
- `print` and the singleton environment with computers 0, 1 and 2 are not modelled; the singleton is the constructor followed by `AddRequest` three times.
- The `random` module is not modelled: every draw is a parameter bounded as the source's call bounds it.
- Components inside a computer are values (`ComponentState`) in the computer's `parts` sequence, not separate objects. Aliasing between component objects is not modelled. The class `Component` models a single component's in-place operations.
- A fault is represented by its catalog key: the kind and a position 0..2. `Details` gives its exact problem, cost and remedy. The history stores that key; `Shown` gives the dictionary the source stores.
- Component identifiers are not stored with a computer's components: `ComponentId` computes them from the computer's number and the kind, as the computer's constructor builds them. The one exception is the stand-alone class `Component`, whose `id` field holds whatever identifier its constructor is given, as the source's does. That field is not tied to `ComponentId`, because no computer holds `Component` objects in this model.
- A component's `nome` is its `Kind`. A lookup with any other name (the dictionary's `KeyError`) cannot arise from the constructor. `KindNamed` models that lookup, and its failure is `None`.
- Environments.Environment.AddComputer: requires a healthy computer that is not already in the list, which the source does not check. Every caller (the setup and the add request) passes a new computer, which meets this.
- Computers.Computer.CheckComponents and `Computers.Computer.Repair` require five components; every computer has five.
- `hasattr(componente, 'aviso_manutencao')` in the status page is always true, because every component sets that attribute in its constructor. `Status` shows the field itself.

## Findings

| source | as written | input that shows it | evidently intended | confidence | as-written member | corrected member |
|---|---|---|---|---|---|---|
| Home.py:200-204 | the route converts the URL's component id with `<int:...>` and passes an int to the search, which compares it with `==` to str identifiers such as "0-mãe", so no comparison is ever true | POST /manutencao_preventiva/0 on any environment reports failure and boosts nothing | the route takes the component's str identifier, and the component carrying it is boosted | high (not executed) | `Requests.PreventiveRequestByNumber` | `Requests.PreventiveRequest` |

The as-written request rests on `Maintenance.IntKeyNeverFound`: no search by
an integer finds a component. The corrected request rests on
`Maintenance.IdFindsItsComponent`: with distinct computer numbers, a
component's identifier finds exactly that component.
