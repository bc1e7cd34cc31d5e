/** Orders that no run will finish: what a createOrder leaves behind, whether its
    rollback ran through or it was cut off before, and that nobody ever clears it. */
module SagaAbandoned {
  import opened Catalog
  import opened Saga
  import opened SagaInvariant
  import opened SagaSteps
  import opened SagaTheorems
  import opened SagaRollback

  // ---- Being cut off ----

  /** The step ends a run that is creating an order, short of announcing it: a crash,
      or a publish that is not reached. */
  predicate CutsOff(s: State, a: Action) {
    && Enabled(s, a)
    && (a.Crash? || (a.Announce? && a.reply.Unreached?))
    && Creator(s.procs[a.pid])
  }

  /** The run still means to give the line back, or to announce it. */
  ghost predicate Holds(w: World, q: Proc, p: ProductId) {
    match q
    case Reserving(_, lines, _, done) => done <= |lines| && Lists(lines, done, p)
    case Undoing(_, lines, held, done, _) =>
      done <= held <= |lines| && Lists(lines, held, p) && !Lists(lines, done, p)
    case Announcing(o, _) => o in w.orders && Lists(w.orders[o].lines, |w.orders[o].lines|, p)
    case _ => false
  }

  ghost predicate CutsOffHolding(s: State, a: Action, o: OrderId, p: ProductId) {
    CutsOff(s, a) && s.procs[a.pid].order == o && Holds(s.world, s.procs[a.pid], p)
  }

  predicate CutsOffRecorded(s: State, a: Action, o: OrderId) {
    CutsOff(s, a) && s.procs[a.pid].order == o && s.procs[a.pid].Announcing?
  }

  /** The order's run was cut off while holding the line. */
  ghost predicate CutOffHolding(actions: seq<Action>, o: OrderId, p: ProductId) {
    exists i :: 0 <= i < |actions| && CutsOffHolding(Run(EMPTY, actions[..i]), actions[i], o, p)
  }

  /** The order's run was cut off after its row was inserted and before it was announced. */
  ghost predicate CutOffRecorded(actions: seq<Action>, o: OrderId) {
    exists i :: 0 <= i < |actions| && CutsOffRecorded(Run(EMPTY, actions[..i]), actions[i], o)
  }

  lemma CutOffSnoc(past: seq<Action>, a: Action)
    ensures forall o, p :: CutOffHolding(past + [a], o, p) <==>
              CutOffHolding(past, o, p) || CutsOffHolding(Run(EMPTY, past), a, o, p)
    ensures forall o :: CutOffRecorded(past + [a], o) <==>
              CutOffRecorded(past, o) || CutsOffRecorded(Run(EMPTY, past), a, o)
  {
    hide Run, CutsOffHolding, CutsOffRecorded;
    var all := past + [a];
    assert forall i :: 0 <= i < |past| ==> all[..i] == past[..i] && all[i] == past[i];
    assert all[..|past|] == past && all[|past|] == a;
    forall o, p
      ensures CutOffHolding(all, o, p) <==> CutOffHolding(past, o, p) || CutsOffHolding(Run(EMPTY, past), a, o, p)
    {
      if i :| 0 <= i < |past| && CutsOffHolding(Run(EMPTY, past[..i]), past[i], o, p) {
        assert CutsOffHolding(Run(EMPTY, all[..i]), all[i], o, p);
      }
      if CutsOffHolding(Run(EMPTY, past), a, o, p) {
        assert CutsOffHolding(Run(EMPTY, all[..|past|]), all[|past|], o, p);
      }
    }
    forall o
      ensures CutOffRecorded(all, o) <==> CutOffRecorded(past, o) || CutsOffRecorded(Run(EMPTY, past), a, o)
    {
      if i :| 0 <= i < |past| && CutsOffRecorded(Run(EMPTY, past[..i]), past[i], o) {
        assert CutsOffRecorded(Run(EMPTY, all[..i]), all[i], o);
      }
      if CutsOffRecorded(Run(EMPTY, past), a, o) {
        assert CutsOffRecorded(Run(EMPTY, all[..|past|]), all[|past|], o);
      }
    }
  }

  // ---- Orders that no run is creating ----

  ghost predicate Creates(s: State, i: nat, o: OrderId) {
    i in s.procs && Creator(s.procs[i]) && s.procs[i].order == o
  }

  /** Never announced, and no run is creating it. */
  ghost predicate Untended(s: State, o: OrderId) {
    !Published(s.world, o) && forall i :: !Creates(s, i, o)
  }

  lemma OnlyCreatorsAreCutOff(s: State, a: Action, o: OrderId)
    requires Inv(s)
    requires CutsOffRecorded(s, a, o) || exists p :: CutsOffHolding(s, a, o, p)
    ensures Creates(s, a.pid, o) && o in s.world.drawn && a.pid !in Step(s, a).procs
    ensures forall i :: Creates(s, i, o) ==> i == a.pid
  {
    hide WorldOk, LineFate, Published, Holds;
    assert ProcOk(s.world, s.procs[a.pid]);
  }

  /** A creating run's step either carries on creating the same order or is its last. */
  lemma CreatorsCarryOn(s: State, a: Action, i: nat)
    requires Inv(s) && Enabled(s, a) && i in s.procs && Creator(s.procs[i])
    ensures i in Step(s, a).procs ==>
              Creator(Step(s, a).procs[i]) && Step(s, a).procs[i].order == s.procs[i].order
    ensures i !in Step(s, a).procs ==> Uses(a, i) && (a.Crash? || a.Announce?)
  {
    hide Inv, Reserve, Release, ByProduct, Settle, UpdateStatus, AddStock, CreateProduct;
  }

  /** A creating run announces its own order when its publish gets through. */
  lemma LastStep(s: State, a: Action, i: nat)
    requires Inv(s) && Enabled(s, a) && i in s.procs && Creator(s.procs[i]) && i !in Step(s, a).procs
    requires !Published(Step(s, a).world, s.procs[i].order)
    ensures CutsOff(s, a) && a.pid == i && Step(s, a).world == s.world
  {
    hide WorldOk, CreatorsDiffer, LineFate;
    CreatorsCarryOn(s, a, i);
    assert ProcOk(s.world, s.procs[i]);
  }

  /** What a creating run holds is what it is about to deal with and what it has stranded. */
  lemma RunHolds(w: World, q: Proc)
    requires WorldOk(w) && Creator(q) && ProcOk(w, q)
    ensures forall p :: Key(q.order, p) in w.catalog.rows <==> HasStranded(q, p) || Holds(w, q, p)
  {
    hide Sound, Total, OrderOk, FateOf, Lists;
    assert UnpublishedOk(w, q.order);
    forall p
      ensures Key(q.order, p) in w.catalog.rows <==> HasStranded(q, p) || Holds(w, q, p)
    {
      HeldIsRow(w, q.order, p);
      RunHoldsLine(w, q, p);
    }
  }

  lemma HeldIsRow(w: World, o: OrderId, p: ProductId)
    requires UnpublishedOk(w, o)
    ensures Key(o, p) in w.catalog.rows <==> LineFate(w, o, p).Held?
  {
    hide Story;
    assert LineFate(w, o, p).Untouched? || LineFate(w, o, p).Held? || LineFate(w, o, p).GivenBack?;
  }

  lemma RunHoldsLine(w: World, q: Proc, p: ProductId)
    requires Creator(q) && CreatorOk(w, q)
    ensures LineFate(w, q.order, p).Held? <==> HasStranded(q, p) || Holds(w, q, p)
  {
    hide LineFate, Published, Total;
  }

  /** A catalog call concerns the row of its own key only. */
  lemma OwnRowOnly(t: Tables, k: Key, units: int, x: Key)
    requires x != k
    ensures x in Reserve(t, k, units).0.rows <==> x in t.rows
    ensures x in Release(t, k).0.rows <==> x in t.rows
    ensures x in Commit(t, k).0.rows <==> x in t.rows
  {
  }

  lemma UntendedRowsStand(s: State, a: Action, o: OrderId, p: ProductId)
    requires Inv(s) && Untended(s, o) && Enabled(s, a)
    ensures Key(o, p) in Step(s, a).world.catalog.rows <==> Key(o, p) in s.world.catalog.rows
  {
    hide Inv, Reserve, Release, Commit, Published, ByProduct, UpdateStatus;
    match a
    case SettleLine(pid, _) =>
      SettlingIsPublished(s, pid);
      var q := s.procs[pid];
      OwnRowOnly(s.world.catalog, Key(q.order, q.lines[q.done].product), 0, Key(o, p));
    case ReserveLine(pid, _) =>
      assert !Creates(s, pid, o);
      var q := s.procs[pid];
      OwnRowOnly(s.world.catalog, Key(q.order, q.lines[q.done].product), q.lines[q.done].units, Key(o, p));
    case UndoLine(pid, _) =>
      assert !Creates(s, pid, o);
      var q := s.procs[pid];
      OwnRowOnly(s.world.catalog, Key(q.order, q.lines[q.done].product), 0, Key(o, p));
    case _ =>
  }

  lemma SettlingIsPublished(s: State, pid: nat)
    requires Inv(s) && pid in s.procs && s.procs[pid].Settling?
    ensures Published(s.world, s.procs[pid].order)
  {
    hide WorldOk, CreatorsDiffer, Published;
    assert ProcOk(s.world, s.procs[pid]);
  }

  lemma UntendedStaysUnpublished(s: State, a: Action, o: OrderId)
    requires Untended(s, o) && Enabled(s, a)
    ensures o in Step(s, a).world.orders <==> o in s.world.orders
    ensures !Published(Step(s, a).world, o)
  {
    hide Reserve, Release, Settle, AddStock, CreateProduct, ByProduct;
    if a.Record? || a.Announce? {
      assert !Creates(s, a.pid, o);
    }
  }

  /** No step concerns an order that no run is creating. */
  lemma UntendedStandsStill(s: State, a: Action, o: OrderId)
    requires Inv(s) && Untended(s, o) && Enabled(s, a)
    ensures forall p :: Key(o, p) in Step(s, a).world.catalog.rows <==> Key(o, p) in s.world.catalog.rows
    ensures o in Step(s, a).world.orders <==> o in s.world.orders
    ensures !Published(Step(s, a).world, o)
  {
    hide Inv, Untended, Step, Enabled;
    UntendedStaysUnpublished(s, a, o);
    forall p
      ensures Key(o, p) in Step(s, a).world.catalog.rows <==> Key(o, p) in s.world.catalog.rows
    {
      UntendedRowsStand(s, a, o, p);
    }
  }

  // ---- What an order's history leaves behind ----

  /** The line was stranded by the order's run, or the run was cut off while holding it. */
  ghost predicate LeftHeld(actions: seq<Action>, o: OrderId, p: ProductId) {
    CutOffHolding(actions, o, p) || exists pid :: Stranded(actions, pid, o, p)
  }

  /** The order's insert was reported lost, or its run was cut off before announcing it. */
  ghost predicate LeftRecorded(actions: seq<Action>, o: OrderId) {
    CutOffRecorded(actions, o) || exists pid :: RecordLost(actions, pid, o)
  }

  ghost predicate AccountsFor(actions: seq<Action>, w: World, o: OrderId) {
    && (forall p :: Key(o, p) in w.catalog.rows <==> LeftHeld(actions, o, p))
    && (o in w.orders <==> LeftRecorded(actions, o))
  }

  ghost predicate NeverCutOff(actions: seq<Action>, o: OrderId) {
    !CutOffRecorded(actions, o) && forall p :: !CutOffHolding(actions, o, p)
  }

  ghost predicate Accounts(actions: seq<Action>, s: State) {
    && (forall o :: Untended(s, o) ==> AccountsFor(actions, s.world, o))
    && (forall i :: i in s.procs && Creator(s.procs[i]) ==> NeverCutOff(actions, s.procs[i].order))
    && (forall o :: o !in s.world.drawn ==> NeverCutOff(actions, o))
  }

  lemma StaysUncut(s: State, past: seq<Action>, a: Action, o: OrderId)
    requires s == Run(EMPTY, past) && Inv(s) && Enabled(s, a) && NeverCutOff(past, o)
    requires o !in s.world.drawn || exists i :: Creates(s, i, o) && i in Step(s, a).procs
    ensures NeverCutOff(past + [a], o)
  {
    hide Run, Step, Enabled, CutsOffHolding, CutsOffRecorded, CutOffHolding, CutOffRecorded, WorldOk, ProcOk;
    CutOffSnoc(past, a);
    if CutsOffRecorded(s, a, o) || exists p :: CutsOffHolding(s, a, o, p) {
      OnlyCreatorsAreCutOff(s, a, o);
    }
  }

  /** The step leaves an order alone that no run was creating before it. */
  lemma StillAccountsFor(s: State, past: seq<Action>, a: Action, o: OrderId)
    requires s == Run(EMPTY, past) && Inv(s) && Enabled(s, a)
    requires Untended(s, o) && AccountsFor(past, s.world, o)
    ensures AccountsFor(past + [a], Step(s, a).world, o)
  {
    hide Inv, Untended, Run, Step, Enabled, LeftHeld, LeftRecorded;
    UntendedStandsStill(s, a, o);
    NothingBefalls(s, a, o);
    LeavesNoMore(s, past, a, o);
  }

  /** Nothing befalls an order that no run is creating. */
  lemma NothingBefalls(s: State, a: Action, o: OrderId)
    requires Inv(s) && Untended(s, o) && Enabled(s, a)
    ensures !Befalls(s, a, o)
  {
    hide Inv, Step, Enabled, Strands, LosesRecord, CutsOffHolding, CutsOffRecorded, Creates;
    NothingCutsOff(s, a, o);
    forall pid
      ensures !LosesRecord(s, a, pid, o)
    {
      if LosesRecord(s, a, pid, o) {
        FailingCreates(s, a, pid, o);
      }
    }
    forall pid, p
      ensures !Strands(s, a, pid, o, p)
    {
      if Strands(s, a, pid, o, p) {
        FailingCreates(s, a, pid, o);
      }
    }
  }

  lemma NothingCutsOff(s: State, a: Action, o: OrderId)
    requires Untended(s, o)
    ensures !CutsOffRecorded(s, a, o) && forall p :: !CutsOffHolding(s, a, o, p)
  {
    hide Holds, Published;
    if Enabled(s, a) && (a.Crash? || a.Announce?) {
      assert !Creates(s, a.pid, o);
    }
  }

  lemma FailingCreates(s: State, a: Action, pid: nat, o: OrderId)
    requires Inv(s) && (LosesRecord(s, a, pid, o) || exists p :: Strands(s, a, pid, o, p))
    ensures Creates(s, pid, o)
  {
    hide Inv, Strands, LosesRecord;
    OnlyCreatorsFail(s, a, pid, o);
  }

  /** The step strands a line of the order, loses its row or cuts off its run. */
  ghost predicate Befalls(s: State, a: Action, o: OrderId) {
    || CutsOffRecorded(s, a, o) || (exists p :: CutsOffHolding(s, a, o, p))
    || (exists pid :: LosesRecord(s, a, pid, o)) || (exists pid, p :: Strands(s, a, pid, o, p))
  }

  lemma LeavesNoMore(s: State, past: seq<Action>, a: Action, o: OrderId)
    requires s == Run(EMPTY, past) && !Befalls(s, a, o)
    ensures forall p :: LeftHeld(past + [a], o, p) <==> LeftHeld(past, o, p)
    ensures LeftRecorded(past + [a], o) <==> LeftRecorded(past, o)
  {
    hide Run, CutsOffHolding, CutsOffRecorded, CutOffHolding, CutOffRecorded;
    hide Strands, LosesRecord, Stranded, RecordLost;
    CutOffSnoc(past, a);
    HappenedSnoc(past, a);
    assert forall pid, p :: Stranded(past + [a], pid, o, p) <==> Stranded(past, pid, o, p);
    assert forall pid :: RecordLost(past + [a], pid, o) <==> RecordLost(past, pid, o);
  }

  /** The last step of an order's run leaves what the run has stranded and still holds. */
  lemma CutOffAccountsFor(s: State, past: seq<Action>, a: Action, i: nat, o: OrderId)
    requires s == Run(EMPTY, past) && Inv(s) && Enabled(s, a) && Remembers(past, s) && NeverCutOff(past, o)
    requires Creates(s, i, o) && i !in Step(s, a).procs && !Published(Step(s, a).world, o)
    ensures AccountsFor(past + [a], Step(s, a).world, o)
  {
    hide CutsOff, Run, Step, Enabled, Inv, RemembersFor, NeverCutOff, AccountsFor, Published;
    LastStep(s, a, i);
    var q := s.procs[i];
    assert RemembersFor(past, s.world, i, q);
    EndsWithRun(s, i);
    LeavesFromRun(s, past, a, i, q);
    assert Step(s, a).world == s.world;
    assert AccountsFor(past + [a], s.world, o) by { AccountsFromRun(past + [a], s.world, q); }
  }

  lemma EndsWithRun(s: State, i: nat)
    requires Inv(s) && i in s.procs && Creator(s.procs[i])
    ensures var q := s.procs[i];
            && (forall p :: Key(q.order, p) in s.world.catalog.rows <==> HasStranded(q, p) || Holds(s.world, q, p))
            && (q.order in s.world.orders <==> LeavesRow(s.world, q) || q.Announcing?)
  {
    hide WorldOk, ProcOk, CreatorsDiffer;
    RunHolds(s.world, s.procs[i]);
    RunHasRow(s.world, s.procs[i]);
  }

  /** What is left after the order's history is what its run has stranded and held. */
  ghost predicate LeftBy(actions: seq<Action>, w: World, q: Proc)
    requires Creator(q)
  {
    && (forall p :: LeftHeld(actions, q.order, p) <==> HasStranded(q, p) || Holds(w, q, p))
    && (LeftRecorded(actions, q.order) <==> LeavesRow(w, q) || q.Announcing?)
  }

  lemma AccountsFromRun(actions: seq<Action>, w: World, q: Proc)
    requires Creator(q) && LeftBy(actions, w, q)
    requires forall p :: Key(q.order, p) in w.catalog.rows <==> HasStranded(q, p) || Holds(w, q, p)
    requires q.order in w.orders <==> LeavesRow(w, q) || q.Announcing?
    ensures AccountsFor(actions, w, q.order)
  {
    hide LeftHeld, LeftRecorded, HasStranded, Holds, LeavesRow;
  }

  lemma LeavesFromRun(s: State, past: seq<Action>, a: Action, i: nat, q: Proc)
    requires s == Run(EMPTY, past) && CutsOff(s, a) && a.pid == i && s.procs[i] == q && Creator(q)
    requires RemembersFor(past, s.world, i, q) && NeverCutOff(past, q.order)
    ensures LeftBy(past + [a], s.world, q)
  {
    var o := q.order;
    assert CutsOffRecorded(s, a, o) <==> q.Announcing?;
    NothingElseHappens(s, a);
    hide CutsOff, Run, CutsOffHolding, CutsOffRecorded, CutOffHolding, CutOffRecorded, HasStranded, LeavesRow, Holds;
    hide Strands, LosesRecord, Stranded, RecordLost, LeftHeld;
    CutOffSnoc(past, a);
    HappenedSnoc(past, a);
    forall p
      ensures LeftHeld(past + [a], o, p) <==> HasStranded(q, p) || Holds(s.world, q, p)
    {
      LeavesLine(s, past, a, i, q, p);
    }
    assert RecordLost(past + [a], i, o) <==> LeavesRow(s.world, q);
  }

  lemma LeavesLine(s: State, past: seq<Action>, a: Action, i: nat, q: Proc, p: ProductId)
    requires s == Run(EMPTY, past) && CutsOff(s, a) && a.pid == i && s.procs[i] == q && Creator(q)
    requires RemembersFor(past, s.world, i, q) && NeverCutOff(past, q.order)
    ensures LeftHeld(past + [a], q.order, p) <==> HasStranded(q, p) || Holds(s.world, q, p)
  {
    var o := q.order;
    assert CutsOffHolding(s, a, o, p) <==> Holds(s.world, q, p);
    NothingElseHappens(s, a);
    assert forall pid :: Stranded(past, pid, o, p) <==> pid == i && HasStranded(q, p);
    assert !CutOffHolding(past, o, p);
    hide CutsOff, Run, CutsOffHolding, CutOffHolding, HasStranded, Holds, RemembersFor, NeverCutOff;
    hide Strands, LosesRecord, Stranded, RecordLost;
    CutOffSnoc(past, a);
    HappenedSnoc(past, a);
    assert Stranded(past + [a], i, o, p) <==> HasStranded(q, p);
  }

  lemma NothingElseHappens(s: State, a: Action)
    requires CutsOff(s, a)
    ensures forall pid, o, p :: !Strands(s, a, pid, o, p)
    ensures forall pid, o :: !LosesRecord(s, a, pid, o)
  {
    hide Reserve;
  }

  lemma RunHasRow(w: World, q: Proc)
    requires WorldOk(w) && Creator(q) && ProcOk(w, q)
    ensures q.order in w.orders <==> LeavesRow(w, q) || q.Announcing?
  {
    hide WorldOk, LineFate, Published, Total;
  }

  lemma StepAccounts(s: State, past: seq<Action>, a: Action)
    requires s == Run(EMPTY, past) && Inv(s) && Enabled(s, a) && Remembers(past, s) && Accounts(past, s)
    ensures Accounts(past + [a], Step(s, a))
  {
    hide Run, Step, Enabled, Inv, Remembers, AccountsFor, NeverCutOff;
    var s' := Step(s, a);
    DrawnGrows(s, a);
    forall o | Untended(s', o)
      ensures AccountsFor(past + [a], s'.world, o)
    {
      if i :| Creates(s, i, o) {
        CreatorsCarryOn(s, a, i);
        assert !Creates(s', i, o);
        CutOffAccountsFor(s, past, a, i, o);
      } else {
        UnpublishedBefore(s, a, o);
        StillAccountsFor(s, past, a, o);
      }
    }
    forall i | i in s'.procs && Creator(s'.procs[i])
      ensures NeverCutOff(past + [a], s'.procs[i].order)
    {
      CreatorWas(s, a, i);
      StaysUncut(s, past, a, s'.procs[i].order);
    }
    forall o | o !in s'.world.drawn
      ensures NeverCutOff(past + [a], o)
    {
      StaysUncut(s, past, a, o);
    }
  }

  /** A creating run was creating the same order before, or has just drawn its id. */
  lemma CreatorWas(s: State, a: Action, i: nat)
    requires Inv(s) && Enabled(s, a) && i in Step(s, a).procs && Creator(Step(s, a).procs[i])
    ensures Creates(s, i, Step(s, a).procs[i].order) || Step(s, a).procs[i].order !in s.world.drawn
  {
    if i !in s.procs {
      NewCreators(s, a, i);
    } else if Uses(a, i) {
      OwnStepRemembers(s, a, i);
    } else {
      StepsElsewhere(s, a, i);
    }
  }

  lemma UnpublishedBefore(s: State, a: Action, o: OrderId)
    requires Enabled(s, a) && !Published(Step(s, a).world, o)
    ensures !Published(s.world, o)
  {
    hide Step;
    PerformExtends(s, a);
  }

  lemma {:induction false} RunsAccount(actions: seq<Action>)
    ensures Accounts(actions, Run(EMPTY, actions))
  {
    hide Accounts;
    if actions == [] {
      NothingToAccountFor();
    } else {
      hide Inv, Step, Enabled;
      var past, a := actions[..|actions| - 1], actions[|actions| - 1];
      RunsAccount(past);
      ReachedOk(past);
      RunsRemember(past);
      assert past + [a] == actions;
      var s := Run(EMPTY, past);
      if Enabled(s, a) {
        StepAccounts(s, past, a);
      } else {
        IdleAccounts(s, past, a);
      }
    }
  }

  lemma NothingToAccountFor()
    ensures Accounts([], Run(EMPTY, []))
  {
  }

  lemma IdleAccounts(s: State, past: seq<Action>, a: Action)
    requires s == Run(EMPTY, past) && !Enabled(s, a) && Accounts(past, s)
    ensures Accounts(past + [a], s)
  {
    forall o
      ensures !Befalls(s, a, o)
    {
    }
    hide Run, Enabled, Untended, LeftHeld, LeftRecorded, Befalls;
    forall o
      ensures NeverCutOff(past, o) ==> NeverCutOff(past + [a], o)
      ensures AccountsFor(past, s.world, o) ==> AccountsFor(past + [a], s.world, o)
    {
      LeavesNoMore(s, past, a, o);
      StaysUncutFrom(s, past, a, o);
    }
    hide NeverCutOff, AccountsFor;
  }

  lemma StaysUncutFrom(s: State, past: seq<Action>, a: Action, o: OrderId)
    requires s == Run(EMPTY, past) && !Befalls(s, a, o)
    ensures NeverCutOff(past, o) ==> NeverCutOff(past + [a], o)
  {
    hide Run, CutsOffHolding, CutsOffRecorded, CutOffHolding, CutOffRecorded;
    CutOffSnoc(past, a);
  }

  // ---- What a createOrder that is over leaves behind ----

  /** Nobody will finish the order: it was never announced, and any run still at it
      has given up and rolled back. */
  ghost predicate Over(s: State, o: OrderId) {
    !Published(s.world, o) && forall i :: Creates(s, i, o) ==> GaveUp(s, i)
  }

  /** However its run ended, a line of such an order is still held exactly if it was
      stranded or the run was cut off while holding it, and the order has a row exactly
      if its insert was reported lost or the run was cut off before announcing it. */
  lemma OverLeavesExactly(actions: seq<Action>, o: OrderId)
    requires Over(Run(EMPTY, actions), o)
    ensures AccountsFor(actions, Run(EMPTY, actions).world, o)
  {
    hide Run, Stranded, RecordLost, CutOffHolding, CutOffRecorded;
    RunsAccount(actions);
    var s := Run(EMPTY, actions);
    if i :| Creates(s, i, o) {
      RollbackLeavesTheStranded(actions, i);
      RunsRemember(actions);
      assert RemembersFor(actions, s.world, i, s.procs[i]);
      assert NeverCutOff(actions, o);
    }
  }

  /** createOrder is all or nothing, whatever other runs do meanwhile and however its own
      run ended, exactly if nothing of the kind happened to it. */
  lemma CreateIsAllOrNothing(actions: seq<Action>, o: OrderId)
    requires Over(Run(EMPTY, actions), o)
    ensures Blank(Run(EMPTY, actions).world, o) <==>
            !LeftRecorded(actions, o) && forall p :: !LeftHeld(actions, o, p)
  {
    hide Run, LeftHeld, LeftRecorded, Over;
    OverLeavesExactly(actions, o);
    var w := Run(EMPTY, actions).world;
    if forall p :: !LeftHeld(actions, o, p) {
      forall k | k in w.catalog.rows
        ensures k.order != o
      {
        assert k == Key(k.order, k.product);
        assert !LeftHeld(actions, o, k.product);
      }
    }
  }

  /** What an ended run leaves behind nobody ever clears: no delivery, and no other run. */
  lemma AbandonedForGood(before: seq<Action>, after: seq<Action>, o: OrderId)
    requires var s := Run(EMPTY, before); Untended(s, o) && o in s.world.drawn
    ensures var s, s' := Run(EMPTY, before), Run(EMPTY, before + after);
            && Untended(s', o)
            && (forall p :: Key(o, p) in s'.world.catalog.rows <==> Key(o, p) in s.world.catalog.rows)
            && (o in s'.world.orders <==> o in s.world.orders)
  {
    hide Run, Untended, Inv;
    ReachedOk(before);
    RunAppend(EMPTY, before, after);
    StaysAbandoned(Run(EMPTY, before), after, o);
  }

  lemma {:induction false} StaysAbandoned(s: State, actions: seq<Action>, o: OrderId)
    requires Inv(s) && Untended(s, o) && o in s.world.drawn
    ensures var s' := Run(s, actions);
            && Untended(s', o) && o in s'.world.drawn
            && (forall p :: Key(o, p) in s'.world.catalog.rows <==> Key(o, p) in s.world.catalog.rows)
            && (o in s'.world.orders <==> o in s.world.orders)
  {
    hide Inv, Step, Enabled, Untended;
    if actions != [] {
      var front, a := actions[..|actions| - 1], actions[|actions| - 1];
      StaysAbandoned(s, front, o);
      RunKeepsInv(s, front);
      var t := Run(s, front);
      if Enabled(t, a) {
        UntendedStandsStill(t, a, o);
        StaysUntended(t, a, o);
        DrawnGrows(t, a);
      }
    }
  }

  lemma StaysUntended(s: State, a: Action, o: OrderId)
    requires Inv(s) && Untended(s, o) && o in s.world.drawn && Enabled(s, a)
    ensures Untended(Step(s, a), o)
  {
    hide Inv, Step, Enabled;
    UntendedStandsStill(s, a, o);
    forall i
      ensures !Creates(Step(s, a), i, o)
    {
      assert !Creates(s, i, o);
      if Creates(Step(s, a), i, o) {
        CreatorWas(s, a, i);
      }
    }
  }

  // ---- Runs that are cut off ----

  /** A crash after the stock is held leaves it held, for an order that has no row and
      no run, and nothing was stranded. */
  lemma CrashLeavesHold()
    ensures var actions := [STOCK_UP, ASK, PriceLine(1), ReserveLine(1, Answered), Crash(1)];
            var s := Run(EMPTY, actions);
            s.procs == map[] && Key(7, 1) in s.world.catalog.rows && 7 !in s.world.orders
  {
    var before := [STOCK_UP, ASK, PriceLine(1), ReserveLine(1, Answered)];
    var held := State(World(STOCK_HELD, map[], map[], {}, {7}, []), map[1 := Reserving(7, ONE_LINE, 10, 1)]);
    var crashed := State(World(STOCK_HELD, map[], map[], {}, {7}, []), map[]);
    assert Perform(held, Crash(1)) == crashed;
    hide Perform;
    ReservedRun();
    RunOn(before, held, Crash(1), crashed);
    assert before + [Crash(1)] == [STOCK_UP, ASK, PriceLine(1), ReserveLine(1, Answered), Crash(1)];
  }
}
