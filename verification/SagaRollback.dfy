/** What a createOrder that gives up leaves behind: exactly what its own garbled
    replies and failed releases left, whatever other runs do meanwhile. */
module SagaRollback {
  import opened Catalog
  import opened Saga
  import opened SagaInvariant
  import opened SagaSteps
  import opened SagaTheorems

  /** No row and no hold carry the order's id. */
  ghost predicate Blank(w: World, o: OrderId) {
    o !in w.orders && forall k :: k in w.catalog.rows ==> k.order != o
  }

  /** Only the run that creates an order ever inserts its row. */
  lemma OthersDoNotRecord(s: State, me: nat, a: Action)
    requires Inv(s) && me in s.procs && Creator(s.procs[me]) && !Uses(a, me)
    ensures s.procs[me].order in Perform(s, a).world.orders <==> s.procs[me].order in s.world.orders
  {
    hide WorldOk, ProcOk, Reserve, Release, Settle, AddStock, CreateProduct, ByProduct;
  }

  lemma UndoIsDone(w: World, p: Proc)
    requires Sound(w.catalog) && p.Undoing? && CreatorOk(w, p) && p.done < p.held
    ensures Release(w.catalog, Key(p.order, p.lines[p.done].product)).1.Done?
  {
    hide FateOf, Sound, Published;
    HeldHasProduct(w.catalog, Key(p.order, p.lines[p.done].product));
  }

  // ---- What goes wrong in a run ----

  /** The step holds or keeps a line of the order and the run that creates it will not
      give it back: the Reserve took effect but its reply was lost, or the release
      was not reached. */
  predicate Strands(s: State, a: Action, pid: nat, o: OrderId, p: ProductId) {
    && Enabled(s, a) && Uses(a, pid)
    && match a
       case ReserveLine(_, reply) =>
         var q := s.procs[pid];
         && reply.Lost? && q.order == o && q.lines[q.done].product == p
         && Reserve(s.world.catalog, Key(o, p), q.lines[q.done].units).1.Done?
       case UndoLine(_, reached) =>
         var q := s.procs[pid];
         !reached && q.order == o && q.lines[q.done].product == p
       case _ => false
  }

  /** The order's row is inserted but the run that creates it is told it was not. */
  predicate LosesRecord(s: State, a: Action, pid: nat, o: OrderId) {
    Enabled(s, a) && a.Record? && a.pid == pid && a.reply.Lost? && s.procs[pid].order == o
  }

  /** Some step of the run stranded the line. */
  ghost predicate Stranded(actions: seq<Action>, pid: nat, o: OrderId, p: ProductId) {
    exists i :: 0 <= i < |actions| && Strands(Run(EMPTY, actions[..i]), actions[i], pid, o, p)
  }

  ghost predicate RecordLost(actions: seq<Action>, pid: nat, o: OrderId) {
    exists i :: 0 <= i < |actions| && LosesRecord(Run(EMPTY, actions[..i]), actions[i], pid, o)
  }

  lemma HappenedSnocTo(past: seq<Action>, a: Action, pid: nat, o: OrderId)
    ensures forall p :: Stranded(past + [a], pid, o, p) <==>
              Stranded(past, pid, o, p) || Strands(Run(EMPTY, past), a, pid, o, p)
    ensures RecordLost(past + [a], pid, o) <==> RecordLost(past, pid, o) || LosesRecord(Run(EMPTY, past), a, pid, o)
  {
    hide Run, Strands, LosesRecord;
    var all := past + [a];
    assert forall i :: 0 <= i < |past| ==> all[..i] == past[..i] && all[i] == past[i];
    assert all[..|past|] == past && all[|past|] == a;
    forall p
      ensures Stranded(all, pid, o, p) <==> Stranded(past, pid, o, p) || Strands(Run(EMPTY, past), a, pid, o, p)
    {
      if i :| 0 <= i < |past| && Strands(Run(EMPTY, past[..i]), past[i], pid, o, p) {
        assert Strands(Run(EMPTY, all[..i]), all[i], pid, o, p);
      }
      if Strands(Run(EMPTY, past), a, pid, o, p) {
        assert Strands(Run(EMPTY, all[..|past|]), all[|past|], pid, o, p);
      }
    }
    if i :| 0 <= i < |past| && LosesRecord(Run(EMPTY, past[..i]), past[i], pid, o) {
      assert LosesRecord(Run(EMPTY, all[..i]), all[i], pid, o);
    }
    if LosesRecord(Run(EMPTY, past), a, pid, o) {
      assert LosesRecord(Run(EMPTY, all[..|past|]), all[|past|], pid, o);
    }
  }

  lemma HappenedSnoc(past: seq<Action>, a: Action)
    ensures forall pid, o, p :: Stranded(past + [a], pid, o, p) <==>
              Stranded(past, pid, o, p) || Strands(Run(EMPTY, past), a, pid, o, p)
    ensures forall pid, o :: RecordLost(past + [a], pid, o) <==>
              RecordLost(past, pid, o) || LosesRecord(Run(EMPTY, past), a, pid, o)
  {
    hide Run, Strands, LosesRecord, Stranded, RecordLost;
    forall pid, o, p
      ensures Stranded(past + [a], pid, o, p) <==>
              Stranded(past, pid, o, p) || Strands(Run(EMPTY, past), a, pid, o, p)
    {
      HappenedSnocTo(past, a, pid, o);
    }
    forall pid, o
      ensures RecordLost(past + [a], pid, o) <==>
              RecordLost(past, pid, o) || LosesRecord(Run(EMPTY, past), a, pid, o)
    {
      HappenedSnocTo(past, a, pid, o);
    }
  }

  // ---- A creating run's state remembers what went wrong ----

  predicate HasStranded(q: Proc, p: ProductId) {
    q.Undoing? && p in q.stranded
  }

  predicate LeavesRow(w: World, q: Proc) {
    q.Undoing? && q.order in w.orders
  }

  ghost predicate RemembersFor(actions: seq<Action>, w: World, i: nat, q: Proc)
    requires Creator(q)
  {
    && (forall pid, p :: Stranded(actions, pid, q.order, p) <==> pid == i && HasStranded(q, p))
    && (forall pid :: RecordLost(actions, pid, q.order) <==> pid == i && LeavesRow(w, q))
  }

  ghost predicate NothingHappened(actions: seq<Action>, o: OrderId) {
    && (forall pid, p :: !Stranded(actions, pid, o, p))
    && (forall pid :: !RecordLost(actions, pid, o))
  }

  ghost predicate Remembers(actions: seq<Action>, s: State) {
    && (forall i :: i in s.procs && Creator(s.procs[i]) ==> RemembersFor(actions, s.world, i, s.procs[i]))
    && (forall o :: o !in s.world.drawn ==> NothingHappened(actions, o))
  }

  /** Only the run that creates an order can strand its lines or lose its row. */
  lemma OnlyCreatorsFail(s: State, a: Action, pid: nat, o: OrderId)
    requires Inv(s)
    requires (exists p :: Strands(s, a, pid, o, p)) || LosesRecord(s, a, pid, o)
    ensures pid in s.procs && Creator(s.procs[pid]) && s.procs[pid].order == o && o in s.world.drawn && Uses(a, pid)
  {
    hide WorldOk, CreatorsDiffer, LineFate, Published, Reserve;
    assert ProcOk(s.world, s.procs[pid]);
  }

  /** A creating run's own step records in its state exactly what went wrong in it. */
  lemma OwnStepRemembers(s: State, a: Action, i: nat)
    requires Inv(s) && Enabled(s, a) && Uses(a, i) && i in s.procs
    requires i in Step(s, a).procs && Creator(Step(s, a).procs[i])
    ensures var s' := Step(s, a);
            var q, q' := s.procs[i], s'.procs[i];
            && Creator(q) && q'.order == q.order
            && (forall p :: HasStranded(q', p) <==> HasStranded(q, p) || Strands(s, a, i, q.order, p))
            && (LeavesRow(s'.world, q') <==> LeavesRow(s.world, q) || LosesRecord(s, a, i, q.order))
  {
    hide Inv, Reserve, Release, ByProduct, Settle, UpdateStatus;
    match a
    case PriceLine(_) => CreatingIsUnrecorded(s, i);
    case ReserveLine(_, _) => CreatingIsUnrecorded(s, i);
    case UndoLine(_, reached) => UndoingIsDone(s, i);
    case Record(_, _) =>
      CreatingIsUnrecorded(s, i);
      RecordsSomething(s, i);
    case _ =>
  }

  lemma CreatingIsUnrecorded(s: State, pid: nat)
    requires Inv(s) && pid in s.procs && (s.procs[pid].Pricing? || s.procs[pid].Reserving?)
    ensures s.procs[pid].order !in s.world.orders
  {
    hide WorldOk, LineFate, Published, CreatorsDiffer;
    assert ProcOk(s.world, s.procs[pid]);
  }

  lemma RecordsSomething(s: State, pid: nat)
    requires Inv(s) && pid in s.procs && s.procs[pid].Reserving?
    ensures s.procs[pid].lines != []
  {
    hide WorldOk, LineFate, Published, CreatorsDiffer;
    assert ProcOk(s.world, s.procs[pid]);
  }

  lemma UndoingIsDone(s: State, pid: nat)
    requires Inv(s) && pid in s.procs && s.procs[pid].Undoing? && s.procs[pid].done < s.procs[pid].held
    ensures var p := s.procs[pid];
            p.held <= |p.lines| && Release(s.world.catalog, Key(p.order, p.lines[p.done].product)).1.Done?
  {
    hide Sound, FateOf, CreatorsDiffer, OrderOk;
    assert ProcOk(s.world, s.procs[pid]);
    UndoIsDone(s.world, s.procs[pid]);
  }

  /** A step of another run leaves a creating run where it is, and concerns another order. */
  lemma OthersStepElsewhere(s: State, a: Action, i: nat)
    requires Inv(s) && Enabled(s, a) && !Uses(a, i) && i in s.procs && Creator(s.procs[i])
    ensures i in Step(s, a).procs && Step(s, a).procs[i] == s.procs[i]
    ensures LeavesRow(Step(s, a).world, s.procs[i]) <==> LeavesRow(s.world, s.procs[i])
    ensures forall pid, p :: !Strands(s, a, pid, s.procs[i].order, p)
    ensures forall pid :: !LosesRecord(s, a, pid, s.procs[i].order)
  {
    StepsElsewhere(s, a, i);
    OthersDoNotRecord(s, i, a);
    hide WorldOk, ProcOk, Step, Strands, LosesRecord, Uses;
    var o := s.procs[i].order;
    forall pid, p
      ensures !Strands(s, a, pid, o, p)
    {
      if Strands(s, a, pid, o, p) {
        OnlyCreatorsFail(s, a, pid, o);
      }
    }
    forall pid
      ensures !LosesRecord(s, a, pid, o)
    {
      if LosesRecord(s, a, pid, o) {
        OnlyCreatorsFail(s, a, pid, o);
      }
    }
  }

  lemma StepsElsewhere(s: State, a: Action, i: nat)
    requires Enabled(s, a) && !Uses(a, i)
    ensures i in Step(s, a).procs <==> i in s.procs
    ensures i in s.procs ==> Step(s, a).procs[i] == s.procs[i]
  {
    hide Reserve, Release, Settle, AddStock, CreateProduct, ByProduct, UpdateStatus;
  }

  lemma NewCreators(s: State, a: Action, i: nat)
    requires Enabled(s, a) && i !in s.procs && i in Step(s, a).procs && Creator(Step(s, a).procs[i])
    ensures Step(s, a).procs[i].Pricing? && Step(s, a).procs[i].order !in s.world.drawn
  {
    hide Reserve, Release, Settle, AddStock, CreateProduct, ByProduct, UpdateStatus, ValidRequest;
  }

  lemma NothingHappensTo(s: State, past: seq<Action>, a: Action, o: OrderId)
    requires s == Run(EMPTY, past) && Inv(s) && o !in s.world.drawn && NothingHappened(past, o)
    ensures NothingHappened(past + [a], o)
  {
    hide Inv, Run, Strands, LosesRecord, Stranded, RecordLost;
    HappenedSnoc(past, a);
    forall pid, p
      ensures !Strands(s, a, pid, o, p)
    {
      if Strands(s, a, pid, o, p) {
        OnlyCreatorsFail(s, a, pid, o);
      }
    }
    forall pid
      ensures !LosesRecord(s, a, pid, o)
    {
      if LosesRecord(s, a, pid, o) {
        OnlyCreatorsFail(s, a, pid, o);
      }
    }
  }

  lemma OwnRemembersNext(s: State, past: seq<Action>, a: Action, i: nat)
    requires s == Run(EMPTY, past) && Inv(s) && Enabled(s, a) && Remembers(past, s)
    requires Uses(a, i) && i in s.procs && i in Step(s, a).procs && Creator(Step(s, a).procs[i])
    ensures RemembersFor(past + [a], Step(s, a).world, i, Step(s, a).procs[i])
  {
    hide Inv, Run, Step, Enabled, Strands, LosesRecord, Stranded, RecordLost, HasStranded, LeavesRow, NothingHappened;
    OwnStepRemembers(s, a, i);
    var o := s.procs[i].order;
    assert RemembersFor(past, s.world, i, s.procs[i]);
    HappenedSnoc(past, a);
    forall pid, p | Strands(s, a, pid, o, p)
      ensures pid == i
    {
      OnlyCreatorsFail(s, a, pid, o);
      UsesOne(a, pid, i);
    }
    forall pid | LosesRecord(s, a, pid, o)
      ensures pid == i
    {
      OnlyCreatorsFail(s, a, pid, o);
      UsesOne(a, pid, i);
    }
  }

  lemma UsesOne(a: Action, i: nat, j: nat)
    requires Uses(a, i) && Uses(a, j)
    ensures i == j
  {
  }

  lemma OthersRememberNext(s: State, past: seq<Action>, a: Action, i: nat)
    requires s == Run(EMPTY, past) && Inv(s) && Enabled(s, a) && Remembers(past, s)
    requires !Uses(a, i) && i in s.procs && Creator(s.procs[i])
    ensures i in Step(s, a).procs && Step(s, a).procs[i] == s.procs[i]
    ensures RemembersFor(past + [a], Step(s, a).world, i, s.procs[i])
  {
    hide Inv, Run, Step, Enabled, Strands, LosesRecord, Stranded, RecordLost, HasStranded, LeavesRow, NothingHappened;
    OthersStepElsewhere(s, a, i);
    var o := s.procs[i].order;
    assert RemembersFor(past, s.world, i, s.procs[i]);
    HappenedSnoc(past, a);
  }

  lemma StepRemembers(s: State, past: seq<Action>, a: Action)
    requires s == Run(EMPTY, past) && Inv(s) && Enabled(s, a) && Remembers(past, s)
    ensures Remembers(past + [a], Step(s, a))
  {
    var s' := Step(s, a);
    assert s.world.drawn <= s'.world.drawn by { DrawnGrows(s, a); }
    hide Inv, Run, Step, Enabled, NothingHappened, RemembersFor;
    forall i | i in s'.procs && Creator(s'.procs[i])
      ensures RemembersFor(past + [a], s'.world, i, s'.procs[i])
    {
      if !Uses(a, i) {
        StepsElsewhere(s, a, i);
        OthersRememberNext(s, past, a, i);
      } else if i in s.procs {
        OwnRemembersNext(s, past, a, i);
      } else {
        NewCreators(s, a, i);
        NothingHappensTo(s, past, a, s'.procs[i].order);
        NewlyRemembers(past + [a], s'.world, i, s'.procs[i]);
      }
    }
    forall o | o !in s'.world.drawn
      ensures NothingHappened(past + [a], o)
    {
      NothingHappensTo(s, past, a, o);
    }
  }

  lemma NewlyRemembers(actions: seq<Action>, w: World, i: nat, q: Proc)
    requires q.Pricing? && NothingHappened(actions, q.order)
    ensures RemembersFor(actions, w, i, q)
  {
    hide Stranded, RecordLost;
  }

  lemma DrawnGrows(s: State, a: Action)
    requires Enabled(s, a)
    ensures s.world.drawn <= Step(s, a).world.drawn
  {
    hide Reserve, Release, Settle, AddStock, CreateProduct, ByProduct, UpdateStatus, ValidRequest;
  }

  lemma {:induction false} RunsRemember(actions: seq<Action>)
    ensures Remembers(actions, Run(EMPTY, actions))
  {
    hide Remembers;
    if actions == [] {
      NothingYet();
    } else {
      hide Inv, Step, Enabled;
      var past, a := actions[..|actions| - 1], actions[|actions| - 1];
      RunsRemember(past);
      ReachedOk(past);
      assert past + [a] == actions;
      var s := Run(EMPTY, past);
      if Enabled(s, a) {
        StepRemembers(s, past, a);
      } else {
        IdleRemembers(s, past, a);
      }
    }
  }

  lemma NothingYet()
    ensures Remembers([], Run(EMPTY, []))
  {
  }

  lemma IdleRemembers(s: State, past: seq<Action>, a: Action)
    requires s == Run(EMPTY, past) && !Enabled(s, a) && Remembers(past, s)
    ensures Remembers(past + [a], s)
  {
    HappenedSnoc(past, a);
    assert forall pid, o, p :: !Strands(s, a, pid, o, p);
    assert forall pid, o :: !LosesRecord(s, a, pid, o);
    hide Strands, LosesRecord;
    hide Run, Enabled, Stranded, RecordLost, HasStranded, LeavesRow;
    forall i | i in s.procs && Creator(s.procs[i])
      ensures RemembersFor(past + [a], s.world, i, s.procs[i])
    {
      assert RemembersFor(past, s.world, i, s.procs[i]);
    }
    forall o | o !in s.world.drawn
      ensures NothingHappened(past + [a], o)
    {
      assert NothingHappened(past, o);
    }
  }

  // ---- What a failed createOrder leaves behind ----

  /** createOrder has given up and its rollback has run through. */
  predicate GaveUp(s: State, pid: nat) {
    pid in s.procs && s.procs[pid].Undoing? && s.procs[pid].done == s.procs[pid].held
  }

  lemma RollbackLeft(w: World, q: Proc)
    requires WorldOk(w) && ProcOk(w, q) && q.Undoing? && q.done == q.held
    ensures forall p :: Key(q.order, p) in w.catalog.rows <==> p in q.stranded
  {
    hide Sound, Story, Total, OrderOk;
    assert UnpublishedOk(w, q.order);
    forall p
      ensures Key(q.order, p) in w.catalog.rows <==> p in q.stranded
    {
      assert LineFate(w, q.order, p) == FateOf(w.catalog, Key(q.order, p));
    }
  }

  /** After the rollback a line is still held exactly if this run's Reserve of it took
      effect and was reported lost, or this run's release of it did not get through;
      and the order has a row exactly if this run's insert was reported lost. */
  lemma RollbackLeavesTheStranded(actions: seq<Action>, pid: nat)
    requires GaveUp(Run(EMPTY, actions), pid)
    ensures var s := Run(EMPTY, actions);
            var o := s.procs[pid].order;
            && (forall p :: Key(o, p) in s.world.catalog.rows <==> Stranded(actions, pid, o, p))
            && (o in s.world.orders <==> RecordLost(actions, pid, o))
  {
    hide Run, WorldOk, CreatorsDiffer, ProcOk, Stranded, RecordLost;
    ReachedOk(actions);
    RunsRemember(actions);
    var s := Run(EMPTY, actions);
    RollbackLeft(s.world, s.procs[pid]);
    assert RemembersFor(actions, s.world, pid, s.procs[pid]);
  }

  /** A completed rollback leaves nothing, whatever other runs do meanwhile, exactly if none
      of the steps of its own run went wrong that way. */
  lemma RollbackLeavesNothingIff(actions: seq<Action>, pid: nat)
    requires GaveUp(Run(EMPTY, actions), pid)
    ensures var s := Run(EMPTY, actions);
            var o := s.procs[pid].order;
            Blank(s.world, o) <==> !RecordLost(actions, pid, o) && forall p :: !Stranded(actions, pid, o, p)
  {
    hide Run, Stranded, RecordLost;
    RollbackLeavesTheStranded(actions, pid);
    var s := Run(EMPTY, actions);
    var o := s.procs[pid].order;
    if forall p :: !Stranded(actions, pid, o, p) {
      forall k | k in s.world.catalog.rows
        ensures k.order != o
      {
        assert k == Key(k.order, k.product);
        assert !Stranded(actions, pid, o, k.product);
      }
    }
  }

  /** The reply to the step is heard, and a release gets through. */
  predicate Heard(a: Action) {
    match a
    case ReserveLine(_, reply) => !reply.Lost?
    case Record(_, reply) => !reply.Lost?
    case UndoLine(_, reached) => reached
    case _ => true
  }

  /** So a run whose own replies are heard and whose releases get through leaves nothing. */
  lemma HeardRunsLeaveNothing(actions: seq<Action>, pid: nat)
    requires GaveUp(Run(EMPTY, actions), pid)
    requires forall i :: 0 <= i < |actions| && Uses(actions[i], pid) ==> Heard(actions[i])
    ensures Blank(Run(EMPTY, actions).world, Run(EMPTY, actions).procs[pid].order)
  {
    hide Run, Blank, Enabled, Reserve;
    RollbackLeavesNothingIff(actions, pid);
    var o := Run(EMPTY, actions).procs[pid].order;
    forall i, p | 0 <= i < |actions|
      ensures !Strands(Run(EMPTY, actions[..i]), actions[i], pid, o, p)
      ensures !LosesRecord(Run(EMPTY, actions[..i]), actions[i], pid, o)
    {
      assert Uses(actions[i], pid) ==> Heard(actions[i]);
    }
  }

  // ---- Runs that leave something ----

  const STOCK_UP := NewProduct(1, 5, 10)
  const ASK := Accept(1, 7, [Item(1, 2)])
  const ONE_LINE := [Line(1, 2, 5)]
  const STOCK_FREE := Tables(map[1 := Product(5, 10, 0)], map[], [Stocked(1, 10)])
  const STOCK_HELD := Tables(map[1 := Product(5, 10, 2)], map[Key(7, 1) := 2],
                            [Stocked(1, 10), Moved(Hold, Key(7, 1), 2)])

  lemma RunOn(past: seq<Action>, s: State, a: Action, s': State)
    requires Run(EMPTY, past) == s && Perform(s, a) == s'
    ensures Run(EMPTY, past + [a]) == s'
  {
    hide Perform;
    assert (past + [a])[..|past|] == past;
  }

  lemma PricedRun()
    ensures Run(EMPTY, [STOCK_UP, ASK, PriceLine(1)]) ==
            State(World(STOCK_FREE, map[], map[], {}, {7}, []), map[1 := Reserving(7, ONE_LINE, 10, 0)])
  {
    var stocked := State(World(STOCK_FREE, map[], map[], {}, {}, []), map[]);
    var asked := State(World(STOCK_FREE, map[], map[], {}, {7}, []), map[1 := Pricing(7, [Item(1, 2)], [], 0)]);
    var priced := State(World(STOCK_FREE, map[], map[], {}, {7}, []), map[1 := Reserving(7, ONE_LINE, 10, 0)]);
    assert Perform(EMPTY, STOCK_UP) == stocked;
    assert Perform(stocked, ASK) == asked;
    assert [] + ONE_LINE == ONE_LINE;
    assert Perform(asked, PriceLine(1)) == priced;
    hide Perform;
    RunOn([], EMPTY, STOCK_UP, stocked);
    RunOn([STOCK_UP], stocked, ASK, asked);
    RunOn([STOCK_UP, ASK], asked, PriceLine(1), priced);
    assert [] + [STOCK_UP] == [STOCK_UP] && [STOCK_UP] + [ASK] == [STOCK_UP, ASK];
    assert [STOCK_UP, ASK] + [PriceLine(1)] == [STOCK_UP, ASK, PriceLine(1)];
  }

  /** A Reserve that takes effect and is reported as an error is never given back. */
  lemma LostReserveLeavesHold()
    ensures var s := Run(EMPTY, [STOCK_UP, ASK, PriceLine(1), ReserveLine(1, Lost)]);
            && GaveUp(s, 1) && s.procs[1].order == 7
            && Key(7, 1) in s.world.catalog.rows && 7 !in s.world.orders
  {
    var priced := State(World(STOCK_FREE, map[], map[], {}, {7}, []), map[1 := Reserving(7, ONE_LINE, 10, 0)]);
    var failed := State(World(STOCK_HELD, map[], map[], {}, {7}, []), map[1 := Undoing(7, ONE_LINE, 0, 0, {1})]);
    assert Perform(priced, ReserveLine(1, Lost)) == failed;
    hide Perform;
    PricedRun();
    RunOn([STOCK_UP, ASK, PriceLine(1)], priced, ReserveLine(1, Lost), failed);
    assert [STOCK_UP, ASK, PriceLine(1)] + [ReserveLine(1, Lost)] ==
           [STOCK_UP, ASK, PriceLine(1), ReserveLine(1, Lost)];
  }

  lemma ReservedRun()
    ensures Run(EMPTY, [STOCK_UP, ASK, PriceLine(1), ReserveLine(1, Answered)]) ==
            State(World(STOCK_HELD, map[], map[], {}, {7}, []), map[1 := Reserving(7, ONE_LINE, 10, 1)])
  {
    var priced := State(World(STOCK_FREE, map[], map[], {}, {7}, []), map[1 := Reserving(7, ONE_LINE, 10, 0)]);
    var held := State(World(STOCK_HELD, map[], map[], {}, {7}, []), map[1 := Reserving(7, ONE_LINE, 10, 1)]);
    assert Perform(priced, ReserveLine(1, Answered)) == held;
    hide Perform;
    PricedRun();
    RunOn([STOCK_UP, ASK, PriceLine(1)], priced, ReserveLine(1, Answered), held);
    assert [STOCK_UP, ASK, PriceLine(1)] + [ReserveLine(1, Answered)] ==
           [STOCK_UP, ASK, PriceLine(1), ReserveLine(1, Answered)];
  }

  /** An insert that takes effect and is reported as an error leaves a row whose stock
      has been given back. */
  lemma LostRecordLeavesRow()
    ensures var s := Run(EMPTY, [STOCK_UP, ASK, PriceLine(1), ReserveLine(1, Answered),
                                 Record(1, Lost), UndoLine(1, true)]);
            && GaveUp(s, 1) && s.procs[1].order == 7 && 7 in s.world.orders
            && forall k :: k in s.world.catalog.rows ==> k.order != 7
  {
    var before := [STOCK_UP, ASK, PriceLine(1), ReserveLine(1, Answered)];
    var held := State(World(STOCK_HELD, map[], map[], {}, {7}, []), map[1 := Reserving(7, ONE_LINE, 10, 1)]);
    var failed := Perform(held, Record(1, Lost));
    assert failed.world.catalog == STOCK_HELD && 7 in failed.world.orders && 1 in failed.procs;
    assert failed.procs[1] == Undoing(7, ONE_LINE, 1, 0, {});
    var undone := Perform(failed, UndoLine(1, true));
    assert undone.world.orders == failed.world.orders && undone.world.catalog.rows == map[];
    assert 1 in undone.procs && undone.procs[1] == Undoing(7, ONE_LINE, 1, 1, {});
    hide Perform;
    ReservedRun();
    RunOn(before, held, Record(1, Lost), failed);
    RunOn(before + [Record(1, Lost)], failed, UndoLine(1, true), undone);
    assert before + [Record(1, Lost)] + [UndoLine(1, true)] ==
           [STOCK_UP, ASK, PriceLine(1), ReserveLine(1, Answered), Record(1, Lost), UndoLine(1, true)];
  }

  /** A release that does not get through is only logged, and its line stays held. */
  lemma MissedReleaseLeavesHold()
    ensures var s := Run(EMPTY, [STOCK_UP, ASK, PriceLine(1), ReserveLine(1, Answered),
                                 Record(1, Unreached), UndoLine(1, false)]);
            && GaveUp(s, 1) && s.procs[1].order == 7
            && Key(7, 1) in s.world.catalog.rows && 7 !in s.world.orders
  {
    var before := [STOCK_UP, ASK, PriceLine(1), ReserveLine(1, Answered)];
    var held := State(World(STOCK_HELD, map[], map[], {}, {7}, []), map[1 := Reserving(7, ONE_LINE, 10, 1)]);
    var failed := State(World(STOCK_HELD, map[], map[], {}, {7}, []), map[1 := Undoing(7, ONE_LINE, 1, 0, {})]);
    var undone := State(World(STOCK_HELD, map[], map[], {}, {7}, []), map[1 := Undoing(7, ONE_LINE, 1, 1, {1})]);
    assert Perform(held, Record(1, Unreached)) == failed;
    assert {} + {1} == {1};
    assert Perform(failed, UndoLine(1, false)) == undone;
    hide Perform;
    ReservedRun();
    RunOn(before, held, Record(1, Unreached), failed);
    RunOn(before + [Record(1, Unreached)], failed, UndoLine(1, false), undone);
    assert before + [Record(1, Unreached)] + [UndoLine(1, false)] ==
           [STOCK_UP, ASK, PriceLine(1), ReserveLine(1, Answered), Record(1, Unreached), UndoLine(1, false)];
  }
}
