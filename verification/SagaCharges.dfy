/** How often the payment processor is asked about one order. The documentation's
    "exactly one charge attempt" holds of the payments row, not of the processor. */
module SagaCharges {
  import opened Catalog
  import opened Saga
  import opened SagaInvariant
  import opened SagaSteps
  import opened SagaTheorems
  import opened SagaProgress

  /** This run is past its lookup and will ask the processor next. */
  ghost predicate AboutToCharge(s: State, pid: nat, o: OrderId) {
    pid in s.procs && s.procs[pid].Charging? && s.procs[pid].order == o
  }

  /** Two overlapping requests for one order both reach the processor, the second
      after the first has been recorded. */
  lemma ProcessorMayBeAskedTwice(o: OrderId)
    ensures var s := Run(EMPTY, [HttpCharge(1, o, 5), HttpCharge(2, o, 5), LookUp(1), LookUp(2)]);
            var s' := Run(s, [Charge(1, Succeeded, ""), Insert(1, Answered)]);
            AboutToCharge(s, 1, o) && AboutToCharge(s', 2, o) && o in s'.world.payments
  {
    hide Enabled, Step;
    var begun := [HttpCharge(1, o, 5), HttpCharge(2, o, 5)];
    var looked := [LookUp(1), LookUp(2)];
    RunTwo(EMPTY, begun[0], begun[1]);
    RunTwo(Run(EMPTY, begun), looked[0], looked[1]);
    RunAppend(EMPTY, begun, looked);
    assert begun + looked == [HttpCharge(1, o, 5), HttpCharge(2, o, 5), LookUp(1), LookUp(2)];
    RunTwo(Run(EMPTY, begun + looked), Charge(1, Succeeded, ""), Insert(1, Answered));
    AskedTwice(o);
  }

  lemma AskedTwice(o: OrderId)
    ensures var begun := Perform(Perform(EMPTY, HttpCharge(1, o, 5)), HttpCharge(2, o, 5));
            var s := Perform(Perform(begun, LookUp(1)), LookUp(2));
            var s' := Perform(Perform(s, Charge(1, Succeeded, "")), Insert(1, Answered));
            AboutToCharge(s, 1, o) && AboutToCharge(s', 2, o) && o in s'.world.payments
  {
  }

  /** So do two requests one after the other if the first one's insert fails after the
      charge: nothing overlaps, and nothing is under way in between. */
  lemma RetryAfterFailedInsertAsksAgain(o: OrderId)
    ensures var s := Run(EMPTY, [HttpCharge(1, o, 5), LookUp(1)]);
            var s' := Run(s, [Charge(1, Succeeded, ""), Insert(1, Unreached)]);
            var s'' := Run(s', [HttpCharge(2, o, 5), LookUp(2)]);
            && AboutToCharge(s, 1, o)
            && s'.procs == map[] && o !in s'.world.payments
            && AboutToCharge(s'', 2, o)
  {
    hide Enabled, Step;
    RunTwo(EMPTY, HttpCharge(1, o, 5), LookUp(1));
    var s := Run(EMPTY, [HttpCharge(1, o, 5), LookUp(1)]);
    RunTwo(s, Charge(1, Succeeded, ""), Insert(1, Unreached));
    var s' := Run(s, [Charge(1, Succeeded, ""), Insert(1, Unreached)]);
    RunTwo(s', HttpCharge(2, o, 5), LookUp(2));
    AskedAfterFailure(o);
  }

  lemma AskedAfterFailure(o: OrderId)
    ensures var s := Perform(Perform(EMPTY, HttpCharge(1, o, 5)), LookUp(1));
            var s' := Perform(Perform(s, Charge(1, Succeeded, "")), Insert(1, Unreached));
            var s'' := Perform(Perform(s', HttpCharge(2, o, 5)), LookUp(2));
            && AboutToCharge(s, 1, o)
            && s'.procs == map[] && o !in s'.world.payments
            && AboutToCharge(s'', 2, o)
  {
  }

  /** From any state at all, the processor can still be asked about an order exactly if
      the order has no payments row, or some run has already found none and not yet
      asked. After a charge that is: unless it was recorded, and no other run overlaps. */
  lemma AskedAgainIff(s: State, o: OrderId)
    ensures (exists actions, pid :: AboutToCharge(Run(s, actions), pid, o)) <==>
            o !in s.world.payments || exists pid :: AboutToCharge(s, pid, o)
  {
    hide Run, AboutToCharge;
    if pid :| AboutToCharge(s, pid, o) {
      RunOfNone(s);
      assert AboutToCharge(Run(s, []), pid, o);
    } else if o !in s.world.payments {
      var pid := FreshPid(s.procs);
      RunTwo(s, HttpCharge(pid, o, 1), LookUp(pid));
      AsksWithoutRow(s, pid, o);
      assert AboutToCharge(Run(s, [HttpCharge(pid, o, 1), LookUp(pid)]), pid, o);
    } else {
      forall actions, pid
        ensures !AboutToCharge(Run(s, actions), pid, o)
      {
        NoneAskAgain(s, actions, o);
      }
    }
  }

  lemma AsksWithoutRow(s: State, pid: nat, o: OrderId)
    requires pid !in s.procs && o !in s.world.payments
    ensures AboutToCharge(Perform(Perform(s, HttpCharge(pid, o, 1)), LookUp(pid)), pid, o)
  {
  }

  lemma RunOfNone(s: State)
    ensures Run(s, []) == s
  {
  }

  lemma {:induction false} NoneAskAgain(s: State, actions: seq<Action>, o: OrderId)
    requires o in s.world.payments && forall pid :: !AboutToCharge(s, pid, o)
    ensures forall pid :: !AboutToCharge(Run(s, actions), pid, o)
  {
    hide Perform, AboutToCharge;
    if actions != [] {
      var front := actions[..|actions| - 1];
      NoneAskAgain(s, front, o);
      RunExtends(s, front);
      NoneAsksNext(Run(s, front), actions[|actions| - 1], o);
    }
  }

  lemma NoneAsksNext(s: State, a: Action, o: OrderId)
    requires o in s.world.payments && forall pid :: !AboutToCharge(s, pid, o)
    ensures forall pid :: !AboutToCharge(Perform(s, a), pid, o)
  {
    hide Reserve, Release, Settle, AddStock, CreateProduct, ByProduct, UpdateStatus;
    forall pid
      ensures !AboutToCharge(Perform(s, a), pid, o)
    {
      assert !AboutToCharge(s, pid, o);
    }
  }
}
