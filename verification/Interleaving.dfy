/** What holds of every interleaving of one proposal's operations. */
module Interleaving {
  import opened Basics
  import opened Sequences
  import opened Sums
  import opened Documents
  import opened Inventory
  import opened Fees
  import opened Ledger
  import opened Proposal

  function After(p: Pool, cp: CurrencyPool, es: seq<Event>): Machine { Run(NewMachine(p, cp), es) }

  // ----- Balances -----

  lemma ProcessedWereAffordable(p: Pool, cp: CurrencyPool, es: seq<Event>, s: Address, cid: CurrencyId)
    requires Indexed(p) && ValidTrace(es) && s in After(p, cp, es).processed
    ensures
      var owed := ChargeOf(cp, After(p, cp, es).processed[s], cid);
      owed >= 0 && (owed > 0 ==> EnoughFor(p.balances, s, cid, owed))
  {
    RunKeeps(p, cp, es);
    var m := After(p, cp, es);
    var op := m.processed[s];
    ChargeNonNegative(cp, op.Currencies(), cid);
    assert Fits(p, cp, op);
    FirstBadMeaning(cp, op.Currencies());
    if ChargeOf(cp, op, cid) > 0 {
      var required := RequiredFee(cp, op.Currencies()).value;
      assert cid in required && EnoughFor(p.balances, s, cid, required[cid].0);
    }
  }

  /** The check made in PreProcess is still good when Process writes: no interleaving
      overdraws a balance, opens one or raises one. */
  lemma NoOverdraft(p: Pool, cp: CurrencyPool, es: seq<Event>, k: (Address, CurrencyId))
    requires Indexed(p) && ValidTrace(es)
    ensures k in After(p, cp, es).pool.balances <==> k in p.balances
    ensures k in p.balances ==> After(p, cp, es).pool.balances[k] <= p.balances[k]
    ensures k in p.balances && p.balances[k] >= 0 ==> After(p, cp, es).pool.balances[k] >= 0
  {
    RunKeeps(p, cp, es);
    var m := After(p, cp, es);
    assert m.pool.balances == BalancesAfter(p, cp, m.processed);
    if k in p.balances && k.0 in m.processed {
      ProcessedWereAffordable(p, cp, es, k.0, k.1);
    }
  }

  /** Every sender of a processed operation has paid exactly its items' fees, everybody else
      nothing, and the fee pool is the sum of those charges. */
  lemma FeePoolIsCharged(p: Pool, cp: CurrencyPool, es: seq<Event>)
    requires Indexed(p) && ValidTrace(es)
    ensures
      var m := After(p, cp, es);
      && (forall k :: k in m.pool.balances <==> k in p.balances)
      && (forall k :: k in p.balances ==> p.balances[k] - m.pool.balances[k] == ChargeIn(cp, m.processed, k.0, k.1))
      && (forall cid :: FeeIn(m.fee, cid) == FeeTotal(cp, m.processed, cid))
  {
    RunKeeps(p, cp, es);
    var m := After(p, cp, es);
    assert m.pool.balances == BalancesAfter(p, cp, m.processed);
  }

  // ----- Conservation -----

  ghost function InCurrency(balances: Balances, cid: CurrencyId): ((Address, CurrencyId)) -> int {
    (k: (Address, CurrencyId)) => if k in balances && k.1 == cid then balances[k] else 0
  }

  ghost function Total(balances: Balances, cid: CurrencyId): int {
    Sum(balances.Keys, InCurrency(balances, cid))
  }

  /** Processing `op` changes at most its sender's balance, by the charge. */
  lemma OneBalanceChanges(p: Pool, cp: CurrencyPool, ops: map<Address, Operation>, op: Operation, cid: CurrencyId, k: (Address, CurrencyId))
    requires op.sender !in ops && k in p.balances
    ensures
      InCurrency(BalancesAfter(p, cp, ops[op.sender := op]), cid)(k)
      == InCurrency(BalancesAfter(p, cp, ops), cid)(k) - if k == (op.sender, cid) then ChargeOf(cp, op, cid) else 0
  {
    if k.0 != op.sender {
      assert ChargeIn(cp, ops[op.sender := op], k.0, k.1) == ChargeIn(cp, ops, k.0, k.1);
    }
  }

  /** One write moves a charge from its sender to the fee pool and changes nothing else. */
  lemma ProcessConserves(p: Pool, cp: CurrencyPool, ops: map<Address, Operation>, op: Operation, required: Required, cid: CurrencyId)
    requires op.sender !in ops
    requires RequiredFee(cp, op.Currencies()) == Ok(required) && Enough(p.balances, op.sender, required)
    ensures Total(BalancesAfter(p, cp, ops[op.sender := op]), cid) + FeeTotal(cp, ops[op.sender := op], cid)
            == Total(BalancesAfter(p, cp, ops), cid) + FeeTotal(cp, ops, cid)
  {
    FeeTotalStep(cp, ops, op, cid);
    FirstBadMeaning(cp, op.Currencies());
    ChargeNonNegative(cp, op.Currencies(), cid);
    assert cid in required ==> EnoughFor(p.balances, op.sender, cid, required[cid].0);
    assert (op.sender, cid) !in p.balances ==> ChargeOf(cp, op, cid) == 0;
    TotalStep(p, cp, ops, op, cid);
  }

  lemma TotalStep(p: Pool, cp: CurrencyPool, ops: map<Address, Operation>, op: Operation, cid: CurrencyId)
    requires op.sender !in ops
    requires (op.sender, cid) !in p.balances ==> ChargeOf(cp, op, cid) == 0
    ensures Total(BalancesAfter(p, cp, ops[op.sender := op]), cid)
            == Total(BalancesAfter(p, cp, ops), cid) - ChargeOf(cp, op, cid)
  {
    var f := InCurrency(BalancesAfter(p, cp, ops), cid);
    var g := InCurrency(BalancesAfter(p, cp, ops[op.sender := op]), cid);
    var keys := p.balances.Keys;
    assert BalancesAfter(p, cp, ops).Keys == keys == BalancesAfter(p, cp, ops[op.sender := op]).Keys;
    forall k | k in keys ensures g(k) == f(k) - if k == (op.sender, cid) then ChargeOf(cp, op, cid) else 0 {
      OneBalanceChanges(p, cp, ops, op, cid, k);
    }
    hide InCurrency, BalancesAfter;
    if (op.sender, cid) in keys {
      SumUpdate(keys, f, g, (op.sender, cid));
    } else {
      SumCongruent(keys, f, g);
    }
  }

  /** For every currency the balances and the fee pool together never change, at any point of
      any interleaving. */
  lemma {:induction false} Conservation(p: Pool, cp: CurrencyPool, es: seq<Event>, cid: CurrencyId)
    requires Indexed(p) && ValidTrace(es)
    ensures Total(After(p, cp, es).pool.balances, cid) + FeeIn(After(p, cp, es).fee, cid) == Total(p.balances, cid)
  {
    RunKeeps(p, cp, es);
    if es == [] {
      assert FeeTotal(cp, map[], cid) == 0;
    } else {
      var before := es[..|es| - 1];
      Conservation(p, cp, before, cid);
      RunKeeps(p, cp, before);
      StepConserves(p, cp, Run(NewMachine(p, cp), before), es[|es| - 1], cid);
    }
  }

  lemma StepConserves(p: Pool, cp: CurrencyPool, m: Machine, e: Event, cid: CurrencyId)
    requires Indexed(p) && Inv(p, m) && m.cp == cp
    requires Inv(p, Step(m, e))
    ensures Total(Step(m, e).pool.balances, cid) + FeeIn(Step(m, e).fee, cid) == Total(m.pool.balances, cid) + FeeIn(m.fee, cid)
  {
    hide Indexed, PreProcess, Operation.ValidFact, Total, Enough, PoolAfter, FeesWith, Processable, FeeTotal,
      BalancesAfter, FeesMatch, Step;
    StepKeepsCurrencies(m, e);
    OutcomeTotal(p, cp, m.pool, m.fee, m.processed, cid);
    OutcomeTotal(p, cp, Step(m, e).pool, Step(m, e).fee, Step(m, e).processed, cid);
    if e.ProcessStep? && e.sender in m.pending {
      var op, plan := m.accepted[e.sender], m.pending[e.sender];
      CreateNeverFails(p, cp, op, plan);
      StepProcesses(m, e.sender);
      ProcessConserves(p, cp, m.processed, op, plan.required, cid);
    } else {
      StepWithoutProcess(m, e);
    }
  }

  lemma OutcomeTotal(p: Pool, cp: CurrencyPool, pool: Pool, fee: FeePool, ops: map<Address, Operation>, cid: CurrencyId)
    requires Outcome(p, cp, pool, fee, ops)
    ensures Total(pool.balances, cid) + FeeIn(fee, cid) == Total(BalancesAfter(p, cp, ops), cid) + FeeTotal(cp, ops, cid)
  {
    hide Total, FeeTotal, BalancesAfter, InventoriesAfter;
  }

  lemma StepWithoutProcess(m: Machine, e: Event)
    requires e.ProcessStep? ==> e.sender !in m.pending
    ensures Step(m, e).processed == m.processed
  {
    hide PreProcess;
  }

  // ----- Order -----

  /** Final balances, inventories and fees are a function of which operations were processed:
      two interleavings, serial ones among them, that process the same operations agree. */
  lemma OrderIrrelevant(p: Pool, cp: CurrencyPool, es: seq<Event>, fs: seq<Event>)
    requires Indexed(p) && ValidTrace(es) && ValidTrace(fs)
    requires After(p, cp, es).processed == After(p, cp, fs).processed
    ensures After(p, cp, es).pool.balances == After(p, cp, fs).pool.balances
    ensures After(p, cp, es).pool.inventories == After(p, cp, fs).pool.inventories
    ensures After(p, cp, es).fee == After(p, cp, fs).fee
  {
    RunKeeps(p, cp, es);
    RunKeeps(p, cp, fs);
    SameFees(cp, After(p, cp, es).fee, After(p, cp, fs).fee, After(p, cp, es).processed);
  }

  lemma SameFees(cp: CurrencyPool, a: FeePool, b: FeePool, ops: map<Address, Operation>)
    requires FeesMatch(cp, a, ops) && FeesMatch(cp, b, ops)
    ensures a == b
  {
    forall cid | cid in a ensures cid in b && a[cid] == b[cid] {
      assert FeeIn(a, cid) == FeeIn(b, cid);
      assert cid in b <==> FeeTotal(cp, ops, cid) > 0;
    }
  }

  // ----- Claims and failures -----

  /** The senders whose operation passed PreProcess somewhere in the run. */
  ghost function AcceptedSenders(m: Machine, es: seq<Event>): set<Address> {
    if es == [] then {}
    else
      var before := es[..|es| - 1];
      AcceptedSenders(m, before) + AcceptedBy(Run(m, before), es[|es| - 1])
  }

  ghost function AcceptedBy(m: Machine, e: Event): set<Address> {
    if e.PreStep? && Accepts(m, e.op) then {e.op.sender} else {}
  }

  /** The claimed senders are exactly those of accepted operations, and no sender is accepted
      twice. */
  lemma {:induction false} ClaimedAreAccepted(p: Pool, cp: CurrencyPool, es: seq<Event>)
    requires ValidTrace(es)
    ensures After(p, cp, es).claimed == AcceptedSenders(NewMachine(p, cp), es)
    ensures es != [] ==>
              AcceptedBy(After(p, cp, es[..|es| - 1]), es[|es| - 1]) !! AcceptedSenders(NewMachine(p, cp), es[..|es| - 1])
  {
    if es != [] {
      ClaimedAreAccepted(p, cp, es[..|es| - 1]);
    }
  }

  /** An operation is rejected if and only if its PreProcess leaves the whole machine as it was;
      the step can then be taken out of any run without changing where the run ends. */
  lemma RejectedChangesNothing(m: Machine, a: seq<Event>, op: Operation, b: seq<Event>)
    requires op.sender != ""
    ensures !Accepts(Run(m, a), op) <==> Run(m, a + [PreStep(op)]) == Run(m, a)
    ensures !Accepts(Run(m, a), op) ==> Run(m, a + [PreStep(op)] + b) == Run(m, a + b)
  {
    hide PreProcess;
    assert (a + [PreStep(op)])[..|a + [PreStep(op)]| - 1] == a;
    RunAppend(m, a + [PreStep(op)], b);
    RunAppend(m, a, b);
  }

  /** An accepted operation never fails in Process, whatever was processed in between. */
  lemma AcceptedNeverFails(p: Pool, cp: CurrencyPool, es: seq<Event>, s: Address)
    requires Indexed(p) && ValidTrace(es) && s in After(p, cp, es).pending
    ensures Processable(After(p, cp, es).pending[s])
    ensures s in Step(After(p, cp, es), ProcessStep(s)).processed
  {
    hide Run, NewMachine, Indexed, Outcome, PoolAfter, FeesWith, Processable, Fits, PlanFits, PreProcess, Step;
    RunKeeps(p, cp, es);
    var m := After(p, cp, es);
    CreateNeverFails(p, cp, m.accepted[s], m.pending[s]);
    StepProcesses(m, s);
  }

  lemma StepProcesses(m: Machine, s: Address)
    requires s in m.pending && Processable(m.pending[s])
    ensures Step(m, ProcessStep(s)).processed == m.processed[s := m.pending[s].op]
  {
    hide Processable, PoolAfter, FeesWith;
  }
}
