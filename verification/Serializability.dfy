/** When an interleaving is as good as a serial run, and an interleaving that is not. */
module Serializability {
  import opened Basics
  import opened Sequences
  import opened Documents
  import opened Inventory
  import opened Fees
  import opened Signatures
  import opened Ledger
  import opened Proposal
  import opened Interleaving
  import opened Partition

  predicate ShareId(a: Operation, b: Operation) {
    exists i :: 0 <= i < a.Size() && a.IdAt(i) in b.Ids()
  }

  /** Writing `its` may leave an accepted `op` behind: both create one document, or `op` signs a
      document that `its` updates or signs. */
  predicate Disturbs(its: Operation, op: Operation) {
    && ShareId(op, its)
    && ((op.CreateDocuments? && its.CreateDocuments?) || (op.SignDocuments? && !its.CreateDocuments?))
  }

  // ----- A write by another sender leaves an accepted plan up to date -----

  lemma {:induction false} AppendAllValue(infos: seq<DocInfo>, ds: seq<DocInfo>)
    requires AppendAll(infos, ds).Ok?
    ensures AppendAll(infos, ds).value == infos + ds
    decreases |ds|
  {
    if ds == [] {
      assert infos + ds == infos;
    } else {
      AppendAllValue(infos + [ds[0]], ds[1..]);
      assert infos + [ds[0]] + ds[1..] == infos + ds;
    }
  }

  ghost predicate InventoriesGrow(before: map<Address, seq<DocInfo>>, after: map<Address, seq<DocInfo>>) {
    forall a :: a in before ==> a in after && forall id :: Lists(before[a], id) ==> Lists(after[a], id)
  }

  lemma WriteGrowsInventories(pool: Pool, plan: Plan)
    requires Processable(plan)
    requires plan.op.CreateDocuments? ==> plan.inventory == InventoryOf(pool, plan.op.sender)
    ensures InventoriesGrow(pool.inventories, PoolAfter(pool, plan).inventories)
  {
    if plan.op.CreateDocuments? {
      var inv, infos := plan.inventory, Infos(plan.docs);
      AppendAllValue(inv, infos);
      SortMultiset(inv + infos, InfoOrder(true));
      SameElements(Sorted(inv + infos), inv + infos);
      forall id | Lists(inv, id) ensures Lists(Sorted(inv + infos), id) {
        var i :| 0 <= i < |inv| && inv[i].id == id;
        assert (inv + infos)[i] in Sorted(inv + infos);
      }
    }
  }

  /** What an item needs of a later pool to give the same document again. */
  ghost predicate ItemUndisturbed(before: Pool, after: Pool, op: Operation, i: nat)
    requires i < op.Size()
  {
    var id := op.IdAt(i);
    match op
    case CreateDocuments(_, _, _) => id !in after.documents
    case UpdateDocuments(_, _, _) =>
      id in before.documents ==> id in after.documents && after.documents[id].owner == before.documents[id].owner
    case SignDocuments(_, _, _) =>
      id in before.documents ==> id in after.documents && after.documents[id] == before.documents[id]
  }

  lemma ItemStable(before: Pool, after: Pool, op: Operation, i: nat)
    requires i < op.Size() && PreItem(before, op, i).Ok?
    requires after.accounts == before.accounts && InventoriesGrow(before.inventories, after.inventories)
    requires ItemUndisturbed(before, after, op, i)
    ensures PreItem(after, op, i) == PreItem(before, op, i)
  {
  }

  lemma {:induction false} ItemsStable(before: Pool, after: Pool, op: Operation, n: nat)
    requires n <= op.Size() && PreItems(before, op, n).Ok?
    requires after.accounts == before.accounts && InventoriesGrow(before.inventories, after.inventories)
    requires forall i :: 0 <= i < n ==> ItemUndisturbed(before, after, op, i)
    ensures PreItems(after, op, n) == PreItems(before, op, n)
  {
    if n > 0 {
      ItemsStable(before, after, op, n - 1);
      ItemStable(before, after, op, n - 1);
    }
  }

  lemma SharedItemUndisturbed(pool: Pool, after: Pool, op: Operation, i: nat, other: Operation, j: nat)
    requires i < op.Size() && j < other.Size() && op.IdAt(i) == other.IdAt(j) && !Disturbs(other, op)
    requires PreItem(pool, op, i).Ok? && PreItem(pool, other, j).Ok?
    requires op.IdAt(i) in after.documents && after.documents[op.IdAt(i)] == PreItem(pool, other, j).value
    ensures ItemUndisturbed(pool, after, op, i)
  {
    assert op.IdAt(i) == other.Ids()[j];
    assert ShareId(op, other);
  }

  /** Another operation's write leaves the items of one it does not disturb as they were. */
  lemma WriteUndisturbs(pool: Pool, after: Pool, op: Operation, docs: seq<DocumentData>, other: Operation, others: seq<DocumentData>, i: nat)
    requires PreItems(pool, op, op.Size()) == Ok(docs) && PreItems(pool, other, other.Size()) == Ok(others)
    requires other.ValidFact() && !Disturbs(other, op) && i < op.Size()
    requires after.documents == DocumentsWith(pool.documents, other.Ids(), others)
    ensures ItemUndisturbed(pool, after, op, i)
  {
    DocumentsWithMeaning(pool.documents, other.Ids(), others);
    hide DocumentsWith, Operation.ValidFact, PreItems;
    assert PreItem(pool, op, i) == Ok(docs[i]);
    var id := op.IdAt(i);
    if id in other.Ids() {
      var j :| 0 <= j < other.Size() && other.Ids()[j] == id;
      assert PreItem(pool, other, j) == Ok(others[j]);
      assert after.documents[other.Ids()[j]] == others[j];
      SharedItemUndisturbed(pool, after, op, i, other, j);
    }
  }

  lemma PlanFromParts(pool: Pool, cp: CurrencyPool, op: Operation, plan: Plan)
    requires op.sender in pool.accounts && plan.op == op
    requires RequiredFee(cp, op.Currencies()) == Ok(plan.required)
    requires Enough(pool.balances, op.sender, plan.required)
    requires plan.sb == Captured(pool.balances, op.sender, plan.required)
    requires PreItems(pool, op, op.Size()) == Ok(plan.docs)
    requires Verdict(op.signs, pool.accounts[op.sender]).Ok?
    requires plan.inventory == if op.CreateDocuments? then InventoryOf(pool, op.sender) else []
    ensures PreProcess(pool, cp, op) == Ok(plan)
  {
  }

  lemma SenderUndisturbed(pool: Pool, its: Plan, s: Address)
    requires Processable(its) && s != its.op.sender
    ensures forall cid :: (s, cid) in pool.balances <==> (s, cid) in PoolAfter(pool, its).balances
    ensures forall cid :: (s, cid) in PoolAfter(pool, its).balances ==>
              pool.balances[(s, cid)] == PoolAfter(pool, its).balances[(s, cid)]
    ensures InventoryOf(PoolAfter(pool, its), s) == InventoryOf(pool, s)
    ensures PoolAfter(pool, its).accounts == pool.accounts
    ensures PoolAfter(pool, its).documents == DocumentsWith(pool.documents, its.op.Ids(), its.docs)
  {
    hide NewInventory, DocumentsWith;
  }

  /** The plan PreProcess made is the one it would make after the other operation's write. */
  lemma PlanStable(pool: Pool, cp: CurrencyPool, op: Operation, plan: Plan, other: Operation, its: Plan)
    requires PreProcess(pool, cp, op) == Ok(plan) && PreProcess(pool, cp, other) == Ok(its)
    requires Processable(its) && other.ValidFact()
    requires op.sender != other.sender && !Disturbs(other, op)
    ensures PreProcess(PoolAfter(pool, its), cp, op) == Ok(plan)
  {
    hide *;
    PlanParts(pool, cp, op, plan);
    PlanParts(pool, cp, other, its);
    WriteGrowsInventories(pool, its);
    SenderUndisturbed(pool, its, op.sender);
    var after := PoolAfter(pool, its);
    SameEnough(after.balances, pool.balances, op.sender, plan.required);
    forall i | 0 <= i < op.Size() ensures ItemUndisturbed(pool, after, op, i) {
      WriteUndisturbs(pool, after, op, plan.docs, other, its.docs, i);
    }
    ItemsStable(pool, after, op, op.Size());
    PlanFromParts(after, cp, op, plan);
  }

  // ----- Comparing with a serial run -----

  /** The operations a run processes, in the order of their Process steps. */
  function ProcessOrder(m: Machine, es: seq<Event>): seq<Operation> {
    if es == [] then []
    else
      var before, e := Run(m, es[..|es| - 1]), es[|es| - 1];
      ProcessOrder(m, es[..|es| - 1])
      + if e.ProcessStep? && e.sender in before.pending then [before.pending[e.sender].op] else []
  }

  function OrderOf(p: Pool, cp: CurrencyPool, es: seq<Event>): seq<Operation> { ProcessOrder(NewMachine(p, cp), es) }

  /** A serial machine that has processed what the interleaved one has, to the same effect. */
  ghost predicate Matches(serial: Machine, m: Machine) {
    serial.pool == m.pool && serial.fee == m.fee && serial.processed == m.processed
  }

  /** The run leaves the pool, fees and processed operations of the serial run of its processed
      operations, in the order of their Process steps. */
  ghost predicate LikeSerial(p: Pool, cp: CurrencyPool, es: seq<Event>) {
    Matches(Serial(p, cp, OrderOf(p, cp, es)), After(p, cp, es))
  }

  /** The item checks would give an accepted operation the same documents now. */
  ghost predicate ItemsHold(m: Machine, s: Address) {
    s in m.pending ==> PreItems(m.pool, m.pending[s].op, m.pending[s].op.Size()) == Ok(m.pending[s].docs)
  }

  /** The items of every processed operation hold when it is written. */
  ghost predicate WritesHold(p: Pool, cp: CurrencyPool, es: seq<Event>) {
    forall k :: 0 <= k < |es| && es[k].ProcessStep? ==> ItemsHold(After(p, cp, es[..k]), es[k].sender)
  }

  lemma LastStep(m: Machine, es: seq<Event>)
    requires es != []
    ensures
      var before, e := es[..|es| - 1], es[|es| - 1];
      && Run(m, es) == Step(Run(m, before), e)
      && ProcessOrder(m, es) == ProcessOrder(m, before)
           + if e.ProcessStep? && e.sender in Run(m, before).pending then [Run(m, before).pending[e.sender].op] else []
  {
    hide Step;
  }

  lemma {:induction false} OrderValid(p: Pool, cp: CurrencyPool, es: seq<Event>)
    requires Indexed(p) && ValidTrace(es)
    ensures ValidFacts(OrderOf(p, cp, es))
  {
    if es != [] {
      OrderValid(p, cp, es[..|es| - 1]);
      RunKeeps(p, cp, es[..|es| - 1]);
      PendingValid(p, After(p, cp, es[..|es| - 1]));
      hide Inv, Operation.ValidFact, Step;
    }
  }

  /** Between its steps a serial run has nothing pending. */
  lemma {:induction false} SerialIdle(p: Pool, cp: CurrencyPool, ops: seq<Operation>)
    requires Indexed(p) && ValidFacts(ops)
    ensures Serial(p, cp, ops).pending == map[] && Serial(p, cp, ops).cp == cp && Inv(p, Serial(p, cp, ops))
  {
    SerialTraceValid(ops);
    RunKeeps(p, cp, SerialTrace(ops));
    if ops != [] {
      hide Inv, Indexed, Operation.ValidFact;
      SerialIdle(p, cp, ops[..|ops| - 1]);
      SerialStep(p, cp, ops);
      SerialPairIdle(Serial(p, cp, ops[..|ops| - 1]), ops[|ops| - 1]);
    }
  }

  lemma SerialPairIdle(m: Machine, op: Operation)
    requires m.pending == map[] && op.ValidFact()
    ensures Step(Step(m, PreStep(op)), ProcessStep(op.sender)).pending == map[]
  {
    hide PreProcess, Processable, PoolAfter, FeesWith, Operation.ValidFact;
    var m1 := Step(m, PreStep(op));
    assert m1.pending - {op.sender} == map[];
  }

  /** What an accepted plan was made from has not changed for its sender, apart from its items:
      if these hold, PreProcess would make the plan again now, and the other way round. */
  lemma PlanAgain(p: Pool, m: Machine, s: Address)
    requires Inv(p, m) && s in m.pending
    ensures ItemsHold(m, s) <==> PreProcess(m.pool, m.cp, m.pending[s].op) == Ok(m.pending[s])
  {
    var op, plan := m.accepted[s], m.pending[s];
    assert Fits(p, m.cp, op) && PlanFits(p, m.cp, op, plan);
    UntouchedSender(p, m.cp, m.pool, m.processed, s);
    SameEnough(m.pool.balances, p.balances, s, plan.required);
    assert plan.inventory == if op.CreateDocuments? then InventoryOf(m.pool, s) else [];
    hide *;
    if ItemsHold(m, s) {
      PlanFromParts(m.pool, m.cp, op, plan);
    }
    if PreProcess(m.pool, m.cp, op) == Ok(plan) {
      PlanParts(m.pool, m.cp, op, plan);
    }
  }

  lemma DocumentsDetermined(documents: map<string, DocumentData>, op: Operation, a: seq<DocumentData>, b: seq<DocumentData>)
    requires op.ValidFact() && |a| == |b| == op.Size()
    requires DocumentsWith(documents, op.Ids(), a) == DocumentsWith(documents, op.Ids(), b)
    ensures a == b
  {
    IdsDistinct(op);
    DocumentsWithMeaning(documents, op.Ids(), a);
    DocumentsWithMeaning(documents, op.Ids(), b);
    hide DocumentsWith, Operation.ValidFact;
    forall i | 0 <= i < |a| ensures a[i] == b[i] {
      assert a[i] == DocumentsWith(documents, op.Ids(), a)[op.Ids()[i]];
    }
  }

  /** Two plans of one operation with the same write have the same documents. */
  lemma WriteDetermines(pool: Pool, a: Plan, b: Plan)
    requires Processable(a) && Processable(b) && a.op == b.op && a.op.ValidFact()
    requires PoolAfter(pool, a) == PoolAfter(pool, b)
    ensures a.docs == b.docs
  {
    hide NewInventory, DocumentsWith, Operation.ValidFact;
    DocumentsDetermined(pool.documents, a.op, a.docs, b.docs);
  }

  lemma StepOne(m: Machine, s: Address, op: Operation, plan: Plan)
    requires s in m.pending && m.pending[s] == plan && plan.op == op && Processable(plan)
    ensures Step(m, ProcessStep(s)) ==
            m.(pool := PoolAfter(m.pool, plan), fee := FeesWith(m.fee, plan.required),
               pending := m.pending - {s}, processed := m.processed[s := op])
  {
    hide PoolAfter, FeesWith, Processable;
  }

  ghost predicate Alongside(p: Pool, serial: Machine, m: Machine) {
    Inv(p, m) && Inv(p, serial) && serial.cp == m.cp && serial.pending == map[] && Matches(serial, m)
  }

  lemma FreshSender(p: Pool, serial: Machine, m: Machine, s: Address)
    requires Alongside(p, serial, m) && s in m.pending
    ensures s !in m.processed && s !in serial.claimed && m.pending[s].op.sender == s && s != ""
    ensures m.pending[s].op.ValidFact()
  {
    hide Operation.ValidFact;
    assert Fits(p, m.cp, m.accepted[s]) && PlanFits(p, m.cp, m.accepted[s], m.pending[s]);
    assert m.accepted[s].ValidFact() ==> s != "" by {
      if m.accepted[s].ValidFact() {
        NonemptySender(m.accepted[s]);
      }
    }
  }

  lemma NonemptySender(op: Operation)
    requires op.ValidFact()
    ensures op.sender != ""
  {
  }

  lemma HoldingMatches(p: Pool, serial: Machine, m: Machine, s: Address)
    requires Indexed(p) && Alongside(p, serial, m) && s in m.pending && ItemsHold(m, s)
    ensures Matches(Step(Step(serial, PreStep(m.pending[s].op)), ProcessStep(s)), Step(m, ProcessStep(s)))
  {
    FreshSender(p, serial, m, s);
    PlanAgain(p, m, s);
    CreateNeverFails(p, m.cp, m.accepted[s], m.pending[s]);
    hide Inv, PreProcess, PoolAfter, FeesWith, Processable, Step, Indexed, ItemsHold, Operation.ValidFact;
    StepPair(serial, m.pending[s].op, m.pending[s]);
    StepOne(m, s, m.pending[s].op, m.pending[s]);
  }

  lemma MatchingHolds(p: Pool, serial: Machine, m: Machine, s: Address)
    requires Indexed(p) && Alongside(p, serial, m) && s in m.pending
    requires Matches(Step(Step(serial, PreStep(m.pending[s].op)), ProcessStep(s)), Step(m, ProcessStep(s)))
    ensures ItemsHold(m, s)
  {
    var op, plan := m.pending[s].op, m.pending[s];
    FreshSender(p, serial, m, s);
    CreateNeverFails(p, m.cp, m.accepted[s], plan);
    SerialOne(p, serial, op);
    hide Inv, PreProcess, PoolAfter, FeesWith, Processable, Step, Indexed, Operation.ValidFact;
    StepOne(m, s, op, plan);
    assert Accepts(serial, op);
    var again := PreProcess(m.pool, m.cp, op).value;
    PlanParts(m.pool, m.cp, op, again);
    WriteDetermines(m.pool, again, plan);
  }

  /** A run that is like a serial one up to here stays so if and only if the operation written
      next has items that hold. */
  lemma LikeSerialStep(p: Pool, cp: CurrencyPool, before: seq<Event>, e: Event)
    requires Indexed(p) && ValidTrace(before) && LikeSerial(p, cp, before)
    ensures LikeSerial(p, cp, before + [e]) <==> (e.ProcessStep? ==> ItemsHold(After(p, cp, before), e.sender))
  {
    hide Step, Run, ProcessOrder, SerialTrace, Inv, Indexed, Operation.ValidFact, NewMachine, Matches, ItemsHold;
    var es, m, order := before + [e], After(p, cp, before), OrderOf(p, cp, before);
    assert es[..|es| - 1] == before;
    LastStep(NewMachine(p, cp), es);
    RunKeeps(p, cp, before);
    OrderValid(p, cp, before);
    SerialIdle(p, cp, order);
    if e.ProcessStep? && e.sender in m.pending {
      FreshSender(p, Serial(p, cp, order), m, e.sender);
      var op := m.pending[e.sender].op;
      assert (order + [op])[..|order + [op]| - 1] == order;
      SerialStep(p, cp, order + [op]);
      MatchIff(p, Serial(p, cp, order), m, e.sender);
    } else {
      OtherStepMatches(Serial(p, cp, order), m, e);
      assert OrderOf(p, cp, es) == order;
    }
  }

  lemma MatchIff(p: Pool, serial: Machine, m: Machine, s: Address)
    requires Indexed(p) && Alongside(p, serial, m) && s in m.pending
    ensures Matches(Step(Step(serial, PreStep(m.pending[s].op)), ProcessStep(s)), Step(m, ProcessStep(s)))
            <==> ItemsHold(m, s)
  {
    hide *;
    if ItemsHold(m, s) {
      HoldingMatches(p, serial, m, s);
    }
    if Matches(Step(Step(serial, PreStep(m.pending[s].op)), ProcessStep(s)), Step(m, ProcessStep(s))) {
      MatchingHolds(p, serial, m, s);
    }
  }

  lemma OtherStepMatches(serial: Machine, m: Machine, e: Event)
    requires Matches(serial, m) && (e.ProcessStep? ==> e.sender !in m.pending)
    ensures Matches(serial, Step(m, e)) && (e.ProcessStep? ==> ItemsHold(m, e.sender))
  {
    hide PreProcess, PreItems;
  }

  /** Every beginning of a run is like the serial run of what it processed if and only if every
      operation's items hold when it is written. */
  lemma {:induction false} SerializableIff(p: Pool, cp: CurrencyPool, es: seq<Event>)
    requires Indexed(p) && ValidTrace(es)
    ensures (forall k :: 0 <= k <= |es| ==> LikeSerial(p, cp, es[..k])) <==> WritesHold(p, cp, es)
  {
    hide LikeSerial, ItemsHold, After, Indexed, Operation.ValidFact;
    assert es[..|es|] == es;
    if es == [] {
      StartLikeSerial(p, cp);
    } else {
      var before, e := es[..|es| - 1], es[|es| - 1];
      assert es == before + [e];
      SerializableIff(p, cp, before);
      assert forall k :: 0 <= k <= |before| ==> before[..k] == es[..k];
      if LikeSerial(p, cp, before) {
        LikeSerialStep(p, cp, before, e);
      }
      assert WritesHold(p, cp, es) <==>
        WritesHold(p, cp, before) && (e.ProcessStep? ==> ItemsHold(After(p, cp, before), e.sender));
      assert before[..|before|] == before;
    }
  }

  lemma StartLikeSerial(p: Pool, cp: CurrencyPool)
    ensures LikeSerial(p, cp, [])
  {
  }

  // ----- A condition that can be checked from the operations -----

  /** No operation still pending is disturbed by the one written now. */
  ghost predicate Undisturbing(m: Machine, s: Address) {
    s in m.pending ==> forall t :: t in m.pending && t != s ==> !Disturbs(m.pending[s].op, m.pending[t].op)
  }

  ghost predicate WritesUndisturbing(p: Pool, cp: CurrencyPool, es: seq<Event>) {
    forall k :: 0 <= k < |es| && es[k].ProcessStep? ==> Undisturbing(After(p, cp, es[..k]), es[k].sender)
  }

  ghost predicate AllItemsHold(m: Machine) { forall s :: s in m.pending ==> ItemsHold(m, s) }

  lemma PendingFacts(p: Pool, m: Machine, s: Address)
    requires Indexed(p) && Inv(p, m) && s in m.pending
    ensures m.pending[s].op.sender == s && m.pending[s].op.ValidFact() && Processable(m.pending[s])
  {
    CreateNeverFails(p, m.cp, m.accepted[s], m.pending[s]);
    hide Operation.ValidFact, Processable;
  }

  lemma WriteKeepsHolding(p: Pool, m: Machine, s: Address, t: Address)
    requires Indexed(p) && Inv(p, m) && AllItemsHold(m) && Undisturbing(m, s)
    requires s in m.pending && t in m.pending && s != t
    ensures t in Step(m, ProcessStep(s)).pending && ItemsHold(Step(m, ProcessStep(s)), t)
  {
    hide Inv, Indexed, PreProcess, PoolAfter, Processable, FeesWith, Step, PreItems, Operation.ValidFact, Disturbs;
    var op, its := m.pending[t].op, m.pending[s];
    PendingFacts(p, m, s);
    PendingFacts(p, m, t);
    PlanAgain(p, m, s);
    PlanAgain(p, m, t);
    PlanStable(m.pool, m.cp, op, m.pending[t], its.op, its);
    StepOne(m, s, its.op, its);
    PlanParts(PoolAfter(m.pool, its), m.cp, op, m.pending[t]);
  }

  lemma AcceptHolds(m: Machine, op: Operation)
    requires AllItemsHold(m) && Senders(m) && op.sender != ""
    ensures AllItemsHold(Step(m, PreStep(op)))
  {
    if Accepts(m, op) {
      PlanParts(m.pool, m.cp, op, PreProcess(m.pool, m.cp, op).value);
    }
    hide PreProcess, PreItems;
  }

  lemma StepKeepsHolding(p: Pool, m: Machine, e: Event)
    requires Indexed(p) && Inv(p, m) && AllItemsHold(m)
    requires if e.PreStep? then e.op.ValidFact() else Undisturbing(m, e.sender)
    ensures AllItemsHold(Step(m, e))
  {
    if e.PreStep? {
      NonemptySender(e.op);
      AcceptHolds(m, e.op);
    } else if e.sender in m.pending {
      CreateNeverFails(p, m.cp, m.accepted[e.sender], m.pending[e.sender]);
      StepOne(m, e.sender, m.pending[e.sender].op, m.pending[e.sender]);
      hide Inv, Indexed, ItemsHold, Step, Processable, PoolAfter, FeesWith, Undisturbing;
      forall t | t in Step(m, e).pending ensures ItemsHold(Step(m, e), t) {
        WriteKeepsHolding(p, m, e.sender, t);
      }
    }
  }

  lemma {:induction false} UndisturbedHolds(p: Pool, cp: CurrencyPool, es: seq<Event>)
    requires Indexed(p) && ValidTrace(es) && WritesUndisturbing(p, cp, es)
    ensures AllItemsHold(After(p, cp, es)) && WritesHold(p, cp, es)
  {
    hide Indexed, Inv, Step, ItemsHold, Undisturbing, NewMachine, Operation.ValidFact;
    if es == [] {
      StartHolds(p, cp);
    } else {
      var before, e := es[..|es| - 1], es[|es| - 1];
      assert forall k :: 0 <= k <= |before| ==> before[..k] == es[..k];
      UndisturbedHolds(p, cp, before);
      RunKeeps(p, cp, before);
      StepKeepsHolding(p, After(p, cp, before), e);
      if e.ProcessStep? {
        NotPendingHolds(After(p, cp, before), e.sender);
      }
    }
  }

  lemma StartHolds(p: Pool, cp: CurrencyPool)
    ensures AllItemsHold(NewMachine(p, cp))
  {
  }

  lemma NotPendingHolds(m: Machine, s: Address)
    requires AllItemsHold(m)
    ensures ItemsHold(m, s)
  {
  }

  /** If no write disturbs an operation pending at that moment, every beginning of the run is
      like the serial run of what it processed.  Operations on one document that follow each
      other, signatures among them, disturb nothing. */
  lemma Serializable(p: Pool, cp: CurrencyPool, es: seq<Event>, k: nat)
    requires Indexed(p) && ValidTrace(es) && WritesUndisturbing(p, cp, es) && k <= |es|
    ensures LikeSerial(p, cp, es[..k])
  {
    hide LikeSerial, Indexed, WritesUndisturbing, WritesHold;
    UndisturbedHolds(p, cp, es);
    SerializableIff(p, cp, es);
  }
}
