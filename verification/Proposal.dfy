/** One proposal as a state machine (operation_processor.go).  PreProcess and Process of
    different operations may interleave in any way; a serial run is the interleaving that
    processes each operation right after accepting it. */
module Proposal {
  import opened Basics
  import opened Sequences
  import opened Sums
  import opened Documents
  import opened Inventory
  import opened Fees
  import opened Signatures
  import opened Ledger

  datatype Machine = Machine(
    cp: CurrencyPool,
    pool: Pool,
    fee: FeePool,
    claimed: set<string>,                 // the keys of `duplicated`
    accepted: map<Address, Operation>,    // history: operations that passed PreProcess
    pending: map<Address, Plan>,          // accepted, not processed yet
    processed: map<Address, Operation>)   // history: operations whose write was made

  function NewMachine(pool: Pool, cp: CurrencyPool): Machine {
    Machine(cp, pool, map[], {}, map[], map[], map[])
  }

  datatype Event = PreStep(op: Operation) | ProcessStep(sender: Address)

  predicate Accepts(m: Machine, op: Operation) {
    PreProcess(m.pool, m.cp, op).Ok? && !(op.sender != "" && op.sender in m.claimed)
  }

  function Step(m: Machine, e: Event): Machine {
    match e
    case PreStep(op) =>
      if !Accepts(m, op) then m
      else m.(
          claimed := m.claimed + (if op.sender != "" then {op.sender} else {}),
          accepted := m.accepted[op.sender := op],
          pending := m.pending[op.sender := PreProcess(m.pool, m.cp, op).value])
    case ProcessStep(s) =>
      if s !in m.pending then m
      else if !Processable(m.pending[s]) then m.(pending := m.pending - {s})
      else m.(
          pool := PoolAfter(m.pool, m.pending[s]),
          fee := FeesWith(m.fee, m.pending[s].required),
          pending := m.pending - {s},
          processed := m.processed[s := m.pending[s].op])
  }

  function Run(m: Machine, es: seq<Event>): Machine {
    if es == [] then m else Step(Run(m, es[..|es| - 1]), es[|es| - 1])
  }

  lemma RunStep(m: Machine, es: seq<Event>, e: Event)
    ensures Run(m, es + [e]) == Step(Run(m, es), e)
  {
    hide Step;
    assert (es + [e])[..|es + [e]| - 1] == es;
  }

  lemma {:induction false} RunAppend(m: Machine, a: seq<Event>, b: seq<Event>)
    ensures Run(m, a + b) == Run(Run(m, a), b)
  {
    if b == [] {
      assert a + b == a;
    } else {
      assert (a + b)[..|a + b| - 1] == a + b[..|b| - 1];
      RunAppend(m, a, b[..|b| - 1]);
    }
  }

  ghost predicate ValidTrace(es: seq<Event>) {
    forall i :: 0 <= i < |es| && es[i].PreStep? ==> es[i].op.ValidFact()
  }

  // ----- What a run leaves behind, as a function of the operations it processed -----

  function ChargeOf(cp: CurrencyPool, op: Operation, cid: CurrencyId): int { Charge(cp, op.Currencies(), cid) }

  function ChargeIn(cp: CurrencyPool, ops: map<Address, Operation>, s: Address, cid: CurrencyId): int {
    if s in ops then ChargeOf(cp, ops[s], cid) else 0
  }

  function BalancesAfter(p: Pool, cp: CurrencyPool, ops: map<Address, Operation>): Balances {
    map k | k in p.balances :: p.balances[k] - ChargeIn(cp, ops, k.0, k.1)
  }

  predicate Creates(ops: map<Address, Operation>, s: Address) { s in ops && ops[s].CreateDocuments? }

  function ItemInfo(): DocItem -> DocInfo { (it: DocItem) => it.doc.info }

  function ItemInfos(op: Operation): seq<DocInfo> {
    if op.SignDocuments? then [] else Map(op.docItems, ItemInfo())
  }

  function InventoriesAfter(p: Pool, ops: map<Address, Operation>): map<Address, seq<DocInfo>> {
    map a | a in p.inventories.Keys + (set s | s in ops && ops[s].CreateDocuments?) ::
      if Creates(ops, a) then Sorted(InventoryOf(p, a) + ItemInfos(ops[a])) else p.inventories[a]
  }

  ghost function ChargeFn(cp: CurrencyPool, ops: map<Address, Operation>, cid: CurrencyId): Address -> int {
    (s: Address) => ChargeIn(cp, ops, s, cid)
  }

  ghost function FeeTotal(cp: CurrencyPool, ops: map<Address, Operation>, cid: CurrencyId): int {
    Sum(ops.Keys, ChargeFn(cp, ops, cid))
  }

  // ----- The invariant of every interleaving -----

  /** Inventories list registered documents only, and none twice in a list. */
  ghost predicate Indexed(p: Pool) {
    forall a :: a in p.inventories ==>
      DistinctIds(p.inventories[a]) && forall id :: Lists(p.inventories[a], id) ==> id in p.documents
  }

  /** An accepted operation was signed for and affordable at the start and, if a create, new
      at the start. */
  ghost predicate Fits(p: Pool, cp: CurrencyPool, op: Operation) {
    && op.ValidFact()
    && op.sender in p.accounts && Verdict(op.signs, p.accounts[op.sender]).Ok?
    && RequiredFee(cp, op.Currencies()).Ok?
    && Enough(p.balances, op.sender, RequiredFee(cp, op.Currencies()).value)
    && (op.CreateDocuments? ==> forall i :: 0 <= i < op.Size() ==> op.IdAt(i) !in p.documents)
  }

  /** The plan holds what the sender's states were at the start. */
  ghost predicate PlanFits(p: Pool, cp: CurrencyPool, op: Operation, plan: Plan)
    requires Fits(p, cp, op)
  {
    && plan.op == op && |plan.docs| == op.Size()
    && plan.required == RequiredFee(cp, op.Currencies()).value
    && plan.sb == Captured(p.balances, op.sender, plan.required)
    && plan.inventory == (if op.CreateDocuments? then InventoryOf(p, op.sender) else [])
    && (op.CreateDocuments? ==> Infos(plan.docs) == ItemInfos(op))
  }

  ghost predicate Senders(m: Machine) {
    && m.claimed == m.accepted.Keys == m.pending.Keys + m.processed.Keys
    && m.pending.Keys !! m.processed.Keys
    && (forall s :: s in m.accepted ==> m.accepted[s].sender == s)
    && (forall s :: s in m.processed ==> m.processed[s] == m.accepted[s])
  }

  ghost predicate Plans(p: Pool, m: Machine) {
    && (forall s :: s in m.accepted ==> Fits(p, m.cp, m.accepted[s]))
    && (forall s :: s in m.pending ==> s in m.accepted && PlanFits(p, m.cp, m.accepted[s], m.pending[s]))
  }

  ghost predicate FeesMatch(cp: CurrencyPool, fee: FeePool, ops: map<Address, Operation>) {
    forall cid :: FeeIn(fee, cid) == FeeTotal(cp, ops, cid) && (cid in fee <==> FeeTotal(cp, ops, cid) > 0)
  }

  /** Balances, inventories and fees are what the processed operations make of the start. */
  ghost predicate Outcome(p: Pool, cp: CurrencyPool, pool: Pool, fee: FeePool, ops: map<Address, Operation>) {
    && pool.accounts == p.accounts
    && pool.balances == BalancesAfter(p, cp, ops)
    && pool.inventories == InventoriesAfter(p, ops)
    && p.documents.Keys <= pool.documents.Keys
    && FeesMatch(cp, fee, ops)
  }

  ghost predicate Inv(p: Pool, m: Machine) {
    Senders(m) && Plans(p, m) && Outcome(p, m.cp, m.pool, m.fee, m.processed)
  }

  // ----- PreProcess keeps it -----

  /** The pools show a sender the same accounts, balances and inventory. */
  ghost predicate SameFor(p: Pool, q: Pool, s: Address) {
    && q.accounts == p.accounts
    && (forall cid :: (s, cid) in q.balances <==> (s, cid) in p.balances)
    && (forall cid :: (s, cid) in p.balances ==> q.balances[(s, cid)] == p.balances[(s, cid)])
    && InventoryOf(q, s) == InventoryOf(p, s)
  }

  lemma UntouchedSender(p: Pool, cp: CurrencyPool, q: Pool, ops: map<Address, Operation>, s: Address)
    requires q.balances == BalancesAfter(p, cp, ops) && q.inventories == InventoriesAfter(p, ops)
    requires q.accounts == p.accounts && s !in ops
    ensures SameFor(p, q, s)
  {
    assert !Creates(ops, s);
    forall cid | (s, cid) in p.balances ensures q.balances[(s, cid)] == p.balances[(s, cid)] {
      assert ChargeIn(cp, ops, s, cid) == 0;
    }
  }

  lemma SameEnough(p: Balances, q: Balances, s: Address, required: Required)
    requires forall cid :: (s, cid) in q <==> (s, cid) in p
    requires forall cid :: (s, cid) in p ==> q[(s, cid)] == p[(s, cid)]
    requires Enough(q, s, required)
    ensures Enough(p, s, required)
    ensures Captured(q, s, required) == Captured(p, s, required)
  {
    forall cid | cid in required ensures EnoughFor(p, s, cid, required[cid].0) {
      assert EnoughFor(q, s, cid, required[cid].0);
    }
  }

  lemma CreatePlanInfos(pool: Pool, op: Operation, docs: seq<DocumentData>)
    requires op.CreateDocuments? && PreItems(pool, op, op.Size()) == Ok(docs)
    ensures Infos(docs) == ItemInfos(op)
    ensures forall i :: 0 <= i < op.Size() ==> op.IdAt(i) !in pool.documents
  {
    forall i | 0 <= i < op.Size() ensures docs[i] == op.docItems[i].doc && op.IdAt(i) !in pool.documents {
      assert PreItem(pool, op, i) == Ok(docs[i]);
    }
  }

  lemma PreStepFits(p: Pool, q: Pool, cp: CurrencyPool, op: Operation, plan: Plan)
    requires SameFor(p, q, op.sender) && p.documents.Keys <= q.documents.Keys
    requires op.ValidFact() && PreProcess(q, cp, op) == Ok(plan)
    ensures Fits(p, cp, op) && PlanFits(p, cp, op, plan)
  {
    PlanParts(q, cp, op, plan);
    SameEnough(p.balances, q.balances, op.sender, plan.required);
    if op.CreateDocuments? {
      CreatePlanInfos(q, op, plan.docs);
    }
  }

  lemma PreStepKeeps(p: Pool, m: Machine, op: Operation)
    requires Inv(p, m) && op.ValidFact()
    ensures Inv(p, Step(m, PreStep(op)))
  {
    if Accepts(m, op) {
      var plan := PreProcess(m.pool, m.cp, op).value;
      UntouchedSender(p, m.cp, m.pool, m.processed, op.sender);
      PreStepFits(p, m.pool, m.cp, op, plan);
      AcceptKeeps(p, m, op, plan);
    }
  }

  lemma AcceptKeeps(p: Pool, m: Machine, op: Operation, plan: Plan)
    requires Senders(m) && Plans(p, m) && op.sender !in m.accepted && op.sender != ""
    requires Fits(p, m.cp, op) && PlanFits(p, m.cp, op, plan)
    ensures
      var m' := m.(claimed := m.claimed + {op.sender}, accepted := m.accepted[op.sender := op],
                   pending := m.pending[op.sender := plan]);
      Senders(m') && Plans(p, m')
  {
    hide Fits, PlanFits;
  }

  // ----- Process keeps it -----

  lemma ItemInfosDistinct(op: Operation)
    requires op.ValidFact() && op.CreateDocuments?
    ensures DistinctIds(ItemInfos(op))
    ensures forall d :: d in ItemInfos(op) ==> d.Valid()
    ensures forall id :: Lists(ItemInfos(op), id) <==> id in op.Ids()
    ensures forall i :: 0 <= i < |ItemInfos(op)| ==> ItemInfos(op)[i].id == op.IdAt(i)
  {
    var infos := ItemInfos(op);
    forall i | 0 <= i < |infos| ensures infos[i].id == op.IdAt(i) == op.Ids()[i] && infos[i].Valid() {
      assert op.ValidItem(i);
    }
    forall id | id in op.Ids() ensures Lists(infos, id) {
      var i :| 0 <= i < op.Size() && op.Ids()[i] == id;
      assert infos[i].id == id;
    }
  }

  lemma DistinctUnion(inv: seq<DocInfo>, infos: seq<DocInfo>)
    requires DistinctIds(inv) && DistinctIds(infos)
    requires forall i :: 0 <= i < |infos| ==> !Lists(inv, infos[i].id)
    ensures DistinctIds(inv + infos)
  {
    forall i, j | 0 <= i < |inv| && 0 <= j < |infos| ensures inv[i].id != infos[j].id {
      assert !Lists(inv, infos[j].id);
    }
  }

  /** Every append of an accepted create succeeds: its ids were unregistered, so unlisted. */
  lemma CreateNeverFails(p: Pool, cp: CurrencyPool, op: Operation, plan: Plan)
    requires Indexed(p) && Fits(p, cp, op) && PlanFits(p, cp, op, plan)
    ensures Processable(plan)
    ensures op.CreateDocuments? ==>
              && DistinctIds(InventoryOf(p, op.sender) + ItemInfos(op))
              && NewInventory(plan) == Ok(Sorted(InventoryOf(p, op.sender) + ItemInfos(op)))
  {
    hide Indexed, Operation.ValidFact, AppendAll, Sort, DistinctIds, Infos, ItemInfos;
    if op.CreateDocuments? {
      NewInfosUnlisted(p, op);
      AppendAllSucceeds(InventoryOf(p, op.sender), ItemInfos(op));
    }
  }

  lemma NewInfosUnlisted(p: Pool, op: Operation)
    requires Indexed(p) && op.CreateDocuments? && op.ValidFact()
    requires forall i :: 0 <= i < op.Size() ==> op.IdAt(i) !in p.documents
    ensures DistinctIds(InventoryOf(p, op.sender)) && DistinctIds(InventoryOf(p, op.sender) + ItemInfos(op))
    ensures forall d :: d in ItemInfos(op) ==> d.Valid()
  {
    hide Operation.ValidFact;
    ItemInfosDistinct(op);
    DistinctUnion(InventoryOf(p, op.sender), ItemInfos(op));
  }

  lemma BalancesKept(p: Pool, cp: CurrencyPool, ops: map<Address, Operation>, op: Operation, required: Required)
    requires op.sender !in ops
    requires RequiredFee(cp, op.Currencies()) == Ok(required) && Enough(p.balances, op.sender, required)
    ensures BalancesWith(BalancesAfter(p, cp, ops), op.sender, required, Captured(p.balances, op.sender, required))
            == BalancesAfter(p, cp, ops[op.sender := op])
  {
    hide BalancesWith, BalancesAfter, RequiredFee, Enough;
    var left := BalancesWith(BalancesAfter(p, cp, ops), op.sender, required, Captured(p.balances, op.sender, required));
    var right := BalancesAfter(p, cp, ops[op.sender := op]);
    forall k ensures (k in left <==> k in right) && (k in left ==> left[k] == right[k]) {
      BalanceKept(p, cp, ops, op, required, k);
    }
    assert left.Keys == right.Keys;
  }

  lemma BalanceKept(p: Pool, cp: CurrencyPool, ops: map<Address, Operation>, op: Operation, required: Required, k: (Address, CurrencyId))
    requires op.sender !in ops
    requires RequiredFee(cp, op.Currencies()) == Ok(required) && Enough(p.balances, op.sender, required)
    ensures
      var left := BalancesWith(BalancesAfter(p, cp, ops), op.sender, required, Captured(p.balances, op.sender, required));
      var right := BalancesAfter(p, cp, ops[op.sender := op]);
      && (k in left <==> k in right)
      && (k in left ==> left[k] == right[k])
  {
    RequiredCharge(cp, op, required);
    ChargeInAfter(cp, ops, op, k.0, k.1);
    if k.1 in required {
      assert EnoughFor(p.balances, op.sender, k.1, required[k.1].0);
    }
    hide ChargeIn, ChargeOf, RequiredFee, Enough, EnoughFor;
    BalanceAt(p, cp, ops, k);
    BalanceAt(p, cp, ops[op.sender := op], k);
    BalancesWithAt(BalancesAfter(p, cp, ops), op.sender, required, Captured(p.balances, op.sender, required), k);
    hide BalancesWith, BalancesAfter;
  }

  lemma BalanceAt(p: Pool, cp: CurrencyPool, ops: map<Address, Operation>, k: (Address, CurrencyId))
    ensures k in BalancesAfter(p, cp, ops) <==> k in p.balances
    ensures k in p.balances ==> BalancesAfter(p, cp, ops)[k] == p.balances[k] - ChargeIn(cp, ops, k.0, k.1)
  {
  }

  lemma BalancesWithAt(balances: Balances, sender: Address, required: Required, sb: map<CurrencyId, int>, k: (Address, CurrencyId))
    requires sb.Keys == required.Keys
    ensures
      var after := BalancesWith(balances, sender, required, sb);
      && (k in after <==> k in balances || (k.0 == sender && k.1 in required))
      && (k in after ==> after[k] == if k.0 == sender && k.1 in required then sb[k.1] - required[k.1].0 else balances[k])
  {
  }

  lemma RequiredCharge(cp: CurrencyPool, op: Operation, required: Required)
    requires RequiredFee(cp, op.Currencies()) == Ok(required)
    ensures forall cid :: ChargeOf(cp, op, cid) == if cid in required then required[cid].0 else 0
    ensures forall cid :: ChargeOf(cp, op, cid) == Paid(required, cid)
  {
    hide Charge, FirstBad, Operation.Currencies;
    forall cid ensures ChargeOf(cp, op, cid) == (if cid in required then required[cid].0 else 0) == Paid(required, cid) {
      ChargeNonNegative(cp, op.Currencies(), cid);
    }
  }

  lemma ChargeInAfter(cp: CurrencyPool, ops: map<Address, Operation>, op: Operation, a: Address, cid: CurrencyId)
    requires op.sender !in ops
    ensures ChargeIn(cp, ops[op.sender := op], a, cid) ==
            if a == op.sender then ChargeIn(cp, ops, a, cid) + ChargeOf(cp, op, cid) else ChargeIn(cp, ops, a, cid)
    ensures ChargeIn(cp, ops, op.sender, cid) == 0
  {
  }

  lemma InventoriesKept(p: Pool, ops: map<Address, Operation>, op: Operation)
    requires op.sender !in ops
    ensures InventoriesAfter(p, ops[op.sender := op]) ==
            if op.CreateDocuments? then
              InventoriesAfter(p, ops)[op.sender := Sorted(InventoryOf(p, op.sender) + ItemInfos(op))]
            else InventoriesAfter(p, ops)
  {
    hide Sort, ItemInfos, Lists, InventoryOf;
    var after := ops[op.sender := op];
    assert !Creates(ops, op.sender);
    var left, right := InventoriesAfter(p, after), InventoriesAfter(p, ops);
    forall a | a != op.sender ensures (a in left <==> a in right) && (a in left ==> left[a] == right[a]) {
      assert Creates(after, a) <==> Creates(ops, a);
    }
  }

  lemma FeeTotalStep(cp: CurrencyPool, ops: map<Address, Operation>, op: Operation, cid: CurrencyId)
    requires op.sender !in ops
    ensures FeeTotal(cp, ops[op.sender := op], cid) == FeeTotal(cp, ops, cid) + ChargeOf(cp, op, cid)
    ensures FeeTotal(cp, ops, cid) >= 0
  {
    var after := ops[op.sender := op];
    assert after.Keys == ops.Keys + {op.sender};
    SumInsert(ops.Keys, ChargeFn(cp, after, cid), op.sender);
    SumCongruent(ops.Keys, ChargeFn(cp, after, cid), ChargeFn(cp, ops, cid));
    forall s | s in ops ensures ChargeFn(cp, ops, cid)(s) >= 0 {
      ChargeNonNegative(cp, ops[s].Currencies(), cid);
    }
    SumNonNegative(ops.Keys, ChargeFn(cp, ops, cid));
  }

  lemma {:induction false} SumNonNegative<T(!new)>(s: set<T>, f: T -> int)
    requires forall x :: x in s ==> f(x) >= 0
    ensures Sum(s, f) >= 0
  {
    if s != {} {
      var x :| x in s;
      SumRemove(s, f, x);
      SumNonNegative(s - {x}, f);
    }
  }

  lemma FeesKept(cp: CurrencyPool, ops: map<Address, Operation>, fee: FeePool, op: Operation, required: Required)
    requires op.sender !in ops && RequiredFee(cp, op.Currencies()) == Ok(required) && FeesMatch(cp, fee, ops)
    ensures FeesMatch(cp, FeesWith(fee, required), ops[op.sender := op])
  {
    hide ChargeOf, RequiredFee, FeeTotal;
    RequiredCharge(cp, op, required);
    forall cid
      ensures FeeIn(FeesWith(fee, required), cid) == FeeTotal(cp, ops[op.sender := op], cid)
      ensures cid in FeesWith(fee, required) <==> FeeTotal(cp, ops[op.sender := op], cid) > 0
    {
      assert Paid(required, cid) == ChargeOf(cp, op, cid);
      FeeTotalStep(cp, ops, op, cid);
    }
  }

  lemma {:induction false} DocumentsWithGrows(documents: map<string, DocumentData>, ids: seq<string>, docs: seq<DocumentData>)
    requires |ids| == |docs|
    ensures documents.Keys <= DocumentsWith(documents, ids, docs).Keys
  {
    if ids != [] {
      DocumentsWithGrows(documents, ids[..|ids| - 1], docs[..|docs| - 1]);
    }
  }

  /** What processing one plan does, given what the earlier ones did. */
  lemma OutcomeStep(p: Pool, cp: CurrencyPool, pool: Pool, fee: FeePool, ops: map<Address, Operation>, op: Operation, plan: Plan)
    requires Indexed(p) && Outcome(p, cp, pool, fee, ops) && op.sender !in ops
    requires Fits(p, cp, op) && PlanFits(p, cp, op, plan)
    ensures Processable(plan)
    ensures Outcome(p, cp, PoolAfter(pool, plan), FeesWith(fee, plan.required), ops[op.sender := op])
  {
    CreateNeverFails(p, cp, op, plan);
    BalancesKept(p, cp, ops, op, plan.required);
    InventoriesKept(p, ops, op);
    FeesKept(cp, ops, fee, op, plan.required);
    DocumentsWithGrows(pool.documents, op.Ids(), plan.docs);
  }

  lemma ProcessStepKeeps(p: Pool, m: Machine, s: Address)
    requires Indexed(p) && Inv(p, m)
    ensures Inv(p, Step(m, ProcessStep(s)))
  {
    if s in m.pending {
      OutcomeStep(p, m.cp, m.pool, m.fee, m.processed, m.accepted[s], m.pending[s]);
      MoveKeeps(p, m, s);
    }
  }

  lemma MoveKeeps(p: Pool, m: Machine, s: Address)
    requires Senders(m) && Plans(p, m) && s in m.pending && m.pending[s].op == m.accepted[s]
    ensures
      var m' := m.(pending := m.pending - {s}, processed := m.processed[s := m.pending[s].op]);
      Senders(m') && Plans(p, m')
  {
    hide Fits, PlanFits;
  }

  lemma StartInv(p: Pool, cp: CurrencyPool)
    ensures Inv(p, NewMachine(p, cp))
  {
    assert p.balances == BalancesAfter(p, cp, map[]);
    assert p.inventories == InventoriesAfter(p, map[]);
    assert FeesMatch(cp, map[], map[]) by {
      assert forall cid :: FeeTotal(cp, map[], cid) == 0;
    }
  }

  /** The invariant of every interleaving of one proposal's steps. */
  lemma {:induction false} RunKeeps(p: Pool, cp: CurrencyPool, es: seq<Event>)
    requires Indexed(p) && ValidTrace(es)
    ensures Inv(p, Run(NewMachine(p, cp), es)) && Run(NewMachine(p, cp), es).cp == cp
  {
    if es == [] {
      StartInv(p, cp);
    } else {
      hide Inv, Indexed, Step, NewMachine, Operation.ValidFact;
      RunKeeps(p, cp, es[..|es| - 1]);
      StepKeeps(p, Run(NewMachine(p, cp), es[..|es| - 1]), es[|es| - 1]);
    }
  }

  lemma StepKeeps(p: Pool, m: Machine, e: Event)
    requires Indexed(p) && Inv(p, m) && (e.PreStep? ==> e.op.ValidFact())
    ensures Inv(p, Step(m, e)) && Step(m, e).cp == m.cp
  {
    StepKeepsCurrencies(m, e);
    hide Inv, Indexed, Step, Operation.ValidFact;
    match e {
      case PreStep(op) => PreStepKeeps(p, m, op);
      case ProcessStep(s) => ProcessStepKeeps(p, m, s);
    }
  }

  lemma StepKeepsCurrencies(m: Machine, e: Event)
    ensures Step(m, e).cp == m.cp
  {
    hide PreProcess, PoolAfter, FeesWith, Processable;
  }
}
