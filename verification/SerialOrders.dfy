/** A set of operations run one at a time: when every order accepts all of them, and that then
    every order, and every interleaving, ends alike. */
module SerialOrders {
  import opened Basics
  import opened Sequences
  import opened Documents
  import opened Inventory
  import opened Fees
  import opened Signatures
  import opened Ledger
  import opened Proposal
  import opened Interleaving
  import opened Partition
  import opened Serializability

  /** Run serially, every operation of the list is accepted. */
  ghost predicate AllAccepted(p: Pool, cp: CurrencyPool, ops: seq<Operation>) {
    forall k :: 0 <= k < |ops| ==> Accepts(Serial(p, cp, ops[..k]), ops[k])
  }

  /** Two creates share no id, and a signature of a document that `first` updates can still be
      made on the updated document. */
  predicate Compatible(first: Operation, second: Operation) {
    && !(first.CreateDocuments? && second.CreateDocuments? && ShareId(second, first))
    && (first.UpdateDocuments? && second.SignDocuments? ==>
          forall i, j :: 0 <= i < first.Size() && 0 <= j < second.Size() && first.IdAt(i) == second.IdAt(j) ==>
            SignDocument(first.docItems[i].doc, second.sender, second.signItems[j].owner).Ok?)
  }

  function SenderOf(): Operation -> Address { (op: Operation) => op.sender }

  /** What can be checked of the operations before any is run: different senders, each accepted
      at the start, each two compatible. */
  ghost predicate OrderFree(p: Pool, cp: CurrencyPool, ops: seq<Operation>) {
    && DistinctBy(ops, SenderOf())
    && (forall op :: op in ops ==> PreProcess(p, cp, op).Ok?)
    && (forall a, b :: a in ops && b in ops && a.sender != b.sender ==> Compatible(a, b))
  }

  lemma UndisturbedCompatible(first: Operation, second: Operation)
    requires !Disturbs(first, second)
    ensures Compatible(first, second)
  {
    if first.UpdateDocuments? && second.SignDocuments? {
      forall i, j | 0 <= i < first.Size() && 0 <= j < second.Size() && first.IdAt(i) == second.IdAt(j) ensures false {
        assert second.IdAt(j) == first.Ids()[i];
        assert ShareId(second, first);
      }
    }
  }

  // ----- Compatible operations stay acceptable -----

  lemma SharedItemAcceptable(pool: Pool, after: Pool, its: Operation, j: nat, op: Operation, i: nat)
    requires i < op.Size() && j < its.Size() && op.IdAt(i) == its.IdAt(j) && Compatible(its, op)
    requires PreItem(pool, op, i).Ok? && PreItem(pool, its, j).Ok?
    requires after.accounts == pool.accounts && InventoriesGrow(pool.inventories, after.inventories)
    requires op.IdAt(i) in after.documents && after.documents[op.IdAt(i)] == PreItem(pool, its, j).value
    ensures PreItem(after, op, i).Ok?
  {
    hide DocumentData.Accounts, DocumentData.Valid, DocumentData.HintType, MarkFirst, Lists;
    assert its.Ids()[j] == op.IdAt(i);
    assert ShareId(op, its);
    if its.SignDocuments? && op.SignDocuments? {
      MarkAfterOther(pool.documents[op.IdAt(i)].signers, its.sender, op.sender);
    }
  }

  lemma ItemStaysAcceptable(pool: Pool, after: Pool, its: Operation, docs: seq<DocumentData>, op: Operation, i: nat)
    requires i < op.Size() && PreItem(pool, op, i).Ok? && Compatible(its, op)
    requires PreItems(pool, its, its.Size()) == Ok(docs) && its.ValidFact()
    requires after.accounts == pool.accounts && InventoriesGrow(pool.inventories, after.inventories)
    requires after.documents == DocumentsWith(pool.documents, its.Ids(), docs)
    ensures PreItem(after, op, i).Ok?
  {
    IdsDistinct(its);
    DocumentsWithMeaning(pool.documents, its.Ids(), docs);
    hide DocumentsWith, Operation.ValidFact, PreItems, PreItem, Compatible, InventoriesGrow;
    var id := op.IdAt(i);
    if id in its.Ids() {
      var j :| 0 <= j < its.Size() && its.Ids()[j] == id;
      assert PreItem(pool, its, j) == Ok(docs[j]);
      assert after.documents[its.Ids()[j]] == docs[j];
      SharedItemAcceptable(pool, after, its, j, op, i);
    } else {
      OthersUndisturbed(pool, after, op, i);
      ItemStable(pool, after, op, i);
    }
  }

  lemma OthersUndisturbed(pool: Pool, after: Pool, op: Operation, i: nat)
    requires i < op.Size() && PreItem(pool, op, i).Ok?
    requires op.IdAt(i) in after.documents <==> op.IdAt(i) in pool.documents
    requires op.IdAt(i) in pool.documents ==> after.documents[op.IdAt(i)] == pool.documents[op.IdAt(i)]
    ensures ItemUndisturbed(pool, after, op, i)
  {
  }

  lemma {:induction false} ItemsOk(pool: Pool, op: Operation, n: nat)
    requires n <= op.Size()
    ensures PreItems(pool, op, n).Ok? <==> forall i :: 0 <= i < n ==> PreItem(pool, op, i).Ok?
  {
    hide PreItem;
    if n > 0 {
      ItemsOk(pool, op, n - 1);
    }
  }

  lemma AcceptedFromParts(pool: Pool, cp: CurrencyPool, op: Operation, required: Required)
    requires op.sender in pool.accounts && RequiredFee(cp, op.Currencies()) == Ok(required)
    requires Enough(pool.balances, op.sender, required) && PreItems(pool, op, op.Size()).Ok?
    requires Verdict(op.signs, pool.accounts[op.sender]).Ok?
    ensures PreProcess(pool, cp, op).Ok?
  {
  }

  lemma StillAccepted(pool: Pool, cp: CurrencyPool, op: Operation, its: Operation, plan: Plan)
    requires PreProcess(pool, cp, op).Ok? && PreProcess(pool, cp, its) == Ok(plan)
    requires Processable(plan) && its.ValidFact() && op.sender != its.sender && Compatible(its, op)
    ensures PreProcess(PoolAfter(pool, plan), cp, op).Ok?
  {
    hide *;
    var mine := PreProcess(pool, cp, op).value;
    PlanParts(pool, cp, op, mine);
    PlanParts(pool, cp, its, plan);
    WriteGrowsInventories(pool, plan);
    SenderUndisturbed(pool, plan, op.sender);
    var after := PoolAfter(pool, plan);
    SameEnough(after.balances, pool.balances, op.sender, mine.required);
    ItemsOk(pool, op, op.Size());
    forall i | 0 <= i < op.Size() ensures PreItem(after, op, i).Ok? {
      ItemStaysAcceptable(pool, after, its, plan.docs, op, i);
    }
    ItemsOk(after, op, op.Size());
    AcceptedFromParts(after, cp, op, mine.required);
  }

  // ----- Running a list -----

  ghost function Senders(ops: seq<Operation>): set<Address> { set op | op in ops :: op.sender }

  /** A serial run of a list that is accepted so far: the operations have been processed. */
  ghost predicate Done(m: Machine, ops: seq<Operation>) {
    && m.claimed == m.processed.Keys == Senders(ops)
    && (forall op :: op in ops ==> op.sender in m.processed && m.processed[op.sender] == op)
  }

  lemma NextDone(p: Pool, cp: CurrencyPool, ops: seq<Operation>, op: Operation)
    requires Indexed(p) && ValidFacts(ops) && op.ValidFact()
    requires Done(Serial(p, cp, ops), ops) && Accepts(Serial(p, cp, ops), op)
    ensures Done(Serial(p, cp, ops + [op]), ops + [op]) && op.sender !in Senders(ops)
    ensures
      var m := Serial(p, cp, ops);
      var plan := PreProcess(m.pool, cp, op);
      && m.cp == cp && plan.Ok? && Processable(plan.value)
      && Serial(p, cp, ops + [op]).pool == PoolAfter(m.pool, plan.value)
  {
    var m := Serial(p, cp, ops);
    NonemptySender(op);
    SerialIdle(p, cp, ops);
    assert (ops + [op])[..|ops + [op]| - 1] == ops;
    hide Indexed, Inv, Step, PreProcess, Serial, PoolAfter, Processable, FeesWith, Operation.ValidFact, Done;
    SerialStep(p, cp, ops + [op]);
    SerialOne(p, m, op);
    DoneGrows(m, ops, op, Serial(p, cp, ops + [op]));
  }

  lemma DoneGrows(m: Machine, ops: seq<Operation>, op: Operation, after: Machine)
    requires Done(m, ops) && op.sender !in m.processed
    requires after.claimed == m.claimed + {op.sender} && after.processed == m.processed[op.sender := op]
    ensures Done(after, ops + [op]) && op.sender !in Senders(ops)
  {
    assert Senders(ops + [op]) == Senders(ops) + {op.sender};
  }

  lemma StartDone(p: Pool, cp: CurrencyPool)
    ensures Serial(p, cp, []) == NewMachine(p, cp) && Done(NewMachine(p, cp), [])
  {
  }

  /** Accepted operations have different senders and are all processed. */
  lemma {:induction false} AcceptedAreDone(p: Pool, cp: CurrencyPool, ops: seq<Operation>)
    requires Indexed(p) && ValidFacts(ops) && AllAccepted(p, cp, ops)
    ensures Done(Serial(p, cp, ops), ops) && DistinctBy(ops, SenderOf())
  {
    hide Indexed, Accepts, Serial, Operation.ValidFact, Done;
    if ops == [] {
      StartDone(p, cp);
    } else {
      var n := |ops| - 1;
      assert forall k :: 0 <= k <= n ==> ops[..n][..k] == ops[..k];
      AcceptedAreDone(p, cp, ops[..n]);
      assert ops == ops[..n] + [ops[n]];
      NextDone(p, cp, ops[..n], ops[n]);
      assert forall i :: 0 <= i < n ==> ops[i] in ops[..n];
    }
  }

  /** After the first `k` operations of an order-free list every later one is still accepted. */
  lemma {:induction false} RestAccepted(p: Pool, cp: CurrencyPool, ops: seq<Operation>, k: nat)
    requires Indexed(p) && ValidFacts(ops) && OrderFree(p, cp, ops) && k <= |ops|
    ensures Done(Serial(p, cp, ops[..k]), ops[..k])
    ensures forall j :: k <= j < |ops| ==> Accepts(Serial(p, cp, ops[..k]), ops[j])
  {
    hide Indexed, Serial, Operation.ValidFact, PreProcess, Compatible;
    if k == 0 {
      assert ops[..0] == [];
      StartDone(p, cp);
    } else {
      RestAccepted(p, cp, ops, k - 1);
      hide Accepts, Done, OrderFree;
      assert ops[..k] == ops[..k - 1] + [ops[k - 1]];
      NextDone(p, cp, ops[..k - 1], ops[k - 1]);
      forall j | k <= j < |ops| ensures Accepts(Serial(p, cp, ops[..k]), ops[j]) {
        NextStillAccepted(p, cp, ops, k, j);
      }
    }
  }

  lemma NextStillAccepted(p: Pool, cp: CurrencyPool, ops: seq<Operation>, k: nat, j: nat)
    requires Indexed(p) && ValidFacts(ops) && OrderFree(p, cp, ops) && 0 < k <= j < |ops|
    requires Done(Serial(p, cp, ops[..k - 1]), ops[..k - 1])
    requires Accepts(Serial(p, cp, ops[..k - 1]), ops[k - 1]) && Accepts(Serial(p, cp, ops[..k - 1]), ops[j])
    ensures Accepts(Serial(p, cp, ops[..k]), ops[j])
  {
    hide Indexed, Serial, Operation.ValidFact, Accepts, Compatible, DistinctBy, OrderFree, Done, Senders, PreProcess;
    OrderFreePair(p, cp, ops, k, j);
    assert ops[..k] == ops[..k - 1] + [ops[k - 1]];
    StaysAccepted(p, cp, ops[..k - 1], ops[k - 1], ops[j]);
  }

  lemma OrderFreePair(p: Pool, cp: CurrencyPool, ops: seq<Operation>, k: nat, j: nat)
    requires OrderFree(p, cp, ops) && 0 < k <= j < |ops|
    ensures ops[j].sender != ops[k - 1].sender && ops[j].sender !in Senders(ops[..k])
    ensures Compatible(ops[k - 1], ops[j])
  {
    hide PreProcess, Compatible;
    LaterUnclaimed(ops, k, j);
    assert SenderOf()(ops[j]) != SenderOf()(ops[k - 1]);
    assert ops[k - 1] in ops && ops[j] in ops;
  }

  lemma StaysAccepted(p: Pool, cp: CurrencyPool, before: seq<Operation>, op: Operation, other: Operation)
    requires Indexed(p) && ValidFacts(before) && op.ValidFact() && Done(Serial(p, cp, before), before)
    requires Accepts(Serial(p, cp, before), op) && Accepts(Serial(p, cp, before), other)
    requires op.sender != other.sender && other.sender !in Senders(before + [op]) && Compatible(op, other)
    ensures Accepts(Serial(p, cp, before + [op]), other)
  {
    hide Indexed, Serial, Operation.ValidFact, PreProcess, Compatible, PoolAfter, Processable;
    NextDone(p, cp, before, op);
    SerialIdle(p, cp, before + [op]);
    var m := Serial(p, cp, before);
    StillAccepted(m.pool, cp, other, op, PreProcess(m.pool, cp, op).value);
  }

  lemma LaterUnclaimed(ops: seq<Operation>, k: nat, j: nat)
    requires DistinctBy(ops, SenderOf()) && k <= j < |ops|
    ensures ops[j].sender !in Senders(ops[..k])
  {
    forall op | op in ops[..k] ensures op.sender != ops[j].sender {
      var i :| 0 <= i < k && ops[i] == op;
      assert SenderOf()(ops[i]) != SenderOf()(ops[j]);
    }
  }

  lemma OrderFreeOfPermutation(p: Pool, cp: CurrencyPool, ops: seq<Operation>, order: seq<Operation>)
    requires multiset(order) == multiset(ops)
    requires ValidFacts(ops) && OrderFree(p, cp, ops)
    ensures ValidFacts(order) && OrderFree(p, cp, order)
  {
    hide PreProcess, Compatible, Operation.ValidFact;
    SameElements(order, ops);
    DistinctByPermutation(ops, order, SenderOf());
    forall i | 0 <= i < |order| ensures order[i].ValidFact() {
      assert order[i] in ops;
    }
  }

  // ----- What every order asks for -----

  lemma WrittenAt(pool: Pool, plan: Plan, i: nat)
    requires Processable(plan) && plan.op.ValidFact() && i < plan.op.Size()
    ensures plan.op.IdAt(i) in PoolAfter(pool, plan).documents
    ensures PoolAfter(pool, plan).documents[plan.op.IdAt(i)] == plan.docs[i]
  {
    IdsDistinct(plan.op);
    DocumentsWithMeaning(pool.documents, plan.op.Ids(), plan.docs);
    hide DocumentsWith, Operation.ValidFact, NewInventory;
    assert plan.op.Ids()[i] == plan.op.IdAt(i);
  }

  lemma PairItem(p: Pool, after: Pool, a: Operation, i: nat, doc: DocumentData, b: Operation, j: nat)
    requires i < a.Size() && j < b.Size()
    requires PreItem(p, a, i) == Ok(doc) && PreItem(after, b, j).Ok?
    requires a.IdAt(i) in after.documents && after.documents[a.IdAt(i)] == doc
    ensures PairFits(a, i, b, j)
  {
    hide SignDocument, DocumentData.Accounts, DocumentData.Valid, Lists;
  }

  ghost predicate PairFits(a: Operation, i: nat, b: Operation, j: nat)
    requires i < a.Size() && j < b.Size()
  {
    a.IdAt(i) == b.IdAt(j) ==>
      && !(a.CreateDocuments? && b.CreateDocuments?)
      && (a.UpdateDocuments? && b.SignDocuments? ==>
            SignDocument(a.docItems[i].doc, b.sender, b.signItems[j].owner).Ok?)
  }

  lemma CompatibleItems(a: Operation, b: Operation)
    requires forall i, j :: 0 <= i < a.Size() && 0 <= j < b.Size() ==> PairFits(a, i, b, j)
    ensures Compatible(a, b)
  {
    hide SignDocument;
    if ShareId(b, a) {
      var j :| 0 <= j < b.Size() && b.IdAt(j) in a.Ids();
      var i :| 0 <= i < a.Size() && a.Ids()[i] == b.IdAt(j);
      assert PairFits(a, i, b, j);
    }
    if a.UpdateDocuments? && b.SignDocuments? {
      forall i, j | 0 <= i < a.Size() && 0 <= j < b.Size() && a.IdAt(i) == b.IdAt(j)
        ensures SignDocument(a.docItems[i].doc, b.sender, b.signItems[j].owner).Ok?
      {
        assert PairFits(a, i, b, j);
      }
    }
  }

  /** Two operations accepted one after the other are compatible. */
  lemma PairCompatible(p: Pool, cp: CurrencyPool, a: Operation, b: Operation, plan: Plan)
    requires a.ValidFact() && PreProcess(p, cp, a) == Ok(plan) && Processable(plan)
    requires PreProcess(PoolAfter(p, plan), cp, b).Ok?
    ensures Compatible(a, b)
  {
    hide *;
    var after := PoolAfter(p, plan);
    PlanParts(p, cp, a, plan);
    PlanParts(after, cp, b, PreProcess(after, cp, b).value);
    forall i, j | 0 <= i < a.Size() && 0 <= j < b.Size() ensures PairFits(a, i, b, j) {
      assert PreItem(p, a, i) == Ok(plan.docs[i]);
      assert PreItem(after, b, j).Ok?;
      WrittenAt(p, plan, i);
      PairItem(p, after, a, i, plan.docs[i], b, j);
    }
    CompatibleItems(a, b);
  }

  lemma PairsCompatible(p: Pool, cp: CurrencyPool, ops: seq<Operation>, a: Operation, b: Operation)
    requires Indexed(p) && ValidFacts(ops) && a in ops && b in ops && a.sender != b.sender
    requires forall order :: multiset(order) == multiset(ops) ==> AllAccepted(p, cp, order)
    ensures PreProcess(p, cp, a).Ok? && Compatible(a, b)
  {
    hide Indexed, PreProcess, Serial, Accepts, Operation.ValidFact, Compatible;
    var rest := ToFront(ops, a);
    SameElements([a] + rest, ops);
    assert b in [a] + rest && b in rest;
    var others := ToFront(rest, b);
    var order := [a, b] + others;
    assert order == [a] + ([b] + others);
    assert multiset(order) == multiset([a]) + multiset([b] + others) == multiset([a] + rest);
    assert AllAccepted(p, cp, order);
    assert order[..0] == [] && order[..1] == [] + [a] && order[0] == a && order[1] == b;
    assert Accepts(Serial(p, cp, order[..0]), order[0]) && Accepts(Serial(p, cp, order[..1]), order[1]);
    AcceptedPair(p, cp, a, b);
  }

  lemma AcceptedPair(p: Pool, cp: CurrencyPool, a: Operation, b: Operation)
    requires Indexed(p) && a.ValidFact() && Accepts(Serial(p, cp, []), a) && Accepts(Serial(p, cp, [] + [a]), b)
    ensures PreProcess(p, cp, a).Ok? && Compatible(a, b)
  {
    StartDone(p, cp);
    hide Indexed, PreProcess, Serial, Operation.ValidFact, Compatible, Processable, PoolAfter;
    NextDone(p, cp, [], a);
    assert ValidFacts([] + [a]);
    SerialIdle(p, cp, [] + [a]);
    PairCompatible(p, cp, a, b, PreProcess(p, cp, a).value);
  }

  lemma FirstAccepted(p: Pool, cp: CurrencyPool, ops: seq<Operation>, a: Operation)
    requires a in ops
    requires forall order :: multiset(order) == multiset(ops) ==> AllAccepted(p, cp, order)
    ensures PreProcess(p, cp, a).Ok?
  {
    hide PreProcess;
    var rest := ToFront(ops, a);
    var order := [a] + rest;
    assert AllAccepted(p, cp, order);
    assert order[..0] == [] && Accepts(Serial(p, cp, order[..0]), order[0]);
    StartDone(p, cp);
  }

  /** Every serial order accepts all of the operations if and only if the senders differ, each
      operation is accepted at the start, and each two are compatible. */
  lemma EveryOrderAcceptsIff(p: Pool, cp: CurrencyPool, ops: seq<Operation>)
    requires Indexed(p) && ValidFacts(ops)
    ensures (forall order :: multiset(order) == multiset(ops) ==> AllAccepted(p, cp, order)) <==> OrderFree(p, cp, ops)
  {
    hide Indexed, PreProcess, Compatible, Operation.ValidFact, Accepts, Serial;
    if OrderFree(p, cp, ops) {
      forall order | multiset(order) == multiset(ops) ensures AllAccepted(p, cp, order) {
        OrderFreeAccepts(p, cp, ops, order);
      }
    }
    if forall order :: multiset(order) == multiset(ops) ==> AllAccepted(p, cp, order) {
      AcceptedAreDone(p, cp, ops);
      forall a | a in ops ensures PreProcess(p, cp, a).Ok? {
        FirstAccepted(p, cp, ops, a);
      }
      forall a, b | a in ops && b in ops && a.sender != b.sender ensures Compatible(a, b) {
        PairsCompatible(p, cp, ops, a, b);
      }
    }
  }

  lemma OrderFreeAccepts(p: Pool, cp: CurrencyPool, ops: seq<Operation>, order: seq<Operation>)
    requires Indexed(p) && ValidFacts(ops) && OrderFree(p, cp, ops) && multiset(order) == multiset(ops)
    ensures ValidFacts(order) && AllAccepted(p, cp, order)
  {
    hide Indexed, OrderFree, ValidFacts, Accepts, Serial;
    OrderFreeOfPermutation(p, cp, ops, order);
    forall k | 0 <= k < |order| ensures Accepts(Serial(p, cp, order[..k]), order[k]) {
      RestAccepted(p, cp, order, k);
    }
  }

  // ----- One outcome -----

  ghost predicate SameOutcome(m: Machine, n: Machine) {
    && m.processed == n.processed && m.fee == n.fee
    && m.pool.balances == n.pool.balances && m.pool.inventories == n.pool.inventories
  }

  /** One at a time, in any order, order-free operations are all accepted and leave the same
      balances, inventories and fees. */
  lemma EveryOrderAgrees(p: Pool, cp: CurrencyPool, ops: seq<Operation>, order: seq<Operation>)
    requires Indexed(p) && ValidFacts(ops) && OrderFree(p, cp, ops) && multiset(order) == multiset(ops)
    ensures AllAccepted(p, cp, order) && SameOutcome(Serial(p, cp, order), Serial(p, cp, ops))
  {
    hide Indexed, OrderFree, ValidFacts, Accepts, After;
    OrderFreeAccepts(p, cp, ops, ops);
    OrderFreeAccepts(p, cp, ops, order);
    AcceptedAreDone(p, cp, ops);
    AcceptedAreDone(p, cp, order);
    SameElements(order, ops);
    SameProcessed(Serial(p, cp, order), order, Serial(p, cp, ops), ops);
    SerialTraceValid(ops);
    AgreesWithRun(p, cp, order, SerialTrace(ops));
  }

  lemma SameProcessed(m: Machine, order: seq<Operation>, n: Machine, ops: seq<Operation>)
    requires Done(m, order) && Done(n, ops) && forall op :: op in order <==> op in ops
    ensures m.processed == n.processed
  {
    forall s | s in n.processed ensures s in m.processed && m.processed[s] == n.processed[s] {
      var op :| op in ops && op.sender == s;
      assert op in order;
    }
    assert m.processed.Keys == n.processed.Keys;
  }

  lemma AgreesWithRun(p: Pool, cp: CurrencyPool, order: seq<Operation>, es: seq<Event>)
    requires Indexed(p) && ValidTrace(es) && ValidFacts(order)
    requires Serial(p, cp, order).processed == After(p, cp, es).processed
    ensures SameOutcome(Serial(p, cp, order), After(p, cp, es))
  {
    SerialTraceValid(order);
    OrderIrrelevant(p, cp, SerialTrace(order), es);
  }

  /** An interleaving that processes order-free operations leaves the balances, inventories and
      fees of running them one at a time, in whatever order. */
  lemma InterleavingAgrees(p: Pool, cp: CurrencyPool, es: seq<Event>, order: seq<Operation>)
    requires Indexed(p) && ValidTrace(es) && ValidFacts(order) && OrderFree(p, cp, order)
    requires forall op :: op in order <==> op.sender in After(p, cp, es).processed && After(p, cp, es).processed[op.sender] == op
    ensures AllAccepted(p, cp, order) && SameOutcome(Serial(p, cp, order), After(p, cp, es))
  {
    RunKeeps(p, cp, es);
    assert forall s :: s in After(p, cp, es).processed ==> After(p, cp, es).processed[s].sender == s;
    hide Indexed, OrderFree, ValidFacts, Accepts, Serial, Inv, After;
    OrderFreeAccepts(p, cp, order, order);
    AcceptedAreDone(p, cp, order);
    ProcessedAsListed(Serial(p, cp, order), order, After(p, cp, es));
    AgreesWithRun(p, cp, order, es);
  }

  lemma ProcessedAsListed(m: Machine, order: seq<Operation>, n: Machine)
    requires Done(m, order) && forall s :: s in n.processed ==> n.processed[s].sender == s
    requires forall op :: op in order <==> op.sender in n.processed && n.processed[op.sender] == op
    ensures m.processed == n.processed
  {
    forall s | s in n.processed ensures s in m.processed && m.processed[s] == n.processed[s] {
      assert n.processed[s] in order;
    }
    forall s | s in m.processed ensures s in n.processed {
      var op :| op in order && op.sender == s;
    }
  }
}
