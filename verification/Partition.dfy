/** Inventories as an index of the document store: when they partition it, and why documents
    stay. */
module Partition {
  import opened Basics
  import opened Sequences
  import opened Documents
  import opened Inventory
  import opened Fees
  import opened Signatures
  import opened Ledger
  import opened Proposal
  import opened Interleaving

  predicate Owns(p: Pool, a: Address, id: string) { a in p.inventories && Lists(p.inventories[a], id) }

  /** Every registered id is listed, once, in exactly one inventory, and every listed id is
      registered under its own document id. */
  ghost predicate IsPartition(p: Pool) {
    && Indexed(p)
    && (forall id :: id in p.documents ==> exists a :: Owns(p, a, id))
    && (forall a, b, id :: Owns(p, a, id) && Owns(p, b, id) ==> a == b)
    && KeyedById(p.documents)
  }

  ghost predicate KeyedById(documents: map<string, DocumentData>) {
    forall id :: id in documents ==> documents[id].DocumentId() == id
  }

  ghost predicate CreatesDisjoint(ops: map<Address, Operation>) {
    forall s, t, id :: Creates(ops, s) && Creates(ops, t) && id in ops[s].Ids() && id in ops[t].Ids() ==> s == t
  }

  ghost predicate Created(ops: map<Address, Operation>, id: string) {
    exists s :: Creates(ops, s) && id in ops[s].Ids()
  }

  // ----- Documents during a run -----

  /** A plan writes each document under its own id; only creates write new ids. */
  ghost predicate WritesOwnIds(documents: map<string, DocumentData>, plan: Plan) {
    && |plan.docs| == plan.op.Size()
    && (forall i :: 0 <= i < plan.op.Size() ==> plan.docs[i].DocumentId() == plan.op.IdAt(i))
    && (!plan.op.CreateDocuments? ==> forall i :: 0 <= i < plan.op.Size() ==> plan.op.IdAt(i) in documents)
  }

  ghost predicate Store(p: Pool, m: Machine) {
    && KeyedById(m.pool.documents)
    && PendingWrite(m.pool.documents, m.pending)
    && OldOrCreated(p.documents, m.pool.documents, m.processed)
  }

  ghost predicate PendingWrite(documents: map<string, DocumentData>, pending: map<Address, Plan>) {
    forall s :: s in pending ==> WritesOwnIds(documents, pending[s])
  }

  ghost predicate OldOrCreated(before: map<string, DocumentData>, after: map<string, DocumentData>, ops: map<Address, Operation>) {
    forall id :: id in after <==> id in before || Created(ops, id)
  }

  lemma ItemKeepsId(pool: Pool, op: Operation, i: nat)
    requires i < op.Size() && PreItem(pool, op, i).Ok? && KeyedById(pool.documents)
    ensures PreItem(pool, op, i).value.DocumentId() == op.IdAt(i)
    ensures !op.CreateDocuments? ==> op.IdAt(i) in pool.documents
  {
    hide DocumentData.Accounts, DocumentData.Valid, DocumentData.HintType, MarkFirst, Lists;
  }

  lemma PlanWritesOwnIds(pool: Pool, cp: CurrencyPool, op: Operation, plan: Plan)
    requires PreProcess(pool, cp, op) == Ok(plan) && KeyedById(pool.documents)
    ensures WritesOwnIds(pool.documents, plan)
  {
    hide PreProcess, PreItem, PreItems, KeyedById;
    PlanParts(pool, cp, op, plan);
    forall i | 0 <= i < op.Size()
      ensures plan.docs[i].DocumentId() == op.IdAt(i)
      ensures !op.CreateDocuments? ==> op.IdAt(i) in pool.documents
    {
      assert PreItem(pool, op, i) == Ok(plan.docs[i]);
      ItemKeepsId(pool, op, i);
    }
  }

  lemma KeyedAfterWrite(documents: map<string, DocumentData>, op: Operation, docs: seq<DocumentData>)
    requires op.ValidFact() && |docs| == op.Size() && KeyedById(documents)
    requires forall i :: 0 <= i < op.Size() ==> docs[i].DocumentId() == op.IdAt(i)
    ensures
      var after := DocumentsWith(documents, op.Ids(), docs);
      KeyedById(after) && after.Keys == documents.Keys + set id | id in op.Ids()
  {
    DocumentsWithMeaning(documents, op.Ids(), docs);
    var after := DocumentsWith(documents, op.Ids(), docs);
    forall id | id in after ensures after[id].DocumentId() == id {
      if id in op.Ids() {
        var i :| 0 <= i < op.Size() && op.Ids()[i] == id;
        assert after[op.Ids()[i]] == docs[i];
      }
    }
  }

  lemma PendingKept(documents: map<string, DocumentData>, after: map<string, DocumentData>, pending: map<Address, Plan>, s: Address)
    requires PendingWrite(documents, pending) && documents.Keys <= after.Keys
    ensures PendingWrite(after, pending - {s})
  {
    forall t | t in pending - {s} ensures WritesOwnIds(after, pending[t]) {
      assert WritesOwnIds(documents, pending[t]);
    }
  }

  lemma KeysAfterWrite(before: map<string, DocumentData>, documents: map<string, DocumentData>,
                       after: map<string, DocumentData>, ops: map<Address, Operation>, s: Address, plan: Plan)
    requires OldOrCreated(before, documents, ops) && WritesOwnIds(documents, plan) && s !in ops
    requires after.Keys == documents.Keys + set id | id in plan.op.Ids()
    ensures OldOrCreated(before, after, ops[s := plan.op])
  {
    CreatedStep(ops, s, plan.op);
    OldIds(documents, plan);
    hide Created, WritesOwnIds, Operation.Ids;
    forall id ensures id in after <==> id in before || Created(ops[s := plan.op], id) {
      assert id in documents <==> id in before || Created(ops, id);
      assert id in after <==> id in documents || id in plan.op.Ids();
    }
  }

  lemma StoreAfterProcess(p: Pool, m: Machine, s: Address)
    requires Store(p, m) && s in m.pending && Processable(m.pending[s])
    requires m.pending[s].op.ValidFact() && s !in m.processed
    ensures Store(p, Step(m, ProcessStep(s)))
  {
    hide KeyedById, OldOrCreated, DocumentsWith, Operation.ValidFact, NewInventory;
    var plan := m.pending[s];
    assert WritesOwnIds(m.pool.documents, plan);
    var after := DocumentsWith(m.pool.documents, plan.op.Ids(), plan.docs);
    KeyedAfterWrite(m.pool.documents, plan.op, plan.docs);
    hide PendingWrite, WritesOwnIds;
    PendingKept(m.pool.documents, after, m.pending, s);
    KeysAfterWrite(p.documents, m.pool.documents, after, m.processed, s, plan);
  }

  lemma OldIds(documents: map<string, DocumentData>, plan: Plan)
    requires WritesOwnIds(documents, plan)
    ensures !plan.op.CreateDocuments? ==> forall id :: id in plan.op.Ids() ==> id in documents
  {
    forall id | !plan.op.CreateDocuments? && id in plan.op.Ids() ensures id in documents {
      var i :| 0 <= i < plan.op.Size() && plan.op.Ids()[i] == id;
      assert plan.op.IdAt(i) in documents;
    }
  }

  lemma CreatedStep(ops: map<Address, Operation>, s: Address, op: Operation)
    requires s !in ops
    ensures forall id :: Created(ops[s := op], id) <==> Created(ops, id) || (op.CreateDocuments? && id in op.Ids())
  {
    var after := ops[s := op];
    forall id ensures Created(after, id) <==> Created(ops, id) || (op.CreateDocuments? && id in op.Ids()) {
      if Created(ops, id) {
        var t :| Creates(ops, t) && id in ops[t].Ids();
        assert Creates(after, t) && id in after[t].Ids();
      }
      if op.CreateDocuments? && id in op.Ids() {
        assert Creates(after, s) && id in after[s].Ids();
      }
      if Created(after, id) {
        var t :| Creates(after, t) && id in after[t].Ids();
        assert t != s ==> Creates(ops, t) && id in ops[t].Ids();
      }
    }
  }

  lemma {:induction false} RunStore(p: Pool, cp: CurrencyPool, es: seq<Event>)
    requires Indexed(p) && KeyedById(p.documents) && ValidTrace(es)
    ensures Store(p, After(p, cp, es))
  {
    if es == [] {
      assert forall id :: !Created(map[], id);
    } else {
      var before, e := es[..|es| - 1], es[|es| - 1];
      RunStore(p, cp, before);
      RunKeeps(p, cp, before);
      var m := After(p, cp, before);
      if e.PreStep? && Accepts(m, e.op) {
        PlanWritesOwnIds(m.pool, m.cp, e.op, PreProcess(m.pool, m.cp, e.op).value);
      } else if e.ProcessStep? && e.sender in m.pending {
        CreateNeverFails(p, cp, m.accepted[e.sender], m.pending[e.sender]);
        StoreAfterProcess(p, m, e.sender);
      }
    }
  }

  // ----- Ownership during a run -----

  lemma OwnsAfter(p: Pool, cp: CurrencyPool, es: seq<Event>, a: Address, id: string)
    requires Indexed(p) && ValidTrace(es)
    ensures
      var m := After(p, cp, es);
      Owns(m.pool, a, id) <==> Owns(p, a, id) || (Creates(m.processed, a) && id in m.processed[a].Ids())
  {
    RunKeeps(p, cp, es);
    var ops := After(p, cp, es).processed;
    if Creates(ops, a) {
      CreateLists(p, cp, ops[a], id);
    }
  }

  lemma CreateLists(p: Pool, cp: CurrencyPool, op: Operation, id: string)
    requires Indexed(p) && Fits(p, cp, op) && op.CreateDocuments?
    ensures
      var inv := Sorted(InventoryOf(p, op.sender) + ItemInfos(op));
      && (Lists(inv, id) <==> Owns(p, op.sender, id) || id in op.Ids())
      && StrictlyAscending(inv)
  {
    var old', infos := InventoryOf(p, op.sender), ItemInfos(op);
    NewInfosUnlisted(p, op);
    ItemInfosDistinct(op);
    SortedAscends(old' + infos);
    ListsAppend(old', infos, id);
  }

  lemma ListsAppend(a: seq<DocInfo>, b: seq<DocInfo>, id: string)
    ensures Lists(a + b, id) <==> Lists(a, id) || Lists(b, id)
  {
    if Lists(a, id) {
      var i :| 0 <= i < |a| && a[i].id == id;
      assert (a + b)[i].id == id;
    }
    if Lists(b, id) {
      var i :| 0 <= i < |b| && b[i].id == id;
      assert (a + b)[|a| + i].id == id;
    }
  }

  /** Every inventory an interleaving writes is strictly ascending by id. */
  lemma InventoriesAscend(p: Pool, cp: CurrencyPool, es: seq<Event>, a: Address)
    requires Indexed(p) && ValidTrace(es)
    requires forall b :: b in p.inventories ==> StrictlyAscending(p.inventories[b])
    requires a in After(p, cp, es).pool.inventories
    ensures StrictlyAscending(After(p, cp, es).pool.inventories[a])
    ensures
      var inv := After(p, cp, es).pool.inventories[a];
      forall i, j :: 0 <= i < j < |inv| ==> BytesOrdered(inv[i].id, inv[j].id) && inv[i].id != inv[j].id
  {
    RunKeeps(p, cp, es);
    var ops := After(p, cp, es).processed;
    if Creates(ops, a) {
      CreateLists(p, cp, ops[a], "");
    }
    hide StrictlyAscending;
    AscendingOrdered(After(p, cp, es).pool.inventories[a]);
  }

  lemma DistinctAfter(p: Pool, cp: CurrencyPool, es: seq<Event>, a: Address)
    requires Indexed(p) && ValidTrace(es) && a in After(p, cp, es).pool.inventories
    ensures DistinctIds(After(p, cp, es).pool.inventories[a])
  {
    RunKeeps(p, cp, es);
    var ops := After(p, cp, es).processed;
    if Creates(ops, a) {
      CreateLists(p, cp, ops[a], "");
    }
  }

  lemma IndexedAfter(p: Pool, cp: CurrencyPool, es: seq<Event>)
    requires Indexed(p) && KeyedById(p.documents) && ValidTrace(es)
    ensures Indexed(After(p, cp, es).pool)
  {
    hide After;
    var m := After(p, cp, es);
    RunStore(p, cp, es);
    forall a | a in m.pool.inventories
      ensures DistinctIds(m.pool.inventories[a]) && forall id :: Lists(m.pool.inventories[a], id) ==> id in m.pool.documents
    {
      DistinctAfter(p, cp, es, a);
      forall id | Lists(m.pool.inventories[a], id) ensures id in m.pool.documents {
        OwnsAfter(p, cp, es, a, id);
        assert Owns(m.pool, a, id);
        assert Owns(p, a, id) ==> id in p.documents;
      }
    }
  }

  /** After any interleaving the inventories partition the documents if and only if no two
      processed creates register the same id. */
  lemma PartitionIff(p: Pool, cp: CurrencyPool, es: seq<Event>)
    requires IsPartition(p) && ValidTrace(es)
    ensures IsPartition(After(p, cp, es).pool) <==> CreatesDisjoint(After(p, cp, es).processed)
  {
    var m := After(p, cp, es);
    forall a, id
      ensures Owns(m.pool, a, id) <==> Owns(p, a, id) || (Creates(m.processed, a) && id in m.processed[a].Ids())
    {
      OwnsAfter(p, cp, es, a, id);
    }
    RunStore(p, cp, es);
    IndexedAfter(p, cp, es);
    forall s, id | Creates(m.processed, s) && id in m.processed[s].Ids() ensures id !in p.documents {
      CreatedWereNew(p, cp, es, s, id);
    }
    EveryDocumentOwned(p, m);
    if CreatesDisjoint(m.processed) {
      forall a, b, id | Owns(m.pool, a, id) && Owns(m.pool, b, id) ensures a == b {
        assert Owns(p, a, id) ==> id in p.documents;
        assert Owns(p, b, id) ==> id in p.documents;
      }
    }
  }

  lemma CreatedWereNew(p: Pool, cp: CurrencyPool, es: seq<Event>, s: Address, id: string)
    requires Indexed(p) && ValidTrace(es)
    requires Creates(After(p, cp, es).processed, s) && id in After(p, cp, es).processed[s].Ids()
    ensures id !in p.documents
  {
    RunKeeps(p, cp, es);
    var op := After(p, cp, es).processed[s];
    assert Fits(p, cp, op);
    var i :| 0 <= i < op.Size() && op.Ids()[i] == id;
    assert op.IdAt(i) !in p.documents;
  }

  lemma EveryDocumentOwned(p: Pool, m: Machine)
    requires IsPartition(p) && Store(p, m)
    requires forall a, id ::
               Owns(m.pool, a, id) <==> Owns(p, a, id) || (Creates(m.processed, a) && id in m.processed[a].Ids())
    ensures forall id :: id in m.pool.documents ==> exists a :: Owns(m.pool, a, id)
  {
    forall id | id in m.pool.documents ensures exists a :: Owns(m.pool, a, id) {
      if id in p.documents {
        var a :| Owns(p, a, id);
        assert Owns(m.pool, a, id);
      } else {
        var s :| Creates(m.processed, s) && id in m.processed[s].Ids();
        assert Owns(m.pool, s, id);
      }
    }
  }

  // ----- Serial runs -----

  /** Each operation processed right after it was accepted. */
  function SerialTrace(ops: seq<Operation>): seq<Event> {
    if ops == [] then []
    else SerialTrace(ops[..|ops| - 1]) + [PreStep(ops[|ops| - 1]), ProcessStep(ops[|ops| - 1].sender)]
  }

  ghost predicate ValidFacts(ops: seq<Operation>) { forall i :: 0 <= i < |ops| ==> ops[i].ValidFact() }

  lemma {:induction false} SerialTraceValid(ops: seq<Operation>)
    requires ValidFacts(ops)
    ensures ValidTrace(SerialTrace(ops))
  {
    if ops != [] {
      SerialTraceValid(ops[..|ops| - 1]);
    }
  }

  function Serial(p: Pool, cp: CurrencyPool, ops: seq<Operation>): Machine { After(p, cp, SerialTrace(ops)) }

  lemma SerialStep(p: Pool, cp: CurrencyPool, ops: seq<Operation>)
    requires ops != []
    ensures Serial(p, cp, ops) ==
            Step(Step(Serial(p, cp, ops[..|ops| - 1]), PreStep(ops[|ops| - 1])), ProcessStep(ops[|ops| - 1].sender))
  {
    hide Step;
    var before, op := SerialTrace(ops[..|ops| - 1]), ops[|ops| - 1];
    var one, two := before + [PreStep(op)], SerialTrace(ops);
    assert two[..|two| - 1] == one && one[..|one| - 1] == before;
    var m := NewMachine(p, cp);
    assert Run(m, two) == Step(Run(m, one), two[|two| - 1]);
    assert Run(m, one) == Step(Run(m, before), one[|one| - 1]);
  }

  lemma StepPair(m: Machine, op: Operation, plan: Plan)
    requires m.pending == map[] && op.sender != "" && op.sender !in m.claimed
    requires PreProcess(m.pool, m.cp, op) == Ok(plan) && plan.op == op && Processable(plan)
    ensures Step(Step(m, PreStep(op)), ProcessStep(op.sender)) ==
            m.(claimed := m.claimed + {op.sender}, accepted := m.accepted[op.sender := op],
               pool := PoolAfter(m.pool, plan), fee := FeesWith(m.fee, plan.required),
               processed := m.processed[op.sender := op])
  {
    hide PreProcess, Processable, PoolAfter, FeesWith;
    var m1 := Step(m, PreStep(op));
    assert m1.pending[op.sender] == plan;
    assert m1.pending - {op.sender} == map[];
  }

  /** One serial step: rejected and without effect, or accepted and fully processed. */
  lemma SerialOne(p: Pool, m: Machine, op: Operation)
    requires Indexed(p) && Inv(p, m) && op.ValidFact() && m.pending == map[]
    ensures !Accepts(m, op) ==> Step(Step(m, PreStep(op)), ProcessStep(op.sender)) == m
    ensures Accepts(m, op) ==>
              var plan := PreProcess(m.pool, m.cp, op).value;
              && Processable(plan)
              && op.sender !in m.processed
              && Step(Step(m, PreStep(op)), ProcessStep(op.sender)) ==
                 m.(claimed := m.claimed + {op.sender}, accepted := m.accepted[op.sender := op],
                    pool := PoolAfter(m.pool, plan), fee := FeesWith(m.fee, plan.required),
                    processed := m.processed[op.sender := op])
  {
    if Accepts(m, op) {
      var plan := PreProcess(m.pool, m.cp, op).value;
      UntouchedSender(p, m.cp, m.pool, m.processed, op.sender);
      PreStepFits(p, m.pool, m.cp, op, plan);
      CreateNeverFails(p, m.cp, op, plan);
      StepPair(m, op, plan);
    }
  }

  lemma {:induction false} SerialCreatesDisjoint(p: Pool, cp: CurrencyPool, ops: seq<Operation>)
    requires Indexed(p) && KeyedById(p.documents) && ValidFacts(ops)
    ensures Serial(p, cp, ops).pending == map[] && CreatesDisjoint(Serial(p, cp, ops).processed)
  {
    if ops != [] {
      var before, op := ops[..|ops| - 1], ops[|ops| - 1];
      SerialCreatesDisjoint(p, cp, before);
      SerialTraceValid(before);
      RunKeeps(p, cp, SerialTrace(before));
      RunStore(p, cp, SerialTrace(before));
      SerialStep(p, cp, ops);
      SerialStepDisjoint(p, Serial(p, cp, before), op);
    }
  }

  lemma SerialStepDisjoint(p: Pool, m: Machine, op: Operation)
    requires Indexed(p) && Inv(p, m) && Store(p, m) && op.ValidFact()
    requires m.pending == map[] && CreatesDisjoint(m.processed)
    ensures
      var m' := Step(Step(m, PreStep(op)), ProcessStep(op.sender));
      m'.pending == map[] && CreatesDisjoint(m'.processed)
  {
    SerialOne(p, m, op);
    if Accepts(m, op) {
      var plan := PreProcess(m.pool, m.cp, op).value;
      if op.CreateDocuments? {
        PlanParts(m.pool, m.cp, op, plan);
        CreatePlanInfos(m.pool, op, plan.docs);
      }
      hide Step, PreProcess, Accepts;
      NewCreateDisjoint(p, m, op);
    }
  }

  lemma NewCreateDisjoint(p: Pool, m: Machine, op: Operation)
    requires Store(p, m) && CreatesDisjoint(m.processed) && op.sender !in m.processed
    requires op.CreateDocuments? ==> forall i :: 0 <= i < op.Size() ==> op.IdAt(i) !in m.pool.documents
    ensures CreatesDisjoint(m.processed[op.sender := op])
  {
    var after := m.processed[op.sender := op];
    forall s, id | op.CreateDocuments? && Creates(m.processed, s) && id in m.processed[s].Ids() ensures id !in op.Ids() {
      assert Created(m.processed, id);
    }
    forall s, t, id | Creates(after, s) && Creates(after, t) && id in after[s].Ids() && id in after[t].Ids() ensures s == t {
      if s != op.sender {
        assert Creates(m.processed, s) && id in m.processed[s].Ids();
      }
      if t != op.sender {
        assert Creates(m.processed, t) && id in m.processed[t].Ids();
      }
    }
  }

  /** A serial run keeps the inventories a partition of the documents. */
  lemma SerialPartition(p: Pool, cp: CurrencyPool, ops: seq<Operation>)
    requires IsPartition(p) && ValidFacts(ops)
    ensures IsPartition(Serial(p, cp, ops).pool)
  {
    SerialTraceValid(ops);
    SerialCreatesDisjoint(p, cp, ops);
    PartitionIff(p, cp, SerialTrace(ops));
  }

  /** Documents stay, under the same id and owner. */
  ghost predicate Persist(before: map<string, DocumentData>, after: map<string, DocumentData>) {
    forall id :: id in before ==>
      && id in after
      && after[id].owner == before[id].owner
      && after[id].DocumentId() == before[id].DocumentId()
  }

  ghost predicate OwnersPersist(before: map<string, DocumentData>, after: map<string, DocumentData>) {
    forall id :: id in before ==> id in after && after[id].owner == before[id].owner
  }

  /** A plan leaves the owner of every document there was before as it was then. */
  ghost predicate KeepsOwners(before: map<string, DocumentData>, plan: Plan) {
    && |plan.docs| == plan.op.Size()
    && forall i :: 0 <= i < plan.op.Size() && plan.op.IdAt(i) in before ==>
         plan.docs[i].owner == before[plan.op.IdAt(i)].owner
  }

  ghost predicate AllKeepOwners(before: map<string, DocumentData>, pending: map<Address, Plan>) {
    forall s :: s in pending ==> KeepsOwners(before, pending[s])
  }

  lemma PlanKeepsOwners(before: map<string, DocumentData>, pool: Pool, cp: CurrencyPool, op: Operation, plan: Plan)
    requires PreProcess(pool, cp, op) == Ok(plan) && OwnersPersist(before, pool.documents)
    ensures KeepsOwners(before, plan)
  {
    PlanParts(pool, cp, op, plan);
    hide PreProcess, PreItems, PreItem;
    forall i | 0 <= i < op.Size() && op.IdAt(i) in before
      ensures plan.docs[i].owner == before[op.IdAt(i)].owner
    {
      assert PreItem(pool, op, i) == Ok(plan.docs[i]);
      ItemKeepsOwner(pool, op, i);
    }
  }

  lemma ItemKeepsOwner(pool: Pool, op: Operation, i: nat)
    requires i < op.Size() && PreItem(pool, op, i).Ok? && op.IdAt(i) in pool.documents
    ensures PreItem(pool, op, i).value.owner == pool.documents[op.IdAt(i)].owner
  {
    hide DocumentData.Accounts, DocumentData.Valid, DocumentData.HintType, MarkFirst, Lists;
  }

  lemma WriteKeepsOwners(before: map<string, DocumentData>, documents: map<string, DocumentData>, plan: Plan)
    requires OwnersPersist(before, documents) && KeepsOwners(before, plan) && plan.op.ValidFact()
    ensures OwnersPersist(before, DocumentsWith(documents, plan.op.Ids(), plan.docs))
  {
    IdsDistinct(plan.op);
    DocumentsWithMeaning(documents, plan.op.Ids(), plan.docs);
    hide DocumentsWith, Operation.ValidFact;
    var ids, after := plan.op.Ids(), DocumentsWith(documents, plan.op.Ids(), plan.docs);
    forall id | id in before ensures id in after && after[id].owner == before[id].owner {
      if id in ids {
        var i :| 0 <= i < plan.op.Size() && ids[i] == id;
        assert after[ids[i]] == plan.docs[i];
      }
    }
  }

  lemma IdsDistinct(op: Operation)
    requires op.ValidFact()
    ensures forall i, j :: 0 <= i < j < |op.Ids()| ==> op.Ids()[i] != op.Ids()[j]
  {
  }

  lemma StepKeepsOwners(before: map<string, DocumentData>, m: Machine, e: Event)
    requires OwnersPersist(before, m.pool.documents) && AllKeepOwners(before, m.pending)
    requires forall s :: s in m.pending ==> m.pending[s].op.ValidFact()
    ensures OwnersPersist(before, Step(m, e).pool.documents) && AllKeepOwners(before, Step(m, e).pending)
  {
    hide Operation.ValidFact, PreProcess, KeepsOwners, NewInventory, DocumentsWith, OwnersPersist;
    if e.PreStep? && Accepts(m, e.op) {
      PlanKeepsOwners(before, m.pool, m.cp, e.op, PreProcess(m.pool, m.cp, e.op).value);
    } else if e.ProcessStep? && e.sender in m.pending {
      assert KeepsOwners(before, m.pending[e.sender]);
      WriteKeepsOwners(before, m.pool.documents, m.pending[e.sender]);
    }
  }

  lemma {:induction false} RunKeepsOwners(p: Pool, cp: CurrencyPool, es: seq<Event>)
    requires Indexed(p) && ValidTrace(es)
    ensures OwnersPersist(p.documents, After(p, cp, es).pool.documents)
    ensures AllKeepOwners(p.documents, After(p, cp, es).pending)
  {
    if es != [] {
      RunKeepsOwners(p, cp, es[..|es| - 1]);
      RunKeeps(p, cp, es[..|es| - 1]);
      PendingValid(p, After(p, cp, es[..|es| - 1]));
      hide Inv, Step, OwnersPersist, AllKeepOwners, Operation.ValidFact;
      StepKeepsOwners(p.documents, After(p, cp, es[..|es| - 1]), es[|es| - 1]);
    }
  }

  lemma PendingValid(p: Pool, m: Machine)
    requires Inv(p, m)
    ensures forall s :: s in m.pending ==> m.pending[s].op.ValidFact()
  {
    hide Operation.ValidFact;
    forall s | s in m.pending ensures m.pending[s].op.ValidFact() {
      assert Fits(p, m.cp, m.accepted[s]) && PlanFits(p, m.cp, m.accepted[s], m.pending[s]);
    }
  }

  /** Over every interleaving documents stay, under the same id and owner, whatever the
      operations have to do with each other. */
  lemma DocumentsPersist(p: Pool, cp: CurrencyPool, es: seq<Event>)
    requires Indexed(p) && KeyedById(p.documents) && ValidTrace(es)
    ensures Persist(p.documents, After(p, cp, es).pool.documents)
  {
    RunKeepsOwners(p, cp, es);
    RunStore(p, cp, es);
  }

  /** The same for serial runs. */
  lemma SerialPersists(p: Pool, cp: CurrencyPool, ops: seq<Operation>)
    requires Indexed(p) && KeyedById(p.documents) && ValidFacts(ops)
    ensures Persist(p.documents, Serial(p, cp, ops).pool.documents)
  {
    SerialTraceValid(ops);
    DocumentsPersist(p, cp, SerialTrace(ops));
  }

  // ----- Many proposals -----

  /** A proposal starts from the documents and inventories the one before left; accounts and
      balances may have changed meanwhile, by currency operations and collected fees. */
  datatype Round = Round(accounts: map<Address, AccountKeys>, balances: Balances, cp: CurrencyPool, ops: seq<Operation>)

  function Chain(p: Pool, rounds: seq<Round>): Pool {
    if rounds == [] then p
    else
      var r := rounds[|rounds| - 1];
      Serial(Chain(p, rounds[..|rounds| - 1]).(accounts := r.accounts, balances := r.balances), r.cp, r.ops).pool
  }

  ghost predicate ValidRounds(rounds: seq<Round>) { forall i :: 0 <= i < |rounds| ==> ValidFacts(rounds[i].ops) }

  /** Over any run of serially processed operations across any number of proposals, the
      inventories partition the documents, and no document disappears or changes id or owner. */
  lemma {:induction false} ChainPartition(p: Pool, rounds: seq<Round>)
    requires IsPartition(p) && ValidRounds(rounds)
    ensures IsPartition(Chain(p, rounds))
    ensures Persist(p.documents, Chain(p, rounds).documents)
  {
    if rounds != [] {
      var r := rounds[|rounds| - 1];
      ChainPartition(p, rounds[..|rounds| - 1]);
      var before := Chain(p, rounds[..|rounds| - 1]);
      var start := before.(accounts := r.accounts, balances := r.balances);
      assert forall a, id :: Owns(start, a, id) <==> Owns(before, a, id);
      assert IsPartition(start) by {
        forall id | id in start.documents ensures exists a :: Owns(start, a, id) {
          var a :| Owns(before, a, id);
          assert Owns(start, a, id);
        }
      }
      SerialPartition(start, r.cp, r.ops);
      SerialPersists(start, r.cp, r.ops);
    }
  }

  /** The ledger starts out as a partition. */
  lemma EmptyPartition(accounts: map<Address, AccountKeys>, balances: Balances)
    ensures IsPartition(Pool(accounts, balances, map[], map[]))
  {
  }
}
