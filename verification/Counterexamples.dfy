/** Concrete runs in which interleavings, or orders, of operations make a difference. */
module Counterexamples {
  import opened Basics
  import opened Sequences
  import opened Documents
  import opened Inventory
  import opened Fees
  import opened Signatures
  import opened Ledger
  import opened Acceptance
  import opened Proposal
  import opened Interleaving
  import opened Partition
  import opened Serializability
  import opened SerialOrders

  const KEYS := AccountKeys(map["k" := 1], 1)

  const USER_TYPE := "mitum-blockcity-document-user-data"

  /** One item in currency "c", signed with the one key of the account. */
  ghost predicate OneItem(op: Operation) { op.Size() == 1 && op.Currencies() == ["c"] && op.signs == ["k"] }

  /** Without a currency pool such an operation costs nothing: its item decides. */
  lemma OneItemAccepted(pool: Pool, op: Operation)
    requires OneItem(op) && op.sender in pool.accounts && pool.accounts[op.sender] == KEYS
    requires (op.sender, "c") in pool.balances && pool.balances[(op.sender, "c")] >= 0
    ensures PreProcess(pool, None, op).Ok? <==> ItemAcceptable(pool, op, 0)
  {
    hide PreProcess, ItemAcceptable, Operation.Currencies;
    AcceptedExactly(pool, None, op);
    OneSigner(KEYS);
    assert UnitFee(None, "c") == 0;
    assert forall cid :: cid in op.Currencies() ==> cid == "c";
  }

  lemma OneSigner(keys: AccountKeys)
    requires "k" in keys.weights
    ensures Weight(["k"], keys) == keys.weights["k"]
  {
    assert ["k"][1..] == [];
    assert Weight([], keys) == 0;
  }

  lemma ParsedIds()
    ensures ParseDocId("xcui").Some? && ParseDocId("ycui").Some?
  {
    assert "xcui"[1..] == "cui" && "ycui"[1..] == "cui";
  }

  // ----- One step after the other -----

  /** An operation that the start accepts is processed without error. */
  lemma StartProcesses(p: Pool, cp: CurrencyPool, op: Operation, plan: Plan)
    requires Indexed(p) && op.ValidFact() && PreProcess(p, cp, op) == Ok(plan)
    ensures Processable(plan) && plan.op == op && op.sender != ""
  {
    NonemptySender(op);
    PreStepFits(p, p, cp, op, plan);
    CreateNeverFails(p, cp, op, plan);
  }

  lemma AcceptOne(m: Machine, op: Operation)
    requires Accepts(m, op) && op.sender != ""
    ensures Step(m, PreStep(op)) ==
            m.(claimed := m.claimed + {op.sender}, accepted := m.accepted[op.sender := op],
               pending := m.pending[op.sender := PreProcess(m.pool, m.cp, op).value])
  {
    hide PreProcess;
  }

  lemma FourSteps(m: Machine, a: Event, b: Event, c: Event, d: Event)
    ensures Run(m, [a, b, c, d]) == Step(Step(Step(Step(m, a), b), c), d)
  {
    hide Step;
    assert [a, b, c, d][..3] == [a, b, c] && [a, b, c][..2] == [a, b] && [a, b][..1] == [a] && [a][..0] == [];
    assert Run(m, [a]) == Step(Run(m, []), a);
    assert Run(m, [a, b]) == Step(Run(m, [a]), b);
    assert Run(m, [a, b, c]) == Step(Run(m, [a, b]), c);
    assert Run(m, [a, b, c, d]) == Step(Run(m, [a, b, c]), d);
  }

  /** Operations of two senders, both acceptable on the start, are both processed when both are
      accepted before either is processed. */
  lemma BothRun(p: Pool, cp: CurrencyPool, a: Operation, b: Operation)
    requires Indexed(p) && a.ValidFact() && b.ValidFact() && a.sender != b.sender
    requires PreProcess(p, cp, a).Ok? && PreProcess(p, cp, b).Ok?
    ensures After(p, cp, [PreStep(a), PreStep(b), ProcessStep(a.sender), ProcessStep(b.sender)]).processed
            == map[a.sender := a, b.sender := b]
  {
    hide PreProcess, Operation.ValidFact, Processable, PoolAfter, FeesWith, Run, Step, Indexed;
    var m0 := NewMachine(p, cp);
    var planA, planB := PreProcess(p, cp, a).value, PreProcess(p, cp, b).value;
    StartProcesses(p, cp, a, planA);
    StartProcesses(p, cp, b, planB);
    FourSteps(m0, PreStep(a), PreStep(b), ProcessStep(a.sender), ProcessStep(b.sender));
    AcceptOne(m0, a);
    var m1 := Step(m0, PreStep(a));
    AcceptOne(m1, b);
    var m2 := Step(m1, PreStep(b));
    StepOne(m2, a.sender, a, planA);
    var m3 := Step(m2, ProcessStep(a.sender));
    StepOne(m3, b.sender, b, planB);
  }

  // ----- An interleaving that no serial run explains -----

  const SHARED_DOC := BCUserData(DocInfo("xcui", USER_TYPE), "a", "")

  function SharedCreate(sender: Address): Operation {
    CreateDocuments(sender, [DocItem(SHARED_DOC, "c")], ["k"])
  }

  function TwoAccounts(): Pool {
    Pool(map["a" := KEYS, "b" := KEYS], map[("a", "c") := 0, ("b", "c") := 0], map[], map[])
  }

  lemma SharedCreateAccepted(sender: Address)
    requires sender == "a" || sender == "b"
    ensures SharedCreate(sender).ValidFact() && SharedCreate(sender).Ids() == ["xcui"]
    ensures PreProcess(TwoAccounts(), None, SharedCreate(sender)).Ok?
  {
    var op := SharedCreate(sender);
    ParsedIds();
    assert op.Ids()[0] == "xcui";
    assert op.Currencies() == ["c"];
    assert SHARED_DOC.Accounts() == [];
    assert ItemAcceptable(TwoAccounts(), op, 0);
    hide PreProcess, ItemAcceptable, ParseDocId;
    OneItemAccepted(TwoAccounts(), op);
  }

  const SHARED_TRACE := [PreStep(SharedCreate("a")), PreStep(SharedCreate("b")), ProcessStep("a"), ProcessStep("b")]

  /** Two processed creates of one id: no partition is left. */
  lemma SharedIdBreaks(p: Pool, cp: CurrencyPool, es: seq<Event>, s: Address, t: Address, id: string)
    requires IsPartition(p) && ValidTrace(es) && s != t
    requires Creates(After(p, cp, es).processed, s) && id in After(p, cp, es).processed[s].Ids()
    requires Creates(After(p, cp, es).processed, t) && id in After(p, cp, es).processed[t].Ids()
    ensures !IsPartition(After(p, cp, es).pool)
  {
    PartitionIff(p, cp, es);
  }

  /** Two creates of one id, both accepted before either is processed: both are processed and
      the document ends up in two inventories.  No serial run whatever comes to that pool. */
  lemma DuplicateCreateBreaksPartition()
    ensures IsPartition(TwoAccounts())
    ensures !IsPartition(After(TwoAccounts(), None, SHARED_TRACE).pool)
    ensures forall ops :: ValidFacts(ops) ==>
              Serial(TwoAccounts(), None, ops).pool != After(TwoAccounts(), None, SHARED_TRACE).pool
    ensures !AllAccepted(TwoAccounts(), None, [SharedCreate("a"), SharedCreate("b")])
  {
    hide PreProcess, After, Serial, Accepts, Operation.ValidFact, Operation.Ids;
    var p := TwoAccounts();
    SharedCreateAccepted("a");
    SharedCreateAccepted("b");
    EmptyPartition(p.accounts, p.balances);
    BothRun(p, None, SharedCreate("a"), SharedCreate("b"));
    assert "xcui" in ["xcui"];
    SharedIdBreaks(p, None, SHARED_TRACE, "a", "b", "xcui");
    forall ops | ValidFacts(ops) ensures Serial(p, None, ops).pool != After(p, None, SHARED_TRACE).pool {
      SerialPartition(p, None, ops);
    }
    SecondRefused(p);
  }

  lemma AcceptedCreatesDiffer(p: Pool, cp: CurrencyPool, ops: seq<Operation>, a: Operation, b: Operation, id: string)
    requires Indexed(p) && KeyedById(p.documents) && ValidFacts(ops) && AllAccepted(p, cp, ops)
    requires a in ops && b in ops && a.CreateDocuments? && b.CreateDocuments?
    requires id in a.Ids() && id in b.Ids()
    ensures a.sender == b.sender
  {
    hide AllAccepted, Serial, Operation.ValidFact, Operation.Ids, Indexed, KeyedById;
    AcceptedAreDone(p, cp, ops);
    SerialCreatesDisjoint(p, cp, ops);
    assert Creates(Serial(p, cp, ops).processed, a.sender) && Creates(Serial(p, cp, ops).processed, b.sender);
  }

  lemma SecondRefused(p: Pool)
    requires Indexed(p) && KeyedById(p.documents) && ValidFacts([SharedCreate("a"), SharedCreate("b")])
    requires SharedCreate("a").Ids() == SharedCreate("b").Ids() == ["xcui"]
    ensures !AllAccepted(p, None, [SharedCreate("a"), SharedCreate("b")])
  {
    hide AllAccepted, Serial, Operation.ValidFact, Operation.Ids, Indexed, KeyedById;
    var ops := [SharedCreate("a"), SharedCreate("b")];
    assert ops[0] in ops && ops[1] in ops && "xcui" in ["xcui"];
    if AllAccepted(p, None, ops) {
      AcceptedCreatesDiffer(p, None, ops, ops[0], ops[1], "xcui");
    }
  }

  // ----- An order that accepts fewer -----

  const REGISTERED := BCUserData(DocInfo("xcui", USER_TYPE), "b", "")

  const OPENING := CreateDocuments("b", [DocItem(BCUserData(DocInfo("ycui", USER_TYPE), "b", ""), "c")], ["k"])

  const UPDATING := UpdateDocuments("a", [DocItem(BCUserData(DocInfo("xcui", USER_TYPE), "b", "new"), "c")], ["k"])

  /** "a" has created a document that "b" owns; "b" has created nothing yet. */
  function OwnerWithoutInventory(): Pool {
    Pool(map["a" := KEYS, "b" := KEYS], map[("a", "c") := 0, ("b", "c") := 0],
         map["a" := [REGISTERED.info]], map["xcui" := REGISTERED])
  }

  lemma OwnerWithoutInventoryPartition()
    ensures IsPartition(OwnerWithoutInventory())
  {
    var p := OwnerWithoutInventory();
    assert p.inventories["a"][0].id == "xcui";
    assert Owns(p, "a", "xcui");
  }

  lemma OpeningValid()
    ensures OPENING.ValidFact() && UPDATING.ValidFact() && OneItem(OPENING) && OneItem(UPDATING)
  {
    ParsedIds();
    assert OPENING.Currencies() == ["c"] && UPDATING.Currencies() == ["c"];
  }

  lemma OpeningItems(after: Pool)
    requires "b" in after.inventories && after.accounts == OwnerWithoutInventory().accounts
    requires "xcui" in after.documents && after.documents["xcui"] == REGISTERED
    ensures ItemAcceptable(OwnerWithoutInventory(), OPENING, 0)
    ensures !ItemAcceptable(OwnerWithoutInventory(), UPDATING, 0) && ItemAcceptable(after, UPDATING, 0)
  {
    assert OPENING.docItems[0].doc.Accounts() == [];
    assert UPDATING.IdAt(0) == "xcui" && OPENING.IdAt(0) == "ycui";
  }

  /** An update needs the inventory of its document's owner, and the owner's own create may be
      what opens it: the same two operations are both accepted in one order, and in the other
      the update is refused. */
  lemma OrderMatters()
    ensures IsPartition(OwnerWithoutInventory()) && ValidFacts([OPENING, UPDATING])
    ensures AllAccepted(OwnerWithoutInventory(), None, [OPENING, UPDATING])
    ensures !AllAccepted(OwnerWithoutInventory(), None, [UPDATING, OPENING])
  {
    hide PreProcess, Serial, Operation.ValidFact, OneItem, ItemAcceptable, Accepts, KeyedById, Owns;
    var p := OwnerWithoutInventory();
    OwnerWithoutInventoryPartition();
    OpeningValid();
    assert Indexed(p);
    hide Indexed, OwnerWithoutInventory;
    AfterOpening(p);
    assert [OPENING, UPDATING][..0] == [] && [OPENING, UPDATING][..1] == [OPENING] && [UPDATING, OPENING][..0] == [];
    assert [UPDATING, OPENING][0] == UPDATING;
  }

  lemma AfterOpening(p: Pool)
    requires p == OwnerWithoutInventory() && Indexed(p) && OPENING.ValidFact() && OneItem(OPENING) && OneItem(UPDATING)
    ensures PreProcess(p, None, OPENING).Ok? && !PreProcess(p, None, UPDATING).Ok?
    ensures Accepts(Serial(p, None, []), OPENING) && Accepts(Serial(p, None, [OPENING]), UPDATING)
    ensures !Accepts(Serial(p, None, []), UPDATING)
  {
    hide PreProcess, Serial, Operation.ValidFact, OneItem, Indexed, ItemAcceptable, PoolAfter, Processable;
    OpeningItems(p.(inventories := p.inventories["b" := []]));
    OneItemAccepted(p, OPENING);
    OneItemAccepted(p, UPDATING);
    StartDone(p, None);
    NextDone(p, None, [], OPENING);
    assert [] + [OPENING] == [OPENING];
    SerialIdle(p, None, [OPENING]);
    var plan := PreProcess(p, None, OPENING).value;
    var after := PoolAfter(p, plan);
    OpenedPool(p, plan);
    OpeningItems(after);
    OneItemAccepted(after, UPDATING);
  }

  lemma OpenedPool(p: Pool, plan: Plan)
    requires p == OwnerWithoutInventory() && OPENING.ValidFact()
    requires PreProcess(p, None, OPENING) == Ok(plan) && Processable(plan)
    ensures
      var after := PoolAfter(p, plan);
      && "b" in after.inventories && after.accounts == p.accounts
      && "xcui" in after.documents && after.documents["xcui"] == REGISTERED
      && ("a", "c") in after.balances && after.balances[("a", "c")] == 0
  {
    hide PreProcess, PoolAfter, Processable, Operation.ValidFact, DocumentsWith;
    PlanParts(p, None, OPENING, plan);
    InventoriesWritten(p, plan, "b");
    BalancesWritten(p, None, OPENING, plan, ("a", "c"));
    DocumentsWritten(p, OPENING, plan.docs);
    assert OPENING.Ids() == ["ycui"];
    SenderUndisturbed(p, plan, "a");
  }
}
