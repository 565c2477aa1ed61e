/** The state pool and what one document operation does to it, as functions on values: the
    specification the processor objects are proved against. */
module Ledger {
  import opened Basics
  import opened Sequences
  import opened Documents
  import opened Inventory
  import opened Fees
  import opened Signatures

  /** The states the document operations read and write.  The four maps stand for one map
      keyed by state key; the keys of the four kinds never meet. */
  datatype Pool = Pool(
    accounts: map<Address, AccountKeys>,
    balances: Balances,
    inventories: map<Address, seq<DocInfo>>,
    documents: map<string, DocumentData>)

  datatype DocItem = DocItem(doc: DocumentData, cid: CurrencyId)

  datatype SignItem = SignItem(id: string, owner: Address, cid: CurrencyId)

  const MAX_ITEMS := 10

  datatype Operation =
    | CreateDocuments(sender: Address, docItems: seq<DocItem>, signs: seq<string>)
    | UpdateDocuments(sender: Address, docItems: seq<DocItem>, signs: seq<string>)
    | SignDocuments(sender: Address, signItems: seq<SignItem>, signs: seq<string>)
  {
    function Size(): nat { if SignDocuments? then |signItems| else |docItems| }

    function IdAt(i: nat): string
      requires i < Size()
    {
      if SignDocuments? then signItems[i].id else docItems[i].doc.DocumentId()
    }

    function Ids(): (ids: seq<string>)
      ensures |ids| == Size()
    {
      seq(Size(), i requires 0 <= i < Size() => IdAt(i))
    }

    function Currencies(): (cids: seq<CurrencyId>)
      ensures |cids| == Size()
    {
      seq(Size(), i requires 0 <= i < Size() => if SignDocuments? then signItems[i].cid else docItems[i].cid)
    }

    predicate ValidItem(i: nat)
      requires i < Size()
    {
      !SignDocuments? ==> docItems[i].doc.Valid()
    }

    /** What `IsValid` of the three facts checks of sender and items, and for a create that the
        ids can be parsed, without which the source cannot build the document's info. */
    predicate ValidFact() {
      && sender != ""
      && 1 <= Size() <= MAX_ITEMS
      && (forall i :: 0 <= i < Size() ==> ValidItem(i))
      && (forall i, j :: 0 <= i < j < Size() ==> IdAt(i) != IdAt(j))
      && (CreateDocuments? ==> forall i :: 0 <= i < Size() ==> ParseDocId(IdAt(i)).Some?)
    }
  }

  /** The duplicate-id loop of the facts' `IsValid`. */
  method HasDistinctIds(op: Operation) returns (ok: bool)
    ensures ok <==> forall i, j :: 0 <= i < j < op.Size() ==> op.IdAt(i) != op.IdAt(j)
  {
    var docIdMap: set<string> := {};
    for i := 0 to op.Size()
      invariant forall k :: 0 <= k < i ==> op.IdAt(k) in docIdMap
      invariant forall id :: id in docIdMap ==> exists k :: 0 <= k < i && op.IdAt(k) == id
      invariant forall k, l :: 0 <= k < l < i ==> op.IdAt(k) != op.IdAt(l)
    {
      var k := op.IdAt(i);
      if k in docIdMap {
        return false;
      }
      docIdMap := docIdMap + {k};
    }
    return true;
  }

  // ----- PreProcess -----

  function InventoryOf(pool: Pool, a: Address): seq<DocInfo> {
    if a in pool.inventories then pool.inventories[a] else []
  }

  function PreCreateItem(pool: Pool, it: DocItem): Result<DocumentData> {
    if !it.doc.Valid() then Err(InvalidItem)
    else if it.doc.DocumentId() in pool.documents then Err(AlreadyRegistered)
    else if exists i :: 0 <= i < |it.doc.Accounts()| && it.doc.Accounts()[i] !in pool.accounts then Err(AccountNotFound)
    else Ok(it.doc)
  }

  function PreUpdateItem(pool: Pool, it: DocItem): Result<DocumentData> {
    if !it.doc.Valid() then Err(InvalidItem)
    else if it.doc.owner !in pool.accounts then Err(AccountNotFound)
    else if it.doc.owner !in pool.inventories then Err(InventoryNotFound)
    else if it.doc.DocumentId() !in pool.documents then Err(NotRegistered)
    else if pool.documents[it.doc.DocumentId()].owner != it.doc.owner then Err(OwnerMismatch)
    else Ok(it.doc)
  }

  function PreSignItem(pool: Pool, sender: Address, it: SignItem): Result<DocumentData> {
    if it.owner !in pool.accounts then Err(AccountNotFound)
    else if it.owner !in pool.inventories then Err(InventoryNotFound)
    else if !Lists(pool.inventories[it.owner], it.id) then Err(NotListed)
    else if it.id !in pool.documents then Err(NotRegistered)
    else SignDocument(pool.documents[it.id], sender, it.owner)
  }

  function SignDocument(dd: DocumentData, sender: Address, owner: Address): Result<DocumentData> {
    if !dd.BSDocData? then Err(NotBlocksign)
    else if dd.creator.address != owner then Err(OwnerMismatch)
    else match MarkFirst(dd.signers, sender)
      case None => Err(NotASigner)
      case Some(signers) => Ok(dd.(signers := signers))
  }

  /** The document an item will write under its id. */
  function PreItem(pool: Pool, op: Operation, i: nat): Result<DocumentData>
    requires i < op.Size()
  {
    match op
    case CreateDocuments(_, items, _) => PreCreateItem(pool, items[i])
    case UpdateDocuments(_, items, _) => PreUpdateItem(pool, items[i])
    case SignDocuments(sender, items, _) => PreSignItem(pool, sender, items[i])
  }

  /** The documents of the first `n` items, or the first item's error. */
  function PreItems(pool: Pool, op: Operation, n: nat): (r: Result<seq<DocumentData>>)
    requires n <= op.Size()
    ensures r.Ok? ==> |r.value| == n
    ensures r.Ok? ==> forall i :: 0 <= i < n ==> PreItem(pool, op, i) == Ok(r.value[i])
  {
    if n == 0 then Ok([])
    else
      var docs :- PreItems(pool, op, n - 1);
      var doc :- PreItem(pool, op, n - 1);
      Ok(docs + [doc])
  }

  /** What a processor holds between its two phases. */
  datatype Plan = Plan(
    op: Operation,
    inventory: seq<DocInfo>,        // the sender's inventory as a create read it
    required: Required,
    sb: map<CurrencyId, int>,       // the sender's balances as read
    docs: seq<DocumentData>)        // the documents to write, item by item

  function PreProcess(pool: Pool, cp: CurrencyPool, op: Operation): (r: Result<Plan>)
    ensures r.Ok? ==> r.value.op == op && |r.value.docs| == op.Size()
    ensures r.Ok? ==> r.value.sb.Keys == r.value.required.Keys
  {
    if op.sender !in pool.accounts then Err(AccountNotFound)
    else
      var inventory := if op.CreateDocuments? then InventoryOf(pool, op.sender) else [];
      var required :- RequiredFee(cp, op.Currencies());
      if !Enough(pool.balances, op.sender, required) then Err(BadBalance)
      else
        var docs :- PreItems(pool, op, op.Size());
        var _ :- Verdict(op.signs, pool.accounts[op.sender]);
        Ok(Plan(op, inventory, required, Captured(pool.balances, op.sender, required), docs))
  }

  /** The parts of an accepted operation's plan. */
  lemma PlanParts(pool: Pool, cp: CurrencyPool, op: Operation, plan: Plan)
    requires PreProcess(pool, cp, op) == Ok(plan)
    ensures plan.op == op && RequiredFee(cp, op.Currencies()) == Ok(plan.required)
    ensures Enough(pool.balances, op.sender, plan.required)
    ensures plan.sb == Captured(pool.balances, op.sender, plan.required)
    ensures PreItems(pool, op, op.Size()) == Ok(plan.docs)
    ensures plan.inventory == if op.CreateDocuments? then InventoryOf(pool, op.sender) else []
    ensures op.sender in pool.accounts && Verdict(op.signs, pool.accounts[op.sender]).Ok?
  {
  }

  // ----- Process -----

  function DocInfoOf(): DocumentData -> DocInfo { (doc: DocumentData) => doc.info }

  function Infos(docs: seq<DocumentData>): seq<DocInfo> { Map(docs, DocInfoOf()) }

  /** The sender's inventory after a create. */
  function NewInventory(plan: Plan): Result<seq<DocInfo>> {
    if plan.op.CreateDocuments? then
      var infos :- AppendAll(plan.inventory, Infos(plan.docs));
      Ok(Sorted(infos))
    else Ok([])
  }

  function BalancesWith(balances: Balances, sender: Address, required: Required, sb: map<CurrencyId, int>): Balances
    requires sb.Keys == required.Keys
  {
    map k | k in balances.Keys + (set cid | cid in required :: (sender, cid)) ::
      if k.0 == sender && k.1 in required then sb[k.1] - required[k.1].0 else balances[k]
  }

  type FeePool = map<CurrencyId, int>

  function FeeIn(fee: FeePool, cid: CurrencyId): int { if cid in fee then fee[cid] else 0 }

  function Paid(required: Required, cid: CurrencyId): int {
    if cid in required && required[cid].1 > 0 then required[cid].1 else 0
  }

  function FeesWith(fee: FeePool, required: Required): FeePool {
    map cid | cid in fee.Keys + (set c | c in required && required[c].1 > 0) :: FeeIn(fee, cid) + Paid(required, cid)
  }

  function DocumentsWith(documents: map<string, DocumentData>, ids: seq<string>, docs: seq<DocumentData>)
    : map<string, DocumentData>
    requires |ids| == |docs|
  {
    if ids == [] then documents
    else DocumentsWith(documents, ids[..|ids| - 1], docs[..|docs| - 1])[ids[|ids| - 1] := docs[|docs| - 1]]
  }

  lemma {:induction false} DocumentsWithMeaning(documents: map<string, DocumentData>, ids: seq<string>, docs: seq<DocumentData>)
    requires |ids| == |docs| && forall i, j :: 0 <= i < j < |ids| ==> ids[i] != ids[j]
    ensures DocumentsWith(documents, ids, docs).Keys == documents.Keys + set id | id in ids
    ensures forall i :: 0 <= i < |ids| ==> DocumentsWith(documents, ids, docs)[ids[i]] == docs[i]
    ensures forall id :: id in documents && id !in ids ==> DocumentsWith(documents, ids, docs)[id] == documents[id]
  {
    if ids != [] {
      var n := |ids| - 1;
      var front, all := DocumentsWith(documents, ids[..n], docs[..n]), DocumentsWith(documents, ids, docs);
      DocumentsWithMeaning(documents, ids[..n], docs[..n]);
      assert all == front[ids[n] := docs[n]];
      hide DocumentsWith;
      assert ids == ids[..n] + [ids[n]];
      forall i | 0 <= i < n ensures all[ids[i]] == docs[i] {
        assert front[ids[..n][i]] == docs[..n][i];
      }
    }
  }

  /** Process can make the plan's write: for a create, every append succeeds. */
  predicate Processable(plan: Plan) {
    NewInventory(plan).Ok? && |plan.docs| == plan.op.Size() && plan.sb.Keys == plan.required.Keys
  }

  /** The pool after the plan's one write. */
  function PoolAfter(pool: Pool, plan: Plan): Pool
    requires Processable(plan)
  {
    Pool(
      pool.accounts,
      BalancesWith(pool.balances, plan.op.sender, plan.required, plan.sb),
      if plan.op.CreateDocuments? then pool.inventories[plan.op.sender := NewInventory(plan).value] else pool.inventories,
      DocumentsWith(pool.documents, plan.op.Ids(), plan.docs))
  }

  // ----- The states a processor hands to setState -----

  datatype State =
    | DocumentState(id: string, doc: DocumentData)
    | InventoryState(owner: Address, infos: seq<DocInfo>)
    | AmountState(owner: Address, cid: CurrencyId, amount: int, fee: int)

  function SetOne(pool: Pool, st: State): Pool {
    match st
    case DocumentState(id, doc) => pool.(documents := pool.documents[id := doc])
    case InventoryState(a, infos) => pool.(inventories := pool.inventories[a := infos])
    case AmountState(a, cid, amount, _) => pool.(balances := pool.balances[(a, cid) := amount])
  }

  /** `Statepool.Set`: the last state set for a key is the one read back. */
  function SetAll(pool: Pool, sts: seq<State>): Pool {
    if sts == [] then pool else SetOne(SetAll(pool, sts[..|sts| - 1]), sts[|sts| - 1])
  }

  function AddFee(fee: FeePool, st: State): FeePool {
    if st.AmountState? && st.fee > 0 then fee[st.cid := FeeIn(fee, st.cid) + st.fee] else fee
  }

  function AddFees(fee: FeePool, sts: seq<State>): FeePool {
    if sts == [] then fee else AddFee(AddFees(fee, sts[..|sts| - 1]), sts[|sts| - 1])
  }

  lemma {:induction false} SetAllAppend(pool: Pool, fee: FeePool, a: seq<State>, b: seq<State>)
    ensures SetAll(pool, a + b) == SetAll(SetAll(pool, a), b)
    ensures AddFees(fee, a + b) == AddFees(AddFees(fee, a), b)
  {
    if b == [] {
      assert a + b == a;
    } else {
      var n := |b| - 1;
      assert (a + b)[..|a + b| - 1] == a + b[..n];
      SetAllAppend(pool, fee, a, b[..n]);
    }
  }

  function DocumentStates(ids: seq<string>, docs: seq<DocumentData>): (r: seq<State>)
    requires |ids| == |docs|
    ensures |r| == |ids|
  {
    seq(|ids|, i requires 0 <= i < |ids| => DocumentState(ids[i], docs[i]))
  }

  function AmountStates(plan: Plan, order: seq<CurrencyId>): (r: seq<State>)
    requires plan.sb.Keys == plan.required.Keys && forall i :: 0 <= i < |order| ==> order[i] in plan.required
    ensures |r| == |order|
  {
    seq(|order|, i requires 0 <= i < |order| =>
      AmountState(plan.op.sender, order[i], plan.sb[order[i]] - plan.required[order[i]].0, plan.required[order[i]].1))
  }

  ghost predicate Enumerates<T>(order: seq<T>, s: set<T>) {
    && (forall i, j :: 0 <= i < j < |order| ==> order[i] != order[j])
    && (forall x :: x in order ==> x in s)
    && (forall x :: x in s ==> x in order)
  }

  /** The states of a processed plan: the documents, a create's inventory, and one amount for
      each required currency, in any order. */
  ghost predicate StatesOf(plan: Plan, sts: seq<State>, order: seq<CurrencyId>) {
    && |plan.docs| == plan.op.Size() && plan.sb.Keys == plan.required.Keys
    && Enumerates(order, plan.required.Keys)
    && NewInventory(plan).Ok?
    && sts == DocumentStates(plan.op.Ids(), plan.docs)
              + (if plan.op.CreateDocuments? then [InventoryState(plan.op.sender, NewInventory(plan).value)] else [])
              + AmountStates(plan, order)
  }

  lemma {:induction false} SetDocuments(pool: Pool, fee: FeePool, ids: seq<string>, docs: seq<DocumentData>)
    requires |ids| == |docs|
    ensures SetAll(pool, DocumentStates(ids, docs)) == pool.(documents := DocumentsWith(pool.documents, ids, docs))
    ensures AddFees(fee, DocumentStates(ids, docs)) == fee
  {
    if ids != [] {
      var n := |ids| - 1;
      assert DocumentStates(ids, docs)[..n] == DocumentStates(ids[..n], docs[..n]);
      SetDocuments(pool, fee, ids[..n], docs[..n]);
    }
  }

  ghost predicate Picks(plan: Plan, order: seq<CurrencyId>) {
    && plan.sb.Keys == plan.required.Keys
    && (forall i :: 0 <= i < |order| ==> order[i] in plan.required)
    && (forall i, j :: 0 <= i < j < |order| ==> order[i] != order[j])
  }

  lemma AmountStatesSnoc(plan: Plan, order: seq<CurrencyId>)
    requires Picks(plan, order) && order != []
    ensures Picks(plan, order[..|order| - 1]) && order[|order| - 1] !in order[..|order| - 1]
    ensures AmountStates(plan, order)[..|order| - 1] == AmountStates(plan, order[..|order| - 1])
  {
  }

  lemma {:induction false} SetAmounts(pool: Pool, plan: Plan, order: seq<CurrencyId>)
    requires Picks(plan, order)
    ensures
      var sender, after := plan.op.sender, SetAll(pool, AmountStates(plan, order));
      && after == pool.(balances := after.balances)
      && (forall k :: k in after.balances <==> k in pool.balances || (k.0 == sender && k.1 in order))
      && (forall k :: k in after.balances ==>
            (after.balances[k] ==
             if k.0 == sender && k.1 in order then plan.sb[k.1] - plan.required[k.1].0 else pool.balances[k]))
  {
    if order != [] {
      var rest, cid := order[..|order| - 1], order[|order| - 1];
      AmountStatesSnoc(plan, order);
      SetAmounts(pool, plan, rest);
      assert forall c :: c in order <==> c in rest || c == cid;
    }
  }

  lemma {:induction false} AddAmounts(fee: FeePool, plan: Plan, order: seq<CurrencyId>)
    requires Picks(plan, order)
    ensures
      var after := AddFees(fee, AmountStates(plan, order));
      && (forall c :: c in after <==> c in fee || (c in order && plan.required[c].1 > 0))
      && (forall c :: FeeIn(after, c) == FeeIn(fee, c) + if c in order then Paid(plan.required, c) else 0)
  {
    if order != [] {
      var rest, cid := order[..|order| - 1], order[|order| - 1];
      AmountStatesSnoc(plan, order);
      AddAmounts(fee, plan, rest);
      assert forall c :: c in order <==> c in rest || c == cid;
    }
  }

  lemma BalancesPointwise(balances: Balances, after: Balances, sender: Address, required: Required, sb: map<CurrencyId, int>)
    requires sb.Keys == required.Keys
    requires forall k :: k in after <==> k in balances || (k.0 == sender && k.1 in required)
    requires forall k :: k in after ==>
               after[k] == if k.0 == sender && k.1 in required then sb[k.1] - required[k.1].0 else balances[k]
    ensures after == BalancesWith(balances, sender, required, sb)
  {
  }

  lemma FeesPointwise(fee: FeePool, after: FeePool, required: Required)
    requires forall c :: c in after <==> c in fee || (c in required && required[c].1 > 0)
    requires forall c :: FeeIn(after, c) == FeeIn(fee, c) + Paid(required, c)
    ensures after == FeesWith(fee, required)
  {
    forall c | c in after ensures after[c] == FeesWith(fee, required)[c] {
      assert FeeIn(after, c) == after[c];
    }
  }

  lemma SetAmountsMeaning(pool: Pool, plan: Plan, order: seq<CurrencyId>)
    requires plan.sb.Keys == plan.required.Keys && Enumerates(order, plan.required.Keys)
    ensures SetAll(pool, AmountStates(plan, order)) ==
            pool.(balances := BalancesWith(pool.balances, plan.op.sender, plan.required, plan.sb))
  {
    SetAmounts(pool, plan, order);
    var after := SetAll(pool, AmountStates(plan, order)).balances;
    assert forall c :: c in plan.required <==> c in order;
    BalancesPointwise(pool.balances, after, plan.op.sender, plan.required, plan.sb);
  }

  lemma AddAmountsMeaning(fee: FeePool, plan: Plan, order: seq<CurrencyId>)
    requires plan.sb.Keys == plan.required.Keys && Enumerates(order, plan.required.Keys)
    ensures AddFees(fee, AmountStates(plan, order)) == FeesWith(fee, plan.required)
  {
    AddAmounts(fee, plan, order);
    var after := AddFees(fee, AmountStates(plan, order));
    assert forall c :: c in plan.required <==> c in order;
    FeesPointwise(fee, after, plan.required);
  }

  /** Setting a processed plan's states gives the specified pool and fees, in whatever order
      the amounts come. */
  lemma SetPlanStates(pool: Pool, fee: FeePool, plan: Plan, sts: seq<State>, order: seq<CurrencyId>)
    requires StatesOf(plan, sts, order)
    ensures SetAll(pool, sts) == PoolAfter(pool, plan)
    ensures AddFees(fee, sts) == FeesWith(fee, plan.required)
  {
    var docs := DocumentStates(plan.op.Ids(), plan.docs);
    var inv := if plan.op.CreateDocuments? then [InventoryState(plan.op.sender, NewInventory(plan).value)] else [];
    SetAllAppend(pool, fee, docs + inv, AmountStates(plan, order));
    SetAllAppend(pool, fee, docs, inv);
    SetDocuments(pool, fee, plan.op.Ids(), plan.docs);
    SetOneState(SetAll(pool, docs), fee, inv);
    SetAmountsMeaning(SetAll(pool, docs + inv), plan, order);
    AddAmountsMeaning(fee, plan, order);
  }

  lemma SetOneState(pool: Pool, fee: FeePool, sts: seq<State>)
    requires |sts| <= 1 && forall st :: st in sts ==> st.InventoryState?
    ensures SetAll(pool, sts) == if sts == [] then pool else SetOne(pool, sts[0])
    ensures AddFees(fee, sts) == fee
  {
    if sts != [] {
      assert sts[..0] == [];
      assert sts[0] in sts;
    }
  }
}
