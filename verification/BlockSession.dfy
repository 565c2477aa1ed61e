/** Digesting one block (block_session.go, digest.go): its operations and states become rows,
    and the rows are committed collection by collection. */
module BlockSessions {
  import opened Basics
  import opened Sequences
  import opened Documents
  import opened StateKeys
  import opened DigestStore
  import opened Databases

  datatype StateValue =
    | AccountValue(address: string)
    | AmountValue(currency: string, amount: int)
    | DocumentValue(doc: DocumentData)
    | InventoryValue(infos: seq<DocInfo>)
    | OtherValue

  datatype BlockState = BlockState(key: string, height: Height, previousHeight: Height, value: StateValue)

  datatype BlockOperation = BlockOperation(fact: string, addresses: seq<string>)

  /** `tree` is the operations tree: facts with whether they are in state. */
  datatype Block = Block(height: Height, operations: seq<BlockOperation>, tree: map<string, bool>, states: seq<BlockState>)

  /** The currency library's state keys: its recognisers and the address in a balance key. */
  datatype CurrencyKeys = CurrencyKeys(
    isAccount: string -> bool,
    isBalance: string -> bool,
    balanceAddress: (string, string) -> string)

  // ----- Rows of a block -----

  function OperationRow(b: Block, i: nat): Row
    requires i < |b.operations| && b.operations[i].fact in b.tree
  {
    var op := b.operations[i];
    Row(b.height, OperationBody(i, op.fact, op.addresses, b.tree[op.fact]))
  }

  predicate InTree(b: Block, n: nat)
    requires n <= |b.operations|
  {
    forall i :: 0 <= i < n ==> b.operations[i].fact in b.tree
  }

  function OperationRows(b: Block): (rows: seq<Row>)
    requires InTree(b, |b.operations|)
    ensures |rows| == |b.operations|
  {
    seq(|b.operations|, i requires 0 <= i < |b.operations| => OperationRow(b, i))
  }

  /** The collection a state goes to: the first recogniser that answers decides. */
  function Route(lib: CurrencyKeys, key: string): Option<Col> {
    if lib.isAccount(key) then Some(ColAccount)
    else if lib.isBalance(key) then Some(ColBalance)
    else if IsStateDocumentDataKey(key) then Some(ColDocument)
    else if IsStateDocumentsKey(key) then Some(ColDocuments)
    else None
  }

  predicate RightValue(c: Col, v: StateValue) {
    match c
    case ColAccount => v.AccountValue?
    case ColBalance => v.AmountValue?
    case ColDocument => v.DocumentValue?
    case ColDocuments => true
    case ColOperation => false
  }

  /** The inventory a row keeps is whatever the state holds; it is decoded when read. */
  function Infos(v: StateValue): seq<DocInfo> { if v.InventoryValue? then v.infos else [] }

  function StateRow(lib: CurrencyKeys, h: Height, st: BlockState): Row
    requires Route(lib, st.key).Some? && RightValue(Route(lib, st.key).value, st.value)
  {
    match Route(lib, st.key).value
    case ColAccount => Row(st.height, AccountBody(st.value.address))
    case ColBalance =>
      Row(st.height, BalanceBody(lib.balanceAddress(st.key, st.value.currency), st.value.currency, st.value.amount, st.previousHeight))
    case ColDocument => Row(h, DocumentBody(st.value.doc))
    case ColDocuments =>
      Row(st.height, InventoryBody(st.key[..|st.key| - |DOCUMENTS_SUFFIX|], Infos(st.value)))
  }

  predicate GoodState(lib: CurrencyKeys, st: BlockState) {
    Route(lib, st.key).Some? ==> RightValue(Route(lib, st.key).value, st.value)
  }

  predicate GoodStates(lib: CurrencyKeys, sts: seq<BlockState>) {
    forall i :: 0 <= i < |sts| ==> GoodState(lib, sts[i])
  }

  /** The rows of the states that go to collection `c`, in the states' order. */
  function RowsFor(lib: CurrencyKeys, h: Height, sts: seq<BlockState>, c: Col): seq<Row>
    requires GoodStates(lib, sts)
  {
    if sts == [] then []
    else
      var n := |sts| - 1;
      RowsFor(lib, h, sts[..n], c) + (if Route(lib, sts[n].key) == Some(c) then [StateRow(lib, h, sts[n])] else [])
  }

  lemma NoRows(lib: CurrencyKeys, h: Height, sts: seq<BlockState>)
    requires sts == []
    ensures forall c :: RowsFor(lib, h, sts, c) == []
  {
  }

  lemma NextRows(lib: CurrencyKeys, h: Height, sts: seq<BlockState>)
    requires sts != [] && GoodStates(lib, sts[..|sts| - 1])
    ensures
      var n := |sts| - 1;
      GoodState(lib, sts[n]) ==>
        && GoodStates(lib, sts)
        && (forall c :: RowsFor(lib, h, sts, c)
                        == RowsFor(lib, h, sts[..n], c) + if Route(lib, sts[n].key) == Some(c) then [StateRow(lib, h, sts[n])] else [])
  {
    hide GoodState;
    var n := |sts| - 1;
    assert forall i :: 0 <= i < n ==> sts[..n][i] == sts[i];
  }

  function DocumentIdOf(): Row -> string {
    (r: Row) => if r.body.DocumentBody? then r.body.doc.DocumentId() else ""
  }

  datatype Models = Models(
    operation: seq<Row>,
    account: seq<Row>,
    balance: seq<Row>,
    document: seq<Row>,
    documents: seq<Row>,
    documentList: seq<string>)

  /** What a block turns into; None when an operation or a state cannot be turned into a row. */
  function ModelsOf(lib: CurrencyKeys, b: Block): Option<Models> {
    if !InTree(b, |b.operations|) || !GoodStates(lib, b.states) then None
    else
      var documents := RowsFor(lib, b.height, b.states, ColDocument);
      Some(Models(
        OperationRows(b),
        RowsFor(lib, b.height, b.states, ColAccount),
        RowsFor(lib, b.height, b.states, ColBalance),
        documents,
        RowsFor(lib, b.height, b.states, ColDocuments),
        Map(documents, DocumentIdOf())))
  }

  // ----- What the rows hold -----

  /** What becomes of a state: the first of the currency library's recognisers that knows the key,
      then the two kinds of document keys, decide the collection, and the row holds the state's
      own address, amount, document or inventory. */
  ghost predicate Becomes(lib: CurrencyKeys, h: Height, st: BlockState, c: Col, r: Row) {
    match c
    case ColAccount =>
      lib.isAccount(st.key) && st.value.AccountValue? && r == Row(st.height, AccountBody(st.value.address))
    case ColBalance =>
      && !lib.isAccount(st.key) && lib.isBalance(st.key) && st.value.AmountValue?
      && r == Row(st.height, BalanceBody(lib.balanceAddress(st.key, st.value.currency),
                                         st.value.currency, st.value.amount, st.previousHeight))
    case ColDocument =>
      && !lib.isAccount(st.key) && !lib.isBalance(st.key) && (exists id :: st.key == id + ":DocumentData")
      && st.value.DocumentValue? && r == Row(h, DocumentBody(st.value.doc))
    case ColDocuments =>
      && !lib.isAccount(st.key) && !lib.isBalance(st.key)
      && r.height == st.height && r.body.InventoryBody? && st.key == r.body.address + ":Documents"
      && r.body.infos == if st.value.InventoryValue? then st.value.infos else []
    case ColOperation => false
  }

  /** The models are the rows of the states at the places `at`, which are all there are. */
  ghost predicate Sources(lib: CurrencyKeys, h: Height, sts: seq<BlockState>, c: Col, models: seq<Row>, at: seq<int>) {
    && |at| == |models|
    && (forall k, l :: 0 <= k < l < |at| ==> at[k] < at[l])
    && (forall k :: 0 <= k < |at| ==> 0 <= at[k] < |sts| && Becomes(lib, h, sts[at[k]], c, models[k]))
    && (forall i, r :: 0 <= i < |sts| && Becomes(lib, h, sts[i], c, r) ==> i in at)
  }

  ghost predicate RowsOf(lib: CurrencyKeys, h: Height, sts: seq<BlockState>, c: Col, models: seq<Row>) {
    exists at :: Sources(lib, h, sts, c, models, at)
  }

  /** One row per operation, with its own fact and addresses and what the tree says of it. */
  ghost predicate OperationsOf(b: Block, models: seq<Row>) {
    && |models| == |b.operations|
    && forall i :: 0 <= i < |models| ==>
         && b.operations[i].fact in b.tree
         && models[i] == Row(b.height, OperationBody(i, b.operations[i].fact, b.operations[i].addresses, b.tree[b.operations[i].fact]))
  }

  lemma RowBecomes(lib: CurrencyKeys, h: Height, st: BlockState, c: Col)
    requires GoodState(lib, st)
    ensures Route(lib, st.key) == Some(c) ==> Becomes(lib, h, st, c, StateRow(lib, h, st))
    ensures forall r :: Becomes(lib, h, st, c, r) ==> Route(lib, st.key) == Some(c)
  {
    RecognisedAreBuilt(st.key);
    KindsDisjoint(st.key);
    if Route(lib, st.key) == Some(ColDocuments) {
      assert st.key == st.key[..|st.key| - |DOCUMENTS_SUFFIX|] + ":Documents";
    }
  }

  /** The states' rows, collection by collection and in the states' order, hold what the states
      hold. */
  lemma {:induction false} RowsForMeaning(lib: CurrencyKeys, h: Height, sts: seq<BlockState>, c: Col) returns (at: seq<int>)
    requires GoodStates(lib, sts)
    ensures Sources(lib, h, sts, c, RowsFor(lib, h, sts, c), at)
  {
    if sts == [] {
      at := [];
    } else {
      var n := |sts| - 1;
      at := RowsForMeaning(lib, h, sts[..n], c);
      RowBecomes(lib, h, sts[n], c);
      hide Becomes, StateRow, RightValue, Sources, GoodState;
      assert sts == sts[..n] + [sts[n]];
      if Route(lib, sts[n].key) == Some(c) {
        NextSource(lib, h, sts[..n], sts[n], c, RowsFor(lib, h, sts[..n], c), at, StateRow(lib, h, sts[n]));
        at := at + [n];
      } else {
        NoSource(lib, h, sts[..n], sts[n], c, RowsFor(lib, h, sts[..n], c), at);
        assert RowsFor(lib, h, sts, c) == RowsFor(lib, h, sts[..n], c);
      }
    }
  }

  lemma NextSource(lib: CurrencyKeys, h: Height, before: seq<BlockState>, st: BlockState, c: Col, models: seq<Row>, at: seq<int>, row: Row)
    requires Sources(lib, h, before, c, models, at) && Becomes(lib, h, st, c, row)
    ensures Sources(lib, h, before + [st], c, models + [row], at + [|before|])
  {
    hide Becomes;
    var sts, places := before + [st], at + [|before|];
    forall i, r | 0 <= i < |sts| && Becomes(lib, h, sts[i], c, r) ensures i in places {
      if i < |before| {
        assert sts[i] == before[i];
      } else {
        assert places[|at|] == i;
      }
    }
  }

  lemma NoSource(lib: CurrencyKeys, h: Height, before: seq<BlockState>, st: BlockState, c: Col, models: seq<Row>, at: seq<int>)
    requires Sources(lib, h, before, c, models, at) && forall r :: !Becomes(lib, h, st, c, r)
    ensures Sources(lib, h, before + [st], c, models, at)
  {
    hide Becomes;
  }

  lemma StatesMeaning(lib: CurrencyKeys, h: Height, sts: seq<BlockState>)
    requires GoodStates(lib, sts)
    ensures forall c :: RowsOf(lib, h, sts, c, RowsFor(lib, h, sts, c))
  {
    forall c ensures RowsOf(lib, h, sts, c, RowsFor(lib, h, sts, c)) {
      var at := RowsForMeaning(lib, h, sts, c);
    }
  }

  /** Every model comes from a state, and every state that becomes a row has one. */
  lemma RowHasState(lib: CurrencyKeys, h: Height, sts: seq<BlockState>, c: Col, models: seq<Row>, r: Row) returns (i: int)
    requires RowsOf(lib, h, sts, c, models) && r in models
    ensures 0 <= i < |sts| && Becomes(lib, h, sts[i], c, r)
  {
    hide Becomes;
    var at :| Sources(lib, h, sts, c, models, at);
    var k :| 0 <= k < |models| && models[k] == r;
    i := at[k];
  }

  lemma StateHasRow(lib: CurrencyKeys, h: Height, sts: seq<BlockState>, c: Col, models: seq<Row>, i: int, row: Row) returns (r: Row)
    requires RowsOf(lib, h, sts, c, models) && 0 <= i < |sts| && Becomes(lib, h, sts[i], c, row)
    ensures r in models && Becomes(lib, h, sts[i], c, r)
  {
    hide Becomes;
    var at :| Sources(lib, h, sts, c, models, at);
    var k :| 0 <= k < |at| && at[k] == i;
    r := models[k];
  }

  /** A block can be prepared exactly when the tree knows every operation and every account,
      balance and document state holds a value of its kind. */
  ghost predicate Sound(lib: CurrencyKeys, b: Block) {
    && (forall i :: 0 <= i < |b.operations| ==> b.operations[i].fact in b.tree)
    && (forall i :: 0 <= i < |b.states| ==> SoundState(lib, b.states[i]))
  }

  ghost predicate SoundState(lib: CurrencyKeys, st: BlockState) {
    if lib.isAccount(st.key) then st.value.AccountValue?
    else if lib.isBalance(st.key) then st.value.AmountValue?
    else (exists id :: st.key == id + ":DocumentData") ==> st.value.DocumentValue?
  }

  lemma PreparableExactly(lib: CurrencyKeys, b: Block)
    ensures ModelsOf(lib, b).Some? <==> Sound(lib, b)
  {
    hide RowsFor;
    forall i | 0 <= i < |b.states| ensures GoodState(lib, b.states[i]) <==> SoundState(lib, b.states[i]) {
      RecognisedAreBuilt(b.states[i].key);
    }
  }

  /** The models of a block, spelled out. */
  lemma ModelsMeaning(lib: CurrencyKeys, b: Block)
    requires ModelsOf(lib, b).Some?
    ensures
      var m := ModelsOf(lib, b).value;
      && OperationsOf(b, m.operation)
      && RowsOf(lib, b.height, b.states, ColAccount, m.account)
      && RowsOf(lib, b.height, b.states, ColBalance, m.balance)
      && RowsOf(lib, b.height, b.states, ColDocument, m.document)
      && RowsOf(lib, b.height, b.states, ColDocuments, m.documents)
      && |m.documentList| == |m.document|
      && forall i :: 0 <= i < |m.document| ==> m.document[i].body.DocumentBody? && m.documentList[i] == m.document[i].body.doc.info.id
  {
    StatesMeaning(lib, b.height, b.states);
    DocumentRows(lib, b.height, b.states);
    hide RowsFor, RightValue, RowsOf;
  }

  lemma DocumentRows(lib: CurrencyKeys, h: Height, sts: seq<BlockState>)
    requires GoodStates(lib, sts)
    ensures
      var rows := RowsFor(lib, h, sts, ColDocument);
      forall i :: 0 <= i < |rows| ==> rows[i].body.DocumentBody?
  {
    var at := RowsForMeaning(lib, h, sts, ColDocument);
  }

  /** A document or inventory state goes to the collection of its key's kind and no other. */
  lemma RoutedByKind(lib: CurrencyKeys, id: string, address: string)
    requires !lib.isAccount(StateKeyDocumentData(id)) && !lib.isBalance(StateKeyDocumentData(id))
    requires !lib.isAccount(StateKeyDocuments(address)) && !lib.isBalance(StateKeyDocuments(address))
    ensures Route(lib, StateKeyDocumentData(id)) == Some(ColDocument)
    ensures Route(lib, StateKeyDocuments(address)) == Some(ColDocuments)
  {
    StateKeyKinds(id, address);
  }

  /** Rows carry the block's height when its states do, and document rows hold documents. */
  lemma {:induction false} RowsForHeight(lib: CurrencyKeys, h: Height, sts: seq<BlockState>, c: Col)
    requires GoodStates(lib, sts)
    requires forall i :: 0 <= i < |sts| ==> sts[i].height == h
    ensures forall i :: 0 <= i < |RowsFor(lib, h, sts, c)| ==> RowsFor(lib, h, sts, c)[i].height == h
    ensures c.ColDocument? ==> forall i :: 0 <= i < |RowsFor(lib, h, sts, c)| ==> RowsFor(lib, h, sts, c)[i].body.DocumentBody?
  {
    if sts != [] {
      RowsForHeight(lib, h, sts[..|sts| - 1], c);
    }
  }

  // ----- Committing -----

  const BULK_WRITE_LIMIT := 500

  function DocumentsCleaned(s: Store, h: Height, ids: seq<string>): Store {
    if ids == [] then s else DocumentCleaned(DocumentsCleaned(s, h, ids[..|ids| - 1]), h, ids[|ids| - 1])
  }

  function Appended(s: Store, m: Models): Store {
    s.(operation := s.operation + m.operation, account := s.account + m.account, balance := s.balance + m.balance)
  }

  function Committed(s: Store, h: Height, m: Models): Store {
    var s1 := Appended(s, m);
    var s2 := if m.document == [] then s1 else DocumentsCleaned(s1, h, m.documentList);
    s2.(document := s2.document + m.document, documents := s2.documents + m.documents)
  }

  /** Commit, then advance the last block unless the block is an old one. */
  function Digested(s: Store, lastBlock: Height, h: Height, m: Models): Store {
    if h <= lastBlock then Committed(s, h, m) else Committed(s, h, m).(info := Some(h))
  }

  ghost predicate AllAt(rows: seq<Row>, h: Height) { forall i :: 0 <= i < |rows| ==> rows[i].height == h }

  ghost predicate RowsAt(m: Models, h: Height) {
    && AllAt(m.operation, h) && AllAt(m.account, h) && AllAt(m.balance, h)
    && AllAt(m.document, h) && AllAt(m.documents, h)
    && (forall i :: 0 <= i < |m.document| ==> m.document[i].body.DocumentBody?)
    && m.documentList == Map(m.document, DocumentIdOf())
  }

  ghost function IdSet(ids: seq<string>): set<string> { set id | id in ids }

  lemma ModelsAtHeight(lib: CurrencyKeys, b: Block)
    requires ModelsOf(lib, b).Some?
    requires forall i :: 0 <= i < |b.states| ==> b.states[i].height == b.height
    ensures RowsAt(ModelsOf(lib, b).value, b.height)
  {
    RowsForHeight(lib, b.height, b.states, ColAccount);
    RowsForHeight(lib, b.height, b.states, ColBalance);
    RowsForHeight(lib, b.height, b.states, ColDocument);
    RowsForHeight(lib, b.height, b.states, ColDocuments);
  }

  lemma AppendedBySets(s: Store, m: Models)
    ensures
      var s1 := s.Set(ColOperation, s.Get(ColOperation) + m.operation);
      var s2 := s1.Set(ColAccount, s1.Get(ColAccount) + m.account);
      s2.Set(ColBalance, s2.Get(ColBalance) + m.balance) == Appended(s, m)
  {
  }

  ghost function AppendActions(m: Models): seq<Action> {
    InsertActions(ColOperation, m.operation) + InsertActions(ColAccount, m.account) + InsertActions(ColBalance, m.balance)
  }

  lemma AppendActionsReplay(s: Store, m: Models)
    ensures AllAdd(AppendActions(m))
    ensures Replay(s, AppendActions(m)) ==
            Replay(Replay(Replay(s, InsertActions(ColOperation, m.operation)), InsertActions(ColAccount, m.account)),
                   InsertActions(ColBalance, m.balance))
  {
    hide InsertActions, Replay, AllAdd;
    var a, b, c := InsertActions(ColOperation, m.operation), InsertActions(ColAccount, m.account), InsertActions(ColBalance, m.balance);
    ReplayAppend(s, a, b, Inserts(ColOperation));
    ReplayAppend(s, a + b, c, Inserts(ColOperation));
    InsertsAdd(ColOperation, m.operation);
    InsertsAdd(ColAccount, m.account);
    InsertsAdd(ColBalance, m.balance);
    AddsJoined(a, b);
    AddsJoined(a + b, c);
  }

  lemma AppendsAllowed(s: Store, m: Models, h: Height, ids: set<string>)
    requires RowsAt(m, h)
    ensures Each(s, AppendActions(m), Allowed(h, ids))
  {
    hide InsertActions, Replay, Each, Allowed;
    var a, b, c := InsertActions(ColOperation, m.operation), InsertActions(ColAccount, m.account), InsertActions(ColBalance, m.balance);
    InsertsAllowed(s, ColOperation, m.operation, h, ids);
    InsertsAllowed(Replay(s, a), ColAccount, m.account, h, ids);
    InsertsAllowed(Replay(s, a + b), ColBalance, m.balance, h, ids);
    ReplayAppend(s, a, b, Allowed(h, ids));
    ReplayAppend(s, a + b, c, Allowed(h, ids));
  }

  /** How many models the first `i` chunks hold. */
  function Sent(n: nat, i: nat): nat { if i * BULK_WRITE_LIMIT > n then n else i * BULK_WRITE_LIMIT }

  lemma SentStep(n: nat, z: nat, i: nat)
    requires i < z == (n / BULK_WRITE_LIMIT) + (if n % BULK_WRITE_LIMIT != 0 then 1 else 0)
    ensures
      var s := i * BULK_WRITE_LIMIT;
      var e := if s + BULK_WRITE_LIMIT > n then n else s + BULK_WRITE_LIMIT;
      && s == Sent(n, i) < e == Sent(n, i + 1)
      && (i < z - 1 ==> e == s + BULK_WRITE_LIMIT)
      && Sent(n, z) == n
  {
  }

  class BlockSession {
    const st: Database
    const block: Block
    const lib: CurrencyKeys
    var opsTreeNodes: map<string, bool>
    var operationModels: seq<Row>
    var accountModels: seq<Row>
    var balanceModels: seq<Row>
    var documentModels: seq<Row>
    var documentsModels: seq<Row>
    var documentList: seq<string>

    /** A session writes through a database object of its own on the same server. */
    constructor (mongo: Mongo, lib: CurrencyKeys, block: Block)
      ensures st.mongo == mongo && fresh(st) && this.block == block && this.lib == lib
      ensures operationModels == accountModels == balanceModels == documentModels == documentsModels == []
      ensures documentList == []
    {
      this.block, this.lib := block, lib;
      st := new Database(mongo, false);
      opsTreeNodes := map[];
      operationModels, accountModels, balanceModels, documentModels, documentsModels := [], [], [], [], [];
      documentList := [];
    }

    function AllModels(): Models
      reads this
    {
      Models(operationModels, accountModels, balanceModels, documentModels, documentsModels, documentList)
    }

    method Prepare() returns (r: Result<()>)
      requires AllModels() == Models([], [], [], [], [], [])
      modifies this
      ensures r.Ok? <==> ModelsOf(lib, block).Some?
      ensures r.Ok? <==> Sound(lib, block)
      ensures r.Ok? ==> AllModels() == ModelsOf(lib, block).value
      ensures r.Ok? ==> OperationsOf(block, operationModels)
      ensures r.Ok? ==> RowsOf(lib, block.height, block.states, ColAccount, accountModels)
      ensures r.Ok? ==> RowsOf(lib, block.height, block.states, ColBalance, balanceModels)
      ensures r.Ok? ==> RowsOf(lib, block.height, block.states, ColDocument, documentModels)
      ensures r.Ok? ==> RowsOf(lib, block.height, block.states, ColDocuments, documentsModels)
      ensures r.Ok? ==> |documentList| == |documentModels|
      ensures r.Ok? ==> forall i :: 0 <= i < |documentModels| ==>
                documentModels[i].body.DocumentBody? && documentList[i] == documentModels[i].body.doc.info.id
    {
      hide OperationsOf, RowsOf, Sound;
      PreparableExactly(lib, block);
      if ModelsOf(lib, block).Some? {
        ModelsMeaning(lib, block);
      }
      opsTreeNodes := block.tree;
      var ops := PrepareOperations();
      if ops.Err? {
        return Err(ops.error);
      }
      r := PrepareAccounts();
    }

    method PrepareOperations() returns (r: Result<()>)
      requires opsTreeNodes == block.tree && operationModels == []
      modifies this`operationModels
      ensures r.Ok? <==> InTree(block, |block.operations|)
      ensures r.Ok? ==> operationModels == OperationRows(block) && OperationsOf(block, operationModels)
      ensures r.Err? ==> r.error == NotInTree
    {
      if |block.operations| < 1 {
        return Ok(());
      }
      for i := 0 to |block.operations|
        invariant InTree(block, i)
        invariant operationModels == seq(i, j requires 0 <= j < i => OperationRow(block, j))
      {
        var op := block.operations[i];
        if op.fact !in opsTreeNodes {
          return Err(NotInTree);
        }
        operationModels := operationModels + [Row(block.height, OperationBody(i, op.fact, op.addresses, opsTreeNodes[op.fact]))];
      }
      return Ok(());
    }

    method PrepareAccounts() returns (r: Result<()>)
      requires accountModels == balanceModels == documentModels == documentsModels == [] && documentList == []
      modifies this`accountModels, this`balanceModels, this`documentModels, this`documentsModels, this`documentList
      ensures r.Ok? <==> GoodStates(lib, block.states)
      ensures r.Ok? ==> accountModels == RowsFor(lib, block.height, block.states, ColAccount)
      ensures r.Ok? ==> balanceModels == RowsFor(lib, block.height, block.states, ColBalance)
      ensures r.Ok? ==> documentModels == RowsFor(lib, block.height, block.states, ColDocument)
      ensures r.Ok? ==> documentsModels == RowsFor(lib, block.height, block.states, ColDocuments)
      ensures r.Ok? ==> documentList == Map(documentModels, DocumentIdOf())
      ensures r.Ok? ==> RowsOf(lib, block.height, block.states, ColAccount, accountModels)
      ensures r.Ok? ==> RowsOf(lib, block.height, block.states, ColBalance, balanceModels)
      ensures r.Ok? ==> RowsOf(lib, block.height, block.states, ColDocument, documentModels)
      ensures r.Ok? ==> RowsOf(lib, block.height, block.states, ColDocuments, documentsModels)
      ensures r.Err? ==> r.error == WrongStateValue
    {
      hide RowsOf;
      hide RowsFor;
      var accounts, balances, documents, inventories := [], [], [], [];
      NoRows(lib, block.height, block.states[..0]);
      for i := 0 to |block.states|
        invariant GoodStates(lib, block.states[..i])
        invariant accounts == RowsFor(lib, block.height, block.states[..i], ColAccount)
        invariant balances == RowsFor(lib, block.height, block.states[..i], ColBalance)
        invariant documents == RowsFor(lib, block.height, block.states[..i], ColDocument)
        invariant inventories == RowsFor(lib, block.height, block.states[..i], ColDocuments)
        invariant documentList == Map(documents, DocumentIdOf())
        invariant accountModels == balanceModels == documentModels == documentsModels == []
      {
        var state := block.states[i];
        ghost var sts := block.states[..i + 1];
        assert sts[..i] == block.states[..i] && sts[i] == state;
        NextRows(lib, block.height, sts);
        if lib.isAccount(state.key) {
          if !state.value.AccountValue? {
            assert !GoodState(lib, block.states[i]);
            return Err(WrongStateValue);
          }
          accounts := accounts + [Row(state.height, AccountBody(state.value.address))];
        } else if lib.isBalance(state.key) {
          if !state.value.AmountValue? {
            assert !GoodState(lib, block.states[i]);
            return Err(WrongStateValue);
          }
          balances := balances
            + [Row(state.height, BalanceBody(lib.balanceAddress(state.key, state.value.currency),
                                             state.value.currency, state.value.amount, state.previousHeight))];
        } else if IsStateDocumentDataKey(state.key) {
          if !state.value.DocumentValue? {
            assert !GoodState(lib, block.states[i]);
            return Err(WrongStateValue);
          }
          var row := Row(block.height, DocumentBody(state.value.doc));
          documentList := documentList + [state.value.doc.DocumentId()];
          assert Map(documents + [row], DocumentIdOf()) == Map(documents, DocumentIdOf()) + [DocumentIdOf()(row)];
          documents := documents + [row];
        } else if IsStateDocumentsKey(state.key) {
          inventories := inventories
            + [Row(state.height, InventoryBody(state.key[..|state.key| - |DOCUMENTS_SUFFIX|], Infos(state.value)))];
        }
      }
      assert block.states[..|block.states|] == block.states;
      accountModels, balanceModels := accounts, balances;
      if |documents| > 0 {
        documentModels := documents;
      }
      if |inventories| > 0 {
        documentsModels := inventories;
      }
      StatesMeaning(lib, block.height, block.states);
      return Ok(());
    }

    /** Since state `s0` with log `log0`, exactly the rows `done` were inserted into `c`. */
    ghost predicate Inserted(s0: Store, log0: seq<Action>, c: Col, done: seq<Row>)
      reads st.mongo
    {
      && st.mongo.Valid()
      && st.mongo.log == log0 + InsertActions(c, done)
      && st.mongo.data == Replay(s0, InsertActions(c, done))
      && st.mongo.data == s0.Set(c, s0.Get(c) + done)
    }

    method WriteModelsChunk(c: Col, models: seq<Row>, ghost s0: Store, ghost log0: seq<Action>, ghost done: seq<Row>)
      requires Inserted(s0, log0, c, done)
      modifies st.mongo
      ensures Inserted(s0, log0, c, done + models)
    {
      hide Store.Get, Store.Set, Replay, Mongo.Valid;
      ghost var more := st.mongo.BulkInsert(c, models);
      SetGet(s0, c, s0.Get(c) + done, s0.Get(c) + (done + models));
      assert s0.Get(c) + done + models == s0.Get(c) + (done + models);
      assert InsertActions(c, done + models) == InsertActions(c, done) + more;
      ReplayAppend(s0, InsertActions(c, done), more, Inserts(c));
    }

    /** Submits the models in consecutive chunks of at most the bulk-write limit. */
    method WriteModels(c: Col, models: seq<Row>) returns (sent: seq<seq<Row>>, ghost acts: seq<Action>)
      requires st.mongo.Valid()
      modifies st.mongo
      ensures st.mongo.Valid() && st.mongo.log == old(st.mongo.log) + acts
      ensures st.mongo.data == Replay(old(st.mongo.data), acts)
      ensures st.mongo.data == old(st.mongo.data).Set(c, old(st.mongo.data).Get(c) + models)
      ensures acts == InsertActions(c, models)
      ensures Flatten(sent) == models
      ensures forall i :: 0 <= i < |sent| ==> 1 <= |sent[i]| <= 500
      ensures forall i :: 0 <= i < |sent| - 1 ==> |sent[i]| == 500
    {
      hide Store.Get, Store.Set, Replay, Mongo.Valid, Sent;
      ghost var s0, log0 := st.mongo.data, st.mongo.log;
      SetGet(s0, c, s0.Get(c), []);
      assert s0.Get(c) + [] == s0.Get(c);
      ReplayNothing(s0, Inserts(c));
      assert Inserted(s0, log0, c, []);
      sent, acts := [], InsertActions(c, models);
      var n := |models|;
      if n < 1 {
        return;
      } else if n <= BULK_WRITE_LIMIT {
        WriteModelsChunk(c, models, s0, log0, []);
        assert [] + models == models;
        sent := [models];
        assert Flatten(sent) == models + Flatten([]);
        return;
      }
      sent := WriteChunks(c, models, s0, log0);
    }

    method WriteChunks(c: Col, models: seq<Row>, ghost s0: Store, ghost log0: seq<Action>) returns (sent: seq<seq<Row>>)
      requires |models| > BULK_WRITE_LIMIT && Inserted(s0, log0, c, [])
      modifies st.mongo
      ensures Inserted(s0, log0, c, models) && Flatten(sent) == models
      ensures forall i :: 0 <= i < |sent| ==> 1 <= |sent[i]| <= BULK_WRITE_LIMIT
      ensures forall i :: 0 <= i < |sent| - 1 ==> |sent[i]| == BULK_WRITE_LIMIT
    {
      hide Inserted;
      var n := |models|;
      var z := n / BULK_WRITE_LIMIT;
      if n % BULK_WRITE_LIMIT != 0 {
        z := z + 1;
      }
      sent := [];
      for i := 0 to z
        invariant Inserted(s0, log0, c, models[..Sent(n, i)])
        invariant |sent| == i && Flatten(sent) == models[..Sent(n, i)]
        invariant forall j :: 0 <= j < i ==> 1 <= |sent[j]| <= BULK_WRITE_LIMIT
        invariant forall j :: 0 <= j < i && j < z - 1 ==> |sent[j]| == BULK_WRITE_LIMIT
      {
        hide Flatten, Sent;
        var s := i * BULK_WRITE_LIMIT;
        var e := s + BULK_WRITE_LIMIT;
        if e > n {
          e := n;
        }
        SentStep(n, z, i);
        assert models[..e] == models[..s] + models[s..e];
        WriteModelsChunk(c, models[s..e], s0, log0, models[..s]);
        FlattenSnoc(sent, models[s..e]);
        sent := sent + [models[s..e]];
      }
      assert models[..n] == models;
    }

    /** Removes the older versions of the block's documents and writes the new ones. */
    method CommitDocuments() returns (ghost acts: seq<Action>)
      requires st.mongo.Valid()
      modifies st, st.mongo
      ensures st.mongo.Valid() && st.mongo.log == old(st.mongo.log) + acts
      ensures st.mongo.data == Replay(old(st.mongo.data), acts)
      ensures
        var cleaned := DocumentsCleaned(old(st.mongo.data), block.height, documentList);
        st.mongo.data == cleaned.Set(ColDocument, cleaned.Get(ColDocument) + documentModels)
      ensures block.height > PRE_GENESIS_HEIGHT + 1 && AllAt(documentModels, block.height) ==>
                Each(old(st.mongo.data), acts, Allowed(block.height, IdSet(documentList)))
      ensures block.height > PRE_GENESIS_HEIGHT + 1 ==> AllAdd(acts)
    {
      hide Store.Get, Store.Set, Replay, Each, Mongo.Valid, DocumentCleaned, Keep;
      ghost var s0, ok := st.mongo.data, Allowed(block.height, IdSet(documentList));
      acts := [];
      ReplayNothing(s0, ok);
      for i := 0 to |documentList|
        invariant st.mongo.Valid() && st.mongo.log == old(st.mongo.log) + acts && st.mongo.data == Replay(s0, acts)
        invariant st.mongo.data == DocumentsCleaned(s0, block.height, documentList[..i])
        invariant block.height > PRE_GENESIS_HEIGHT + 1 ==> Each(s0, acts, ok) && AllAdd(acts)
      {
        ghost var more := st.CleanDocument(block.height, documentList[i], IdSet(documentList));
        assert documentList[..i + 1][..i] == documentList[..i];
        ReplayAppend(s0, acts, more, ok);
        acts := acts + more;
      }
      assert documentList[..|documentList|] == documentList;
      var _, more := WriteModels(ColDocument, documentModels);
      ReplayAppend(s0, acts, more, ok);
      if AllAt(documentModels, block.height) {
        InsertsAllowed(Replay(s0, acts), ColDocument, documentModels, block.height, IdSet(documentList));
      }
      acts := acts + more;
    }

    /** The rows that are only ever added: operations, accounts, balances. */
    method CommitAppended() returns (ghost acts: seq<Action>)
      requires st.mongo.Valid()
      modifies st.mongo
      ensures st.mongo.Valid() && st.mongo.log == old(st.mongo.log) + acts
      ensures st.mongo.data == Replay(old(st.mongo.data), acts)
      ensures st.mongo.data == Appended(old(st.mongo.data), AllModels())
      ensures RowsAt(AllModels(), block.height) ==>
                Each(old(st.mongo.data), acts, Allowed(block.height, IdSet(documentList)))
      ensures AllAdd(acts)
    {
      hide Replay, Each, Mongo.Valid, Allowed, AllAdd, Store.Get, Store.Set, Appended, IdSet, InsertActions, RowsAt;
      ghost var s0 := st.mongo.data;
      acts := AppendActions(AllModels());
      AppendedBySets(s0, AllModels());
      AppendActionsReplay(s0, AllModels());
      if RowsAt(AllModels(), block.height) {
        AppendsAllowed(s0, AllModels(), block.height, IdSet(documentList));
      }
      ghost var log0 := st.mongo.log;
      var _, a1 := WriteModels(ColOperation, operationModels);
      var _, a2 := WriteModels(ColAccount, accountModels);
      var _, a3 := WriteModels(ColBalance, balanceModels);
      assert log0 + a1 + a2 + a3 == log0 + (a1 + a2 + a3);
    }

    /** Every store change of a commit above genesis is one the start-up repair can undo or a
        new digest repeats. */
    method Commit() returns (ghost acts: seq<Action>)
      requires st.mongo.Valid()
      modifies st, st.mongo
      ensures st.mongo.Valid() && st.mongo.log == old(st.mongo.log) + acts
      ensures st.mongo.data == Replay(old(st.mongo.data), acts)
      ensures st.mongo.data == Committed(old(st.mongo.data), block.height, AllModels())
      ensures block.height > PRE_GENESIS_HEIGHT + 1 && RowsAt(AllModels(), block.height) ==>
                Each(old(st.mongo.data), acts, Allowed(block.height, IdSet(documentList)))
      ensures block.height > PRE_GENESIS_HEIGHT + 1 ==> AllAdd(acts)
    {
      hide Replay, Each, Mongo.Valid, Allowed, DocumentsCleaned;
      ghost var s0, h, ids := st.mongo.data, block.height, IdSet(documentList);
      acts := CommitAppended();
      if |documentModels| > 0 {
        ghost var more := CommitDocuments();
        ReplayAppend(s0, acts, more, Allowed(h, ids));
        acts := acts + more;
      }
      if |documentsModels| > 0 {
        var _, more := WriteModels(ColDocuments, documentsModels);
        if RowsAt(AllModels(), h) {
          InsertsAllowed(Replay(s0, acts), ColDocuments, documentsModels, h, ids);
        }
        ReplayAppend(s0, acts, more, Allowed(h, ids));
        acts := acts + more;
      }
    }
  }
}
