/** The digest of a list of blocks, end to end: what the queries answer after the digester has
    run over it. */
module History {
  import opened Basics
  import opened Sequences
  import opened Documents
  import opened DigestStore
  import opened Databases
  import opened BlockSessions
  import opened Digesters
  import opened Recovery
  import opened Queries
  import opened Paging

  function CommitOf(lib: CurrencyKeys, b: Block): BlockCommit
    requires ModelsOf(lib, b).Some?
  {
    BlockCommit(b.height, ModelsOf(lib, b).value)
  }

  ghost function Commits(lib: CurrencyKeys, blocks: seq<Block>): (cs: seq<BlockCommit>)
    requires Preparable(lib, blocks)
    ensures |cs| == |blocks|
  {
    seq(|blocks|, i requires 0 <= i < |blocks| => CommitOf(lib, blocks[i]))
  }

  function Rows(s: Store): Store { s.(info := None) }

  lemma {:induction false} CleaningIgnoresInfo(s: Store, t: Store, h: Height, ids: seq<string>)
    requires Rows(s) == Rows(t)
    ensures Rows(DocumentsCleaned(s, h, ids)) == Rows(DocumentsCleaned(t, h, ids))
  {
    if ids != [] {
      CleaningIgnoresInfo(s, t, h, ids[..|ids| - 1]);
    }
  }

  lemma CommitIgnoresInfo(s: Store, t: Store, h: Height, m: Models)
    requires Rows(s) == Rows(t)
    ensures Rows(Committed(s, h, m)) == Rows(Committed(t, h, m))
  {
    CleaningIgnoresInfo(Appended(s, m), Appended(t, m), h, m.documentList);
  }

  lemma DigestStepRows(lib: CurrencyKeys, s: Store, last: Height, t: Store, b: Block)
    requires ModelsOf(lib, b).Some? && Rows(s) == Rows(t)
    ensures Rows(DigestedBlock(lib, s, last, b).0) == Rows(Committed(t, b.height, ModelsOf(lib, b).value))
  {
    hide Committed, ModelsOf;
    CommitIgnoresInfo(s, t, b.height, ModelsOf(lib, b).value);
  }

  /** Advancing the last block never touches a row. */
  lemma {:induction false} DigestedRows(lib: CurrencyKeys, s: Store, last: Height, blocks: seq<Block>)
    requires Preparable(lib, blocks)
    ensures Rows(DigestedAll(lib, s, last, blocks).0) == Rows(CommittedAll(s, Commits(lib, blocks)))
  {
    if blocks != [] {
      hide Committed, ModelsOf, DigestedBlock, Rows;
      var n := |blocks| - 1;
      var cs := Commits(lib, blocks);
      DigestedRows(lib, s, last, blocks[..n]);
      assert cs[..n] == Commits(lib, blocks[..n]);
      assert cs[n] == CommitOf(lib, blocks[n]);
      var before := DigestedAll(lib, s, last, blocks[..n]);
      DigestStepRows(lib, before.0, before.1, CommittedAll(s, cs[..n]), blocks[n]);
    }
  }

  /** Digesting blocks above genesis: every walk over all operations is complete if and only if
      no height with operations is digested twice or was in the collection already. */
  lemma DigestedWalksComplete(lib: CurrencyKeys, s: Store, last: Height, blocks: seq<Block>, reverse: bool)
    requires Preparable(lib, blocks) && UniqueKeys(s.operation) && HasFirsts(s.operation)
    requires forall i :: 0 <= i < |blocks| ==> blocks[i].height > PRE_GENESIS_HEIGHT + 1
    ensures WalksComplete(DigestedAll(lib, s, last, blocks).0.operation, AllOperations, reverse)
            <==> BlocksDiffer(blocks) && BlocksNew(s.operation, blocks)
  {
    hide WalksComplete, UniqueKeys, HeightsDiffer, NewHeights, BlocksDiffer, BlocksNew, ModelsOf, DigestedBlock, HeightsOf;
    DigestedRows(lib, s, last, blocks);
    var cs := Commits(lib, blocks);
    CommitsNumbered(lib, blocks);
    OperationKeysUnique(s, cs);
    OperationsCollected(s, cs);
    var rows := DigestedAll(lib, s, last, blocks).0.operation;
    assert Rows(DigestedAll(lib, s, last, blocks).0).operation == CommittedAll(s, cs).operation;
    AllOperationsWalkIff(rows, reverse);
    SameHeights(lib, s.operation, blocks);
  }

  ghost predicate BlocksDiffer(blocks: seq<Block>) {
    forall i, j :: 0 <= i < j < |blocks| && blocks[i].operations != [] && blocks[j].operations != [] ==>
      blocks[i].height != blocks[j].height
  }

  ghost predicate BlocksNew(rows: seq<Row>, blocks: seq<Block>) {
    forall i :: 0 <= i < |blocks| && blocks[i].operations != [] ==> blocks[i].height !in HeightsOf(rows)
  }

  lemma CommitsNumbered(lib: CurrencyKeys, blocks: seq<Block>)
    requires Preparable(lib, blocks)
    requires forall i :: 0 <= i < |blocks| ==> blocks[i].height > PRE_GENESIS_HEIGHT + 1
    ensures NumberedCommits(Commits(lib, blocks))
  {
    hide ModelsOf, NumberedRows;
    var cs := Commits(lib, blocks);
    forall i | 0 <= i < |cs| ensures NumberedRows(cs[i].models.operation, cs[i].height) {
      BlockIsNumbered(lib, blocks[i]);
    }
  }

  lemma SameHeights(lib: CurrencyKeys, rows: seq<Row>, blocks: seq<Block>)
    requires Preparable(lib, blocks)
    ensures BlocksDiffer(blocks) <==> HeightsDiffer(Commits(lib, blocks))
    ensures BlocksNew(rows, blocks) <==> NewHeights(rows, Commits(lib, blocks))
  {
    hide HeightsOf;
    var cs := Commits(lib, blocks);
    forall i | 0 <= i < |blocks|
      ensures cs[i].height == blocks[i].height && (cs[i].models.operation != [] <==> blocks[i].operations != [])
    {
      assert |cs[i].models.operation| == |blocks[i].operations|;
    }
    hide ModelsOf;
  }

  /** A document's states in a block are at most one, and states carry the block's height. */
  ghost predicate WellFormed(lib: CurrencyKeys, b: Block) {
    && b.height > PRE_GENESIS_HEIGHT + 1
    && ModelsOf(lib, b).Some?
    && (forall i :: 0 <= i < |b.states| ==> b.states[i].height == b.height)
    && Distinct(ModelsOf(lib, b).value.documentList)
  }

  /** Blocks of one chain, in any order and with repeats. */
  ghost predicate OfOneChain(lib: CurrencyKeys, blocks: seq<Block>) {
    && (forall i :: 0 <= i < |blocks| ==> WellFormed(lib, blocks[i]))
    && (forall i, j :: 0 <= i < |blocks| && 0 <= j < |blocks| && blocks[i].height == blocks[j].height ==> blocks[i] == blocks[j])
  }

  lemma ChainCommits(lib: CurrencyKeys, blocks: seq<Block>)
    requires OfOneChain(lib, blocks)
    ensures Preparable(lib, blocks) && GoodCommits(Commits(lib, blocks))
  {
    var cs := Commits(lib, blocks);
    forall i | 0 <= i < |cs| ensures RowsAt(cs[i].models, cs[i].height) {
      ModelsAtHeight(lib, blocks[i]);
    }
    hide ModelsOf, RowsAt;
    assert forall i :: 0 <= i < |cs| ==> cs[i] == CommitOf(lib, blocks[i]);
  }

  /** After digesting any list of blocks of one chain, `Document` finds the version written by
      the highest digested block that contains the document. */
  lemma DigestedDocumentIsLatest(lib: CurrencyKeys, s: Store, last: Height, blocks: seq<Block>, id: string, k: nat, r: Option<Row>)
    requires s.document == [] && OfOneChain(lib, blocks) && Preparable(lib, blocks)
    requires IsLatest(DigestedAll(lib, s, last, blocks).0.document, OfDocument(id), r)
    requires Highest(Commits(lib, blocks), id, k)
    ensures r.Some? && r.value.height == blocks[k].height && r.value.IsDocument(id)
    ensures r.value in CommitOf(lib, blocks[k]).models.document
    ensures exists i :: 0 <= i < |blocks[k].states| && blocks[k].states[i].value == DocumentValue(r.value.body.doc)
  {
    DigestedRows(lib, s, last, blocks);
    ChainCommits(lib, blocks);
    var cs := Commits(lib, blocks);
    assert Rows(DigestedAll(lib, s, last, blocks).0).document == CommittedAll(s, cs).document;
    hide ModelsOf, OfOneChain, GoodCommits;
    DocumentIsLatest(s, cs, id, k, r);
    DocumentFromState(lib, blocks[k], r.value);
  }

  /** A document row holds the document of one of the block's states. */
  lemma DocumentFromState(lib: CurrencyKeys, b: Block, r: Row)
    requires ModelsOf(lib, b).Some? && r in ModelsOf(lib, b).value.document
    ensures r.body.DocumentBody? && exists i :: 0 <= i < |b.states| && b.states[i].value == DocumentValue(r.body.doc)
  {
    ModelsMeaning(lib, b);
    hide ModelsOf, RowsOf;
    var i := RowHasState(lib, b.height, b.states, ColDocument, ModelsOf(lib, b).value.document, r);
    assert b.states[i].value == DocumentValue(r.body.doc);
  }

  // ----- Balances -----

  /** The block holds a balance state of the address and currency, and every such state of the
      block has this amount. */
  ghost predicate BalanceInBlock(lib: CurrencyKeys, b: Block, address: string, cid: string, amount: int) {
    && (exists i :: 0 <= i < |b.states| && BalanceState(lib, b.states[i], address, cid))
    && (forall i :: 0 <= i < |b.states| && BalanceState(lib, b.states[i], address, cid) ==> b.states[i].value.amount == amount)
  }

  predicate BalanceState(lib: CurrencyKeys, st: BlockState, address: string, cid: string) {
    && !lib.isAccount(st.key) && lib.isBalance(st.key)
    && st.value.AmountValue? && st.value.currency == cid && lib.balanceAddress(st.key, cid) == address
  }

  /** The balance rows of a block, by address and currency. */
  lemma BlockBalances(lib: CurrencyKeys, b: Block, address: string, cid: string, amount: int)
    requires ModelsOf(lib, b).Some? && BalanceInBlock(lib, b, address, cid, amount)
    ensures exists r :: r in ModelsOf(lib, b).value.balance && OfCurrency(r, address, cid)
    ensures forall r :: r in ModelsOf(lib, b).value.balance && OfCurrency(r, address, cid) ==> r.body.amount == amount
  {
    ModelsMeaning(lib, b);
    hide ModelsOf, RowsOf;
    var rows := ModelsOf(lib, b).value.balance;
    var i :| 0 <= i < |b.states| && BalanceState(lib, b.states[i], address, cid);
    var st := b.states[i];
    var row := StateHasRow(lib, b.height, b.states, ColBalance, rows, i,
                           Row(st.height, BalanceBody(address, cid, st.value.amount, st.previousHeight)));
    assert OfCurrency(row, address, cid);
    forall r | r in rows && OfCurrency(r, address, cid) ensures r.body.amount == amount {
      var j := RowHasState(lib, b.height, b.states, ColBalance, rows, r);
      assert BalanceState(lib, b.states[j], address, cid);
    }
  }

  lemma NewestBalance(before: seq<Row>, more: seq<Row>, h: Height, address: string, cid: string, amount: int)
    requires (forall r :: r in before ==> r.height < h) && forall r :: r in more ==> r.height == h
    requires exists r :: r in more && OfCurrency(r, address, cid)
    requires forall r :: r in more && OfCurrency(r, address, cid) ==> r.body.amount == amount
    ensures cid in CurrenciesOf(before + more, address)
    ensures forall v :: LatestBalance(before + more, address, cid, v) ==> v == amount
  {
    var rows := before + more;
    var newest :| newest in more && OfCurrency(newest, address, cid);
    assert newest in rows && BalanceOf(address, {})(newest);
    forall v | LatestBalance(rows, address, cid, v) ensures v == amount {
      var r :| r in rows && OfCurrency(r, address, cid) && r.body.amount == v
        && forall x :: x in rows && OfCurrency(x, address, cid) ==> x.height <= r.height;
      assert newest.height <= r.height;
    }
  }

  /** After a block is digested on top of lower ones, the balance query answers the amount of the
      block's state. */
  method BalanceAfterDigest(digester: Digester, b: Block, address: string, cid: string, ghost amount: int)
    returns (amm: map<string, int>)
    requires digester.database.mongo.Valid() && !digester.database.readonly && ModelsOf(digester.lib, b).Some?
    requires b.height > PRE_GENESIS_HEIGHT + 1 && forall i :: 0 <= i < |b.states| ==> b.states[i].height == b.height
    requires forall r :: r in digester.database.mongo.data.balance ==> NIL_HEIGHT < r.height < b.height
    requires BalanceInBlock(digester.lib, b, address, cid, amount)
    modifies digester.database, digester.database.mongo
    ensures cid in amm && amm[cid] == amount
  {
    ghost var s := digester.database.mongo.data;
    ghost var m := ModelsOf(digester.lib, b).value;
    ModelsAtHeight(digester.lib, b);
    CommittedAppends(s, b.height, m);
    BlockBalances(digester.lib, b, address, cid, amount);
    assert forall r :: r in m.balance ==> r.height == b.height;
    NewestBalance(s.balance, m.balance, b.height, address, cid, amount);
    hide Committed, ModelsOf, RowsAt, LatestBalance, CurrenciesOf, OfCurrency, BalanceInBlock;
    var digested := digester.DigestOne(b);
    var last, previous;
    amm, last, previous := Balance(digester.database.mongo.data.balance, address);
  }
}
