/** Crashes while a block is digested, and what the repair at the next start makes of them. */
module Recovery {
  import opened Basics
  import opened Sequences
  import opened Documents
  import opened DigestStore
  import opened Databases
  import opened BlockSessions
  import opened Digesters

  /** The rows the repair keeps are those of the start; of the document collection only the
      versions that block `h` does not replace are sure to be left. */
  ghost predicate Recoverable(s0: Store, s: Store, h: Height, ids: set<string>) {
    && s.info == Some(h - 1)
    && forall c: Col :: Filter(s.Get(c), Keep(h, ids, c)) == Filter(s0.Get(c), Keep(h, ids, c))
  }

  lemma FilterWithout(rows: seq<Row>, i: nat, p: Row -> bool)
    requires i < |rows| && !p(rows[i])
    ensures Filter(Without(rows, i), p) == Filter(rows, p)
  {
    assert rows == rows[..i] + ([rows[i]] + rows[i + 1..]);
    FilterAppend(rows[..i], [rows[i]] + rows[i + 1..], p);
    FilterAppend(rows[..i], rows[i + 1..], p);
  }

  lemma FilterPlus(rows: seq<Row>, row: Row, p: Row -> bool)
    requires !p(row)
    ensures Filter(rows + [row], p) == Filter(rows, p)
  {
    FilterAppend(rows, [row], p);
    assert Filter([row], p) == Filter([], p);
  }

  lemma StepRecoverable(s0: Store, s: Store, a: Action, h: Height, ids: set<string>)
    requires Recoverable(s0, s, h, ids) && Allowed(h, ids)(s, a)
    ensures Recoverable(s0, Apply(s, a), h, ids)
  {
    forall c: Col
      ensures Filter(Apply(s, a).Get(c), Keep(h, ids, c)) == Filter(s.Get(c), Keep(h, ids, c))
    {
      match a {
        case InsertRow(d, row) =>
          if c == d {
            FilterPlus(s.Get(c), row, Keep(h, ids, c));
          }
        case RemoveAt(d, i) =>
          if c == d {
            FilterWithout(s.Get(c), i, Keep(h, ids, c));
          }
        case SetInfo(_) =>
        case DropCol(_) =>
      }
    }
  }

  /** Whatever allowed actions were made, in whatever order, the store stays recoverable. */
  lemma {:induction false} RunRecoverable(s0: Store, acts: seq<Action>, h: Height, ids: set<string>)
    requires s0.info == Some(h - 1) && Each(s0, acts, Allowed(h, ids))
    ensures Recoverable(s0, Replay(s0, acts), h, ids)
  {
    if acts != [] {
      RunRecoverable(s0, acts[..|acts| - 1], h, ids);
      StepRecoverable(s0, Replay(s0, acts[..|acts| - 1]), acts[|acts| - 1], h, ids);
    }
  }

  ghost predicate AllBelow(s: Store, h: Height) {
    forall c: Col, i :: 0 <= i < |s.Get(c)| ==> s.Get(c)[i].height < h
  }

  // ----- The repair -----

  lemma CleanedGet(s: Store, h: Height, c: Col)
    requires h > PRE_GENESIS_HEIGHT + 1
    ensures CleanedByHeight(s, h).Get(c) == Filter(s.Get(c), Below(h))
  {
    FilterCongruent(s.Get(c), Not(AtLeast(h)), Below(h));
  }

  /** After the repair the four collections of operations, accounts, balances and inventories
      hold exactly the rows up to the last block. */
  lemma RepairRestores(s0: Store, s: Store, h: Height, ids: set<string>, c: Col)
    requires h > PRE_GENESIS_HEIGHT + 1 && AllBelow(s0, h) && Recoverable(s0, s, h, ids) && !c.ColDocument?
    ensures Initialized(s, false).0.Get(c) == s0.Get(c)
    ensures Initialized(s, false).1 == h - 1 && Initialized(s, false).0.info == Some(h - 1)
  {
    hide Filter;
    CleanedGet(s, h, c);
    assert Keep(h, ids, c) == Below(h);
    forall r | r in s0.Get(c) ensures Below(h)(r) {
      var i :| 0 <= i < |s0.Get(c)| && s0.Get(c)[i] == r;
    }
    FilterAll(s0.Get(c), Below(h));
  }

  // ----- Digesting the block again -----

  function NotReplaced(h: Height, ids: set<string>): Row -> bool {
    (r: Row) => !(Replaced(ids, r) && r.height <= h)
  }

  /** Above genesis, cleaning one document after the other removes the replaced versions. */
  lemma {:induction false} DocumentsCleanedMeaning(s: Store, h: Height, ids: seq<string>)
    requires h > PRE_GENESIS_HEIGHT + 1
    ensures DocumentsCleaned(s, h, ids) ==
            s.(document := Filter(s.document, NotReplaced(h, IdSet(ids))),
               info := if ids == [] then s.info else Some(h - 1))
  {
    if ids == [] {
      FilterAll(s.document, NotReplaced(h, {}));
      assert IdSet(ids) == {};
    } else {
      var n := |ids| - 1;
      DocumentsCleanedMeaning(s, h, ids[..n]);
      assert ids == ids[..n] + [ids[n]];
      assert IdSet(ids) == IdSet(ids[..n]) + {ids[n]};
      FilterTwice(s.document, NotReplaced(h, IdSet(ids[..n])), Not(DocumentUpTo(ids[n], h)), NotReplaced(h, IdSet(ids)));
    }
  }

  /** The document collection after digesting block `h`, above genesis. */
  lemma CommittedDocuments(s: Store, h: Height, m: Models)
    requires h > PRE_GENESIS_HEIGHT + 1 && RowsAt(m, h)
    ensures Committed(s, h, m).document == Filter(s.document, NotReplaced(h, IdSet(m.documentList))) + m.document
    ensures Committed(s, h, m).info == if m.document == [] then s.info else Some(h - 1)
  {
    if m.document == [] {
      assert m.documentList == [] && IdSet(m.documentList) == {};
      FilterAll(s.document, NotReplaced(h, {}));
    } else {
      DocumentsCleanedMeaning(Appended(s, m), h, m.documentList);
      assert |m.documentList| == |m.document|;
    }
  }

  /** The repaired store and the uncrashed one digest block `h` to the same store. */
  lemma RedigestAgrees(s0: Store, s: Store, h: Height, m: Models)
    requires h > PRE_GENESIS_HEIGHT + 1 && RowsAt(m, h)
    requires s0.info == s.info && s0.operation == s.operation && s0.account == s.account
    requires s0.balance == s.balance && s0.documents == s.documents
    requires Filter(s0.document, NotReplaced(h, IdSet(m.documentList)))
             == Filter(s.document, NotReplaced(h, IdSet(m.documentList)))
    ensures Committed(s, h, m) == Committed(s0, h, m)
  {
    CommittedDocuments(s0, h, m);
    CommittedDocuments(s, h, m);
    if m.document != [] {
      DocumentsCleanedMeaning(Appended(s0, m), h, m.documentList);
      DocumentsCleanedMeaning(Appended(s, m), h, m.documentList);
    }
  }

  lemma DocumentsRecovered(s0: Store, s: Store, h: Height, ids: set<string>)
    requires h > PRE_GENESIS_HEIGHT + 1 && AllBelow(s0, h) && Recoverable(s0, s, h, ids)
    ensures Filter(Initialized(s, false).0.document, NotReplaced(h, ids)) == Filter(s0.document, NotReplaced(h, ids))
  {
    var keep := Keep(h, ids, ColDocument);
    assert Filter(s.Get(ColDocument), keep) == Filter(s0.Get(ColDocument), keep);
    CleanedGet(s, h, ColDocument);
    FilterTwice(s.document, Below(h), NotReplaced(h, ids), keep);
    forall r | r in s0.document ensures keep(r) == NotReplaced(h, ids)(r) {
      var i :| 0 <= i < |s0.document| && s0.document[i] == r;
      assert s0.Get(ColDocument)[i].height < h;
    }
    FilterCongruent(s0.document, keep, NotReplaced(h, ids));
  }

  /** A crash anywhere inside the digest of block `h`, the next one after the persisted last
      block, possibly several times and inside repairs too: the repair at the next start
      restores the operation, account, balance and inventory collections to the rows up to the
      last block, and digesting the block again gives the store of an uncrashed run. */
  lemma CrashRecovery(s0: Store, acts: seq<Action>, h: Height, m: Models)
    requires h > PRE_GENESIS_HEIGHT + 1 && s0.info == Some(h - 1) && AllBelow(s0, h) && RowsAt(m, h)
    requires Each(s0, acts, Allowed(h, IdSet(m.documentList)))
    ensures
      var repaired := Initialized(Replay(s0, acts), false);
      && repaired.1 == h - 1 && repaired.0.info == Some(h - 1)
      && repaired.0.operation == s0.operation && repaired.0.account == s0.account
      && repaired.0.balance == s0.balance && repaired.0.documents == s0.documents
      && Digested(repaired.0, repaired.1, h, m) == Digested(s0, h - 1, h, m)
  {
    var ids := IdSet(m.documentList);
    var s := Replay(s0, acts);
    RunRecoverable(s0, acts, h, ids);
    RepairRestores(s0, s, h, ids, ColOperation);
    RepairRestores(s0, s, h, ids, ColAccount);
    RepairRestores(s0, s, h, ids, ColBalance);
    RepairRestores(s0, s, h, ids, ColDocuments);
    DocumentsRecovered(s0, s, h, ids);
    RedigestAgrees(s0, Initialized(s, false).0, h, m);
  }

  /** The crash points of one commit: its actions cut short anywhere. */
  lemma CommitCutShort(s0: Store, acts: seq<Action>, k: nat, h: Height, m: Models)
    requires h > PRE_GENESIS_HEIGHT + 1 && s0.info == Some(h - 1) && AllBelow(s0, h) && RowsAt(m, h)
    requires Each(s0, acts, Allowed(h, IdSet(m.documentList))) && k <= |acts|
    ensures
      var repaired := Initialized(Replay(s0, acts[..k]), false);
      Digested(repaired.0, repaired.1, h, m) == Digested(s0, h - 1, h, m)
  {
    EachPrefix(s0, acts, k, Allowed(h, IdSet(m.documentList)));
    CrashRecovery(s0, acts[..k], h, m);
  }

  /** A repair's own actions are allowed ones, so a crash inside a repair is covered. */
  lemma RepairActionsAllowed(s: Store, acts: seq<Action>, h: Height, ids: set<string>)
    requires Each(s, acts, Allowed(h, {}))
    ensures Each(s, acts, Allowed(h, ids))
  {
    forall t: Store, a: Action | Allowed(h, {})(t, a) ensures Allowed(h, ids)(t, a) {
      if a.RemoveAt? {
        var row := t.Get(a.col)[a.at];
        assert !Keep(h, {}, a.col)(row);
        assert !Keep(h, ids, a.col)(row);
      }
    }
    EachImplies(s, acts, Allowed(h, {}), Allowed(h, ids));
  }

  /** A restarted digester on a store left by any crashed attempts at block `b`. */
  method RestartAndDigest(database: Database, lib: CurrencyKeys, b: Block, ghost s0: Store, ghost acts: seq<Action>)
    requires database.mongo.Valid() && !database.readonly && ModelsOf(lib, b).Some?
    requires b.height > PRE_GENESIS_HEIGHT + 1 && s0.info == Some(b.height - 1) && AllBelow(s0, b.height)
    requires RowsAt(ModelsOf(lib, b).value, b.height)
    requires Each(s0, acts, Allowed(b.height, IdSet(ModelsOf(lib, b).value.documentList)))
    requires database.mongo.data == Replay(s0, acts)
    modifies database, database.mongo
    ensures database.mongo.data == Digested(s0, b.height - 1, b.height, ModelsOf(lib, b).value)
    ensures database.lastBlock == b.height
  {
    CrashRecovery(s0, acts, b.height, ModelsOf(lib, b).value);
    hide Digested, Initialized, ModelsOf, Each, Replay;
    ghost var _ := database.Initialize();
    var digester := new Digester(database, lib);
    var _ := digester.DigestOne(b);
  }

  // ----- A whole chain -----

  /** A digest leaves its height recorded and no row above it: the next block starts as this
      one did. */
  lemma DigestedAdvances(s: Store, h: Height, m: Models)
    requires h > PRE_GENESIS_HEIGHT + 1 && AllBelow(s, h) && RowsAt(m, h)
    ensures Digested(s, h - 1, h, m).info == Some(h) && AllBelow(Digested(s, h - 1, h, m), h + 1)
  {
    var after := Digested(s, h - 1, h, m);
    CommittedDocuments(s, h, m);
    CommittedAppends(s, h, m);
    hide Committed, RowsAt, AllBelow;
    BelowJoined(s, after, h, m);
  }

  lemma RowsBelow(rows: seq<Row>, kept: seq<Row>, more: seq<Row>, h: Height)
    requires forall i :: 0 <= i < |rows| ==> rows[i].height < h
    requires (forall r :: r in kept ==> r in rows) && AllAt(more, h)
    ensures forall i :: 0 <= i < |kept + more| ==> (kept + more)[i].height < h + 1
  {
    forall i | 0 <= i < |kept| ensures kept[i].height < h {
      assert kept[i] in rows;
    }
  }

  lemma BelowJoined(s: Store, after: Store, h: Height, m: Models)
    requires AllBelow(s, h) && RowsAt(m, h)
    requires after.operation == s.operation + m.operation && after.account == s.account + m.account
    requires after.balance == s.balance + m.balance && after.documents == s.documents + m.documents
    requires after.document == Filter(s.document, NotReplaced(h, IdSet(m.documentList))) + m.document
    ensures AllBelow(after, h + 1)
  {
    var kept := Filter(s.document, NotReplaced(h, IdSet(m.documentList)));
    FilterMembers(s.document, NotReplaced(h, IdSet(m.documentList)));
    assert forall c: Col, i :: 0 <= i < |s.Get(c)| ==> s.Get(c)[i].height < h;
    RowsBelow(s.Get(ColOperation), s.operation, m.operation, h);
    RowsBelow(s.Get(ColAccount), s.account, m.account, h);
    RowsBelow(s.Get(ColBalance), s.balance, m.balance, h);
    RowsBelow(s.Get(ColDocument), kept, m.document, h);
    RowsBelow(s.Get(ColDocuments), s.documents, m.documents, h);
    hide Filter, RowsAt;
  }

  /** A block and everything that failed attempts at it, and repairs in between, did. */
  datatype Attempted = Attempted(models: Models, acts: seq<Action>)

  /** Blocks digested one after the other from height `h` on, without a crash. */
  function Uncrashed(s: Store, h: Height, bs: seq<Attempted>): Store {
    if bs == [] then s
    else
      var n := |bs| - 1;
      Digested(Uncrashed(s, h, bs[..n]), h + n - 1, h + n, bs[n].models)
  }

  /** The same with the failed attempts: each block is digested after a restart's repair. */
  function Crashed(s: Store, h: Height, bs: seq<Attempted>): Store {
    if bs == [] then s
    else
      var n := |bs| - 1;
      var repaired := Initialized(Replay(Crashed(s, h, bs[..n]), bs[n].acts), false);
      Digested(repaired.0, repaired.1, h + n, bs[n].models)
  }

  ghost predicate Attempts(s: Store, h: Height, bs: seq<Attempted>) {
    forall n :: 0 <= n < |bs| ==>
      && RowsAt(bs[n].models, h + n)
      && Each(Crashed(s, h, bs[..n]), bs[n].acts, Allowed(h + n, IdSet(bs[n].models.documentList)))
  }

  /** A chain of blocks, each with crashes anywhere in its digest: the restarted digester ends
      in the store of a run without crashes. */
  lemma {:induction false} ChainRecovery(s: Store, h: Height, bs: seq<Attempted>)
    requires h > PRE_GENESIS_HEIGHT + 1 && s.info == Some(h - 1) && AllBelow(s, h) && Attempts(s, h, bs)
    ensures Crashed(s, h, bs) == Uncrashed(s, h, bs)
    ensures Uncrashed(s, h, bs).info == Some(h + |bs| - 1) && AllBelow(Uncrashed(s, h, bs), h + |bs|)
  {
    hide Digested, Initialized, Replay, Each, AllBelow, RowsAt, Allowed, IdSet;
    if bs != [] {
      var n := |bs| - 1;
      assert forall k :: 0 <= k <= n ==> bs[..n][..k] == bs[..k];
      ChainRecovery(s, h, bs[..n]);
      var before := Uncrashed(s, h, bs[..n]);
      CrashRecovery(before, bs[n].acts, h + n, bs[n].models);
      DigestedAdvances(before, h + n, bs[n].models);
    }
  }

  // ----- What is not recovered -----

  ghost predicate SameAppended(s: Store, t: Store) {
    s.operation == t.operation && s.account == t.account && s.balance == t.balance && s.documents == t.documents
  }

  /** The rows a run of actions inserted into a collection. */
  function InsertedInto(acts: seq<Action>, c: Col): seq<Row> {
    if acts == [] then []
    else
      var a := acts[|acts| - 1];
      InsertedInto(acts[..|acts| - 1], c) + if a.InsertRow? && a.col == c then [a.row] else []
  }

  predicate AddsRow(a: Action) { a.InsertRow? && !a.col.ColDocument? }

  lemma {:induction false} AddsMeaning(s: Store, acts: seq<Action>, c: Col)
    requires AllAdd(acts) && !c.ColDocument?
    ensures Replay(s, acts).Get(c) == s.Get(c) + InsertedInto(acts, c)
  {
    if acts != [] {
      var n := |acts| - 1;
      assert acts == acts[..n] + [acts[n]];
      assert OnlyAdds()(acts[n]);
      AddsMeaning(s, acts[..n], c);
    }
  }

  lemma {:induction false} NothingInserted(acts: seq<Action>)
    ensures (forall c: Col :: !c.ColDocument? ==> InsertedInto(acts, c) == []) <==> forall i :: 0 <= i < |acts| ==> !AddsRow(acts[i])
  {
    if acts != [] {
      var n := |acts| - 1;
      NothingInserted(acts[..n]);
      if AddsRow(acts[n]) {
        assert InsertedInto(acts, acts[n].col) != [];
      } else {
        assert forall c: Col :: !c.ColDocument? ==> InsertedInto(acts, c) == InsertedInto(acts[..n], c);
      }
    }
  }

  /** A commit that failed after `k` of its actions and is repeated without the repair, as the
      digester's retry does: the four collections that are only added to come out right if and
      only if the failed attempt had inserted no row into any of them. */
  lemma RetryWithoutRepair(s0: Store, acts: seq<Action>, k: nat, h: Height, m: Models)
    requires h > PRE_GENESIS_HEIGHT + 1 && RowsAt(m, h) && AllAdd(acts) && k <= |acts|
    ensures SameAppended(Committed(Replay(s0, acts[..k]), h, m), Committed(s0, h, m))
            <==> forall i :: 0 <= i < k ==> !AddsRow(acts[i])
  {
    var s, done := Replay(s0, acts[..k]), acts[..k];
    CommittedAppends(s0, h, m);
    CommittedAppends(s, h, m);
    hide Committed, RowsAt, Replay, InsertedInto, OnlyAdds;
    CollectionRetried(s0, done, ColOperation, m.operation);
    CollectionRetried(s0, done, ColAccount, m.account);
    CollectionRetried(s0, done, ColBalance, m.balance);
    CollectionRetried(s0, done, ColDocuments, m.documents);
    NothingInserted(done);
    assert forall i :: 0 <= i < k ==> done[i] == acts[i];
    assert forall c: Col :: c.ColOperation? || c.ColAccount? || c.ColBalance? || c.ColDocuments? || c.ColDocument?;
  }

  lemma CollectionRetried(s0: Store, done: seq<Action>, c: Col, more: seq<Row>)
    requires AllAdd(done) && !c.ColDocument?
    ensures Replay(s0, done).Get(c) + more == s0.Get(c) + more <==> InsertedInto(done, c) == []
  {
    AddsMeaning(s0, done, c);
    var a, b := Replay(s0, done).Get(c), s0.Get(c);
    assert |a| == |b| + |InsertedInto(done, c)|;
    if InsertedInto(done, c) == [] {
      assert a == b;
    } else {
      assert |a + more| > |b + more|;
    }
  }

  /** A block of one operation, failed right after inserting it: the retry inserts it again. */
  lemma RetryDuplicates()
    ensures
      var row := Row(1, OperationBody(0, "a", [], true));
      var s0, m := Store([], [], [], [], [], Some(0)), Models([row], [], [], [], [], []);
      var acts := InsertActions(ColOperation, [row]);
      && RowsAt(m, 1) && AllAdd(acts)
      && Committed(s0, 1, m).operation == [row]
      && Committed(Replay(s0, acts[..1]), 1, m).operation == [row, row]
  {
    var row := Row(1, OperationBody(0, "a", [], true));
    var s0 := Store([], [], [], [], [], Some(0));
    var acts := InsertActions(ColOperation, [row]);
    assert acts == [InsertRow(ColOperation, row)] && acts[..1] == acts && acts[..0] == [];
    assert Replay(s0, acts) == Apply(Replay(s0, acts[..0]), acts[0]);
    assert [row] + [row] == [row, row];
  }

  lemma CommittedAppends(s: Store, h: Height, m: Models)
    requires h > PRE_GENESIS_HEIGHT + 1
    ensures Committed(s, h, m).operation == s.operation + m.operation
    ensures Committed(s, h, m).account == s.account + m.account
    ensures Committed(s, h, m).balance == s.balance + m.balance
    ensures Committed(s, h, m).documents == s.documents + m.documents
  {
    DocumentsCleanedMeaning(Appended(s, m), h, m.documentList);
  }

  lemma {:induction false} GenesisCleaned(s: Store, h: Height, ids: seq<string>)
    requires h <= PRE_GENESIS_HEIGHT + 1 && ids != []
    ensures DocumentsCleaned(s, h, ids) == Cleaned(s)
  {
  }

  /** At genesis the cleaning of a document drops every collection: the operation, account and
      balance rows committed before survive if and only if the block writes no document (or
      there were none to lose). */
  lemma GenesisCommit(s: Store, h: Height, m: Models)
    requires h <= PRE_GENESIS_HEIGHT + 1 && |m.documentList| == |m.document|
    ensures
      var after, added := Committed(s, h, m), Appended(s, m);
      after.operation == added.operation && after.account == added.account && after.balance == added.balance
      <==> m.document == [] || (added.operation == [] && added.account == [] && added.balance == [])
  {
    if m.document != [] {
      GenesisCleaned(Appended(s, m), h, m.documentList);
    }
  }

  /** Digesting a block no higher than the last one: a restart afterwards comes back to the
      last block if and only if the block wrote no document. */
  lemma OldBlockMovesPersistedHeight(s: Store, last: Height, h: Height, m: Models)
    requires PRE_GENESIS_HEIGHT + 1 < h <= last && s.info == Some(last) && RowsAt(m, h)
    ensures Initialized(Digested(s, last, h, m), false).1 == last <==> m.document == []
  {
    CommittedDocuments(s, h, m);
  }
}
