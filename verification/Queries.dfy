/** "Latest" queries of the digest (database.go): the current version of a document and an
    account's balances. */
module Queries {
  import opened Basics
  import opened Sequences
  import opened Documents
  import opened DigestStore
  import opened Databases
  import opened BlockSessions
  import opened Recovery

  /** Some matching row of the greatest height, or None when none matches. */
  ghost predicate IsLatest(rows: seq<Row>, p: Row -> bool, r: Option<Row>) {
    match r
    case None => forall x :: x in rows ==> !p(x)
    case Some(row) => row in rows && p(row) && forall x :: x in rows && p(x) ==> x.height <= row.height
  }

  /** FindOne with the height descending. */
  method FindLatest(rows: seq<Row>, p: Row -> bool) returns (r: Option<Row>)
    ensures IsLatest(rows, p, r)
  {
    r := None;
    for i := 0 to |rows|
      invariant IsLatest(rows[..i], p, r)
    {
      assert rows[..i + 1] == rows[..i] + [rows[i]];
      if p(rows[i]) && (r.None? || r.value.height < rows[i].height) {
        r := Some(rows[i]);
      }
    }
    assert rows[..|rows|] == rows;
  }

  // ----- Document -----

  function OfDocument(id: string): Row -> bool { (r: Row) => r.IsDocument(id) }

  /** `Document(id)`. */
  method Document(s: Store, id: string) returns (r: Option<DocumentData>)
    ensures r.None? <==> forall x :: x in s.document ==> !x.IsDocument(id)
    ensures r.Some? ==> exists row :: IsLatest(s.document, OfDocument(id), Some(row)) && r.value == row.body.doc
  {
    var row := FindLatest(s.document, OfDocument(id));
    if row.None? {
      return None;
    }
    return Some(row.value.body.doc);
  }

  datatype BlockCommit = BlockCommit(height: Height, models: Models)

  function CommittedAll(s: Store, cs: seq<BlockCommit>): Store {
    if cs == [] then s
    else Committed(CommittedAll(s, cs[..|cs| - 1]), cs[|cs| - 1].height, cs[|cs| - 1].models)
  }

  ghost predicate Distinct(ids: seq<string>) { forall i, j :: 0 <= i < j < |ids| ==> ids[i] != ids[j] }

  /** Commits of blocks above genesis, in any order and with repeats: one block per height, and
      at most one state per document in a block. */
  ghost predicate GoodCommits(cs: seq<BlockCommit>) {
    && (forall i :: 0 <= i < |cs| ==>
          && cs[i].height > PRE_GENESIS_HEIGHT + 1
          && RowsAt(cs[i].models, cs[i].height)
          && Distinct(cs[i].models.documentList))
    && (forall i, j :: 0 <= i < |cs| && 0 <= j < |cs| && cs[i].height == cs[j].height ==> cs[i].models == cs[j].models)
  }

  predicate Contains(c: BlockCommit, id: string) { id in c.models.documentList }

  /** `cs[k]` is a highest committed block that contains the document. */
  ghost predicate Highest(cs: seq<BlockCommit>, id: string, k: nat) {
    && k < |cs| && Contains(cs[k], id)
    && forall j :: 0 <= j < |cs| && Contains(cs[j], id) ==> cs[j].height <= cs[k].height
  }

  lemma InModels(m: Models, h: Height, r: Row, id: string)
    requires RowsAt(m, h)
    ensures r in m.document && r.IsDocument(id) ==> id in m.documentList && r.height == h
    ensures id in m.documentList ==> exists x :: x in m.document && x.IsDocument(id)
  {
    if r in m.document && r.IsDocument(id) {
      var i :| 0 <= i < |m.document| && m.document[i] == r;
      assert m.documentList[i] == id;
    }
    if id in m.documentList {
      var i :| 0 <= i < |m.documentList| && m.documentList[i] == id;
      assert m.document[i] in m.document && m.document[i].IsDocument(id);
    }
  }

  /** Every row was written by a committed block, and for every document of a committed block
      a version at least as high is there. */
  ghost predicate Covers(rows: seq<Row>, cs: seq<BlockCommit>) {
    && (forall r :: r in rows ==> exists j :: 0 <= j < |cs| && r in cs[j].models.document)
    && (forall j, id :: 0 <= j < |cs| && Contains(cs[j], id) ==>
          exists r :: r in rows && r.IsDocument(id) && r.height >= cs[j].height)
  }

  lemma {:induction false} CommitsCover(s: Store, cs: seq<BlockCommit>)
    requires s.document == [] && GoodCommits(cs)
    ensures Covers(CommittedAll(s, cs).document, cs)
  {
    if cs != [] {
      var before, c := cs[..|cs| - 1], cs[|cs| - 1];
      CommitsCover(s, before);
      CommittedDocuments(CommittedAll(s, before), c.height, c.models);
      CoverStep(CommittedAll(s, before).document, before, c);
      assert cs == before + [c];
    }
  }

  lemma CoverStep(rows: seq<Row>, before: seq<BlockCommit>, c: BlockCommit)
    requires Covers(rows, before) && RowsAt(c.models, c.height)
    ensures Covers(Filter(rows, NotReplaced(c.height, IdSet(c.models.documentList))) + c.models.document, before + [c])
  {
    var cs := before + [c];
    var p := NotReplaced(c.height, IdSet(c.models.documentList));
    var after := Filter(rows, p) + c.models.document;
    FilterMembers(rows, p);
    forall r | r in after ensures exists j :: 0 <= j < |cs| && r in cs[j].models.document {
      if r in rows {
        var j :| 0 <= j < |before| && r in before[j].models.document;
        assert r in cs[j].models.document;
      } else {
        assert r in cs[|before|].models.document;
      }
    }
    forall j, id | 0 <= j < |cs| && Contains(cs[j], id)
      ensures exists r :: r in after && r.IsDocument(id) && r.height >= cs[j].height
    {
      if Contains(c, id) {
        InModels(c.models, c.height, Row(0, AccountBody("")), id);
        var x :| x in c.models.document && x.IsDocument(id);
        InModels(c.models, c.height, x, id);
        assert x in after;
        if cs[j].height > c.height {
          var r :| r in rows && r.IsDocument(id) && r.height >= before[j].height;
          assert p(r) && r in after;
        }
      } else {
        var r :| r in rows && r.IsDocument(id) && r.height >= before[j].height;
        assert p(r) && r in after;
      }
    }
  }

  /** After any sequence of commits, whatever row the query picks for a document is the one the
      highest committed block containing it wrote. */
  lemma DocumentIsLatest(s: Store, cs: seq<BlockCommit>, id: string, k: nat, r: Option<Row>)
    requires s.document == [] && GoodCommits(cs)
    requires IsLatest(CommittedAll(s, cs).document, OfDocument(id), r)
    ensures r.None? <==> forall j :: 0 <= j < |cs| ==> !Contains(cs[j], id)
    ensures Highest(cs, id, k) ==>
              r.Some? && r.value.height == cs[k].height && r.value in cs[k].models.document && r.value.IsDocument(id)
  {
    CommitsCover(s, cs);
    var rows := CommittedAll(s, cs).document;
    forall j | 0 <= j < |cs| && Contains(cs[j], id) ensures exists x :: x in rows && OfDocument(id)(x) && x.height >= cs[j].height {
      var x :| x in rows && x.IsDocument(id) && x.height >= cs[j].height;
      assert OfDocument(id)(x);
    }
    if r.Some? {
      var j :| 0 <= j < |cs| && r.value in cs[j].models.document;
      InModels(cs[j].models, cs[j].height, r.value, id);
      assert Contains(cs[j], id);
    }
  }

  /** A block holds one version of a document, so the version is determined. */
  lemma VersionUnique(m: Models, h: Height, id: string, x: Row, y: Row)
    requires RowsAt(m, h) && Distinct(m.documentList)
    requires x in m.document && y in m.document && x.IsDocument(id) && y.IsDocument(id)
    ensures x == y
  {
    var i :| 0 <= i < |m.document| && m.document[i] == x;
    var j :| 0 <= j < |m.document| && m.document[j] == y;
    assert m.documentList[i] == m.documentList[j] == id;
  }

  // ----- One row per document when commits ascend -----

  ghost predicate Ascending(cs: seq<BlockCommit>) {
    forall i, j :: 0 <= i < j < |cs| ==> cs[i].height <= cs[j].height
  }

  lemma {:induction false} OneOfEach(rows: seq<Row>, id: string)
    requires Distinct(Map(rows, DocumentIdOf())) && forall i :: 0 <= i < |rows| ==> rows[i].body.DocumentBody?
    ensures |Filter(rows, OfDocument(id))| == if id in Map(rows, DocumentIdOf()) then 1 else 0
  {
    if rows != [] {
      var ids := Map(rows, DocumentIdOf());
      assert Map(rows[1..], DocumentIdOf()) == ids[1..];
      assert ids == [ids[0]] + ids[1..];
      OneOfEach(rows[1..], id);
    }
  }

  lemma RowsNotAbove(s: Store, before: seq<BlockCommit>, h: Height)
    requires s.document == [] && GoodCommits(before) && forall j :: 0 <= j < |before| ==> before[j].height <= h
    ensures forall r :: r in CommittedAll(s, before).document ==> r.height <= h
  {
    CommitsCover(s, before);
    forall r | r in CommittedAll(s, before).document ensures r.height <= h {
      var j :| 0 <= j < |before| && r in before[j].models.document;
      var i :| 0 <= i < |before[j].models.document| && before[j].models.document[i] == r;
      assert before[j].models.document[i].height == before[j].height;
    }
  }

  /** Committing a block replaces the document's row if the block contains it. */
  lemma CountStep(s: Store, c: BlockCommit, id: string)
    requires c.height > PRE_GENESIS_HEIGHT + 1 && RowsAt(c.models, c.height) && Distinct(c.models.documentList)
    requires forall r :: r in s.document ==> r.height <= c.height
    ensures |Filter(Committed(s, c.height, c.models).document, OfDocument(id))|
            == if Contains(c, id) then 1 else |Filter(s.document, OfDocument(id))|
  {
    var p := NotReplaced(c.height, IdSet(c.models.documentList));
    CommittedDocuments(s, c.height, c.models);
    FilterAppend(Filter(s.document, p), c.models.document, OfDocument(id));
    OneOfEach(c.models.document, id);
    OthersUntouched(s.document, c, id);
  }

  /** With ascending commits, repeats allowed, the collection holds exactly one row for every
      document of a committed block. */
  lemma {:induction false} OneRowPerDocument(s: Store, cs: seq<BlockCommit>, id: string)
    requires s.document == [] && GoodCommits(cs) && Ascending(cs)
    ensures |Filter(CommittedAll(s, cs).document, OfDocument(id))| == if InSome(cs, id) then 1 else 0
  {
    if cs != [] {
      var before, c := cs[..|cs| - 1], cs[|cs| - 1];
      hide Filter, Committed, GoodCommits, Ascending, InSome;
      PrefixGood(cs);
      OneRowPerDocument(s, before, id);
      RowsNotAbove(s, before, c.height);
      CountStep(CommittedAll(s, before), c, id);
      assert cs == before + [c];
      InSomeStep(before, c, id);
    }
  }

  lemma PrefixGood(cs: seq<BlockCommit>)
    requires GoodCommits(cs) && Ascending(cs) && cs != []
    ensures
      var before, c := cs[..|cs| - 1], cs[|cs| - 1];
      && GoodCommits(before) && Ascending(before)
      && c.height > PRE_GENESIS_HEIGHT + 1 && RowsAt(c.models, c.height) && Distinct(c.models.documentList)
      && forall j :: 0 <= j < |before| ==> before[j].height <= c.height
  {
    hide RowsAt, Distinct;
  }

  lemma InSomeStep(before: seq<BlockCommit>, c: BlockCommit, id: string)
    ensures InSome(before + [c], id) <==> InSome(before, id) || Contains(c, id)
  {
    hide Contains;
    var cs := before + [c];
    assert cs[|before|] == c;
    if j :| 0 <= j < |before| && Contains(before[j], id) {
      assert Contains(cs[j], id);
    }
  }

  predicate InSome(cs: seq<BlockCommit>, id: string) { exists j :: 0 <= j < |cs| && Contains(cs[j], id) }

  lemma OthersUntouched(rows: seq<Row>, c: BlockCommit, id: string)
    requires forall r :: r in rows ==> r.height <= c.height
    ensures
      var p := NotReplaced(c.height, IdSet(c.models.documentList));
      Filter(Filter(rows, p), OfDocument(id)) == if Contains(c, id) then [] else Filter(rows, OfDocument(id))
  {
    var p := NotReplaced(c.height, IdSet(c.models.documentList));
    if Contains(c, id) {
      FilterMembers(rows, p);
      FilterNone(Filter(rows, p), OfDocument(id));
    } else {
      FilterTwice(rows, p, OfDocument(id), OfDocument(id));
    }
  }

  // ----- Balances -----

  function BalanceOf(address: string, cids: set<string>): Row -> bool {
    (r: Row) => r.body.BalanceBody? && r.body.address == address && r.body.currency !in cids
  }

  ghost function CurrenciesOf(rows: seq<Row>, address: string): set<string> {
    set r | r in rows && BalanceOf(address, {})(r) :: r.body.currency
  }

  predicate OfCurrency(r: Row, address: string, cid: string) {
    r.body.BalanceBody? && r.body.address == address && r.body.currency == cid
  }

  /** The row a currency's balance is read from. */
  ghost predicate LatestBalance(rows: seq<Row>, address: string, cid: string, amount: int) {
    exists r :: r in rows && OfCurrency(r, address, cid) && r.body.amount == amount
      && forall x :: x in rows && OfCurrency(x, address, cid) ==> x.height <= r.height
  }

  /** The amounts collected so far, and the heights of the first row found. */
  ghost predicate Collected(rows: seq<Row>, address: string, amm: map<string, int>, last: Height, previous: Height) {
    && amm.Keys <= CurrenciesOf(rows, address)
    && (forall cid :: cid in amm ==> LatestBalance(rows, address, cid, amm[cid]))
    && (if amm == map[] then last == previous == NIL_HEIGHT else TopHeights(rows, address, last, previous))
  }

  ghost predicate TopHeights(rows: seq<Row>, address: string, last: Height, previous: Height) {
    exists r ::
      && r in rows && BalanceOf(address, {})(r) && r.height == last && r.body.previousHeight == previous
      && forall x :: x in rows && BalanceOf(address, {})(x) ==> x.height <= last
  }

  lemma CollectStep(rows: seq<Row>, address: string, amm: map<string, int>, last: Height, previous: Height, row: Row)
    requires Collected(rows, address, amm, last, previous)
    requires IsLatest(rows, BalanceOf(address, amm.Keys), Some(row))
    requires forall r :: r in rows ==> r.height > NIL_HEIGHT
    ensures row.body.BalanceBody?
    ensures
      var cid := row.body.currency;
      && cid in CurrenciesOf(rows, address) - amm.Keys
      && Collected(rows, address, amm[cid := row.body.amount],
                   if row.height > last then row.height else last,
                   if row.height > last then row.body.previousHeight else previous)
  {
    var cid := row.body.currency;
    assert BalanceOf(address, {})(row);
    assert forall x :: x in rows && OfCurrency(x, address, cid) ==> BalanceOf(address, amm.Keys)(x);
    assert LatestBalance(rows, address, cid, row.body.amount);
    if amm == map[] {
      assert forall x :: BalanceOf(address, {})(x) <==> BalanceOf(address, amm.Keys)(x);
      assert TopHeights(rows, address, row.height, row.body.previousHeight);
    }
  }

  /** One amount for each currency the address has a row in, each from a row of that currency's
      greatest height, and the greatest height over all the address's rows. */
  method Balance(rows: seq<Row>, address: string)
    returns (amm: map<string, int>, lastHeight: Height, previousHeight: Height)
    requires forall r :: r in rows ==> r.height > NIL_HEIGHT
    ensures amm.Keys == CurrenciesOf(rows, address)
    ensures forall cid :: cid in amm ==> LatestBalance(rows, address, cid, amm[cid])
    ensures amm == map[] ==> lastHeight == previousHeight == NIL_HEIGHT
    ensures amm != map[] ==> TopHeights(rows, address, lastHeight, previousHeight)
  {
    hide *;
    lastHeight, previousHeight, amm := NIL_HEIGHT, NIL_HEIGHT, map[];
    CollectedNothing(rows, address);
    ghost var all := CurrenciesOf(rows, address);
    while true
      invariant Collected(rows, address, amm, lastHeight, previousHeight)
      decreases |all - amm.Keys|
    {
      var sta := FindLatest(rows, BalanceOf(address, amm.Keys));
      if sta.None? {
        CollectedEverything(rows, address, amm, lastHeight, previousHeight);
        break;
      }
      var row := sta.value;
      CollectStep(rows, address, amm, lastHeight, previousHeight, row);
      ghost var left := all - amm.Keys;
      if row.height > lastHeight {
        lastHeight, previousHeight := row.height, row.body.previousHeight;
      }
      amm := amm[row.body.currency := row.body.amount];
      assert all - amm.Keys == left - {row.body.currency};
    }
  }

  lemma CollectedNothing(rows: seq<Row>, address: string)
    ensures Collected(rows, address, map[], NIL_HEIGHT, NIL_HEIGHT)
  {
  }

  lemma CollectedEverything(rows: seq<Row>, address: string, amm: map<string, int>, last: Height, previous: Height)
    requires Collected(rows, address, amm, last, previous)
    requires IsLatest(rows, BalanceOf(address, amm.Keys), None)
    ensures amm.Keys == CurrenciesOf(rows, address)
    ensures forall cid :: cid in amm ==> LatestBalance(rows, address, cid, amm[cid])
    ensures amm == map[] ==> last == previous == NIL_HEIGHT
    ensures amm != map[] ==> TopHeights(rows, address, last, previous)
  {
  }
}
