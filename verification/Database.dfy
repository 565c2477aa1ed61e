/** The digest database's bookkeeping (database.go): the last block in memory and persisted,
    cleaning, and the repair at start. */
module Databases {
  import opened Basics
  import opened Sequences
  import opened Documents
  import opened DigestStore

  // ----- What the operations do to the store -----

  function Cleaned(s: Store): Store { Store([], [], [], [], [], Some(NIL_HEIGHT)) }

  function CleanedByHeight(s: Store, h: Height): Store {
    if h <= PRE_GENESIS_HEIGHT + 1 then Cleaned(s)
    else Store(
      Filter(s.account, Not(AtLeast(h))),
      Filter(s.balance, Not(AtLeast(h))),
      Filter(s.operation, Not(AtLeast(h))),
      Filter(s.document, Not(AtLeast(h))),
      Filter(s.documents, Not(AtLeast(h))),
      Some(h - 1))
  }

  /** The store and the last block in memory after the start-up repair. */
  function Initialized(s: Store, readonly: bool): (Store, Height) {
    match s.info
    case None => (s, NIL_HEIGHT)
    case Some(h) =>
      if readonly then (s, h)
      else (CleanedByHeight(s, h + 1), if h + 1 <= PRE_GENESIS_HEIGHT + 1 then NIL_HEIGHT else h)
  }

  /** Older versions of one document are removed before a newer one is written. */
  function DocumentCleaned(s: Store, h: Height, id: string): Store {
    if h <= PRE_GENESIS_HEIGHT + 1 then Cleaned(s)
    else s.(document := Filter(s.document, Not(DocumentUpTo(id, h))), info := Some(h - 1))
  }

  // ----- The actions a digest of block `h` may make -----

  predicate Replaced(ids: set<string>, r: Row) { r.body.DocumentBody? && r.body.doc.DocumentId() in ids }

  /** The rows the repair and a new digest of block `h` keep. */
  function Keep(h: Height, ids: set<string>, c: Col): Row -> bool {
    if c.ColDocument? then (r: Row) => r.height < h && !Replaced(ids, r) else Below(h)
  }

  /** Inserting rows of block `h`, removing rows that are not kept, recording `h - 1`. */
  function Allowed(h: Height, ids: set<string>): (Store, Action) -> bool {
    (s: Store, a: Action) =>
      match a
      case InsertRow(_, row) => row.height == h
      case RemoveAt(c, i) => i < |s.Get(c)| && !Keep(h, ids, c)(s.Get(c)[i])
      case SetInfo(g) => g == h - 1
      case DropCol(_) => false
  }

  /** The actions of a commit above genesis: outside the document collection nothing is removed. */
  function OnlyAdds(): Action -> bool {
    (a: Action) => a.InsertRow? || a.SetInfo? || (a.RemoveAt? && a.col.ColDocument?)
  }

  predicate AllAdd(acts: seq<Action>) { forall a :: a in acts ==> OnlyAdds()(a) }

  lemma RemovalsAllowed(s: Store, acts: seq<Action>, c: Col, p: Row -> bool, h: Height, ids: set<string>)
    requires Each(s, acts, Removes(c, p))
    requires forall r :: p(r) ==> !Keep(h, ids, c)(r)
    ensures Each(s, acts, Allowed(h, ids))
  {
    forall t: Store, a: Action | Removes(c, p)(t, a) ensures Allowed(h, ids)(t, a) {
      var row := t.Get(c)[a.at];
      assert p(row);
      assert !Keep(h, ids, c)(row);
    }
    EachImplies(s, acts, Removes(c, p), Allowed(h, ids));
  }

  lemma VersionsRemoved(s: Store, acts: seq<Action>, id: string, h: Height, ids: set<string>)
    requires id in ids && Each(s, acts, Removes(ColDocument, DocumentUpTo(id, h)))
    ensures Each(s, acts, Allowed(h, ids)) && AllAdd(acts)
  {
    RemovalsAllowed(s, acts, ColDocument, DocumentUpTo(id, h), h, ids);
    EachAction(s, acts, Removes(ColDocument, DocumentUpTo(id, h)), OnlyAdds());
  }

  lemma InfoAllowed(s: Store, h: Height, ids: set<string>)
    ensures Allowed(h, ids)(s, SetInfo(h - 1))
  {
  }

  lemma NotKept(c: Col, h: Height)
    ensures forall r :: AtLeast(h)(r) ==> !Keep(h, {}, c)(r)
  {
  }

  lemma {:induction false} InsertsAllowed(s: Store, c: Col, rows: seq<Row>, h: Height, ids: set<string>)
    requires forall i :: 0 <= i < |rows| ==> rows[i].height == h
    ensures Each(s, InsertActions(c, rows), Allowed(h, ids))
  {
    if rows != [] {
      var n := |rows| - 1;
      InsertsAllowed(s, c, rows[..n], h, ids);
      assert InsertActions(c, rows)[..n] == InsertActions(c, rows[..n]);
    }
  }

  lemma InsertsAdd(c: Col, rows: seq<Row>)
    ensures AllAdd(InsertActions(c, rows))
  {
  }

  lemma AddsJoined(a: seq<Action>, b: seq<Action>)
    requires AllAdd(a) && AllAdd(b)
    ensures AllAdd(a + b)
  {
  }

  lemma AllowedMore(s: Store, a: seq<Action>, b: seq<Action>, h: Height, ids: set<string>)
    requires Each(s, a, Allowed(h, ids)) && Each(Replay(s, a), b, Allowed(h, ids))
    ensures Each(s, a + b, Allowed(h, ids)) && Replay(s, a + b) == Replay(Replay(s, a), b)
  {
    ReplayAppend(s, a, b, Allowed(h, ids));
  }

  /** The first `n` collections cleaned. */
  function CleanedCollections(s: Store, h: Height, n: nat): Store
    requires n <= |ALL_COLLECTIONS|
  {
    if n == 0 then s
    else
      var before, c := CleanedCollections(s, h, n - 1), ALL_COLLECTIONS[n - 1];
      before.Set(c, Filter(before.Get(c), Not(AtLeast(h))))
  }

  lemma CleanedCollectionsMeaning(s: Store, h: Height)
    requires h > PRE_GENESIS_HEIGHT + 1
    ensures CleanedCollections(s, h, 5).(info := Some(h - 1)) == CleanedByHeight(s, h)
  {
    hide Filter;
    var p := Not(AtLeast(h));
    assert CleanedCollections(s, h, 1) == s.(account := Filter(s.account, p));
    assert CleanedCollections(s, h, 2) == s.(account := Filter(s.account, p), balance := Filter(s.balance, p));
    assert CleanedCollections(s, h, 3)
        == s.(account := Filter(s.account, p), balance := Filter(s.balance, p), operation := Filter(s.operation, p));
    assert CleanedCollections(s, h, 4) == CleanedCollections(s, h, 3).(document := Filter(s.document, p));
    assert CleanedCollections(s, h, 5) == CleanedCollections(s, h, 4).(documents := Filter(s.documents, p));
  }

  class Database {
    const mongo: Mongo
    const readonly: bool
    var lastBlock: Height

    constructor (mongo: Mongo, readonly: bool)
      ensures this.mongo == mongo && this.readonly == readonly && lastBlock == NIL_HEIGHT
    {
      this.mongo, this.readonly, lastBlock := mongo, readonly, NIL_HEIGHT;
    }

    /** Repairs the store after a start: whatever was written above the persisted last block
        is removed. */
    method Initialize() returns (ghost acts: seq<Action>)
      requires mongo.Valid()
      modifies this, mongo
      ensures mongo.Valid() && mongo.log == old(mongo.log) + acts && mongo.data == Replay(old(mongo.data), acts)
      ensures (mongo.data, lastBlock) == Initialized(old(mongo.data), readonly)
      ensures old(mongo.data.info).None? || readonly ==> mongo.data == old(mongo.data)
      ensures old(mongo.data.info).None? ==> lastBlock == NIL_HEIGHT
      ensures old(mongo.data.info).Some? && (readonly || old(mongo.data.info).value > PRE_GENESIS_HEIGHT) ==>
                lastBlock == old(mongo.data.info).value
      ensures old(mongo.data.info).Some? && old(mongo.data.info).value > PRE_GENESIS_HEIGHT ==>
                Each(old(mongo.data), acts, Allowed(old(mongo.data.info).value + 1, {}))
    {
      acts := [];
      match mongo.data.info {
        case None =>
          lastBlock := NIL_HEIGHT;
        case Some(h) =>
          lastBlock := h;
          if !readonly {
            acts := CleanByHeight(h + 1);
          }
      }
    }

    method SetLastBlock(height: Height) returns (r: Result<()>, ghost acts: seq<Action>)
      requires mongo.Valid()
      modifies this, mongo
      ensures mongo.Valid() && mongo.log == old(mongo.log) + acts && mongo.data == Replay(old(mongo.data), acts)
      ensures r.Ok? <==> !readonly
      ensures !readonly && height > old(lastBlock) ==>
                lastBlock == height && mongo.data == old(mongo.data).(info := Some(height))
      ensures readonly || height <= old(lastBlock) ==> lastBlock == old(lastBlock) && mongo.data == old(mongo.data)
    {
      acts := [];
      if readonly {
        return Err(Readonly), acts;
      }
      if height <= lastBlock {
        return Ok(()), acts;
      }
      acts := WriteLastBlock(height);
      return Ok(()), acts;
    }

    /** `setLastBlock`: persists the height, then remembers it. */
    method WriteLastBlock(height: Height) returns (ghost acts: seq<Action>)
      requires mongo.Valid()
      modifies this, mongo
      ensures mongo.Valid() && mongo.log == old(mongo.log) + acts && acts == [SetInfo(height)]
      ensures mongo.data == Replay(old(mongo.data), acts)
      ensures mongo.data == old(mongo.data).(info := Some(height)) && lastBlock == height
    {
      acts := [SetInfo(height)];
      assert acts[..0] == [];
      mongo.Do(SetInfo(height));
      lastBlock := height;
    }

    method Clean() returns (ghost acts: seq<Action>)
      requires mongo.Valid()
      modifies this, mongo
      ensures mongo.Valid() && mongo.log == old(mongo.log) + acts && mongo.data == Replay(old(mongo.data), acts)
      ensures mongo.data == Cleaned(old(mongo.data)) && lastBlock == NIL_HEIGHT
      ensures mongo.data.info == Some(NIL_HEIGHT) && forall c: Col :: mongo.data.Get(c) == []
    {
      hide Replay, Mongo.Valid;
      acts := [];
      ReplayNothing(old(mongo.data), Inserts(ColAccount));
      for i := 0 to |ALL_COLLECTIONS|
        invariant mongo.Valid() && mongo.log == old(mongo.log) + acts && mongo.data == Replay(old(mongo.data), acts)
        invariant mongo.data.info == old(mongo.data.info)
        invariant forall j :: 0 <= j < i ==> mongo.data.Get(ALL_COLLECTIONS[j]) == []
      {
        var c := ALL_COLLECTIONS[i];
        ReplaySnoc(old(mongo.data), acts, DropCol(c), Inserts(c));
        mongo.Do(DropCol(c));
        acts := acts + [DropCol(c)];
      }
      assert mongo.data.Get(ALL_COLLECTIONS[0]) == [] && mongo.data.Get(ALL_COLLECTIONS[1]) == [];
      assert mongo.data.Get(ALL_COLLECTIONS[2]) == [] && mongo.data.Get(ALL_COLLECTIONS[3]) == [];
      assert mongo.data.Get(ALL_COLLECTIONS[4]) == [];
      ReplaySnoc(old(mongo.data), acts, SetInfo(NIL_HEIGHT), Inserts(ColAccount));
      ghost var more := WriteLastBlock(NIL_HEIGHT);
      acts := acts + more;
    }

    method CleanByHeight(height: Height) returns (ghost acts: seq<Action>)
      requires mongo.Valid()
      modifies this, mongo
      ensures mongo.Valid() && mongo.log == old(mongo.log) + acts && mongo.data == Replay(old(mongo.data), acts)
      ensures mongo.data == CleanedByHeight(old(mongo.data), height)
      ensures lastBlock == if height <= PRE_GENESIS_HEIGHT + 1 then NIL_HEIGHT else height - 1
      ensures height > PRE_GENESIS_HEIGHT + 1 ==> Each(old(mongo.data), acts, Allowed(height, {}))
    {
      hide Replay, Each, Cleaned, CleanedCollections, Filter, Mongo.Valid;
      if height <= PRE_GENESIS_HEIGHT + 1 {
        acts := Clean();
        return;
      }
      acts := CleanAllCollections(height);
      CleanedCollectionsMeaning(old(mongo.data), height);
      hide CleanedByHeight;
      ReplaySnoc(old(mongo.data), acts, SetInfo(height - 1), Allowed(height, {}));
      ghost var more := WriteLastBlock(height - 1);
      acts := acts + more;
    }

    method CleanAllCollections(height: Height) returns (ghost acts: seq<Action>)
      requires mongo.Valid() && height > PRE_GENESIS_HEIGHT + 1
      modifies mongo
      ensures mongo.Valid() && mongo.log == old(mongo.log) + acts && mongo.data == Replay(old(mongo.data), acts)
      ensures mongo.data == CleanedCollections(old(mongo.data), height, 5)
      ensures Each(old(mongo.data), acts, Allowed(height, {}))
    {
      hide Store.Get, Store.Set, Replay, Each, Mongo.Valid, Keep;
      acts := [];
      ReplayNothing(old(mongo.data), Allowed(height, {}));
      for i := 0 to 5
        invariant mongo.Valid() && mongo.log == old(mongo.log) + acts && mongo.data == Replay(old(mongo.data), acts)
        invariant mongo.data == CleanedCollections(old(mongo.data), height, i)
        invariant Each(old(mongo.data), acts, Allowed(height, {}))
      {
        var c := ALL_COLLECTIONS[i];
        ghost var s := mongo.data;
        ghost var removed := mongo.DeleteMany(c, AtLeast(height));
        NotKept(c, height);
        RemovalsAllowed(s, removed, c, AtLeast(height), height, {});
        AllowedMore(old(mongo.data), acts, removed, height, {});
        acts := acts + removed;
      }
    }

    /** `cleanByHeightColNameDocumentId`, for the document collection. */
    method CleanDocument(height: Height, id: string, ghost ids: set<string>) returns (ghost acts: seq<Action>)
      requires mongo.Valid() && id in ids
      modifies this, mongo
      ensures mongo.Valid() && mongo.log == old(mongo.log) + acts && mongo.data == Replay(old(mongo.data), acts)
      ensures mongo.data == DocumentCleaned(old(mongo.data), height, id)
      ensures height > PRE_GENESIS_HEIGHT + 1 ==> Each(old(mongo.data), acts, Allowed(height, ids)) && AllAdd(acts)
    {
      hide Replay, Each, Cleaned, Filter, Mongo.Valid, Keep, Allowed, Removes;
      if height <= PRE_GENESIS_HEIGHT + 1 {
        acts := Clean();
        return;
      }
      ghost var s0 := mongo.data;
      acts := mongo.DeleteMany(ColDocument, DocumentUpTo(id, height));
      VersionsRemoved(s0, acts, id, height, ids);
      ReplaySnoc(s0, acts, SetInfo(height - 1), Allowed(height, ids));
      InfoAllowed(mongo.data, height, ids);
      ghost var more := WriteLastBlock(height - 1);
      acts := acts + more;
    }
  }
}
