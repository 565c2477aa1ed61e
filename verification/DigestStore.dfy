/** The digest's collections (database.go).  Every change of the store is a sequence of small
    actions, so that a crash is a run cut short anywhere. */
module DigestStore {
  import opened Basics
  import opened Sequences
  import opened Documents

  type Height = int

  const NIL_HEIGHT: Height := -2
  const PRE_GENESIS_HEIGHT: Height := -1

  datatype Body =
    | OperationBody(index: nat, fact: string, addresses: seq<string>, inState: bool)
    | AccountBody(address: string)
    | BalanceBody(address: string, currency: string, amount: int, previousHeight: Height)
    | DocumentBody(doc: DocumentData)
    | InventoryBody(address: string, infos: seq<DocInfo>)

  datatype Row = Row(height: Height, body: Body) {
    predicate IsDocument(id: string) { body.DocumentBody? && body.doc.DocumentId() == id }
  }

  datatype Col = ColAccount | ColBalance | ColOperation | ColDocument | ColDocuments

  const ALL_COLLECTIONS: seq<Col> := [ColAccount, ColBalance, ColOperation, ColDocument, ColDocuments]

  /** The five collections and the persisted last block; a dropped collection is empty. */
  datatype Store = Store(
    account: seq<Row>,
    balance: seq<Row>,
    operation: seq<Row>,
    document: seq<Row>,
    documents: seq<Row>,
    info: Option<Height>)
  {
    function Get(c: Col): seq<Row> {
      match c
      case ColAccount => account
      case ColBalance => balance
      case ColOperation => operation
      case ColDocument => document
      case ColDocuments => documents
    }

    function Set(c: Col, rows: seq<Row>): Store {
      match c
      case ColAccount => this.(account := rows)
      case ColBalance => this.(balance := rows)
      case ColOperation => this.(operation := rows)
      case ColDocument => this.(document := rows)
      case ColDocuments => this.(documents := rows)
    }
  }

  lemma SetGet(s: Store, c: Col, x: seq<Row>, y: seq<Row>)
    ensures s.Set(c, x).Get(c) == x
    ensures s.Set(c, x).Set(c, y) == s.Set(c, y)
    ensures s.Set(c, s.Get(c)) == s
  {
  }

  // ----- Actions -----

  datatype Action =
    | InsertRow(col: Col, row: Row)
    | RemoveAt(col: Col, at: nat)
    | DropCol(col: Col)
    | SetInfo(height: Height)

  function Without(rows: seq<Row>, i: nat): seq<Row> {
    if i < |rows| then rows[..i] + rows[i + 1..] else rows
  }

  function Apply(s: Store, a: Action): Store {
    match a
    case InsertRow(c, row) => s.Set(c, s.Get(c) + [row])
    case RemoveAt(c, i) => s.Set(c, Without(s.Get(c), i))
    case DropCol(c) => s.Set(c, [])
    case SetInfo(h) => s.(info := Some(h))
  }

  function Replay(s: Store, acts: seq<Action>): Store {
    if acts == [] then s else Apply(Replay(s, acts[..|acts| - 1]), acts[|acts| - 1])
  }

  /** Every action of the run satisfies `ok` in the state it is applied to. */
  ghost predicate Each(s: Store, acts: seq<Action>, ok: (Store, Action) -> bool) {
    acts == [] ||
    (Each(s, acts[..|acts| - 1], ok) && ok(Replay(s, acts[..|acts| - 1]), acts[|acts| - 1]))
  }

  lemma ReplaySnoc(s: Store, acts: seq<Action>, a: Action, ok: (Store, Action) -> bool)
    ensures Replay(s, acts + [a]) == Apply(Replay(s, acts), a)
    ensures Each(s, acts + [a], ok) <==> Each(s, acts, ok) && ok(Replay(s, acts), a)
  {
    assert (acts + [a])[..|acts + [a]| - 1] == acts;
  }

  lemma {:induction false} ReplayAppend(s: Store, a: seq<Action>, b: seq<Action>, ok: (Store, Action) -> bool)
    ensures Replay(s, a + b) == Replay(Replay(s, a), b)
    ensures Each(s, a + b, ok) <==> Each(s, a, ok) && Each(Replay(s, a), b, ok)
  {
    if b == [] {
      assert a + b == a;
    } else {
      var b', x := b[..|b| - 1], b[|b| - 1];
      ReplayAppend(s, a, b', ok);
      assert a + b == a + b' + [x] && b == b' + [x];
      ReplaySnoc(s, a + b', x, ok);
      ReplaySnoc(Replay(s, a), b', x, ok);
    }
  }

  /** A run cut short is a run. */
  lemma EachPrefix(s: Store, acts: seq<Action>, k: nat, ok: (Store, Action) -> bool)
    requires k <= |acts| && Each(s, acts, ok)
    ensures Each(s, acts[..k], ok)
  {
    assert acts == acts[..k] + acts[k..];
    ReplayAppend(s, acts[..k], acts[k..], ok);
  }

  /** What holds of every action that may be made holds of those that were. */
  lemma {:induction false} EachAction(s: Store, acts: seq<Action>, ok: (Store, Action) -> bool, p: Action -> bool)
    requires Each(s, acts, ok) && forall t, a :: ok(t, a) ==> p(a)
    ensures forall a :: a in acts ==> p(a)
  {
    if acts != [] {
      EachAction(s, acts[..|acts| - 1], ok, p);
      assert acts == acts[..|acts| - 1] + [acts[|acts| - 1]];
    }
  }

  lemma {:induction false} EachImplies(s: Store, acts: seq<Action>, p: (Store, Action) -> bool, q: (Store, Action) -> bool)
    requires Each(s, acts, p) && forall t, a :: p(t, a) ==> q(t, a)
    ensures Each(s, acts, q)
  {
    if acts != [] {
      EachImplies(s, acts[..|acts| - 1], p, q);
    }
  }

  // ----- Row predicates -----

  function Below(h: Height): Row -> bool { (r: Row) => r.height < h }

  function AtLeast(h: Height): Row -> bool { (r: Row) => r.height >= h }

  function Not(p: Row -> bool): Row -> bool { (r: Row) => !p(r) }

  function DocumentUpTo(id: string, h: Height): Row -> bool { (r: Row) => r.IsDocument(id) && r.height <= h }

  ghost function Inserts(c: Col): (Store, Action) -> bool { (s: Store, a: Action) => a.InsertRow? && a.col == c }

  function Removes(c: Col, p: Row -> bool): (Store, Action) -> bool {
    (s: Store, a: Action) => a.RemoveAt? && a.col == c && a.at < |s.Get(c)| && p(s.Get(c)[a.at])
  }

  // ----- The database server -----

  class Mongo {
    var data: Store
    ghost const initial: Store
    ghost var log: seq<Action>

    ghost predicate Valid()
      reads this
    {
      data == Replay(initial, log)
    }

    constructor (data: Store)
      ensures Valid() && this.data == data && log == [] && initial == data
    {
      this.data, initial, log := data, data, [];
    }

    method Do(a: Action)
      requires Valid()
      modifies this
      ensures Valid() && data == Apply(old(data), a) && log == old(log) + [a]
    {
      ReplaySnoc(initial, log, a, Inserts(ColAccount));
      match a {
        case InsertRow(c, row) => data := data.Set(c, data.Get(c) + [row]);
        case RemoveAt(c, i) => data := data.Set(c, Without(data.Get(c), i));
        case DropCol(c) => data := data.Set(c, []);
        case SetInfo(h) => data := data.(info := Some(h));
      }
      log := log + [a];
    }

    /** A bulk write of inserts, row by row. */
    method BulkInsert(c: Col, rows: seq<Row>) returns (ghost acts: seq<Action>)
      requires Valid()
      modifies this
      ensures Valid() && log == old(log) + acts && data == Replay(old(data), acts)
      ensures data == old(data).Set(c, old(data).Get(c) + rows)
      ensures acts == InsertActions(c, rows)
    {
      hide Store.Get, Store.Set, Replay, Each;
      acts := [];
      ghost var s0, was := data, data.Get(c);
      SetGet(s0, c, was, was);
      assert was + rows[..0] == was;
      ReplayNothing(s0, Inserts(c));
      for i := 0 to |rows|
        invariant Valid() && log == old(log) + acts && data == Replay(s0, acts)
        invariant data == s0.Set(c, was + rows[..i])
        invariant acts == InsertActions(c, rows[..i])
      {
        var a := InsertRow(c, rows[i]);
        assert rows[..i + 1] == rows[..i] + [rows[i]];
        assert was + rows[..i + 1] == was + rows[..i] + [rows[i]];
        assert InsertActions(c, rows[..i + 1]) == InsertActions(c, rows[..i]) + [a];
        ReplaySnoc(s0, acts, a, Inserts(c));
        SetGet(s0, c, was + rows[..i], was + rows[..i + 1]);
        Do(a);
        acts := acts + [a];
      }
      assert rows[..|rows|] == rows;
    }

    /** Deletes the rows that match, one by one. */
    method DeleteMany(c: Col, p: Row -> bool) returns (ghost acts: seq<Action>)
      requires Valid()
      modifies this
      ensures Valid() && log == old(log) + acts && data == Replay(old(data), acts)
      ensures data == old(data).Set(c, Filter(old(data).Get(c), Not(p)))
      ensures Each(old(data), acts, Removes(c, p))
    {
      hide Store.Get, Store.Set, Replay, Each;
      acts := [];
      ghost var s0, rows := data, data.Get(c);
      ghost var kept, rest := [], rows;
      SetGet(s0, c, rows, rows);
      assert kept + rest == rows;
      ReplayNothing(s0, Removes(c, p));
      var i := 0;
      while i < |data.Get(c)|
        invariant Valid() && log == old(log) + acts && data == Replay(s0, acts)
        invariant data == s0.Set(c, kept + rest) && data.Get(c) == kept + rest && i == |kept|
        invariant Filter(rows, Not(p)) == kept + Filter(rest, Not(p))
        invariant Each(s0, acts, Removes(c, p))
        decreases |rest|
      {
        var x := data.Get(c)[i];
        assert x == rest[0];
        if p(x) {
          var a := RemoveAt(c, i);
          ReplaySnoc(s0, acts, a, Removes(c, p));
          assert Without(kept + rest, i) == kept + rest[1..];
          SetGet(s0, c, kept + rest, kept + rest[1..]);
          SetGet(s0, c, kept + rest[1..], kept + rest[1..]);
          Do(a);
          acts := acts + [a];
        } else {
          assert kept + rest == kept + [x] + rest[1..];
          assert kept + ([x] + Filter(rest[1..], Not(p))) == kept + [x] + Filter(rest[1..], Not(p));
          kept := kept + [x];
          i := i + 1;
        }
        rest := rest[1..];
      }
    }
  }

  function InsertActions(c: Col, rows: seq<Row>): (acts: seq<Action>)
    ensures |acts| == |rows|
  {
    seq(|rows|, i requires 0 <= i < |rows| => InsertRow(c, rows[i]))
  }

  lemma ReplayNothing(s: Store, ok: (Store, Action) -> bool)
    ensures Replay(s, []) == s && Each(s, [], ok)
  {
  }
}
