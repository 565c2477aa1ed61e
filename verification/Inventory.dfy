/** An account's document inventory (document_inventory.go): a list of document infos that is
    kept sorted by id and stands for a finite map from document id to document type. */
module Inventory {
  import opened Basics
  import opened Sequences
  import opened Documents

  function InfoId(): DocInfo -> string { (d: DocInfo) => d.id }

  function InfoBytes(): DocInfo -> string { (d: DocInfo) => d.Bytes() }

  /** The order `Sort` asks for: by id bytes, ascending or descending. */
  function InfoOrder(ascending: bool): (DocInfo, DocInfo) -> bool {
    if ascending then (a: DocInfo, b: DocInfo) => LexLe(a.id, b.id)
    else (a: DocInfo, b: DocInfo) => LexLe(b.id, a.id)
  }

  lemma InfoOrderTotal(ascending: bool)
    ensures TotalPreorder(InfoOrder(ascending))
  {
    KeyOrder(InfoId(), InfoOrder(true));
    var up, down := InfoOrder(true), InfoOrder(false);
    assert forall x, y :: down(x, y) == up(y, x);
  }

  lemma InfosOrdered(infos: seq<DocInfo>, ascending: bool)
    requires SortedBy(infos, InfoOrder(ascending))
    ensures forall i, j :: 0 <= i < j < |infos| ==>
              if ascending then BytesOrdered(infos[i].id, infos[j].id) else BytesOrdered(infos[j].id, infos[i].id)
  {
    hide LexLe, BytesOrdered;
    forall i, j | 0 <= i < j < |infos|
      ensures if ascending then BytesOrdered(infos[i].id, infos[j].id) else BytesOrdered(infos[j].id, infos[i].id)
    {
      assert InfoOrder(ascending)(infos[i], infos[j]);
      LexLeMeaning(infos[i].id, infos[j].id);
      LexLeMeaning(infos[j].id, infos[i].id);
    }
  }

  /** Strictly ascending by id bytes, spelled out. */
  lemma AscendingOrdered(infos: seq<DocInfo>)
    requires StrictlyAscending(infos)
    ensures forall i, j :: 0 <= i < j < |infos| ==> BytesOrdered(infos[i].id, infos[j].id) && infos[i].id != infos[j].id
  {
    hide LexLe, BytesOrdered;
    forall i, j | 0 <= i < j < |infos| ensures BytesOrdered(infos[i].id, infos[j].id) {
      LexLeMeaning(infos[i].id, infos[j].id);
    }
  }

  function Sorted(infos: seq<DocInfo>): seq<DocInfo> { Sort(infos, InfoOrder(true)) }

  predicate Lists(infos: seq<DocInfo>, id: string) {
    exists i :: 0 <= i < |infos| && infos[i].id == id
  }

  ghost predicate DistinctIds(infos: seq<DocInfo>) {
    forall i, j :: 0 <= i < j < |infos| ==> infos[i].id != infos[j].id
  }

  ghost predicate StrictlyAscending(infos: seq<DocInfo>) {
    forall i, j :: 0 <= i < j < |infos| ==> LexLe(infos[i].id, infos[j].id) && infos[i].id != infos[j].id
  }

  /** The finite map an inventory stands for. */
  function AsMap(infos: seq<DocInfo>): map<string, string> {
    if infos == [] then map[] else AsMap(infos[1..])[infos[0].id := infos[0].docType]
  }

  lemma {:induction false} AsMapKeys(infos: seq<DocInfo>)
    ensures forall id :: id in AsMap(infos) <==> Lists(infos, id)
  {
    if infos != [] {
      AsMapKeys(infos[1..]);
      forall id ensures id in AsMap(infos) <==> Lists(infos, id) {
        if Lists(infos[1..], id) {
          var i :| 0 <= i < |infos[1..]| && infos[1..][i].id == id;
          assert infos[i + 1].id == id;
        }
        if Lists(infos, id) && infos[0].id != id {
          var i :| 0 <= i < |infos| && infos[i].id == id;
          assert infos[1..][i - 1].id == id;
        }
      }
    }
  }

  /** With distinct ids the map has exactly the listed pairs. */
  lemma {:induction false} AsMapEntries(infos: seq<DocInfo>)
    requires DistinctIds(infos)
    ensures forall d :: d in infos <==> d.id in AsMap(infos) && AsMap(infos)[d.id] == d.docType
  {
    if infos != [] {
      AsMapEntries(infos[1..]);
      AsMapKeys(infos[1..]);
      assert infos == [infos[0]] + infos[1..];
      assert forall i :: 1 <= i < |infos| ==> infos[i].id != infos[0].id;
      assert infos[0].id !in AsMap(infos[1..]);
    }
  }

  /** Maps of inventories with the same entries agree, whatever the order. */
  lemma AsMapOfSameEntries(s: seq<DocInfo>, t: seq<DocInfo>)
    requires DistinctIds(s) && DistinctIds(t)
    requires forall d :: d in s <==> d in t
    ensures AsMap(s) == AsMap(t)
  {
    AsMapEntries(s);
    AsMapEntries(t);
    hide AsMap, DistinctIds;
    forall id | id in AsMap(s) ensures id in AsMap(t) && AsMap(t)[id] == AsMap(s)[id] {
      assert DocInfo(id, AsMap(s)[id]) in s;
    }
    forall id | id in AsMap(t) ensures id in AsMap(s) {
      assert DocInfo(id, AsMap(t)[id]) in t;
    }
  }

  // ----- Sorted inventories are canonical -----

  /** Sorting keeps the entries and makes them strictly ascending by id. */
  lemma SortedAscends(infos: seq<DocInfo>)
    requires DistinctIds(infos)
    ensures StrictlyAscending(Sorted(infos)) && DistinctIds(Sorted(infos))
    ensures forall d :: d in Sorted(infos) <==> d in infos
    ensures forall id :: Lists(Sorted(infos), id) <==> Lists(infos, id)
    ensures AsMap(Sorted(infos)) == AsMap(infos)
  {
    var order := InfoOrder(true);
    KeyOrder(InfoId(), order);
    SortSorted(infos, order);
    SortMultiset(infos, order);
    DistinctByPermutation(infos, Sorted(infos), InfoId());
    assert forall i :: 0 <= i < |Sorted(infos)| ==> InfoId()(Sorted(infos)[i]) == Sorted(infos)[i].id;
    SameElements(infos, Sorted(infos));
    AsMapOfSameEntries(infos, Sorted(infos));
    AsMapKeys(infos);
    AsMapKeys(Sorted(infos));
    forall i, j | 0 <= i < j < |Sorted(infos)|
      ensures LexLe(Sorted(infos)[i].id, Sorted(infos)[j].id)
    {
      assert order(Sorted(infos)[i], Sorted(infos)[j]);
    }
  }

  /** A strictly ascending inventory is determined by its map. */
  lemma AscendingUnique(s: seq<DocInfo>, t: seq<DocInfo>)
    requires StrictlyAscending(s) && StrictlyAscending(t)
    requires AsMap(s) == AsMap(t)
    ensures s == t
  {
    AsMapEntries(s);
    AsMapEntries(t);
    assert forall d :: d in s <==> d in t;
    AscendingSameEntries(s, t);
  }

  lemma {:induction false} AscendingSameEntries(s: seq<DocInfo>, t: seq<DocInfo>)
    requires StrictlyAscending(s) && StrictlyAscending(t)
    requires forall d :: d in s <==> d in t
    ensures s == t
  {
    assert s != [] ==> s[0] in t;
    assert t != [] ==> t[0] in s;
    if s != [] && t != [] {
      var i :| 0 <= i < |s| && s[i] == t[0];
      var j :| 0 <= j < |t| && t[j] == s[0];
      if i > 0 && j > 0 {
        LexAntisymmetric(s[0].id, t[0].id);
      }
      assert s[0] == t[0];
      assert s == [s[0]] + s[1..] && t == [t[0]] + t[1..];
      assert s[0] !in s[1..] && t[0] !in t[1..];
      forall d ensures d in s[1..] <==> d in t[1..] {
        assert d in s <==> d in t;
      }
      AscendingSameEntries(s[1..], t[1..]);
    }
  }

  // ----- Appending several infos, as a create does -----

  function AppendOne(infos: seq<DocInfo>, d: DocInfo): Result<seq<DocInfo>> {
    if !d.Valid() then Err(InvalidItem)
    else if Lists(infos, d.id) then Err(AlreadyListed)
    else Ok(infos + [d])
  }

  function AppendAll(infos: seq<DocInfo>, ds: seq<DocInfo>): Result<seq<DocInfo>>
    decreases |ds|
  {
    if ds == [] then Ok(infos)
    else
      var more :- AppendOne(infos, ds[0]);
      AppendAll(more, ds[1..])
  }

  /** Every append succeeds exactly when the new infos are valid and no id is listed twice. */
  lemma {:induction false} AppendAllSucceeds(infos: seq<DocInfo>, ds: seq<DocInfo>)
    requires DistinctIds(infos)
    ensures AppendAll(infos, ds).Ok? <==> (DistinctIds(infos + ds) && forall d :: d in ds ==> d.Valid())
    ensures AppendAll(infos, ds).Ok? ==> AppendAll(infos, ds).value == infos + ds
    decreases |ds|
  {
    if ds == [] {
      assert infos + ds == infos;
    } else {
      var more := infos + [ds[0]];
      assert more + ds[1..] == infos + ds;
      assert ds == [ds[0]] + ds[1..];
      assert (infos + ds)[|infos|] == ds[0];
      if Lists(infos, ds[0].id) {
        var i :| 0 <= i < |infos| && infos[i].id == ds[0].id;
        assert (infos + ds)[i].id == (infos + ds)[|infos|].id;
      } else if ds[0].Valid() {
        assert DistinctIds(more);
        AppendAllSucceeds(more, ds[1..]);
      }
    }
  }

  /** The inventory a create writes: its content and its bytes depend on the old entries and
      the new items only, not on the order of the items. */
  lemma CreateOrderIrrelevant(old1: seq<DocInfo>, ds1: seq<DocInfo>, old2: seq<DocInfo>, ds2: seq<DocInfo>)
    requires DistinctIds(old1) && DistinctIds(old2)
    requires AppendAll(old1, ds1).Ok? && AppendAll(old2, ds2).Ok?
    requires forall d :: d in old1 + ds1 <==> d in old2 + ds2
    ensures Sorted(AppendAll(old1, ds1).value) == Sorted(AppendAll(old2, ds2).value)
    ensures InventoryBytes(Sorted(AppendAll(old1, ds1).value)) == InventoryBytes(Sorted(AppendAll(old2, ds2).value))
  {
    AppendAllSucceeds(old1, ds1);
    AppendAllSucceeds(old2, ds2);
    SortedAscends(old1 + ds1);
    SortedAscends(old2 + ds2);
    AscendingSameEntries(Sorted(old1 + ds1), Sorted(old2 + ds2));
  }

  function InventoryBytes(infos: seq<DocInfo>): string { Flatten(Map(infos, InfoBytes())) }

  // ----- The inventory object -----

  class DocumentInventory {
    var docInfos: seq<DocInfo>

    constructor (infos: seq<DocInfo>)
      ensures docInfos == infos
    {
      docInfos := infos;
    }

    method Bytes() returns (bs: string)
      ensures bs == InventoryBytes(docInfos) == Flatten(Map(docInfos, (d: DocInfo) => d.id + d.docType))
    {
      bs := "";
      for i := 0 to |docInfos|
        invariant bs == InventoryBytes(docInfos[..i])
      {
        FlattenSnoc(Map(docInfos[..i], InfoBytes()), docInfos[i].Bytes());
        assert Map(docInfos[..i + 1], InfoBytes()) == Map(docInfos[..i], InfoBytes()) + [docInfos[i].Bytes()];
        bs := bs + docInfos[i].Bytes();
      }
      assert docInfos[..|docInfos|] == docInfos;
      assert Map(docInfos, InfoBytes()) == Map(docInfos, (d: DocInfo) => d.id + d.docType);
    }

    /** The same entries, in the order asked for. */
    method Sort(ascending: bool)
      modifies this
      ensures multiset(docInfos) == multiset(old(docInfos))
      ensures forall i, j :: 0 <= i < j < |docInfos| ==>
                if ascending then BytesOrdered(docInfos[i].id, docInfos[j].id) else BytesOrdered(docInfos[j].id, docInfos[i].id)
      ensures docInfos == Sequences.Sort(old(docInfos), InfoOrder(ascending))
    {
      InfoOrderTotal(ascending);
      SortSorted(docInfos, InfoOrder(ascending));
      SortMultiset(docInfos, InfoOrder(ascending));
      InfosOrdered(Sequences.Sort(docInfos, InfoOrder(ascending)), ascending);
      docInfos := Sequences.Sort(docInfos, InfoOrder(ascending));
    }

    method Exists(id: string) returns (found: bool)
      ensures found <==> id in AsMap(docInfos)
      ensures found <==> exists i :: 0 <= i < |docInfos| && docInfos[i].id == id
    {
      AsMapKeys(docInfos);
      if |docInfos| < 1 {
        return false;
      }
      for i := 0 to |docInfos|
        invariant forall j :: 0 <= j < i ==> docInfos[j].id != id
      {
        if id == docInfos[i].id {
          return true;
        }
      }
      return false;
    }

    /** The first entry with the id. */
    method Get(id: string) returns (r: Result<DocInfo>)
      ensures r.Ok? <==> id in AsMap(docInfos)
      ensures r.Ok? ==> r.value == DocInfo(id, AsMap(docInfos)[id])
      ensures r.Ok? ==> exists k :: 0 <= k < |docInfos| && docInfos[k] == r.value && forall j :: 0 <= j < k ==> docInfos[j].id != id
      ensures r.Err? ==> r.error == NotListed
    {
      AsMapKeys(docInfos);
      for i := 0 to |docInfos|
        invariant forall j :: 0 <= j < i ==> docInfos[j].id != id
      {
        if docInfos[i].id == id {
          AsMapFirst(docInfos, i);
          return Ok(docInfos[i]);
        }
      }
      return Err(NotListed);
    }

    /** Insertion into the map; refused for an id that is there already. */
    method Append(d: DocInfo) returns (r: Result<()>)
      modifies this
      ensures r.Ok? <==> d.Valid() && d.id !in AsMap(old(docInfos))
      ensures r.Ok? ==> docInfos == old(docInfos) + [d] && AsMap(docInfos) == AsMap(old(docInfos))[d.id := d.docType]
      ensures r.Err? ==> docInfos == old(docInfos)
      ensures r.Err? ==> r.error == if d.Valid() then AlreadyListed else InvalidItem
      ensures old(DistinctIds(docInfos)) ==> DistinctIds(docInfos)
    {
      if !d.Valid() {
        return Err(InvalidItem);
      }
      var found := Exists(d.id);
      if found {
        return Err(AlreadyListed);
      }
      AsMapKeys(docInfos);
      AsMapSnoc(docInfos, d);
      docInfos := docInfos + [d];
      return Ok(());
    }

    /** Deletion from the map: the last entry takes the removed one's place. */
    method Romove(d: DocInfo) returns (r: Result<()>)
      modifies this
      ensures r.Ok? <==> d.id in AsMap(old(docInfos))
      ensures r.Err? ==> r.error == NotListed && docInfos == old(docInfos)
      ensures old(DistinctIds(docInfos)) && r.Ok? ==>
                DistinctIds(docInfos) && AsMap(docInfos) == AsMap(old(docInfos)) - {d.id}
    {
      var found := Exists(d.id);
      if !found {
        return Err(NotListed);
      }
      AsMapKeys(docInfos);
      var n := |docInfos|;
      for i := 0 to n
        invariant docInfos == old(docInfos)
        invariant forall j :: 0 <= j < i ==> docInfos[j].id != d.id
      {
        if d.id == docInfos[i].id {
          docInfos := docInfos[i := docInfos[n - 1]];
          docInfos := docInfos[..n - 1];
          if old(DistinctIds(docInfos)) {
            SwapRemoved(old(docInfos), i);
          }
          return Ok(());
        }
      }
      return Ok(());
    }
  }

  lemma {:induction false} AsMapFirst(infos: seq<DocInfo>, k: nat)
    requires k < |infos| && forall j :: 0 <= j < k ==> infos[j].id != infos[k].id
    ensures infos[k].id in AsMap(infos) && AsMap(infos)[infos[k].id] == infos[k].docType
  {
    if k > 0 {
      AsMapFirst(infos[1..], k - 1);
    }
  }

  lemma {:induction false} AsMapSnoc(infos: seq<DocInfo>, d: DocInfo)
    requires d.id !in AsMap(infos)
    ensures AsMap(infos + [d]) == AsMap(infos)[d.id := d.docType]
  {
    if infos == [] {
      assert infos + [d] == [d];
      assert [d][1..] == [];
    } else {
      assert (infos + [d])[1..] == infos[1..] + [d];
      AsMapSnoc(infos[1..], d);
    }
  }

  lemma SwapRemoved(infos: seq<DocInfo>, i: nat)
    requires i < |infos| && DistinctIds(infos)
    ensures
      var after := infos[i := infos[|infos| - 1]][..|infos| - 1];
      DistinctIds(after) && AsMap(after) == AsMap(infos) - {infos[i].id}
  {
    var n := |infos|;
    var after := infos[i := infos[n - 1]][..n - 1];
    SwapRemovedEntries(infos, i, after);
    AsMapWithout(infos, after, infos[i].id);
  }

  lemma SwapRemovedEntries(infos: seq<DocInfo>, i: nat, after: seq<DocInfo>)
    requires i < |infos| && DistinctIds(infos)
    requires after == infos[i := infos[|infos| - 1]][..|infos| - 1]
    ensures DistinctIds(after)
    ensures forall d :: d in after <==> d in infos && d.id != infos[i].id
  {
    var n := |infos|;
    forall d: DocInfo ensures d in after <==> d in infos && d.id != infos[i].id {
      if d in infos && d.id != infos[i].id {
        var k :| 0 <= k < n && infos[k] == d;
        assert after[if k == n - 1 then i else k] == d;
      }
      if d in after {
        var k :| 0 <= k < n - 1 && after[k] == d;
        assert d == infos[if k == i then n - 1 else k];
      }
    }
  }

  lemma AsMapWithout(infos: seq<DocInfo>, after: seq<DocInfo>, id: string)
    requires DistinctIds(infos) && DistinctIds(after)
    requires forall d :: d in after <==> d in infos && d.id != id
    ensures AsMap(after) == AsMap(infos) - {id}
  {
    AsMapEntries(infos);
    AsMapEntries(after);
    var m := AsMap(infos) - {id};
    forall k | k in AsMap(after) ensures k in m && m[k] == AsMap(after)[k] {
      assert DocInfo(k, AsMap(after)[k]) in after;
    }
    forall k | k in m ensures k in AsMap(after) {
      assert DocInfo(k, m[k]) in infos;
    }
  }
}
