/** Digesting blocks in order of height (digest.go). */
module Digesters {
  import opened Basics
  import opened Sequences
  import opened Documents
  import opened DigestStore
  import opened Databases
  import opened BlockSessions

  function LastAfter(lastBlock: Height, h: Height): Height { if h <= lastBlock then lastBlock else h }

  /** The store and last block after digesting one block. */
  function DigestedBlock(lib: CurrencyKeys, s: Store, lastBlock: Height, b: Block): (Store, Height)
    requires ModelsOf(lib, b).Some?
  {
    (Digested(s, lastBlock, b.height, ModelsOf(lib, b).value), LastAfter(lastBlock, b.height))
  }

  ghost predicate Preparable(lib: CurrencyKeys, blocks: seq<Block>) {
    forall i :: 0 <= i < |blocks| ==> ModelsOf(lib, blocks[i]).Some?
  }

  function DigestedAll(lib: CurrencyKeys, s: Store, lastBlock: Height, blocks: seq<Block>): (Store, Height)
    requires Preparable(lib, blocks)
  {
    if blocks == [] then (s, lastBlock)
    else
      var before := DigestedAll(lib, s, lastBlock, blocks[..|blocks| - 1]);
      DigestedBlock(lib, before.0, before.1, blocks[|blocks| - 1])
  }

  /** The blocks the digester gets through: it does not get past one that cannot be prepared. */
  function Reached(lib: CurrencyKeys, blocks: seq<Block>): (r: seq<Block>)
    ensures |r| <= |blocks| && r == blocks[..|r|] && Preparable(lib, r)
    ensures |r| < |blocks| ==> ModelsOf(lib, blocks[|r|]).None?
  {
    if blocks == [] || ModelsOf(lib, blocks[0]).None? then [] else [blocks[0]] + Reached(lib, blocks[1..])
  }

  lemma {:induction false} ReachedUpTo(lib: CurrencyKeys, blocks: seq<Block>, i: nat)
    requires i <= |blocks| && Preparable(lib, blocks[..i])
    requires i < |blocks| ==> ModelsOf(lib, blocks[i]).None?
    ensures Reached(lib, blocks) == blocks[..i]
  {
    hide ModelsOf;
    if i > 0 {
      var rest := blocks[1..][..i - 1];
      assert blocks[..i] == [blocks[0]] + rest;
      assert blocks[..i][0] == blocks[0];
      assert forall j :: 0 <= j < |rest| ==> rest[j] == blocks[..i][j + 1];
      ReachedUpTo(lib, blocks[1..], i - 1);
    }
  }

  function HeightOrder(): (Block, Block) -> bool { (a: Block, b: Block) => a.height <= b.height }

  lemma HeightsSorted(blocks: seq<Block>)
    ensures
      var sorted := Sort(blocks, HeightOrder());
      multiset(sorted) == multiset(blocks) && forall i, j :: 0 <= i < j < |sorted| ==> sorted[i].height <= sorted[j].height
  {
    SortSorted(blocks, HeightOrder());
    SortMultiset(blocks, HeightOrder());
    assert forall a, b :: HeightOrder()(a, b) ==> a.height <= b.height;
  }

  class Digester {
    const database: Database
    const lib: CurrencyKeys

    constructor (database: Database, lib: CurrencyKeys)
      ensures this.database == database && this.lib == lib
    {
      this.database, this.lib := database, lib;
    }

    /** `digest`: commit the block, then advance the last block. */
    method DigestOne(b: Block) returns (r: Result<()>)
      requires database.mongo.Valid()
      modifies database, database.mongo
      ensures database.mongo.Valid()
      ensures r.Ok? <==> !database.readonly && ModelsOf(lib, b).Some?
      ensures r.Err? ==> database.mongo.data == old(database.mongo.data) && database.lastBlock == old(database.lastBlock)
      ensures r.Ok? ==> database.lastBlock == if b.height > old(database.lastBlock) then b.height else old(database.lastBlock)
      ensures r.Ok? ==>
                (database.mongo.data, database.lastBlock) == DigestedBlock(lib, old(database.mongo.data), old(database.lastBlock), b)
    {
      if database.readonly {
        return Err(Readonly);
      }
      var bs := new BlockSession(database.mongo, lib, b);
      var prepared := bs.Prepare();
      if prepared.Err? {
        return Err(prepared.error);
      }
      hide Committed, ModelsOf;
      ghost var _ := bs.Commit();
      var advanced, _ := database.SetLastBlock(b.height);
      return Ok(());
    }

    /** `Digest`: sorts the slice by height in place and digests block after block, as far as
        they can be prepared. */
    method Digest(blocks: array<Block>)
      requires database.mongo.Valid() && !database.readonly
      modifies blocks, database, database.mongo
      ensures database.mongo.Valid()
      ensures blocks[..] == Sort(old(blocks[..]), HeightOrder()) && multiset(blocks[..]) == multiset(old(blocks[..]))
      ensures forall i, j :: 0 <= i < j < blocks.Length ==> blocks[i].height <= blocks[j].height
      ensures (database.mongo.data, database.lastBlock)
              == DigestedAll(lib, old(database.mongo.data), old(database.lastBlock), Reached(lib, Sort(old(blocks[..]), HeightOrder())))
    {
      HeightsSorted(blocks[..]);
      SortSlice(blocks, HeightOrder());
      ghost var sorted := blocks[..];
      for i := 0 to blocks.Length
        invariant database.mongo.Valid() && blocks[..] == sorted
        invariant forall k, l :: 0 <= k < l < blocks.Length ==> blocks[k].height <= blocks[l].height
        invariant Preparable(lib, sorted[..i])
        invariant (database.mongo.data, database.lastBlock)
                  == DigestedAll(lib, old(database.mongo.data), old(database.lastBlock), sorted[..i])
      {
        hide DigestedBlock, ModelsOf, Reached;
        assert sorted[..i + 1][..i] == sorted[..i];
        var r := DigestOne(blocks[i]);
        if r.Err? {
          ReachedUpTo(lib, sorted, i);
          return;
        }
      }
      ReachedUpTo(lib, sorted, blocks.Length);
    }
  }
}
