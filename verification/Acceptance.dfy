/** When PreProcess accepts an operation, and what it will write, stated without its steps. */
module Acceptance {
  import opened Basics
  import opened Sequences
  import opened Documents
  import opened Inventory
  import opened Fees
  import opened Signatures
  import opened Ledger

  /** A create needs a valid document with an unused id whose accounts all exist; an update the
      registered document's owner, with an account and an inventory; a signature a blocksign
      document that its creator's inventory lists and that names the sender as a signer. */
  ghost predicate ItemAcceptable(pool: Pool, op: Operation, i: nat)
    requires i < op.Size()
  {
    var id := op.IdAt(i);
    match op
    case CreateDocuments(_, items, _) =>
      && items[i].doc.Valid() && id !in pool.documents
      && forall a :: a in items[i].doc.Accounts() ==> a in pool.accounts
    case UpdateDocuments(_, items, _) =>
      && items[i].doc.Valid() && id in pool.documents
      && pool.documents[id].owner == items[i].doc.owner
      && items[i].doc.owner in pool.accounts && items[i].doc.owner in pool.inventories
    case SignDocuments(sender, items, _) =>
      && items[i].owner in pool.accounts && items[i].owner in pool.inventories
      && Lists(pool.inventories[items[i].owner], id)
      && id in pool.documents && pool.documents[id].BSDocData?
      && pool.documents[id].creator.address == items[i].owner
      && exists s :: s in pool.documents[id].signers && s.address == sender
  }

  /** A create's item, field by field: every signer of a blocksign document, the account and
      every candidate of a voting document, and the account of a history document must exist. */
  lemma CreateAccepted(pool: Pool, op: Operation, i: nat)
    requires op.CreateDocuments? && i < |op.docItems|
    ensures
      var doc := op.docItems[i].doc;
      PreItem(pool, op, i).Ok? <==>
        && doc.info.id !in pool.documents
        && match doc
           case BSDocData(info, _, _, _, _, _, signers) =>
             && info.docType == "mitum-blocksign-document-data"
             && forall j :: 0 <= j < |signers| ==> signers[j].address in pool.accounts
           case BCUserData(info, _, _) => info.docType == "mitum-blockcity-document-user-data"
           case BCLandData(info, _, _, _) => info.docType == "mitum-blockcity-document-land-data"
           case BCVotingData(info, _, _, _, candidates, _, account, _) =>
             && info.docType == "mitum-blockcity-document-voting-data"
             && account in pool.accounts
             && forall j :: 0 <= j < |candidates| ==> candidates[j].address in pool.accounts && |candidates[j].manifest| <= 100
           case BCHistoryData(info, _, account, _) =>
             info.docType == "mitum-blockcity-document-history-data" && account in pool.accounts
  {
    var doc := op.docItems[i].doc;
    ValidDocument(doc);
    ItemAccepted(pool, op, i);
    forall a ensures a in doc.Accounts() <==> Names(doc, a) {
      AccountsNamed(doc, a);
    }
    hide DocumentData.Accounts, DocumentData.Valid, PreItem;
    if doc.BSDocData? {
      assert forall j :: 0 <= j < |doc.signers| ==> Names(doc, doc.signers[j].address);
    }
    if doc.BCVotingData? {
      assert Names(doc, doc.account);
      assert forall j :: 0 <= j < |doc.candidates| ==> Names(doc, doc.candidates[j].address);
    }
    if doc.BCHistoryData? {
      assert Names(doc, doc.account);
    }
  }

  lemma ItemAccepted(pool: Pool, op: Operation, i: nat)
    requires i < op.Size()
    ensures PreItem(pool, op, i).Ok? <==> ItemAcceptable(pool, op, i)
  {
    if op.SignDocuments? && op.IdAt(i) in pool.documents && pool.documents[op.IdAt(i)].BSDocData? {
      MarkFailsWithoutEntry(pool.documents[op.IdAt(i)].signers, op.sender);
    }
  }

  lemma {:induction false} ItemsAccepted(pool: Pool, op: Operation, n: nat)
    requires n <= op.Size()
    ensures PreItems(pool, op, n).Ok? <==> forall i :: 0 <= i < n ==> ItemAcceptable(pool, op, i)
  {
    hide ItemAcceptable, PreItem;
    if n > 0 {
      ItemsAccepted(pool, op, n - 1);
      ItemAccepted(pool, op, n - 1);
    }
  }

  /** What a valid fact is, field by field. */
  lemma FactFields(op: Operation)
    ensures op.ValidFact() <==>
              && op.sender != ""
              && 1 <= op.Size() <= 10
              && (!op.SignDocuments? ==> forall i :: 0 <= i < |op.docItems| ==> op.docItems[i].doc.Valid())
              && (forall i, j :: 0 <= i < j < op.Size() ==> op.Ids()[i] != op.Ids()[j])
              && (op.CreateDocuments? ==> forall i :: 0 <= i < |op.docItems| ==> ParseDocId(op.docItems[i].doc.info.id).Some?)
  {
    hide DocumentData.Valid, ParseDocId;
    forall i | 0 <= i < op.Size() ensures op.Ids()[i] == op.IdAt(i) {
      OperationFields(op, i);
    }
    if op.ValidFact() {
      forall i | !op.SignDocuments? && 0 <= i < |op.docItems| ensures op.docItems[i].doc.Valid() {
        assert op.ValidItem(i);
      }
      forall i | op.CreateDocuments? && 0 <= i < |op.docItems| ensures ParseDocId(op.docItems[i].doc.info.id).Some? {
        assert op.IdAt(i) == op.docItems[i].doc.info.id;
      }
    }
  }

  /** The ids and currencies of an operation, item by item. */
  lemma OperationFields(op: Operation, i: nat)
    requires i < op.Size()
    ensures op.SignDocuments? ==> |op.signItems| == op.Size() && op.Ids()[i] == op.IdAt(i) == op.signItems[i].id
    ensures !op.SignDocuments? ==> |op.docItems| == op.Size() && op.Ids()[i] == op.IdAt(i) == op.docItems[i].doc.info.id
    ensures op.Currencies()[i] == if op.SignDocuments? then op.signItems[i].cid else op.docItems[i].cid
  {
  }

  /** How many of its items an operation pays for in a currency. */
  function ItemsIn(op: Operation, cid: CurrencyId): nat { |PlacesIn(op, cid)| }

  function PlacesIn(op: Operation, cid: CurrencyId): set<int> {
    if op.SignDocuments? then set i | 0 <= i < |op.signItems| && op.signItems[i].cid == cid
    else set i | 0 <= i < |op.docItems| && op.docItems[i].cid == cid
  }

  lemma ItemsCounted(op: Operation, cid: CurrencyId)
    ensures multiset(op.Currencies())[cid] == ItemsIn(op, cid)
    ensures cid in op.Currencies() <==> ItemsIn(op, cid) > 0
  {
    forall i ensures 0 <= i < |op.Currencies()| && op.Currencies()[i] == cid <==> i in PlacesIn(op, cid) {
      if 0 <= i < op.Size() {
        OperationFields(op, i);
      }
    }
    CountPlaces(op.Currencies(), cid, PlacesIn(op, cid));
    assert cid in op.Currencies() <==> cid in multiset(op.Currencies());
  }

  /** The fee of one item, spelled out. */
  function ItemFee(cp: CurrencyPool, cid: CurrencyId): nat {
    if cp.Some? && cid in cp.value && cp.value[cid].Fixed? && cp.value[cid].fee > 0 then cp.value[cid].fee else 0
  }

  /** What an accepted operation pays, item by item: for each item its currency's fee, if that is
      positive and there is a currency pool. */
  lemma PaidPerItem(pool: Pool, cp: CurrencyPool, op: Operation, plan: Plan, k: (Address, CurrencyId))
    requires PreProcess(pool, cp, op) == Ok(plan) && Processable(plan)
    ensures
      var after := PoolAfter(pool, plan).balances;
      && (k in after <==> k in pool.balances)
      && (k in pool.balances ==>
            pool.balances[k] - after[k] == if k.0 == op.sender then ItemsIn(op, k.1) * ItemFee(cp, k.1) else 0)
  {
    hide PreProcess, Processable, PoolAfter;
    BalancesWritten(pool, cp, op, plan, k);
    ItemsCounted(op, k.1);
  }

  /** PreProcess accepts an operation exactly when its sender has an account, its items' currencies
      are known with a fee that can be told, the sender owns at least the sum of the items' fees in
      each of them, every item passes, and the signatures are by known keys and weigh enough. */
  lemma AcceptedFieldByField(pool: Pool, cp: CurrencyPool, op: Operation)
    ensures PreProcess(pool, cp, op).Ok? <==>
              && op.sender in pool.accounts
              && (forall cid :: ItemsIn(op, cid) > 0 ==>
                    && (cp.Some? ==> cid in cp.value && cp.value[cid].Fixed?)
                    && (op.sender, cid) in pool.balances
                    && pool.balances[(op.sender, cid)] >= ItemsIn(op, cid) * ItemFee(cp, cid))
              && (forall i :: 0 <= i < op.Size() ==> ItemAcceptable(pool, op, i))
              && (forall j :: 0 <= j < |op.signs| ==> op.signs[j] in pool.accounts[op.sender].weights)
              && Weight(op.signs, pool.accounts[op.sender]) % 0x1_0000_0000_0000_0000 >= pool.accounts[op.sender].threshold
  {
    AcceptedExactly(pool, cp, op);
    hide PreProcess, ItemAcceptable, ItemsIn, Operation.Currencies, Weight;
    forall cid ensures multiset(op.Currencies())[cid] == ItemsIn(op, cid) && (cid in op.Currencies() <==> ItemsIn(op, cid) > 0) {
      ItemsCounted(op, cid);
    }
  }

  /** PreProcess succeeds exactly when the sender has an account, every item's currency has a
      usable fee, the sender can pay the sum of its items' fees in each currency, every item is
      acceptable, and the signatures are by known keys and weigh enough. */
  lemma AcceptedExactly(pool: Pool, cp: CurrencyPool, op: Operation)
    ensures PreProcess(pool, cp, op).Ok? <==>
              && op.sender in pool.accounts
              && (forall cid :: cid in op.Currencies() ==> Usable(cp, cid))
              && (forall cid :: cid in op.Currencies() ==>
                    EnoughFor(pool.balances, op.sender, cid, multiset(op.Currencies())[cid] * UnitFee(cp, cid)))
              && (forall i :: 0 <= i < op.Size() ==> ItemAcceptable(pool, op, i))
              && AllKnown(op.signs, pool.accounts[op.sender])
              && Weight(op.signs, pool.accounts[op.sender]) % WORD >= pool.accounts[op.sender].threshold
  {
    ItemsAccepted(pool, op, op.Size());
    FeesAffordable(pool, cp, op);
    hide PreItems, ItemAcceptable, Weight, RequiredFee, Enough, EnoughFor, Usable, UnitFee, Operation.Currencies;
  }

  lemma FeesAffordable(pool: Pool, cp: CurrencyPool, op: Operation)
    ensures RequiredFee(cp, op.Currencies()).Ok? <==> forall cid :: cid in op.Currencies() ==> Usable(cp, cid)
    ensures RequiredFee(cp, op.Currencies()).Ok? ==>
              (Enough(pool.balances, op.sender, RequiredFee(cp, op.Currencies()).value) <==>
               forall cid :: cid in op.Currencies() ==>
                 EnoughFor(pool.balances, op.sender, cid, multiset(op.Currencies())[cid] * UnitFee(cp, cid)))
  {
    RequiredFeeMeaning(cp, op.Currencies());
    hide RequiredFee, EnoughFor, Usable, UnitFee, Operation.Currencies;
  }

  /** What an accepted item writes: a create or update its own document, a signature the stored
      document with the flag of the sender's first signer entry set and nothing else changed. */
  lemma ItemWrites(pool: Pool, op: Operation, i: nat)
    requires i < op.Size() && PreItem(pool, op, i).Ok?
    ensures !op.SignDocuments? ==> PreItem(pool, op, i) == Ok(op.docItems[i].doc)
    ensures op.SignDocuments? ==>
              var dd := pool.documents[op.IdAt(i)];
              exists k: nat :: IsFirstOf(dd.signers, op.sender, k)
                && PreItem(pool, op, i) == Ok(dd.(signers := dd.signers[k := DocSign(op.sender, dd.signers[k].signcode, true)]))
  {
    if op.SignDocuments? {
      var dd := pool.documents[op.IdAt(i)];
      MarkFailsWithoutEntry(dd.signers, op.sender);
      var k: nat :| IsFirstOf(dd.signers, op.sender, k);
      MarksExactlyFirst(dd.signers, op.sender, k);
    }
  }

  /** A signature changes the bytes that are hashed exactly when the sender's first entry was not
      signed before. */
  lemma SignatureShows(dd: DocumentData, after: DocumentData, sender: Address, owner: Address, k: nat, enc: Encoding)
    requires SignDocument(dd, sender, owner) == Ok(after) && IsFirstOf(dd.signers, sender, k)
    ensures BSDocBytes(after, enc) != BSDocBytes(dd, enc) <==> !dd.signers[k].signed
  {
    hide BSDocBytes;
    MarksExactlyFirst(dd.signers, sender, k);
    if dd.signers[k].signed {
      assert after.signers == dd.signers;
      assert after == dd;
    } else {
      SigningChangesBytes(dd, after.signers, sender, k, enc);
    }
  }

  /** The documents after an accepted operation: its own ids hold what its items write, every
      other document stays. */
  lemma DocumentsWritten(pool: Pool, op: Operation, docs: seq<DocumentData>)
    requires PreItems(pool, op, op.Size()) == Ok(docs) && op.ValidFact()
    ensures
      var after := DocumentsWith(pool.documents, op.Ids(), docs);
      && (forall i :: 0 <= i < op.Size() ==> op.IdAt(i) in after && Ok(after[op.IdAt(i)]) == PreItem(pool, op, i))
      && (forall id :: id !in op.Ids() ==> (id in after <==> id in pool.documents))
      && (forall id :: id !in op.Ids() && id in pool.documents ==> after[id] == pool.documents[id])
  {
    DocumentsWithMeaning(pool.documents, op.Ids(), docs);
    hide DocumentsWith, Operation.ValidFact, PreItem;
    forall i | 0 <= i < op.Size()
      ensures op.IdAt(i) in DocumentsWith(pool.documents, op.Ids(), docs)
      ensures Ok(DocumentsWith(pool.documents, op.Ids(), docs)[op.IdAt(i)]) == PreItem(pool, op, i)
    {
      assert op.Ids()[i] == op.IdAt(i);
      assert DocumentsWith(pool.documents, op.Ids(), docs)[op.Ids()[i]] == docs[i];
    }
  }

  /** The balances after an accepted operation: its sender pays its items' fees in their
      currencies, everybody else nothing. */
  lemma BalancesWritten(pool: Pool, cp: CurrencyPool, op: Operation, plan: Plan, k: (Address, CurrencyId))
    requires PreProcess(pool, cp, op) == Ok(plan) && Processable(plan)
    ensures
      var after := PoolAfter(pool, plan).balances;
      var paid := if k.0 == op.sender then multiset(op.Currencies())[k.1] * UnitFee(cp, k.1) else 0;
      && (k in after <==> k in pool.balances)
      && (k in pool.balances ==> pool.balances[k] - after[k] == paid)
  {
    PlanParts(pool, cp, op, plan);
    hide PreProcess, PreItems, NewInventory, DocumentsWith, Verdict;
    RequiredFeeMeaning(cp, op.Currencies());
    FeesTaken(pool.balances, op.sender, plan.required, k);
    ChargeNonNegative(cp, op.Currencies(), k.1);
  }

  lemma FeesTaken(balances: Balances, sender: Address, required: Required, k: (Address, CurrencyId))
    requires Enough(balances, sender, required)
    ensures
      var after := BalancesWith(balances, sender, required, Captured(balances, sender, required));
      var paid := if k.0 == sender && k.1 in required then required[k.1].0 else 0;
      && (k in after <==> k in balances)
      && (k in balances ==> balances[k] - after[k] == paid)
  {
    if k.1 in required {
      assert EnoughFor(balances, sender, k.1, required[k.1].0);
    }
  }

  /** The inventories after a processed operation: a create's sender gets a strictly ascending
      list of the old entries and the new documents' infos, and nobody else's changes. */
  lemma InventoriesWritten(pool: Pool, plan: Plan, a: Address)
    requires Processable(plan) && DistinctIds(plan.inventory)
    ensures
      var after, mine := PoolAfter(pool, plan), plan.op.CreateDocuments? && a == plan.op.sender;
      && after.accounts == pool.accounts
      && (a in after.inventories <==> a in pool.inventories || mine)
      && (mine ==>
            && StrictlyAscending(after.inventories[a])
            && (forall d :: d in after.inventories[a] <==> d in plan.inventory || exists doc :: doc in plan.docs && doc.info == d))
      && (!mine && a in pool.inventories ==> after.inventories[a] == pool.inventories[a])
  {
    if plan.op.CreateDocuments? {
      CreatedList(plan);
    }
    hide NewInventory, DocumentsWith;
  }

  lemma CreatedList(plan: Plan)
    requires plan.op.CreateDocuments? && NewInventory(plan).Ok? && DistinctIds(plan.inventory)
    ensures StrictlyAscending(NewInventory(plan).value)
    ensures forall d :: d in NewInventory(plan).value <==> d in plan.inventory || exists doc :: doc in plan.docs && doc.info == d
  {
    var infos := Infos(plan.docs);
    AppendAllSucceeds(plan.inventory, infos);
    SortedAscends(plan.inventory + infos);
    forall d | d in infos ensures exists doc :: doc in plan.docs && doc.info == d {
      var i :| 0 <= i < |infos| && infos[i] == d;
      assert plan.docs[i].info == d;
    }
    forall doc | doc in plan.docs ensures doc.info in infos {
      var i :| 0 <= i < |plan.docs| && plan.docs[i] == doc;
      assert infos[i] == doc.info;
    }
  }
}
