/** The three operation processors (create_documents_process.go, update_documents_process.go,
    sign_documents_process.go).  PreProcess reads the pool and fills the processor's fields;
    Process turns the fields into the states of one write. */
module Processors {
  import opened Basics
  import opened Sequences
  import opened Documents
  import opened Inventory
  import opened Fees
  import opened Signatures
  import opened Ledger

  // ----- One item -----

  lemma AccountsKnown(pool: Pool, doc: DocumentData)
    ensures (forall a :: Names(doc, a) ==> a in pool.accounts)
            <==> forall i :: 0 <= i < |doc.Accounts()| ==> doc.Accounts()[i] in pool.accounts
  {
    hide DocumentData.Accounts, Names;
    forall a ensures Names(doc, a) <==> a in doc.Accounts() {
      AccountsNamed(doc, a);
    }
  }

  method PreProcessCreateItem(pool: Pool, it: DocItem) returns (r: Result<DocumentData>)
    ensures r.Ok? <==> it.doc.Valid() && it.doc.info.id !in pool.documents && forall a :: Names(it.doc, a) ==> a in pool.accounts
    ensures r.Ok? ==> r.value == it.doc
    ensures r == PreCreateItem(pool, it)
  {
    hide DocumentData.Accounts, DocumentData.Valid, Names;
    AccountsKnown(pool, it.doc);
    if !it.doc.Valid() {
      return Err(InvalidItem);
    }
    if it.doc.DocumentId() in pool.documents {
      return Err(AlreadyRegistered);
    }
    for i := 0 to |it.doc.Accounts()|
      invariant forall j :: 0 <= j < i ==> it.doc.Accounts()[j] in pool.accounts
    {
      if it.doc.Accounts()[i] !in pool.accounts {
        return Err(AccountNotFound);
      }
    }
    return Ok(it.doc);
  }

  method PreProcessUpdateItem(pool: Pool, it: DocItem) returns (r: Result<DocumentData>)
    ensures r.Ok? <==>
              && it.doc.Valid() && it.doc.DocumentId() in pool.documents
              && pool.documents[it.doc.DocumentId()].owner == it.doc.owner
              && it.doc.owner in pool.accounts && it.doc.owner in pool.inventories
    ensures r.Ok? ==> r.value == it.doc
    ensures r == PreUpdateItem(pool, it)
  {
    if !it.doc.Valid() {
      return Err(InvalidItem);
    }
    if it.doc.owner !in pool.accounts {
      return Err(AccountNotFound);
    }
    if it.doc.owner !in pool.inventories {
      return Err(InventoryNotFound);
    }
    if it.doc.DocumentId() !in pool.documents {
      return Err(NotRegistered);
    }
    var dd := pool.documents[it.doc.DocumentId()];
    if dd.owner != it.doc.owner {
      return Err(OwnerMismatch);
    }
    return Ok(it.doc);
  }

  method PreProcessSignItem(pool: Pool, sender: Address, it: SignItem) returns (r: Result<DocumentData>)
    ensures r == PreSignItem(pool, sender, it)
  {
    if it.owner !in pool.accounts {
      return Err(AccountNotFound);
    }
    if it.owner !in pool.inventories {
      return Err(InventoryNotFound);
    }
    var dinv := new DocumentInventory(pool.inventories[it.owner]);
    AsMapKeys(dinv.docInfos);
    var found := dinv.Get(it.id);
    if found.Err? {
      return Err(found.error);
    }
    if it.id !in pool.documents {
      return Err(NotRegistered);
    }
    var dd := pool.documents[it.id];
    if !dd.BSDocData? {
      return Err(NotBlocksign);
    }
    if dd.creator.address != it.owner {
      return Err(OwnerMismatch);
    }
    MarkFailsWithoutEntry(dd.signers, sender);
    if |dd.signers| < 1 {
      return Err(NotASigner);
    }
    var signers := dd.signers;
    for i := 0 to |signers|
      invariant i < |signers| && signers == dd.signers
      invariant forall j :: 0 <= j < i ==> signers[j].address != sender
    {
      if signers[i].address == sender {
        MarksExactlyFirst(dd.signers, sender, i);
        signers := signers[i := signers[i].SetSigned()];
        break;
      }
      if i == |signers| - 1 {
        return Err(NotASigner);
      }
    }
    return Ok(dd.(signers := signers));
  }

  /** The state of every item's document, in the items' order. */
  method ItemStates(op: Operation, docs: seq<DocumentData>) returns (sts: seq<State>)
    requires |docs| == op.Size()
    ensures |sts| == |docs| && forall i :: 0 <= i < |docs| ==> sts[i] == DocumentState(op.IdAt(i), docs[i])
    ensures sts == DocumentStates(op.Ids(), docs)
  {
    sts := [];
    for i := 0 to |docs|
      invariant |sts| == i && forall j :: 0 <= j < i ==> sts[j] == DocumentState(op.IdAt(j), docs[j])
    {
      sts := sts + [DocumentState(op.IdAt(i), docs[i])];
    }
  }

  /** The same for a create, which also appends each document's info to the sender's inventory. */
  method AppendInfos(dinv: DocumentInventory, op: Operation, docs: seq<DocumentData>)
    returns (sts: seq<State>, r: Result<()>)
    requires |docs| == op.Size()
    modifies dinv
    ensures r.Ok? <==> AppendAll(old(dinv.docInfos), Infos(docs)).Ok?
    ensures r.Ok? ==> dinv.docInfos == AppendAll(old(dinv.docInfos), Infos(docs)).value
    ensures r.Ok? ==> sts == DocumentStates(op.Ids(), docs)
    ensures r.Err? ==> AppendAll(old(dinv.docInfos), Infos(docs)) == Err(r.error)
  {
    ghost var start := dinv.docInfos;
    sts := [];
    for i := 0 to |docs|
      invariant AppendAll(start, Infos(docs)) == AppendAll(dinv.docInfos, Infos(docs)[i..])
      invariant |sts| == i && forall j :: 0 <= j < i ==> sts[j] == DocumentState(op.IdAt(j), docs[j])
    {
      sts := sts + [DocumentState(op.IdAt(i), docs[i])];
      AsMapKeys(dinv.docInfos);
      assert Infos(docs)[i..][0] == docs[i].info && Infos(docs)[i..][1..] == Infos(docs)[i + 1..];
      var appended := dinv.Append(docs[i].info);
      if appended.Err? {
        return sts, Err(appended.error);
      }
    }
    return sts, Ok(());
  }

  /** The sender's balance states after the fee, for the required currencies in any order. */
  method ChargedAmounts(ghost plan: Plan, sender: Address, required: Required, sb: map<CurrencyId, int>)
    returns (sts: seq<State>, ghost order: seq<CurrencyId>)
    requires plan.op.sender == sender && plan.required == required && plan.sb == sb
    requires sb.Keys == required.Keys
    ensures Enumerates(order, required.Keys)
    ensures sts == AmountStates(plan, order)
  {
    sts, order := [], [];
    var todo := required.Keys;
    while todo != {}
      invariant todo <= required.Keys
      invariant forall i, j :: 0 <= i < j < |order| ==> order[i] != order[j]
      invariant forall cid :: cid in order <==> cid in required && cid !in todo
      invariant sts == AmountStates(plan, order)
      decreases todo
    {
      var k :| k in todo;
      todo := todo - {k};
      var rq := required[k];
      sts := sts + [AmountState(sender, k, sb[k] - rq.0, rq.1)];
      order := order + [k];
    }
  }

  // ----- Creates -----

  class CreateDocumentsProcessor {
    const cp: CurrencyPool
    const op: Operation
    var dinv: DocumentInventory
    var sb: map<CurrencyId, int>
    var ns: seq<DocumentData>
    var required: Required

    constructor (cp: CurrencyPool, op: Operation)
      ensures this.cp == cp && this.op == op && fresh(dinv)
    {
      this.cp, this.op := cp, op;
      dinv := new DocumentInventory([]);
      sb, ns, required := map[], [], map[];
    }

    /** The fields hold the plan. */
    ghost predicate Holds(plan: Plan)
      reads this, dinv
    {
      && plan.op == op && plan.inventory == dinv.docInfos
      && plan.required == required && plan.sb == sb && plan.docs == ns
    }

    method PreProcess(pool: Pool) returns (r: Result<()>)
      requires op.CreateDocuments?
      modifies this
      ensures r.Ok? ==> Ledger.PreProcess(pool, cp, op).Ok? && Holds(Ledger.PreProcess(pool, cp, op).value)
      ensures r.Err? ==> Ledger.PreProcess(pool, cp, op) == Err(r.error)
      ensures fresh(dinv) || dinv == old(dinv)
    {
      hide RequiredFee, Enough, Captured, Verdict, Operation.Currencies, PreCreateItem, Names, DocumentData.Valid, Weight, AllKnown;
      if op.sender !in pool.accounts {
        return Err(AccountNotFound);
      }
      if op.sender !in pool.inventories {
        dinv := new DocumentInventory([]);
      } else {
        dinv := new DocumentInventory(pool.inventories[op.sender]);
      }
      var fee := CalculateItemsFee(cp, op.Currencies());
      if fee.Err? {
        return Err(fee.error);
      }
      var balance := CheckDocumentOwnerEnoughBalance(op.sender, fee.value, pool.balances);
      if balance.Err? {
        return Err(balance.error);
      }
      required, sb := fee.value, balance.value;
      var items := [];
      for i := 0 to |op.docItems|
        invariant PreItems(pool, op, i) == Ok(items)
        modifies {}
      {
        var item := PreProcessCreateItem(pool, op.docItems[i]);
        if item.Err? {
          PreItemsFails(pool, op, i);
          return Err(item.error);
        }
        items := items + [item.value];
      }
      var signed := CheckThreshold(op.signs, pool.accounts[op.sender]);
      if signed.Err? {
        return Err(signed.error);
      }
      ns := items;
      return Ok(());
    }

    method Process(ghost plan: Plan) returns (r: Result<seq<State>>, ghost order: seq<CurrencyId>)
      requires op.CreateDocuments? && Holds(plan) && |plan.docs| == op.Size() && sb.Keys == required.Keys
      modifies dinv
      ensures r.Ok? <==> NewInventory(plan).Ok?
      ensures r.Ok? ==> StatesOf(plan, r.value, order)
      ensures r.Err? ==> NewInventory(plan) == Err(r.error)
    {
      order := [];
      var sts, appended := AppendInfos(dinv, op, ns);
      if appended.Err? {
        return Err(appended.error), order;
      }
      dinv.Sort(true);
      sts := sts + [InventoryState(op.sender, dinv.docInfos)];
      var amounts;
      amounts, order := ChargedAmounts(plan, op.sender, required, sb);
      r := Ok(sts + amounts);
    }
  }

  /** The first failing item decides. */
  lemma {:induction false} PreItemsFails(pool: Pool, op: Operation, k: nat)
    requires k < op.Size() && PreItems(pool, op, k).Ok? && PreItem(pool, op, k).Err?
    ensures forall n :: k < n <= op.Size() ==> PreItems(pool, op, n) == Err(PreItem(pool, op, k).error)
  {
    hide PreItem;
    var n := k + 1;
    while n < op.Size()
      invariant k < n <= op.Size()
      invariant forall m :: k < m <= n ==> PreItems(pool, op, m) == Err(PreItem(pool, op, k).error)
    {
      n := n + 1;
    }
  }

  // ----- Updates -----

  class UpdateDocumentsProcessor {
    const cp: CurrencyPool
    const op: Operation
    var sb: map<CurrencyId, int>
    var ns: seq<DocumentData>
    var required: Required

    constructor (cp: CurrencyPool, op: Operation)
      ensures this.cp == cp && this.op == op
    {
      this.cp, this.op := cp, op;
      sb, ns, required := map[], [], map[];
    }

    ghost predicate Holds(plan: Plan)
      reads this
    {
      plan.op == op && plan.required == required && plan.sb == sb && plan.docs == ns
    }

    method PreProcess(pool: Pool) returns (r: Result<()>)
      requires op.UpdateDocuments?
      modifies this
      ensures r.Ok? ==> Ledger.PreProcess(pool, cp, op).Ok? && Holds(Ledger.PreProcess(pool, cp, op).value)
      ensures r.Err? ==> Ledger.PreProcess(pool, cp, op) == Err(r.error)
    {
      hide RequiredFee, Enough, Captured, Verdict, Operation.Currencies, PreUpdateItem, DocumentData.Valid, Weight, AllKnown;
      if op.sender !in pool.accounts {
        return Err(AccountNotFound);
      }
      var fee := CalculateItemsFee(cp, op.Currencies());
      if fee.Err? {
        return Err(fee.error);
      }
      var balance := CheckDocumentOwnerEnoughBalance(op.sender, fee.value, pool.balances);
      if balance.Err? {
        return Err(balance.error);
      }
      required, sb := fee.value, balance.value;
      var items := [];
      for i := 0 to |op.docItems|
        invariant PreItems(pool, op, i) == Ok(items)
        modifies {}
      {
        var item := PreProcessUpdateItem(pool, op.docItems[i]);
        if item.Err? {
          PreItemsFails(pool, op, i);
          return Err(item.error);
        }
        items := items + [item.value];
      }
      var signed := CheckThreshold(op.signs, pool.accounts[op.sender]);
      if signed.Err? {
        return Err(signed.error);
      }
      ns := items;
      return Ok(());
    }

    method Process(ghost plan: Plan) returns (r: Result<seq<State>>, ghost order: seq<CurrencyId>)
      requires op.UpdateDocuments? && Holds(plan) && |plan.docs| == op.Size() && sb.Keys == required.Keys
      ensures r.Ok? && StatesOf(plan, r.value, order)
    {
      var sts := ItemStates(op, ns);
      var amounts;
      amounts, order := ChargedAmounts(plan, op.sender, required, sb);
      r := Ok(sts + [] + amounts);
    }
  }

  // ----- Signs -----

  class SignDocumentsProcessor {
    const cp: CurrencyPool
    const op: Operation
    var sb: map<CurrencyId, int>
    var ns: seq<DocumentData>
    var required: Required

    constructor (cp: CurrencyPool, op: Operation)
      ensures this.cp == cp && this.op == op
    {
      this.cp, this.op := cp, op;
      sb, ns, required := map[], [], map[];
    }

    ghost predicate Holds(plan: Plan)
      reads this
    {
      plan.op == op && plan.required == required && plan.sb == sb && plan.docs == ns
    }

    method PreProcess(pool: Pool) returns (r: Result<()>)
      requires op.SignDocuments?
      modifies this
      ensures r.Ok? ==> Ledger.PreProcess(pool, cp, op).Ok? && Holds(Ledger.PreProcess(pool, cp, op).value)
      ensures r.Err? ==> Ledger.PreProcess(pool, cp, op) == Err(r.error)
    {
      hide RequiredFee, Enough, Captured, Verdict, Operation.Currencies, PreSignItem, SignDocument, Weight, AllKnown;
      if op.sender !in pool.accounts {
        return Err(AccountNotFound);
      }
      var fee := CalculateItemsFee(cp, op.Currencies());
      if fee.Err? {
        return Err(fee.error);
      }
      var balance := CheckDocumentOwnerEnoughBalance(op.sender, fee.value, pool.balances);
      if balance.Err? {
        return Err(balance.error);
      }
      required, sb := fee.value, balance.value;
      var items := [];
      for i := 0 to |op.signItems|
        invariant PreItems(pool, op, i) == Ok(items)
        modifies {}
      {
        var item := PreProcessSignItem(pool, op.sender, op.signItems[i]);
        if item.Err? {
          PreItemsFails(pool, op, i);
          return Err(item.error);
        }
        items := items + [item.value];
      }
      var signed := CheckThreshold(op.signs, pool.accounts[op.sender]);
      if signed.Err? {
        return Err(signed.error);
      }
      ns := items;
      return Ok(());
    }

    method Process(ghost plan: Plan) returns (r: Result<seq<State>>, ghost order: seq<CurrencyId>)
      requires op.SignDocuments? && Holds(plan) && |plan.docs| == op.Size() && sb.Keys == required.Keys
      ensures r.Ok? && StatesOf(plan, r.value, order)
    {
      var sts := ItemStates(op, ns);
      var amounts;
      amounts, order := ChargedAmounts(plan, op.sender, required, sb);
      r := Ok(sts + [] + amounts);
    }
  }
}
