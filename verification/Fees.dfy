/** The fee of an operation and the balance check before it (create_documents_process.go,
    and the same loops in update_documents_process.go and sign_documents_process.go).
    `currency.Big` is an unbounded integer. */
module Fees {
  import opened Basics
  import opened Documents

  type CurrencyId = string

  /** What a currency's fee policy answers for a zero amount during one proposal. */
  datatype Feeer = Fixed(fee: int) | Failing

  /** The currency pool; None where the processor was made without one. */
  type CurrencyPool = Option<map<CurrencyId, Feeer>>

  type Required = map<CurrencyId, (int, int)>

  predicate Usable(cp: CurrencyPool, cid: CurrencyId) {
    cp.Some? ==> cid in cp.value && cp.value[cid].Fixed?
  }

  /** The fee one item in a currency costs: nothing without a pool or when the fee is not positive. */
  function UnitFee(cp: CurrencyPool, cid: CurrencyId): int {
    if cp.None? || !Usable(cp, cid) || cp.value[cid].fee <= 0 then 0 else cp.value[cid].fee
  }

  /** What an operation whose items name the currencies `cids` pays in `cid`. */
  function Charge(cp: CurrencyPool, cids: seq<CurrencyId>, cid: CurrencyId): int {
    multiset(cids)[cid] * UnitFee(cp, cid)
  }

  lemma ChargeNonNegative(cp: CurrencyPool, cids: seq<CurrencyId>, cid: CurrencyId)
    ensures Charge(cp, cids, cid) >= 0
    ensures cid !in cids ==> Charge(cp, cids, cid) == 0
  {
  }

  /** The error for the first item whose currency has no usable fee policy. */
  function FirstBad(cp: CurrencyPool, cids: seq<CurrencyId>): Option<Error> {
    if cids == [] || cp.None? then None
    else if cids[0] !in cp.value then Some(UnknownCurrency)
    else if cp.value[cids[0]].Failing? then Some(FeeFailed)
    else FirstBad(cp, cids[1..])
  }

  lemma {:induction false} FirstBadMeaning(cp: CurrencyPool, cids: seq<CurrencyId>)
    ensures FirstBad(cp, cids).None? <==> forall cid :: cid in cids ==> Usable(cp, cid)
  {
    if cids != [] && cp.Some? {
      assert cids == [cids[0]] + cids[1..];
      FirstBadMeaning(cp, cids[1..]);
      assert Usable(cp, cids[0]) <==> cids[0] in cp.value && cp.value[cids[0]].Fixed?;
    }
  }

  lemma {:induction false} FirstBadAt(cp: CurrencyPool, cids: seq<CurrencyId>, k: nat)
    requires k < |cids| && cp.Some? && !Usable(cp, cids[k])
    requires forall j :: 0 <= j < k ==> Usable(cp, cids[j])
    ensures FirstBad(cp, cids) == Some(if cids[k] in cp.value then FeeFailed else UnknownCurrency)
  {
    if k > 0 {
      assert Usable(cp, cids[0]);
      FirstBadAt(cp, cids[1..], k - 1);
    }
  }

  function RequiredFee(cp: CurrencyPool, cids: seq<CurrencyId>): Result<Required> {
    match FirstBad(cp, cids)
    case Some(e) => Err(e)
    case None => Ok(Accumulated(cp, cids))
  }

  /** The fee is refused for an unknown currency or a failing policy; otherwise it names the
      items' currencies and no others, and asks for each the number of items in it times its
      fee, in both components. */
  lemma RequiredFeeMeaning(cp: CurrencyPool, cids: seq<CurrencyId>)
    ensures RequiredFee(cp, cids).Ok? <==> forall cid :: cid in cids ==> Usable(cp, cid)
    ensures RequiredFee(cp, cids).Ok? ==> forall cid :: cid in RequiredFee(cp, cids).value <==> cid in cids
    ensures RequiredFee(cp, cids).Ok? ==> forall cid :: cid in cids ==>
              && RequiredFee(cp, cids).value[cid].0 == multiset(cids)[cid] * UnitFee(cp, cid)
              && RequiredFee(cp, cids).value[cid].1 == multiset(cids)[cid] * UnitFee(cp, cid)
  {
    FirstBadMeaning(cp, cids);
  }

  lemma UnitFeeIs(cp: CurrencyPool, cid: CurrencyId)
    ensures cp.None? ==> UnitFee(cp, cid) == 0
    ensures cp.Some? && cid in cp.value && cp.value[cid].Fixed? ==>
              UnitFee(cp, cid) == if cp.value[cid].fee <= 0 then 0 else cp.value[cid].fee
  {
  }

  /** The fee loop shared by creates, updates and signs. */
  method CalculateItemsFee(cp: CurrencyPool, cids: seq<CurrencyId>) returns (r: Result<Required>)
    ensures r == RequiredFee(cp, cids)
  {
    hide Accumulated, Charge, FirstBad, UnitFee, RequiredFee;
    var required: Required := map[];
    AccumulatedNothing(cp);
    for i := 0 to |cids|
      invariant forall j :: 0 <= j < i ==> Usable(cp, cids[j])
      invariant required == Accumulated(cp, cids[..i])
    {
      var it := cids[i];
      var rq := (0, 0);
      UnitFeeIs(cp, it);
      if it in required {
        rq := required[it];
      }
      assert cids[..i + 1] == cids[..i] + [it];
      AccumulateStep(cp, cids[..i], it);
      if cp.None? {
        required := required[it := (rq.0, rq.1)];
        continue;
      }
      if it !in cp.value {
        Unusable(cp, cids, i);
        return Err(UnknownCurrency);
      }
      match cp.value[it] {
        case Failing =>
          Unusable(cp, cids, i);
          return Err(FeeFailed);
        case Fixed(k) =>
          if k <= 0 {
            required := required[it := (rq.0, rq.1)];
          } else {
            required := required[it := (rq.0 + k, rq.1 + k)];
          }
      }
    }
    assert cids[..|cids|] == cids;
    AllUsable(cp, cids);
    r := Ok(required);
  }

  lemma AccumulatedNothing(cp: CurrencyPool)
    ensures Accumulated(cp, []) == map[]
  {
  }

  lemma AllUsable(cp: CurrencyPool, cids: seq<CurrencyId>)
    requires forall j :: 0 <= j < |cids| ==> Usable(cp, cids[j])
    ensures RequiredFee(cp, cids) == Ok(Accumulated(cp, cids))
  {
    FirstBadMeaning(cp, cids);
    hide Usable;
  }

  lemma Unusable(cp: CurrencyPool, cids: seq<CurrencyId>, k: nat)
    requires k < |cids| && cp.Some? && !Usable(cp, cids[k])
    requires forall j :: 0 <= j < k ==> Usable(cp, cids[j])
    ensures RequiredFee(cp, cids) == Err(if cids[k] in cp.value then FeeFailed else UnknownCurrency)
  {
    FirstBadAt(cp, cids, k);
  }

  function Accumulated(cp: CurrencyPool, cids: seq<CurrencyId>): Required {
    map cid | cid in cids :: (Charge(cp, cids, cid), Charge(cp, cids, cid))
  }

  lemma AccumulateStep(cp: CurrencyPool, cids: seq<CurrencyId>, it: CurrencyId)
    ensures
      var rq := if it in Accumulated(cp, cids) then Accumulated(cp, cids)[it] else (0, 0);
      Accumulated(cp, cids + [it]) == Accumulated(cp, cids)[it := (rq.0 + UnitFee(cp, it), rq.1 + UnitFee(cp, it))]
  {
    ChargeStep(cp, cids, it);
    ChargeNonNegative(cp, cids, it);
  }

  lemma ChargeStep(cp: CurrencyPool, cids: seq<CurrencyId>, it: CurrencyId)
    ensures Charge(cp, cids + [it], it) == Charge(cp, cids, it) + UnitFee(cp, it)
    ensures forall cid :: cid != it ==> Charge(cp, cids + [it], cid) == Charge(cp, cids, cid)
  {
    assert multiset(cids + [it])[it] == multiset(cids)[it] + 1;
  }

  // ----- Balances -----

  type Balances = map<(Address, CurrencyId), int>

  predicate EnoughFor(balances: Balances, holder: Address, cid: CurrencyId, amount: int) {
    (holder, cid) in balances && balances[(holder, cid)] >= amount
  }

  predicate Enough(balances: Balances, holder: Address, required: Required) {
    forall cid :: cid in required ==> EnoughFor(balances, holder, cid, required[cid].0)
  }

  /** The balance states the check hands on, one for each required currency. */
  function Captured(balances: Balances, holder: Address, required: Required): map<CurrencyId, int>
    requires Enough(balances, holder, required)
  {
    map cid | cid in required ::
      assert EnoughFor(balances, holder, cid, required[cid].0);
      balances[(holder, cid)]
  }

  /** Ranges over the required currencies in any order; fails exactly when the holder lacks
      the state or the funds in one of them. */
  method CheckDocumentOwnerEnoughBalance(holder: Address, required: Required, balances: Balances)
    returns (r: Result<map<CurrencyId, int>>)
    ensures r.Ok? <==> Enough(balances, holder, required)
    ensures r.Ok? ==> r.value == Captured(balances, holder, required)
    ensures r.Err? ==> r.error == BadBalance
  {
    var sb: map<CurrencyId, int> := map[];
    var todo := required.Keys;
    while todo != {}
      invariant todo <= required.Keys
      invariant sb.Keys == required.Keys - todo
      invariant forall cid :: cid in sb ==>
                  EnoughFor(balances, holder, cid, required[cid].0) && sb[cid] == balances[(holder, cid)]
      decreases todo
    {
      var cid :| cid in todo;
      todo := todo - {cid};
      var rq := required[cid];
      if (holder, cid) !in balances {
        assert !EnoughFor(balances, holder, cid, required[cid].0);
        return Err(BadBalance);
      }
      var am := balances[(holder, cid)];
      if am < rq.0 {
        assert !EnoughFor(balances, holder, cid, required[cid].0);
        return Err(BadBalance);
      }
      sb := sb[cid := am];
    }
    r := Ok(sb);
  }
}
