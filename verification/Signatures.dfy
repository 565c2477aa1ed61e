/** The signature threshold (keys.go).  Weights add up in a 64-bit word. */
module Signatures {
  import opened Basics
  import opened Sequences

  const WORD: int := 0x1_0000_0000_0000_0000

  type Word = n: int | 0 <= n < WORD witness 0

  datatype AccountKeys = AccountKeys(weights: map<string, Word>, threshold: Word)

  predicate AllKnown(signers: seq<string>, keys: AccountKeys) {
    forall i :: 0 <= i < |signers| ==> signers[i] in keys.weights
  }

  /** The weight the signatures carry, counted without a word's limit. */
  function Weight(signers: seq<string>, keys: AccountKeys): (w: nat) {
    if signers == [] then 0
    else (if signers[0] in keys.weights then keys.weights[signers[0]] else 0) + Weight(signers[1..], keys)
  }

  function Verdict(signers: seq<string>, keys: AccountKeys): Result<()> {
    if !AllKnown(signers, keys) then Err(UnknownKey)
    else if Weight(signers, keys) % WORD < keys.threshold then Err(BelowThreshold)
    else Ok(())
  }

  method CheckThreshold(signers: seq<string>, keys: AccountKeys) returns (r: Result<()>)
    ensures r == Verdict(signers, keys)
    ensures Weight(signers, keys) < WORD ==>
              (r.Ok? <==> AllKnown(signers, keys) && Weight(signers, keys) >= keys.threshold)
  {
    var sum: Word := 0;
    for i := 0 to |signers|
      invariant forall j :: 0 <= j < i ==> signers[j] in keys.weights
      invariant sum == Weight(signers[..i], keys) % WORD
    {
      if signers[i] !in keys.weights {
        return Err(UnknownKey);
      }
      assert signers[..i + 1] == signers[..i] + [signers[i]];
      WeightSnoc(signers[..i], signers[i], keys);
      WrapAdd(Weight(signers[..i], keys), keys.weights[signers[i]]);
      sum := (sum + keys.weights[signers[i]]) % WORD;
    }
    assert signers[..|signers|] == signers;
    if sum < keys.threshold {
      return Err(BelowThreshold);
    }
    return Ok(());
  }

  lemma WrapAdd(a: nat, b: nat)
    ensures (a % WORD + b) % WORD == (a + b) % WORD
  {
    var q := a / WORD;
    assert a == q * WORD + a % WORD;
    assert a + b == q * WORD + (a % WORD + b);
  }

  lemma {:induction false} WeightSnoc(signers: seq<string>, s: string, keys: AccountKeys)
    ensures Weight(signers + [s], keys) == Weight(signers, keys) + (if s in keys.weights then keys.weights[s] else 0)
  {
    if signers == [] {
      assert signers + [s] == [s];
    } else {
      assert (signers + [s])[1..] == signers[1..] + [s];
      WeightSnoc(signers[1..], s, keys);
    }
  }

  lemma {:induction false} WeightRemove(signers: seq<string>, k: nat, keys: AccountKeys)
    requires k < |signers|
    ensures Weight(signers, keys) ==
            (if signers[k] in keys.weights then keys.weights[signers[k]] else 0)
            + Weight(signers[..k] + signers[k + 1..], keys)
  {
    if k == 0 {
      assert signers[..0] + signers[1..] == signers[1..];
    } else {
      WeightRemove(signers[1..], k - 1, keys);
      assert (signers[..k] + signers[k + 1..])[1..] == signers[1..][..k - 1] + signers[1..][k..];
      assert (signers[..k] + signers[k + 1..])[0] == signers[0];
    }
  }

  lemma {:induction false} WeightOfPermutation(a: seq<string>, b: seq<string>, keys: AccountKeys)
    requires multiset(a) == multiset(b)
    ensures Weight(a, keys) == Weight(b, keys)
  {
    SameElements(a, b);
    if a != [] {
      assert a[0] in b;
      var k :| 0 <= k < |b| && b[k] == a[0];
      TailMultiset(a, b, k);
      WeightRemove(b, k, keys);
      WeightOfPermutation(a[1..], b[..k] + b[k + 1..], keys);
    }
  }

  /** The verdict does not depend on the order of the signatures. */
  lemma VerdictOfPermutation(a: seq<string>, b: seq<string>, keys: AccountKeys)
    requires multiset(a) == multiset(b)
    ensures Verdict(a, keys) == Verdict(b, keys)
  {
    SameElements(a, b);
    WeightOfPermutation(a, b, keys);
    assert AllKnown(a, keys) <==> forall s :: s in a ==> s in keys.weights;
    assert AllKnown(b, keys) <==> forall s :: s in b ==> s in keys.weights;
  }

  /** One more signature by a known key, anywhere in the list, never turns acceptance into
      rejection while the sum fits the word. */
  lemma MoreSignaturesKeepAcceptance(a: seq<string>, more: seq<string>, k: nat, keys: AccountKeys)
    requires k < |more| && a == more[..k] + more[k + 1..]
    requires more[k] in keys.weights && Weight(more, keys) < WORD
    requires Verdict(a, keys).Ok?
    ensures Verdict(more, keys).Ok?
  {
    hide Weight, AllKnown;
    WeightRemove(more, k, keys);
    KnownInserted(a, more, k, keys);
    FitsWord(Weight(a, keys));
    FitsWord(Weight(more, keys));
  }

  lemma FitsWord(n: nat)
    requires n < WORD
    ensures n % WORD == n
  {
  }

  lemma KnownInserted(a: seq<string>, more: seq<string>, k: nat, keys: AccountKeys)
    requires k < |more| && a == more[..k] + more[k + 1..]
    requires more[k] in keys.weights && AllKnown(a, keys)
    ensures AllKnown(more, keys)
  {
    forall i | 0 <= i < |more| ensures more[i] in keys.weights {
      if i < k {
        assert a[i] == more[i];
      } else if i > k {
        assert a[i - 1] == more[i];
      }
    }
  }

  /** The verdict is the one the weights call for if and only if the weight fits the word or
      its wrapped value still reaches the threshold. */
  lemma VerdictRightIff(signers: seq<string>, keys: AccountKeys)
    requires AllKnown(signers, keys)
    ensures (Verdict(signers, keys).Ok? <==> Weight(signers, keys) >= keys.threshold)
            <==> (Weight(signers, keys) < WORD || Weight(signers, keys) % WORD >= keys.threshold)
  {
  }

  /** Two signatures of half a word each wrap to nothing and are refused. */
  lemma WrappedWeightRefused()
    ensures
      var keys := AccountKeys(map["a" := 0x8000_0000_0000_0000, "b" := 0x8000_0000_0000_0000], 1);
      Weight(["a", "b"], keys) >= keys.threshold && Verdict(["a", "b"], keys) == Err(BelowThreshold)
  {
    var keys := AccountKeys(map["a" := 0x8000_0000_0000_0000, "b" := 0x8000_0000_0000_0000], 1);
    assert ["a", "b"][1..] == ["b"] && ["b"][1..] == [];
    assert Weight(["b"], keys) == 0x8000_0000_0000_0000 + Weight([], keys);
    assert Weight(["a", "b"], keys) == WORD;
  }
}
