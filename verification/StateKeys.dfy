/** State keys (state.go).  The ledger model keeps documents and inventories in separate
    maps; these lemmas are what makes that the same as one map keyed by strings. */
module StateKeys {
  const DOCUMENTS_SUFFIX := ":Documents"
  const DOCUMENT_DATA_SUFFIX := ":DocumentData"

  predicate HasSuffix(s: string, suffix: string) {
    |suffix| <= |s| && s[|s| - |suffix|..] == suffix
  }

  function StateKeyDocumentData(documentId: string): string { documentId + DOCUMENT_DATA_SUFFIX }

  predicate IsStateDocumentDataKey(key: string) { HasSuffix(key, DOCUMENT_DATA_SUFFIX) }

  function StateKeyDocuments(address: string): string { address + DOCUMENTS_SUFFIX }

  predicate IsStateDocumentsKey(key: string) { HasSuffix(key, DOCUMENTS_SUFFIX) }

  lemma StateKeysInjective(a: string, b: string)
    ensures StateKeyDocumentData(a) == StateKeyDocumentData(b) <==> a == b
    ensures StateKeyDocuments(a) == StateKeyDocuments(b) <==> a == b
  {
    var n, m := |DOCUMENT_DATA_SUFFIX|, |DOCUMENTS_SUFFIX|;
    assert StateKeyDocumentData(a)[..|StateKeyDocumentData(a)| - n] == a;
    assert StateKeyDocumentData(b)[..|StateKeyDocumentData(b)| - n] == b;
    assert StateKeyDocuments(a)[..|StateKeyDocuments(a)| - m] == a;
    assert StateKeyDocuments(b)[..|StateKeyDocuments(b)| - m] == b;
  }

  /** The recognisers answer yes to the keys that are built and to no others. */
  lemma RecognisedAreBuilt(key: string)
    ensures IsStateDocumentDataKey(key) <==> exists id :: key == StateKeyDocumentData(id)
    ensures IsStateDocumentsKey(key) <==> exists a :: key == StateKeyDocuments(a)
    ensures IsStateDocumentDataKey(key) <==> exists id :: key == id + ":DocumentData"
    ensures IsStateDocumentsKey(key) <==> exists a :: key == a + ":Documents"
  {
    if IsStateDocumentDataKey(key) {
      assert key == StateKeyDocumentData(key[..|key| - |DOCUMENT_DATA_SUFFIX|]);
    }
    if IsStateDocumentsKey(key) {
      assert key == StateKeyDocuments(key[..|key| - |DOCUMENTS_SUFFIX|]);
    }
    forall id ensures HasSuffix(id + ":DocumentData", DOCUMENT_DATA_SUFFIX) && HasSuffix(id + ":Documents", DOCUMENTS_SUFFIX) {
    }
  }

  lemma SuffixEnds(s: string, suffix: string)
    requires suffix != ""
    ensures HasSuffix(s, suffix) ==> s != "" && s[|s| - 1] == suffix[|suffix| - 1]
  {
    if HasSuffix(s, suffix) {
      assert s[|s| - |suffix|..][|suffix| - 1] == s[|s| - 1];
    }
  }

  /** No string is recognised as both kinds. */
  lemma KindsDisjoint(key: string)
    ensures !(IsStateDocumentDataKey(key) && IsStateDocumentsKey(key))
  {
    SuffixEnds(key, DOCUMENT_DATA_SUFFIX);
    SuffixEnds(key, DOCUMENTS_SUFFIX);
    assert DOCUMENT_DATA_SUFFIX[|DOCUMENT_DATA_SUFFIX| - 1] == 'a';
    assert DOCUMENTS_SUFFIX[|DOCUMENTS_SUFFIX| - 1] == 's';
  }

  /** Each key has exactly one kind, and the recognisers tell which. */
  lemma StateKeyKinds(documentId: string, address: string)
    ensures IsStateDocumentDataKey(StateKeyDocumentData(documentId))
    ensures !IsStateDocumentsKey(StateKeyDocumentData(documentId))
    ensures IsStateDocumentsKey(StateKeyDocuments(address))
    ensures !IsStateDocumentDataKey(StateKeyDocuments(address))
    ensures StateKeyDocumentData(documentId) != StateKeyDocuments(address)
  {
    var d, a := StateKeyDocumentData(documentId), StateKeyDocuments(address);
    assert d[|d| - |DOCUMENT_DATA_SUFFIX|..] == DOCUMENT_DATA_SUFFIX;
    assert a[|a| - |DOCUMENTS_SUFFIX|..] == DOCUMENTS_SUFFIX;
    KindsDisjoint(d);
    KindsDisjoint(a);
  }
}
