/** Documents and the byte encodings that are hashed (document.go, document_data.go,
    document_id.go).  A Go string is modelled as the sequence of its bytes, one character a
    byte, so `[]byte(s)` is `s` itself. */
module Documents {
  import opened Basics
  import opened Sequences

  type Address = string

  // ----- Document ids -----

  const DOC_ID_SHORT_TYPES: map<string, string> := map[
    "sdi" := "mitum-document-id",
    "cui" := "mitum-blockcity-user-document-id",
    "cli" := "mitum-blockcity-land-document-id",
    "cvi" := "mitum-blockcity-voting-document-id",
    "chi" := "mitum-blockcity-history-document-id"
  ]

  /** The type of the id a string spells, or None where the source builds no id. */
  function ParseDocId(s: string): (r: Option<string>)
    ensures r.Some? <==> exists t :: t in DOC_ID_SHORT_TYPES && |s| > 3 && s[|s| - 3..] == t
  {
    if |s| > 3 && s[|s| - 3..] in DOC_ID_SHORT_TYPES then Some(DOC_ID_SHORT_TYPES[s[|s| - 3..]]) else None
  }

  /** The five kinds of ids, by their last three bytes; anything else, a bare suffix included, is
      no id. */
  lemma DocIdKinds(s: string)
    ensures ParseDocId(s) ==
            if |s| <= 3 then None
            else if s[|s| - 3..] == "sdi" then Some("mitum-document-id")
            else if s[|s| - 3..] == "cui" then Some("mitum-blockcity-user-document-id")
            else if s[|s| - 3..] == "cli" then Some("mitum-blockcity-land-document-id")
            else if s[|s| - 3..] == "cvi" then Some("mitum-blockcity-voting-document-id")
            else if s[|s| - 3..] == "chi" then Some("mitum-blockcity-history-document-id")
            else None
  {
  }

  // ----- The parts of a document -----

  datatype DocInfo = DocInfo(id: string, docType: string) {
    predicate Valid() { docType != "" }

    function Bytes(): string { id + docType }
  }

  datatype DocSign = DocSign(address: Address, signcode: string, signed: bool) {
    function SetSigned(): DocSign { this.(signed := true) }

    function Bytes(): string { address + signcode + [if signed then 1 as char else 0 as char] }
  }

  const MAX_MANIFEST := 100

  datatype VotingCandidate = VotingCandidate(address: Address, nickname: string, manifest: string, count: nat) {
    predicate Valid() { |manifest| <= MAX_MANIFEST }

    /** `uintToBytes` is the library's encoding of a counter. */
    function Bytes(uintToBytes: nat -> string): string {
      address + nickname + manifest + uintToBytes(count)
    }
  }

  // ----- Documents.  `content` holds the fields no ledger operation looks at. -----

  datatype DocumentData =
    | BSDocData(info: DocInfo, owner: Address, fileHash: string, creator: DocSign,
                title: string, size: nat, signers: seq<DocSign>)
    | BCUserData(info: DocInfo, owner: Address, content: string)
    | BCLandData(info: DocInfo, owner: Address, account: Address, content: string)
    | BCVotingData(info: DocInfo, owner: Address, round: nat, endVoteTime: string,
                   candidates: seq<VotingCandidate>, bossname: string, account: Address, termofoffice: string)
    | BCHistoryData(info: DocInfo, owner: Address, account: Address, content: string)
  {
    function HintType(): string {
      match this
      case BSDocData(_, _, _, _, _, _, _) => "mitum-blocksign-document-data"
      case BCUserData(_, _, _) => "mitum-blockcity-document-user-data"
      case BCLandData(_, _, _, _) => "mitum-blockcity-document-land-data"
      case BCVotingData(_, _, _, _, _, _, _, _) => "mitum-blockcity-document-voting-data"
      case BCHistoryData(_, _, _, _) => "mitum-blockcity-document-history-data"
    }

    function DocumentId(): string { info.id }

    predicate Valid() {
      && info.docType == HintType()
      && info.Valid()
      && (BCVotingData? ==> forall c :: c in candidates ==> c.Valid())
    }

    /** The accounts that must exist before the document may be created. */
    function Accounts(): seq<Address> {
      match this
      case BSDocData(_, _, _, _, _, _, signers) => Map(signers, (s: DocSign) => s.address)
      case BCVotingData(_, _, _, _, candidates, _, account, _) =>
        [account] + Map(candidates, (c: VotingCandidate) => c.address)
      case BCHistoryData(_, _, account, _) => [account]
      case BCUserData(_, _, _) => []
      case BCLandData(_, _, _, _) => []
    }
  }

  /** What makes a document valid: its type is the one of its kind, and no candidate's manifest
      is too long. */
  lemma ValidDocument(doc: DocumentData)
    ensures doc.Valid() <==>
              match doc
              case BSDocData(_, _, _, _, _, _, _) => doc.info.docType == "mitum-blocksign-document-data"
              case BCUserData(_, _, _) => doc.info.docType == "mitum-blockcity-document-user-data"
              case BCLandData(_, _, _, _) => doc.info.docType == "mitum-blockcity-document-land-data"
              case BCVotingData(_, _, _, _, candidates, _, _, _) =>
                && doc.info.docType == "mitum-blockcity-document-voting-data"
                && forall i :: 0 <= i < |candidates| ==> |candidates[i].manifest| <= 100
              case BCHistoryData(_, _, _, _) => doc.info.docType == "mitum-blockcity-document-history-data"
  {
    if doc.BCVotingData? {
      assert (forall c :: c in doc.candidates ==> c.Valid())
        <==> forall i :: 0 <= i < |doc.candidates| ==> doc.candidates[i].Valid();
    }
  }

  /** The accounts a document names: every signer, the account and every candidate, or the
      account; a user or land document names none. */
  ghost predicate Names(doc: DocumentData, a: Address) {
    match doc
    case BSDocData(_, _, _, _, _, _, signers) => exists i :: 0 <= i < |signers| && signers[i].address == a
    case BCVotingData(_, _, _, _, candidates, _, account, _) =>
      a == account || exists i :: 0 <= i < |candidates| && candidates[i].address == a
    case BCHistoryData(_, _, account, _) => a == account
    case BCUserData(_, _, _) => false
    case BCLandData(_, _, _, _) => false
  }

  lemma AccountsNamed(doc: DocumentData, a: Address)
    ensures a in doc.Accounts() <==> Names(doc, a)
  {
    hide Map;
    match doc {
      case BSDocData(_, _, _, _, _, _, signers) =>
        MapMember(signers, (s: DocSign) => s.address, a);
      case BCVotingData(_, _, _, _, candidates, _, account, _) =>
        MapMember(candidates, (c: VotingCandidate) => c.address, a);
      case BCHistoryData(_, _, _, _) =>
      case BCUserData(_, _, _) =>
      case BCLandData(_, _, _, _) =>
    }
  }

  // ----- Signing -----

  /** The signers after `sender` signs: its first entry is marked; None when it has none. */
  function MarkFirst(signers: seq<DocSign>, sender: Address): Option<seq<DocSign>> {
    if signers == [] then None
    else if signers[0].address == sender then Some([signers[0].SetSigned()] + signers[1..])
    else match MarkFirst(signers[1..], sender)
      case None => None
      case Some(rest) => Some([signers[0]] + rest)
  }

  ghost predicate IsFirstOf(signers: seq<DocSign>, sender: Address, k: nat) {
    && k < |signers| && signers[k].address == sender
    && forall j :: 0 <= j < k ==> signers[j].address != sender
  }

  /** Signing changes exactly the flag of the first entry with the sender's address. */
  lemma {:induction false} MarksExactlyFirst(signers: seq<DocSign>, sender: Address, k: nat)
    requires IsFirstOf(signers, sender, k)
    ensures MarkFirst(signers, sender) == Some(signers[k := DocSign(signers[k].address, signers[k].signcode, true)])
  {
    if k > 0 {
      assert signers[0].address != sender;
      MarksExactlyFirst(signers[1..], sender, k - 1);
      var marked := DocSign(signers[k].address, signers[k].signcode, true);
      assert signers[k := marked] == [signers[0]] + signers[1..][k - 1 := marked];
    } else {
      var marked := DocSign(signers[0].address, signers[0].signcode, true);
      assert signers[0 := marked] == [marked] + signers[1..];
    }
  }

  lemma {:induction false} MarkFailsWithoutEntry(signers: seq<DocSign>, sender: Address)
    ensures MarkFirst(signers, sender) == None <==> forall s :: s in signers ==> s.address != sender
    ensures MarkFirst(signers, sender).Some? ==> exists k: nat :: IsFirstOf(signers, sender, k)
  {
    if signers != [] {
      assert signers == [signers[0]] + signers[1..];
      MarkFailsWithoutEntry(signers[1..], sender);
      if signers[0].address == sender {
        assert IsFirstOf(signers, sender, 0);
      } else if MarkFirst(signers[1..], sender).Some? {
        var k: nat :| IsFirstOf(signers[1..], sender, k);
        assert forall j :: 1 <= j < k + 1 ==> signers[j] == signers[1..][j - 1];
        assert IsFirstOf(signers, sender, k + 1);
      }
    }
  }

  /** Signing keeps every entry but for its flag, and never clears a flag. */
  ghost predicate SignedGrows(before: seq<DocSign>, after: seq<DocSign>) {
    && |before| == |after|
    && forall i :: 0 <= i < |before| ==>
        && after[i].address == before[i].address
        && after[i].signcode == before[i].signcode
        && (before[i].signed ==> after[i].signed)
  }

  /** A run of signatures by `senders`; None as soon as one of them is no signer. */
  function MarkAll(signers: seq<DocSign>, senders: seq<Address>): Option<seq<DocSign>>
    decreases |senders|
  {
    if senders == [] then Some(signers)
    else match MarkFirst(signers, senders[0])
      case None => None
      case Some(marked) => MarkAll(marked, senders[1..])
  }

  lemma {:induction false} SignedOnlyGrows(signers: seq<DocSign>, senders: seq<Address>)
    requires MarkAll(signers, senders).Some?
    ensures SignedGrows(signers, MarkAll(signers, senders).value)
    decreases |senders|
  {
    if senders != [] {
      MarkFailsWithoutEntry(signers, senders[0]);
      var k: nat :| IsFirstOf(signers, senders[0], k);
      MarksExactlyFirst(signers, senders[0], k);
      SignedOnlyGrows(MarkFirst(signers, senders[0]).value, senders[1..]);
    }
  }

  /** Two signatures may be applied in either order, failures included. */
  lemma SignaturesCommute(signers: seq<DocSign>, a: Address, b: Address)
    ensures MarkAll(signers, [a, b]) == MarkAll(signers, [b, a])
  {
    MarkAllTwo(signers, a, b);
    MarkAllTwo(signers, b, a);
    if MarkFirst(signers, a).Some? {
      MarkAfterOther(signers, a, b);
    }
    if MarkFirst(signers, b).Some? {
      MarkAfterOther(signers, b, a);
    }
    if MarkFirst(signers, a).Some? && MarkFirst(signers, b).Some? {
      MarkFailsWithoutEntry(signers, a);
      MarkFailsWithoutEntry(signers, b);
      var i: nat :| IsFirstOf(signers, a, i);
      var j: nat :| IsFirstOf(signers, b, j);
      MarksExactlyFirst(signers, a, i);
      MarksExactlyFirst(signers, b, j);
      var afterA := MarkFirst(signers, a).value;
      var afterB := MarkFirst(signers, b).value;
      assert IsFirstOf(afterA, b, j) && IsFirstOf(afterB, a, i);
      MarksExactlyFirst(afterA, b, j);
      MarksExactlyFirst(afterB, a, i);
      assert MarkFirst(afterA, b).value == MarkFirst(afterB, a).value;
    }
  }

  lemma MarkAllTwo(signers: seq<DocSign>, a: Address, b: Address)
    ensures MarkAll(signers, [a, b]) ==
            if MarkFirst(signers, a).None? then None else MarkFirst(MarkFirst(signers, a).value, b)
  {
    assert [a, b][0] == a && [a, b][1..] == [b];
    if MarkFirst(signers, a).Some? {
      var marked := MarkFirst(signers, a).value;
      assert MarkAll(signers, [a, b]) == MarkAll(marked, [b]);
      assert [b][0] == b && [b][1..] == [];
      if MarkFirst(marked, b).Some? {
        assert MarkAll(marked, [b]) == MarkAll(MarkFirst(marked, b).value, []);
      }
    }
  }

  /** Marking one signer never changes whether another is found. */
  lemma MarkAfterOther(signers: seq<DocSign>, a: Address, b: Address)
    requires MarkFirst(signers, a).Some?
    ensures MarkFirst(MarkFirst(signers, a).value, b).Some? <==> MarkFirst(signers, b).Some?
  {
    MarkFailsWithoutEntry(signers, a);
    var i: nat :| IsFirstOf(signers, a, i);
    MarksExactlyFirst(signers, a, i);
    var marked := MarkFirst(signers, a).value;
    MarkFailsWithoutEntry(signers, b);
    MarkFailsWithoutEntry(marked, b);
    assert forall k :: 0 <= k < |signers| ==> marked[k].address == signers[k].address;
    if MarkFirst(signers, b).Some? {
      var j: nat :| IsFirstOf(signers, b, j);
      assert marked[j] in marked;
    }
    if MarkFirst(marked, b).Some? {
      var j: nat :| IsFirstOf(marked, b, j);
      assert signers[j] in signers;
    }
  }

  // ----- Canonical encodings -----

  /** Library encodings of counters and big integers. */
  datatype Encoding = Encoding(uintToBytes: nat -> string, bigToBytes: nat -> string)

  function CandidateBytes(enc: Encoding): VotingCandidate -> string {
    (c: VotingCandidate) => c.Bytes(enc.uintToBytes)
  }

  function CandidateOrder(enc: Encoding): (VotingCandidate, VotingCandidate) -> bool {
    (a: VotingCandidate, b: VotingCandidate) => LexLe(CandidateBytes(enc)(a), CandidateBytes(enc)(b))
  }

  function SignerAddress(): DocSign -> string { (s: DocSign) => s.address }

  function SignerBytes(): DocSign -> string { (s: DocSign) => s.Bytes() }

  function SignerOrder(): (DocSign, DocSign) -> bool {
    (a: DocSign, b: DocSign) => LexLe(SignerAddress()(a), SignerAddress()(b))
  }

  function VotingBytes(doc: DocumentData, enc: Encoding): string
    requires doc.BCVotingData?
  {
    Flatten([doc.info.Bytes(), doc.owner, enc.uintToBytes(doc.round), doc.endVoteTime, doc.bossname,
             doc.account, doc.termofoffice])
    + Flatten(Map(Sort(doc.candidates, CandidateOrder(enc)), CandidateBytes(enc)))
  }

  function BSDocBytes(doc: DocumentData, enc: Encoding): string
    requires doc.BSDocData?
  {
    BSDocHead(doc, enc) + Flatten(Map(Sort(doc.signers, SignerOrder()), SignerBytes()))
  }

  function BSDocHead(doc: DocumentData, enc: Encoding): string
    requires doc.BSDocData?
  {
    Flatten([doc.info.Bytes(), doc.owner, doc.fileHash, doc.creator.Bytes(), doc.title, enc.bigToBytes(doc.size)])
  }

  /** `sort.Slice`: rearranges the array in place. */
  method SortSlice<T>(a: array<T>, le: (T, T) -> bool)
    modifies a
    ensures a[..] == Sort(old(a[..]), le)
  {
    SortMultiset(a[..], le);
    SameElements(Sort(a[..], le), a[..]);
    var s := Sort(a[..], le);
    forall i | 0 <= i < a.Length {
      a[i] := s[i];
    }
  }

  method ConcatBytes<T>(a: array<T>, bytes: T -> string) returns (bs: string)
    ensures bs == Flatten(Map(a[..], bytes))
  {
    bs := "";
    for i := 0 to a.Length
      invariant bs == Flatten(Map(a[..i], bytes))
    {
      FlattenSnoc(Map(a[..i], bytes), bytes(a[i]));
      assert Map(a[..i + 1], bytes) == Map(a[..i], bytes) + [bytes(a[i])];
      bs := bs + bytes(a[i]);
    }
    assert a[..a.Length] == a[..];
  }

  /** The bytes of a voting document, field by field: its candidates come in an order of their
      own bytes. */
  lemma VotingBytesAre(doc: DocumentData, enc: Encoding, t: seq<VotingCandidate>)
    requires doc.BCVotingData? && t == Sort(doc.candidates, CandidateOrder(enc))
    ensures multiset(t) == multiset(doc.candidates)
    ensures forall i, j :: 0 <= i < j < |t| ==>
              BytesOrdered(t[i].address + t[i].nickname + t[i].manifest + enc.uintToBytes(t[i].count),
                           t[j].address + t[j].nickname + t[j].manifest + enc.uintToBytes(t[j].count))
    ensures VotingBytes(doc, enc) ==
            doc.info.id + doc.info.docType + doc.owner + enc.uintToBytes(doc.round) + doc.endVoteTime
            + doc.bossname + doc.account + doc.termofoffice
            + Flatten(Map(t, (c: VotingCandidate) => c.address + c.nickname + c.manifest + enc.uintToBytes(c.count)))
  {
    var order := CandidateOrder(enc);
    KeyOrder(CandidateBytes(enc), order);
    SortSorted(doc.candidates, order);
    SortMultiset(doc.candidates, order);
    forall i, j | 0 <= i < j < |t|
      ensures BytesOrdered(t[i].address + t[i].nickname + t[i].manifest + enc.uintToBytes(t[i].count),
                           t[j].address + t[j].nickname + t[j].manifest + enc.uintToBytes(t[j].count))
    {
      assert order(t[i], t[j]);
      LexLeMeaning(CandidateBytes(enc)(t[i]), CandidateBytes(enc)(t[j]));
    }
    hide Sort, CandidateOrder;
    FlattenSeven(doc.info.Bytes(), doc.owner, enc.uintToBytes(doc.round), doc.endVoteTime, doc.bossname,
                 doc.account, doc.termofoffice);
    assert Map(t, CandidateBytes(enc))
        == Map(t, (c: VotingCandidate) => c.address + c.nickname + c.manifest + enc.uintToBytes(c.count));
  }

  lemma FlattenSeven(a: string, b: string, c: string, d: string, e: string, f: string, g: string)
    ensures Flatten([a, b, c, d, e, f, g]) == a + b + c + d + e + f + g
  {
    FlattenSix(b, c, d, e, f, g);
    assert [a, b, c, d, e, f, g][1..] == [b, c, d, e, f, g];
    assert a + (b + c + d + e + f + g) == a + b + c + d + e + f + g;
  }

  lemma FlattenSix(a: string, b: string, c: string, d: string, e: string, f: string)
    ensures Flatten([a, b, c, d, e, f]) == a + b + c + d + e + f
  {
    assert [a, b, c, d, e, f][1..] == [b, c, d, e, f] && [b, c, d, e, f][1..] == [c, d, e, f];
    assert [c, d, e, f][1..] == [d, e, f] && [d, e, f][1..] == [e, f] && [e, f][1..] == [f] && [f][1..] == [];
    assert Flatten([f]) == f;
    assert Flatten([e, f]) == e + f;
    assert Flatten([d, e, f]) == d + e + f;
    assert Flatten([c, d, e, f]) == c + d + e + f;
    assert Flatten([b, c, d, e, f]) == b + c + d + e + f;
    assert a + (b + c + d + e + f) == a + b + c + d + e + f;
  }

  lemma BSDocHeadIs(doc: DocumentData, enc: Encoding)
    requires doc.BSDocData?
    ensures BSDocHead(doc, enc) ==
            doc.info.id + doc.info.docType + doc.owner + doc.fileHash
            + doc.creator.address + doc.creator.signcode + [if doc.creator.signed then 1 as char else 0 as char]
            + doc.title + enc.bigToBytes(doc.size)
  {
    FlattenSix(doc.info.Bytes(), doc.owner, doc.fileHash, doc.creator.Bytes(), doc.title, enc.bigToBytes(doc.size));
    hide Flatten;
    var c := doc.creator;
    assert doc.info.id + doc.info.docType + doc.owner + doc.fileHash + (c.address + c.signcode + [if c.signed then 1 as char else 0 as char])
        == doc.info.id + doc.info.docType + doc.owner + doc.fileHash + c.address + c.signcode + [if c.signed then 1 as char else 0 as char];
  }

  /** The bytes of a blocksign document, field by field: its signers come in the order of their
      addresses, each with its flag. */
  lemma BSDocBytesAre(doc: DocumentData, enc: Encoding, t: seq<DocSign>)
    requires doc.BSDocData? && t == Sort(doc.signers, SignerOrder())
    ensures multiset(t) == multiset(doc.signers)
    ensures forall i, j :: 0 <= i < j < |t| ==> BytesOrdered(t[i].address, t[j].address)
    ensures BSDocBytes(doc, enc) ==
            doc.info.id + doc.info.docType + doc.owner + doc.fileHash
            + doc.creator.address + doc.creator.signcode + [if doc.creator.signed then 1 as char else 0 as char]
            + doc.title + enc.bigToBytes(doc.size)
            + Flatten(Map(t, (s: DocSign) => s.address + s.signcode + [if s.signed then 1 as char else 0 as char]))
  {
    var order := SignerOrder();
    KeyOrder(SignerAddress(), order);
    SortSorted(doc.signers, order);
    SortMultiset(doc.signers, order);
    forall i, j | 0 <= i < j < |t| ensures BytesOrdered(t[i].address, t[j].address) {
      assert order(t[i], t[j]);
      LexLeMeaning(SignerAddress()(t[i]), SignerAddress()(t[j]));
    }
    hide Sort, SignerOrder, BSDocHead, Flatten;
    BSDocHeadIs(doc, enc);
    assert Map(t, SignerBytes())
        == Map(t, (s: DocSign) => s.address + s.signcode + [if s.signed then 1 as char else 0 as char]);
  }

  /** The hashed bytes of a voting document; its candidate slice is sorted in place. */
  method HashedVotingBytes(doc: DocumentData, candidates: array<VotingCandidate>, enc: Encoding) returns (bs: string)
    requires doc.BCVotingData? && candidates[..] == doc.candidates
    modifies candidates
    ensures bs == VotingBytes(doc, enc)
    ensures candidates[..] == Sort(doc.candidates, CandidateOrder(enc)) && multiset(candidates[..]) == multiset(doc.candidates)
    ensures forall i, j :: 0 <= i < j < candidates.Length ==>
              var c, d := candidates[i], candidates[j];
              BytesOrdered(c.address + c.nickname + c.manifest + enc.uintToBytes(c.count),
                           d.address + d.nickname + d.manifest + enc.uintToBytes(d.count))
    ensures bs ==
            doc.info.id + doc.info.docType + doc.owner + enc.uintToBytes(doc.round) + doc.endVoteTime
            + doc.bossname + doc.account + doc.termofoffice
            + Flatten(Map(candidates[..], (c: VotingCandidate) => c.address + c.nickname + c.manifest + enc.uintToBytes(c.count)))
  {
    SortSlice(candidates, CandidateOrder(enc));
    var tail := ConcatBytes(candidates, CandidateBytes(enc));
    bs := Flatten([doc.info.Bytes(), doc.owner, enc.uintToBytes(doc.round), doc.endVoteTime, doc.bossname,
                   doc.account, doc.termofoffice]) + tail;
    VotingBytesAre(doc, enc, candidates[..]);
    assert forall i :: 0 <= i < candidates.Length ==> candidates[..][i] == candidates[i];
  }

  /** The hashed bytes of a blocksign document; its signer slice is sorted in place. */
  method HashedBSDocBytes(doc: DocumentData, signers: array<DocSign>, enc: Encoding) returns (bs: string)
    requires doc.BSDocData? && signers[..] == doc.signers
    modifies signers
    ensures bs == BSDocBytes(doc, enc)
    ensures signers[..] == Sort(doc.signers, SignerOrder()) && multiset(signers[..]) == multiset(doc.signers)
    ensures forall i, j :: 0 <= i < j < signers.Length ==> BytesOrdered(signers[i].address, signers[j].address)
    ensures bs ==
            doc.info.id + doc.info.docType + doc.owner + doc.fileHash
            + doc.creator.address + doc.creator.signcode + [if doc.creator.signed then 1 as char else 0 as char]
            + doc.title + enc.bigToBytes(doc.size)
            + Flatten(Map(signers[..], (s: DocSign) => s.address + s.signcode + [if s.signed then 1 as char else 0 as char]))
  {
    SortSlice(signers, SignerOrder());
    var tail := ConcatBytes(signers, SignerBytes());
    bs := Flatten([doc.info.Bytes(), doc.owner, doc.fileHash, doc.creator.Bytes(), doc.title,
                   enc.bigToBytes(doc.size)]) + tail;
    BSDocBytesAre(doc, enc, signers[..]);
    assert forall i :: 0 <= i < signers.Length ==> signers[..][i] == signers[i];
  }

  // ----- A signature shows -----

  lemma MarkedMultiset(signers: seq<DocSign>, k: nat, marked: DocSign)
    requires k < |signers|
    ensures
      var rest := signers[..k] + signers[k + 1..];
      && multiset(signers) == multiset{signers[k]} + multiset(rest)
      && multiset(signers[k := marked]) == multiset{marked} + multiset(rest)
  {
    assert signers == signers[..k] + [signers[k]] + signers[k + 1..];
    assert signers[k := marked] == signers[..k] + [marked] + signers[k + 1..];
  }

  /** The bytes of one entry and of the rest, as a multiset. */
  lemma EntryBytes(all: seq<DocSign>, entry: DocSign, rest: seq<DocSign>)
    requires multiset(all) == multiset{entry} + multiset(rest)
    ensures multiset(Flatten(Map(all, SignerBytes()))) == multiset(entry.Bytes()) + multiset(Flatten(Map(rest, SignerBytes())))
  {
    assert multiset([entry] + rest) == multiset(all);
    MapMultiset(all, [entry] + rest, SignerBytes());
    FlattenMultiset(Map(all, SignerBytes()), Map([entry] + rest, SignerBytes()));
    FlattenMap([entry] + rest, SignerBytes());
    assert ([entry] + rest)[1..] == rest;
  }

  /** Setting the flag of an unsigned entry changes the signers' bytes, however the entries are
      arranged before and after. */
  lemma FlagShows(signers: seq<DocSign>, k: nat, s: seq<DocSign>, t: seq<DocSign>)
    requires k < |signers| && !signers[k].signed
    requires multiset(s) == multiset(signers)
    requires multiset(t) == multiset(signers[k := DocSign(signers[k].address, signers[k].signcode, true)])
    ensures |Flatten(Map(s, SignerBytes()))| == |Flatten(Map(t, SignerBytes()))|
    ensures Flatten(Map(s, SignerBytes())) != Flatten(Map(t, SignerBytes()))
  {
    hide Flatten;
    var marked := DocSign(signers[k].address, signers[k].signcode, true);
    var rest := signers[..k] + signers[k + 1..];
    MarkedMultiset(signers, k, marked);
    EntryBytes(s, signers[k], rest);
    EntryBytes(t, marked, rest);
    var common := signers[k].address + signers[k].signcode;
    assert signers[k].Bytes() == common + [0 as char] && marked.Bytes() == common + [1 as char];
    var a, b, others := Flatten(Map(s, SignerBytes())), Flatten(Map(t, SignerBytes())), Flatten(Map(rest, SignerBytes()));
    assert multiset(a)[1 as char] == multiset(common)[1 as char] + multiset(others)[1 as char];
    assert multiset(b)[1 as char] == multiset(common)[1 as char] + 1 + multiset(others)[1 as char];
    assert |a| == |multiset(a)| && |b| == |multiset(b)|;
  }

  /** Signing an entry that is not signed yet changes the bytes that are hashed. */
  lemma SigningChangesBytes(doc: DocumentData, signers: seq<DocSign>, sender: Address, k: nat, enc: Encoding)
    requires doc.BSDocData? && MarkFirst(doc.signers, sender) == Some(signers)
    requires IsFirstOf(doc.signers, sender, k) && !doc.signers[k].signed
    ensures BSDocBytes(doc.(signers := signers), enc) != BSDocBytes(doc, enc)
  {
    MarksExactlyFirst(doc.signers, sender, k);
    SortMultiset(doc.signers, SignerOrder());
    SortMultiset(signers, SignerOrder());
    FlagShows(doc.signers, k, Sort(doc.signers, SignerOrder()), Sort(signers, SignerOrder()));
    hide Sort, Flatten;
    var head := BSDocHead(doc, enc);
    var a, b := BSDocBytes(doc, enc), BSDocBytes(doc.(signers := signers), enc);
    assert BSDocHead(doc.(signers := signers), enc) == head;
    assert a[|head|..] == Flatten(Map(Sort(doc.signers, SignerOrder()), SignerBytes()));
    assert b[|head|..] == Flatten(Map(Sort(signers, SignerOrder()), SignerBytes()));
  }

  /** A voting document's bytes depend on its candidates only as a multiset. */
  lemma VotingBytesCanonical(doc: DocumentData, other: DocumentData, enc: Encoding)
    requires doc.BCVotingData? && other.BCVotingData?
    requires other == doc.(candidates := other.candidates)
    requires multiset(doc.candidates) == multiset(other.candidates)
    ensures VotingBytes(doc, enc) == VotingBytes(other, enc)
  {
    var key, order := CandidateBytes(enc), CandidateOrder(enc);
    var s, t := Sort(doc.candidates, order), Sort(other.candidates, order);
    SortMultiset(doc.candidates, order);
    SortMultiset(other.candidates, order);
    KeyOrder(key, order);
    SortSorted(doc.candidates, order);
    SortSorted(other.candidates, order);
    MapMultiset(s, t, key);
    forall x, y | LexLe(x, y) && LexLe(y, x) ensures x == y {
      LexAntisymmetric(x, y);
    }
    forall x: string ensures LexLe(x, x) {
      LexTotal(x, x);
    }
    SortedUnique(Map(s, key), Map(t, key), LexLe);
  }

  ghost predicate DistinctAddresses(signers: seq<DocSign>) {
    forall i, j :: 0 <= i < j < |signers| ==> signers[i].address != signers[j].address
  }

  /** A blocksign document's bytes depend on its signers only as a set, as long as no address
      signs twice. */
  lemma BSDocBytesCanonical(doc: DocumentData, other: DocumentData, enc: Encoding)
    requires doc.BSDocData? && other.BSDocData?
    requires other == doc.(signers := other.signers)
    requires DistinctAddresses(doc.signers) && DistinctAddresses(other.signers)
    requires forall s :: s in doc.signers <==> s in other.signers
    ensures BSDocBytes(doc, enc) == BSDocBytes(other, enc)
  {
    OnceEach(doc.signers);
    OnceEach(other.signers);
    assert multiset(doc.signers) == multiset(other.signers);
    hide BSDocBytes;
    SwapFreeBytes(doc, other.signers, enc);
  }

  lemma {:induction false} OnceEach(signers: seq<DocSign>)
    requires DistinctAddresses(signers)
    ensures forall s :: multiset(signers)[s] == if s in signers then 1 else 0
  {
    if signers != [] {
      assert signers == [signers[0]] + signers[1..];
      OnceEach(signers[1..]);
    }
  }

  /** Entries of one address whose bytes read the same in either order. */
  ghost predicate SwapFree(signers: seq<DocSign>) {
    forall a, b :: a in signers && b in signers && a.address == b.address ==>
      a.Bytes() + b.Bytes() == b.Bytes() + a.Bytes()
  }

  /** Then all sorted arrangements have the same bytes, whichever the sort produces. */
  lemma {:induction false} ArrangementsAgree(s: seq<DocSign>, t: seq<DocSign>)
    requires SortedBy(s, SignerOrder()) && SortedBy(t, SignerOrder())
    requires multiset(s) == multiset(t) && SwapFree(s)
    ensures Flatten(Map(s, SignerBytes())) == Flatten(Map(t, SignerBytes()))
  {
    hide *;
    if s == [] {
      SameElements(s, t);
    } else {
      var k := HeadIn(s, t);
      var rest := t[..k] + t[k + 1..];
      HeadFirst(s, t, k);
      TailMultiset(s, t, k);
      TailsKeep(s, t, k);
      ArrangementsAgree(s[1..], rest);
      FlattenMap(s, SignerBytes());
    }
  }

  lemma HeadIn<T>(s: seq<T>, t: seq<T>) returns (k: nat)
    requires multiset(s) == multiset(t) && s != []
    ensures k < |t| && t[k] == s[0]
  {
    SameElements(s, t);
    assert s[0] in t;
    k :| 0 <= k < |t| && t[k] == s[0];
  }

  lemma FlattenMap<T>(s: seq<T>, f: T -> string)
    requires s != []
    ensures Flatten(Map(s, f)) == f(s[0]) + Flatten(Map(s[1..], f))
  {
    assert Map(s, f)[1..] == Map(s[1..], f);
  }

  /** The head of one arrangement can be brought to the front of the other. */
  lemma HeadFirst(s: seq<DocSign>, t: seq<DocSign>, k: nat)
    requires SortedBy(s, SignerOrder()) && SortedBy(t, SignerOrder()) && s != []
    requires multiset(s) == multiset(t) && SwapFree(s) && k < |t| && t[k] == s[0]
    ensures Flatten(Map(t, SignerBytes())) == SignerBytes()(s[0]) + Flatten(Map(t[..k] + t[k + 1..], SignerBytes()))
  {
    hide SignerOrder, SortedBy, Flatten;
    var parts := Map(t, SignerBytes());
    forall i | 0 <= i < k ensures parts[i] + parts[k] == parts[k] + parts[i] {
      BeforeHead(s, t, k, i);
    }
    CommuteToFront(parts, k);
    assert Map(t[..k] + t[k + 1..], SignerBytes()) == parts[..k] + parts[k + 1..];
  }

  lemma TailsKeep(s: seq<DocSign>, t: seq<DocSign>, k: nat)
    requires SortedBy(s, SignerOrder()) && SortedBy(t, SignerOrder()) && SwapFree(s) && s != [] && k < |t|
    ensures SortedBy(s[1..], SignerOrder()) && SortedBy(t[..k] + t[k + 1..], SignerOrder()) && SwapFree(s[1..])
  {
    hide SignerOrder;
    assert forall x :: x in s[1..] ==> x in s;
  }

  lemma BeforeHead(s: seq<DocSign>, t: seq<DocSign>, k: nat, i: nat)
    requires SortedBy(s, SignerOrder()) && SortedBy(t, SignerOrder()) && s != []
    requires multiset(s) == multiset(t) && i < k < |t| && t[k] == s[0]
    ensures t[i].address == s[0].address && t[i] in s
  {
    SameElements(s, t);
    assert t[i] in s;
    var j :| 0 <= j < |s| && s[j] == t[i];
    LexTotal(s[0].address, s[0].address);
    assert SignerOrder()(t[i], t[k]) && (j > 0 ==> SignerOrder()(s[0], s[j]));
    assert SignerAddress()(t[i]) == t[i].address && SignerAddress()(s[0]) == s[0].address;
    LexAntisymmetric(s[0].address, t[i].address);
  }

  lemma SwapShows(doc: DocumentData, enc: Encoding, a: DocSign, b: DocSign, rest: seq<DocSign>)
    requires doc.BSDocData? && a.address == b.address
    requires BSDocBytes(doc.(signers := [a, b] + rest), enc) == BSDocBytes(doc.(signers := [b, a] + rest), enc)
    ensures a.Bytes() + b.Bytes() == b.Bytes() + a.Bytes()
  {
    hide BSDocBytes, Insert, Sort, Flatten, BSDocHead;
    KeyOrder(SignerAddress(), SignerOrder());
    LexTotal(a.address, a.address);
    var front, back := InsertBoth(a, b, Sort(rest, SignerOrder()), SignerOrder());
    BytesOfPair(doc, enc, a, b, rest, front, back);
    BytesOfPair(doc, enc, b, a, rest, front, back);
    MiddleEqual(BSDocHead(doc, enc), Flatten(Map(front, SignerBytes())), a.Bytes() + b.Bytes(), b.Bytes() + a.Bytes(),
                Flatten(Map(back, SignerBytes())));
  }

  lemma BytesOfPair(doc: DocumentData, enc: Encoding, a: DocSign, b: DocSign, rest: seq<DocSign>, front: seq<DocSign>, back: seq<DocSign>)
    requires doc.BSDocData?
    requires Insert(a, Insert(b, Sort(rest, SignerOrder()), SignerOrder()), SignerOrder()) == front + [a, b] + back
    ensures BSDocBytes(doc.(signers := [a, b] + rest), enc)
            == BSDocHead(doc, enc) + (Flatten(Map(front, SignerBytes())) + (a.Bytes() + b.Bytes()) + Flatten(Map(back, SignerBytes())))
  {
    hide Insert, Sort, Flatten, SignerBytes, SignerOrder;
    SortPair(a, b, rest, SignerOrder());
    SignerParts(front, a, b, back);
  }

  lemma SignerParts(front: seq<DocSign>, a: DocSign, b: DocSign, back: seq<DocSign>)
    ensures Flatten(Map(front + [a, b] + back, SignerBytes()))
            == Flatten(Map(front, SignerBytes())) + (a.Bytes() + b.Bytes()) + Flatten(Map(back, SignerBytes()))
  {
    var bytes := SignerBytes();
    assert Map(front + [a, b] + back, bytes) == Map(front, bytes) + [a.Bytes(), b.Bytes()] + Map(back, bytes);
    FlattenAppend(Map(front, bytes) + [a.Bytes(), b.Bytes()], Map(back, bytes));
    FlattenAppend(Map(front, bytes), [a.Bytes(), b.Bytes()]);
    assert [a.Bytes(), b.Bytes()][1..] == [b.Bytes()];
    assert Flatten([b.Bytes()]) == b.Bytes() + Flatten([]);
  }

  lemma MiddleEqual(h: string, f: string, x: string, y: string, g: string)
    requires |x| == |y| && h + (f + x + g) == h + (f + y + g)
    ensures x == y
  {
    assert x == (h + (f + x + g))[|h| + |f|..|h| + |f| + |x|];
    assert y == (h + (f + y + g))[|h| + |f|..|h| + |f| + |x|];
  }

  /** A blocksign document has the same bytes for every order of its signers if and only if
      entries of one address read the same in either order. */
  lemma BSDocBytesOrderFreeIff(doc: DocumentData, enc: Encoding)
    requires doc.BSDocData?
    ensures (forall signers :: multiset(signers) == multiset(doc.signers) ==>
               BSDocBytes(doc.(signers := signers), enc) == BSDocBytes(doc, enc))
            <==> SwapFree(doc.signers)
  {
    hide BSDocBytes;
    if SwapFree(doc.signers) {
      forall signers | multiset(signers) == multiset(doc.signers)
        ensures BSDocBytes(doc.(signers := signers), enc) == BSDocBytes(doc, enc)
      {
        SwapFreeBytes(doc, signers, enc);
      }
    }
    if forall signers :: multiset(signers) == multiset(doc.signers) ==>
         BSDocBytes(doc.(signers := signers), enc) == BSDocBytes(doc, enc)
    {
      forall a, b | a in doc.signers && b in doc.signers && a.address == b.address
        ensures a.Bytes() + b.Bytes() == b.Bytes() + a.Bytes()
      {
        if a != b {
          var rest := PairInFront(doc.signers, a, b);
          SwapShows(doc, enc, a, b, rest);
        }
      }
    }
  }

  lemma PairInFront(signers: seq<DocSign>, a: DocSign, b: DocSign) returns (rest: seq<DocSign>)
    requires a in signers && b in signers && a != b
    ensures multiset([a, b] + rest) == multiset(signers) == multiset([b, a] + rest)
  {
    var more := ToFront(signers, a);
    SameElements([a] + more, signers);
    assert b in [a] + more && b in more;
    rest := ToFront(more, b);
    assert [a, b] + rest == [a] + ([b] + rest);
    assert multiset([a, b] + rest) == multiset{a} + multiset([b] + rest);
    assert multiset([a] + more) == multiset{a} + multiset(more);
  }

  lemma SwapFreeBytes(doc: DocumentData, signers: seq<DocSign>, enc: Encoding)
    requires doc.BSDocData? && multiset(signers) == multiset(doc.signers) && SwapFree(doc.signers)
    ensures BSDocBytes(doc.(signers := signers), enc) == BSDocBytes(doc, enc)
  {
    var order := SignerOrder();
    KeyOrder(SignerAddress(), order);
    SortSorted(doc.signers, order);
    SortSorted(signers, order);
    SortMultiset(doc.signers, order);
    SortMultiset(signers, order);
    SameElements(Sort(doc.signers, order), doc.signers);
    ArrangementsAgree(Sort(doc.signers, order), Sort(signers, order));
  }

  /** A valid document whose bytes show the order of two entries of one address. */
  lemma BSDocBytesShowOrder(enc: Encoding)
    ensures
      var one, two := DocSign("a", "1", false), DocSign("a", "2", false);
      var doc := BSDocData(DocInfo("xsdi", "mitum-blocksign-document-data"), "a", "f", one, "", 0, [one, two]);
      && doc.Valid() && multiset(doc.signers) == multiset([two, one])
      && BSDocBytes(doc, enc) != BSDocBytes(doc.(signers := [two, one]), enc)
  {
    var one, two := DocSign("a", "1", false), DocSign("a", "2", false);
    var doc := BSDocData(DocInfo("xsdi", "mitum-blocksign-document-data"), "a", "f", one, "", 0, [one, two]);
    assert doc.(signers := [one, two] + []) == doc && doc.(signers := [two, one] + []) == doc.(signers := [two, one]);
    hide BSDocBytes;
    assert [one, two] + [] == [one, two] && [two, one] + [] == [two, one];
    assert (one.Bytes() + two.Bytes())[1] == '1' && (two.Bytes() + one.Bytes())[1] == '2';
    if BSDocBytes(doc, enc) == BSDocBytes(doc.(signers := [two, one]), enc) {
      SwapShows(doc, enc, one, two, []);
    }
  }
}
