/** The stored form of a journal: a JSON value in which every bigint is a
    canonical decimal string. JSON text itself is not modelled; object keys are
    the fixed names the encoder writes. */
module Serialization {
  import opened Journal

  datatype Key =
    | KVersion | KIdentity | KChainId | KSigner | KBaseline | KLastObservation | KNextNonce
    | KDurableNextNonce | KRepairs | KAttempts | KAnchor | KNonce | KBlockNumber | KBlockHash
    | KKind | KAt | KPreviousNextNonce | KObservation | KAttemptId | KWorkId | KCreatedAt | KPhase
    | KSignedTransactions | KTransactionHash | KSignedTransaction | KReplacementSearch | KLowerBound
    | KSearchedThrough | KInclusion | KObservedAt | KOutcome | KReplacementTransactionHash | KNonceAtAnchor

  datatype Json =
    | JNull
    | JNumber(n: int)
    | JString(text: string)
    | JArray(items: seq<Json>)
    | JObject(fields: map<Key, Json>)

  const MAX_JOURNAL_BYTES: nat := 1_048_576
  const MAX_DECIMAL_DIGITS: nat := 78

  // Decimal strings

  function Digit(d: nat): char
    requires d < 10
  {
    ('0' as int + d) as char
  }

  predicate IsDigit(c: char) {
    '0' <= c <= '9'
  }

  function PrintDecimal(n: nat): string {
    if n < 10 then [Digit(n)] else PrintDecimal(n / 10) + [Digit(n % 10)]
  }

  predicate AllDigits(text: string) {
    forall k :: 0 <= k < |text| ==> IsDigit(text[k])
  }

  function ReadDigits(text: string): nat
    requires AllDigits(text)
  {
    if text == "" then 0
    else 10 * ReadDigits(text[..|text| - 1]) + (text[|text| - 1] as int - '0' as int)
  }

  /** The only spelling the decoder accepts for an integer. */
  predicate Canonical(text: string) {
    0 < |text| <= MAX_DECIMAL_DIGITS && AllDigits(text) && (|text| > 1 ==> text[0] != '0')
  }

  function ReadDecimal(j: Json): Option<nat> {
    if j.JString? && Canonical(j.text) then Some(ReadDigits(j.text)) else None
  }

  function PowerOfTen(k: nat): nat {
    if k == 0 then 1 else 10 * PowerOfTen(k - 1)
  }

  lemma {:induction false} PowerAdds(a: nat, b: nat)
    ensures PowerOfTen(a + b) == PowerOfTen(a) * PowerOfTen(b)
  {
    if a > 0 {
      PowerAdds(a - 1, b);
      assert PowerOfTen(a + b) == 10 * (PowerOfTen(a - 1) * PowerOfTen(b));
      assert 10 * (PowerOfTen(a - 1) * PowerOfTen(b)) == (10 * PowerOfTen(a - 1)) * PowerOfTen(b);
    }
  }

  const TEN_TO_13: nat := 10_000_000_000_000

  lemma PowerThirteen()
    ensures PowerOfTen(13) == TEN_TO_13
  {
    assert PowerOfTen(3) == 1000;
    PowerAdds(3, 3);
    PowerAdds(6, 6);
    PowerAdds(12, 1);
  }

  lemma PowerThirtyNine()
    ensures PowerOfTen(39) == TEN_TO_13 * TEN_TO_13 * TEN_TO_13
  {
    PowerThirteen();
    PowerAdds(13, 13);
    PowerAdds(26, 13);
  }

  lemma Uint256FitsDigits()
    ensures UINT256_LIMIT < PowerOfTen(MAX_DECIMAL_DIGITS)
  {
    PowerThirtyNine();
    PowerAdds(39, 39);
    hide PowerOfTen;
  }

  lemma {:induction false} PrintLength(n: nat, k: nat)
    requires k > 0 && n < PowerOfTen(k)
    ensures 0 < |PrintDecimal(n)| <= k
    decreases k
  {
    if n >= 10 {
      assert n / 10 < PowerOfTen(k - 1);
      PrintLength(n / 10, k - 1);
    }
  }

  lemma {:induction false} PrintReads(n: nat)
    ensures AllDigits(PrintDecimal(n)) && ReadDigits(PrintDecimal(n)) == n
    ensures |PrintDecimal(n)| > 0 && (n > 0 ==> PrintDecimal(n)[0] != '0')
    ensures n >= 10 ==> |PrintDecimal(n)| > 1
  {
    var text := PrintDecimal(n);
    if n < 10 {
      assert text[..0] == "";
    } else {
      PrintReads(n / 10);
      assert text[..|text| - 1] == PrintDecimal(n / 10);
      assert text[0] == PrintDecimal(n / 10)[0];
    }
  }

  lemma {:induction false} ReadPrints(text: string)
    requires |text| > 0 && AllDigits(text) && (|text| > 1 ==> text[0] != '0')
    ensures PrintDecimal(ReadDigits(text)) == text
    ensures |text| > 1 ==> ReadDigits(text) >= 10
    ensures text[0] != '0' ==> ReadDigits(text) >= 1
    decreases |text|
  {
    var front := text[..|text| - 1];
    var d: int := text[|text| - 1] as int - '0' as int;
    assert Digit(d) == text[|text| - 1];
    if |text| == 1 {
      assert front == "";
    } else {
      ReadPrints(front);
      assert ReadDigits(front) >= 1;
      assert ReadDigits(text) / 10 == ReadDigits(front) && ReadDigits(text) % 10 == d;
      assert text == front + [Digit(d)];
    }
  }

  /** Decimal strings are exact both ways: every uint256 prints to a string of at
      most 78 digits that reads back, and every accepted string is that spelling. */
  lemma DecimalRoundTrip(n: nat, text: string)
    ensures n < UINT256_LIMIT ==> ReadDecimal(JString(PrintDecimal(n))) == Some(n)
    ensures ReadDecimal(JString(text)) == Some(n) ==> PrintDecimal(n) == text
  {
    if n < UINT256_LIMIT {
      Uint256FitsDigits();
      PrintLength(n, MAX_DECIMAL_DIGITS);
      PrintReads(n);
    }
    if Canonical(text) {
      ReadPrints(text);
    }
  }

  // Encoding

  function EncodeUint(n: nat): Json { JString(PrintDecimal(n)) }

  function EncodeAnchor(a: Anchor): Json {
    JObject(map[KBlockNumber := EncodeUint(a.number), KBlockHash := JString(a.hash.hex)])
  }

  function EncodeObservation(o: Observation): Json {
    JObject(map[KAnchor := EncodeAnchor(o.anchor), KNonce := EncodeUint(o.nonce)])
  }

  function EncodeSearch(s: Option<Search>): Json {
    match s
    case None => JNull
    case Some(search) =>
      JObject(map[
        KLowerBound := EncodeObservation(search.lowerBound),
        KSearchedThrough := if search.through.None? then JNull else EncodeAnchor(search.through.value)])
  }

  function EncodeTx(t: SignedTx): Json {
    JObject(map[KTransactionHash := JString(t.hash.hex), KSignedTransaction := JString(t.raw)])
  }

  function EncodeTxs(txs: seq<SignedTx>): seq<Json> {
    if txs == [] then [] else [EncodeTx(txs[0])] + EncodeTxs(txs[1..])
  }

  function EncodePhase(p: Phase): Json {
    match p
    case Signed => JString("signed")
    case MayBeBroadcast => JString("broadcast-may-have-occurred")
    case Included(_) => JString("included")
  }

  function EncodeInclusion(p: Phase): Json {
    if !p.Included? then JNull
    else
      var i := p.inclusion;
      match i.outcome
      case Success(hash) =>
        JObject(map[KInclusion := EncodeAnchor(i.block), KObservedAt := EncodeAnchor(i.observedAt),
                    KOutcome := JString("success"), KTransactionHash := JString(hash.hex)])
      case Reverted(hash) =>
        JObject(map[KInclusion := EncodeAnchor(i.block), KObservedAt := EncodeAnchor(i.observedAt),
                    KOutcome := JString("reverted"), KTransactionHash := JString(hash.hex)])
      case Replaced(hash, count) =>
        JObject(map[KInclusion := EncodeAnchor(i.block), KObservedAt := EncodeAnchor(i.observedAt),
                    KOutcome := JString("replaced"), KReplacementTransactionHash := JString(hash.hex),
                    KNonceAtAnchor := EncodeUint(count)])
  }

  function EncodeAttempt(a: Attempt): Json {
    JObject(map[
      KAttemptId := JString(a.id.text), KWorkId := JString(a.workId.text), KNonce := EncodeUint(a.nonce),
      KCreatedAt := JString(a.createdAt.iso), KPhase := EncodePhase(a.phase),
      KSignedTransactions := JArray(EncodeTxs(a.txs)), KReplacementSearch := EncodeSearch(a.search),
      KInclusion := EncodeInclusion(a.phase)])
  }

  function EncodeAttempts(attempts: seq<Attempt>): seq<Json> {
    if attempts == [] then [] else [EncodeAttempt(attempts[0])] + EncodeAttempts(attempts[1..])
  }

  function EncodeRepair(r: Repair): Json {
    JObject(map[
      KKind := JString("sync-nonce"), KAt := JString(r.at.iso),
      KPreviousNextNonce := EncodeUint(r.previousNextNonce), KNextNonce := EncodeUint(r.nextNonce),
      KObservation := EncodeObservation(r.observation)])
  }

  function EncodeRepairs(repairs: seq<Repair>): seq<Json> {
    if repairs == [] then [] else [EncodeRepair(repairs[0])] + EncodeRepairs(repairs[1..])
  }

  function EncodeIdentity(i: Identity): Json {
    JObject(map[KChainId := JNumber(i.chainId), KSigner := JString(i.signer.hex)])
  }

  function EncodeSnapshot(s: Snapshot): Json {
    JObject(map[
      KVersion := JNumber(1),
      KIdentity := EncodeIdentity(s.identity),
      KBaseline := EncodeObservation(s.baseline), KLastObservation := EncodeObservation(s.lastObservation),
      KNextNonce := EncodeUint(s.nextNonce), KDurableNextNonce := EncodeUint(s.durableNextNonce),
      KRepairs := JArray(EncodeRepairs(s.repairs)), KAttempts := JArray(EncodeAttempts(s.attempts))])
  }

  // Decoding

  function Get(j: Json, k: Key): Option<Json> {
    if j.JObject? && k in j.fields then Some(j.fields[k]) else None
  }

  function GetText(j: Json, k: Key): Option<string> {
    var v :- Get(j, k);
    if v.JString? then Some(v.text) else None
  }

  function GetUint(j: Json, k: Key): Option<nat> {
    var v :- Get(j, k);
    ReadDecimal(v)
  }

  function DecodeAnchor(j: Json): Option<Anchor> {
    var number :- GetUint(j, KBlockNumber);
    var hash :- GetText(j, KBlockHash);
    Some(Anchor(number, Hash(hash)))
  }

  function DecodeObservation(j: Json): Option<Observation> {
    var anchor :- Get(j, KAnchor);
    var decoded :- DecodeAnchor(anchor);
    var nonce :- GetUint(j, KNonce);
    Some(Observation(decoded, nonce))
  }

  function DecodeSearch(j: Json): Option<Option<Search>> {
    if j.JNull? then Some(None)
    else
      var rawThrough :- Get(j, KSearchedThrough);
      var rawLower :- Get(j, KLowerBound);
      var lower :- DecodeObservation(rawLower);
      if rawThrough.JNull? then Some(Some(Search(lower, None)))
      else
        var through :- DecodeAnchor(rawThrough);
        Some(Some(Search(lower, Some(through))))
  }

  function DecodeTx(j: Json): Option<SignedTx> {
    var hash :- GetText(j, KTransactionHash);
    var raw :- GetText(j, KSignedTransaction);
    Some(SignedTx(Hash(hash), raw))
  }

  function DecodeTxs(items: seq<Json>): Option<seq<SignedTx>> {
    if items == [] then Some([])
    else
      var first :- DecodeTx(items[0]);
      var rest :- DecodeTxs(items[1..]);
      Some([first] + rest)
  }

  function DecodeOutcome(j: Json): Option<Outcome> {
    var outcome :- GetText(j, KOutcome);
    if outcome == "success" || outcome == "reverted" then
      var hash :- GetText(j, KTransactionHash);
      Some(if outcome == "success" then Success(Hash(hash)) else Reverted(Hash(hash)))
    else if outcome == "replaced" then
      var hash :- GetText(j, KReplacementTransactionHash);
      var count :- GetUint(j, KNonceAtAnchor);
      Some(Replaced(Hash(hash), count))
    else None
  }

  function DecodePhase(phase: string, j: Json): Option<Phase> {
    if phase == "signed" then (if j.JNull? then Some(Signed) else None)
    else if phase == "broadcast-may-have-occurred" then (if j.JNull? then Some(MayBeBroadcast) else None)
    else if phase == "included" then
      var rawBlock :- Get(j, KInclusion);
      var block :- DecodeAnchor(rawBlock);
      var rawSeen :- Get(j, KObservedAt);
      var seen :- DecodeAnchor(rawSeen);
      var outcome :- DecodeOutcome(j);
      Some(Included(Inclusion(block, seen, outcome)))
    else None
  }

  function DecodeAttempt(j: Json): Option<Attempt> {
    var id :- GetText(j, KAttemptId);
    var workId :- GetText(j, KWorkId);
    var nonce :- GetUint(j, KNonce);
    var createdAt :- GetText(j, KCreatedAt);
    var phaseText :- GetText(j, KPhase);
    var rawTxs :- Get(j, KSignedTransactions);
    if !rawTxs.JArray? then None
    else
      var txs :- DecodeTxs(rawTxs.items);
      var rawSearch :- Get(j, KReplacementSearch);
      var search :- DecodeSearch(rawSearch);
      var rawInclusion :- Get(j, KInclusion);
      var phase :- DecodePhase(phaseText, rawInclusion);
      Some(Attempt(Uuid(id), WorkId(workId), nonce, Timestamp(createdAt), txs, phase, search))
  }

  function DecodeAttempts(items: seq<Json>): Option<seq<Attempt>> {
    if items == [] then Some([])
    else
      var first :- DecodeAttempt(items[0]);
      var rest :- DecodeAttempts(items[1..]);
      Some([first] + rest)
  }

  function DecodeRepair(j: Json): Option<Repair> {
    var kind :- GetText(j, KKind);
    var at :- GetText(j, KAt);
    var previous :- GetUint(j, KPreviousNextNonce);
    var next :- GetUint(j, KNextNonce);
    var rawObservation :- Get(j, KObservation);
    var observation :- DecodeObservation(rawObservation);
    if kind == "sync-nonce" then Some(Repair(Timestamp(at), previous, next, observation)) else None
  }

  function DecodeRepairs(items: seq<Json>): Option<seq<Repair>> {
    if items == [] then Some([])
    else
      var first :- DecodeRepair(items[0]);
      var rest :- DecodeRepairs(items[1..]);
      Some([first] + rest)
  }

  function DecodeIdentity(j: Json): Option<Identity> {
    var chainId :- Get(j, KChainId);
    var signer :- GetText(j, KSigner);
    if chainId.JNumber? && chainId.n > 0 then Some(Identity(chainId.n, Address(signer))) else None
  }

  /** The decoded snapshot, accepted only when it is structurally valid and of the
      expected identity. */
  function DecodeSnapshot(j: Json, expected: Identity): (r: Option<Snapshot>)
    ensures r.Some? ==> Valid(r.value) && r.value.identity == expected
  {
    var version :- Get(j, KVersion);
    var rawIdentity :- Get(j, KIdentity);
    var identity :- DecodeIdentity(rawIdentity);
    var rawBaseline :- Get(j, KBaseline);
    var baseline :- DecodeObservation(rawBaseline);
    var rawLast :- Get(j, KLastObservation);
    var last :- DecodeObservation(rawLast);
    var next :- GetUint(j, KNextNonce);
    var durable :- GetUint(j, KDurableNextNonce);
    var rawRepairs :- Get(j, KRepairs);
    var rawAttempts :- Get(j, KAttempts);
    if version != JNumber(1) || !rawRepairs.JArray? || |rawRepairs.items| > MAX_RETAINED_NONCE_REPAIRS || !rawAttempts.JArray?
    then None
    else
      var repairs :- DecodeRepairs(rawRepairs.items);
      var attempts :- DecodeAttempts(rawAttempts.items);
      var s := Snapshot(identity, baseline, last, next, durable, repairs, attempts);
      if identity == expected && Valid(s) then Some(s) else None
  }

  // Round trip

  lemma UintReads(n: nat)
    requires n < UINT256_LIMIT
    ensures ReadDecimal(EncodeUint(n)) == Some(n)
  {
    DecimalRoundTrip(n, PrintDecimal(n));
  }

  lemma AnchorReads(a: Anchor)
    requires ValidAnchor(a)
    ensures DecodeAnchor(EncodeAnchor(a)) == Some(a)
  {
    UintReads(a.number);
  }

  lemma ObservationReads(o: Observation)
    requires ValidObservation(o)
    ensures DecodeObservation(EncodeObservation(o)) == Some(o)
  {
    AnchorReads(o.anchor);
    UintReads(o.nonce);
  }

  lemma SearchReads(s: Option<Search>, nonce: nat)
    requires s.Some? ==> ValidSearch(s.value, nonce)
    ensures DecodeSearch(EncodeSearch(s)) == Some(s)
  {
    if s.Some? {
      ObservationReads(s.value.lowerBound);
      if s.value.through.Some? { AnchorReads(s.value.through.value); }
    }
  }

  lemma {:induction false} TxsRead(txs: seq<SignedTx>)
    ensures DecodeTxs(EncodeTxs(txs)) == Some(txs)
  {
    if txs != [] {
      TxsRead(txs[1..]);
      assert EncodeTxs(txs)[1..] == EncodeTxs(txs[1..]);
      assert DecodeTx(EncodeTx(txs[0])) == Some(txs[0]);
      assert txs == [txs[0]] + txs[1..];
    }
  }

  lemma InclusionReads(i: Inclusion, nonce: nat, txs: seq<SignedTx>)
    requires ValidInclusion(i, nonce, txs)
    ensures DecodePhase("included", EncodeInclusion(Included(i))) == Some(Included(i))
  {
    AnchorReads(i.block);
    AnchorReads(i.observedAt);
    if i.outcome.Replaced? { UintReads(i.outcome.nonceAtAnchor); }
    assert DecodeOutcome(EncodeInclusion(Included(i))) == Some(i.outcome);
  }

  lemma PhaseReads(a: Attempt)
    requires ValidAttempt(a)
    ensures DecodePhase(EncodePhase(a.phase).text, EncodeInclusion(a.phase)) == Some(a.phase)
  {
    if a.phase.Included? { InclusionReads(a.phase.inclusion, a.nonce, a.txs); }
  }

  lemma AttemptFields(a: Attempt)
    ensures var j := EncodeAttempt(a);
      && GetText(j, KAttemptId) == Some(a.id.text) && GetText(j, KWorkId) == Some(a.workId.text)
      && Get(j, KNonce) == Some(EncodeUint(a.nonce)) && GetText(j, KCreatedAt) == Some(a.createdAt.iso)
      && GetText(j, KPhase) == Some(EncodePhase(a.phase).text)
      && Get(j, KSignedTransactions) == Some(JArray(EncodeTxs(a.txs)))
      && Get(j, KReplacementSearch) == Some(EncodeSearch(a.search))
      && Get(j, KInclusion) == Some(EncodeInclusion(a.phase))
  {
  }

  lemma AttemptReads(a: Attempt)
    requires ValidAttempt(a)
    ensures DecodeAttempt(EncodeAttempt(a)) == Some(a)
  {
    var j := EncodeAttempt(a);
    AttemptFields(a);
    assert GetUint(j, KNonce) == Some(a.nonce) by { UintReads(a.nonce); }
    assert DecodeTxs(EncodeTxs(a.txs)) == Some(a.txs) by { TxsRead(a.txs); }
    assert DecodeSearch(EncodeSearch(a.search)) == Some(a.search) by { SearchReads(a.search, a.nonce); }
    assert DecodePhase(EncodePhase(a.phase).text, EncodeInclusion(a.phase)) == Some(a.phase) by { PhaseReads(a); }
  }

  lemma {:induction false} AttemptsRead(attempts: seq<Attempt>)
    requires forall k :: 0 <= k < |attempts| ==> ValidAttempt(attempts[k])
    ensures DecodeAttempts(EncodeAttempts(attempts)) == Some(attempts)
  {
    hide EncodeAttempt;
    hide DecodeAttempt;
    if attempts != [] {
      hide ValidAttempt;
      AttemptReads(attempts[0]);
      AttemptsRead(attempts[1..]);
      assert EncodeAttempts(attempts)[1..] == EncodeAttempts(attempts[1..]);
      assert attempts == [attempts[0]] + attempts[1..];
    }
  }

  lemma RepairReads(r: Repair)
    requires ValidRepair(r)
    ensures DecodeRepair(EncodeRepair(r)) == Some(r)
  {
    UintReads(r.previousNextNonce);
    UintReads(r.nextNonce);
    ObservationReads(r.observation);
  }

  lemma {:induction false} RepairsRead(repairs: seq<Repair>)
    requires forall k :: 0 <= k < |repairs| ==> ValidRepair(repairs[k])
    ensures DecodeRepairs(EncodeRepairs(repairs)) == Some(repairs) && |EncodeRepairs(repairs)| == |repairs|
  {
    hide EncodeRepair;
    hide DecodeRepair;
    if repairs != [] {
      hide ValidRepair;
      RepairReads(repairs[0]);
      RepairsRead(repairs[1..]);
      assert EncodeRepairs(repairs)[1..] == EncodeRepairs(repairs[1..]);
      assert repairs == [repairs[0]] + repairs[1..];
    }
  }

  lemma IdentityReads(i: Identity)
    requires ValidIdentity(i)
    ensures DecodeIdentity(EncodeIdentity(i)) == Some(i)
  {
  }

  /** Every part of a valid snapshot reads back on its own. */
  lemma PartsRead(s: Snapshot)
    requires Valid(s)
    ensures DecodeIdentity(EncodeIdentity(s.identity)) == Some(s.identity)
    ensures DecodeObservation(EncodeObservation(s.baseline)) == Some(s.baseline)
    ensures DecodeObservation(EncodeObservation(s.lastObservation)) == Some(s.lastObservation)
    ensures ReadDecimal(EncodeUint(s.nextNonce)) == Some(s.nextNonce)
    ensures ReadDecimal(EncodeUint(s.durableNextNonce)) == Some(s.durableNextNonce)
    ensures DecodeRepairs(EncodeRepairs(s.repairs)) == Some(s.repairs)
    ensures |EncodeRepairs(s.repairs)| == |s.repairs| <= MAX_RETAINED_NONCE_REPAIRS
    ensures DecodeAttempts(EncodeAttempts(s.attempts)) == Some(s.attempts)
  {
    hide EncodeIdentity;
    hide EncodeObservation;
    hide DecodeObservation;
    hide EncodeUint;
    hide ReadDecimal;
    hide EncodeRepairs;
    hide DecodeRepairs;
    hide EncodeAttempts;
    hide DecodeAttempts;
    hide DistinctIds;
    hide DistinctHashes;
    IdentityReads(s.identity);
    ObservationReads(s.baseline);
    ObservationReads(s.lastObservation);
    UintReads(s.nextNonce);
    UintReads(s.durableNextNonce);
    RepairsRead(s.repairs);
    AttemptsRead(s.attempts);
  }

  /** Whatever valid journal is stored is exactly what the next process loads. */
  lemma SnapshotRoundTrip(s: Snapshot)
    requires Valid(s)
    ensures DecodeSnapshot(EncodeSnapshot(s), s.identity) == Some(s)
  {
    hide Valid;
    hide EncodeSnapshot;
    hide Get;
    hide EncodeIdentity;
    hide DecodeIdentity;
    hide EncodeObservation;
    hide DecodeObservation;
    hide EncodeUint;
    hide ReadDecimal;
    hide EncodeRepairs;
    hide DecodeRepairs;
    hide EncodeAttempts;
    hide DecodeAttempts;
    PartsRead(s);
    SnapshotFields(s);
  }

  lemma SnapshotFields(s: Snapshot)
    ensures var j := EncodeSnapshot(s);
      && Get(j, KVersion) == Some(JNumber(1)) && Get(j, KIdentity) == Some(EncodeIdentity(s.identity))
      && Get(j, KBaseline) == Some(EncodeObservation(s.baseline))
      && Get(j, KLastObservation) == Some(EncodeObservation(s.lastObservation))
      && Get(j, KNextNonce) == Some(EncodeUint(s.nextNonce))
      && Get(j, KDurableNextNonce) == Some(EncodeUint(s.durableNextNonce))
      && Get(j, KRepairs) == Some(JArray(EncodeRepairs(s.repairs)))
      && Get(j, KAttempts) == Some(JArray(EncodeAttempts(s.attempts)))
  {
  }

  function SignedLength(txs: seq<SignedTx>): nat {
    if txs == [] then 0 else SignedLength(txs[..|txs| - 1]) + |txs[|txs| - 1].raw|
  }

  function QueueLength(attempts: seq<Attempt>): nat {
    if attempts == [] then 0 else QueueLength(attempts[..|attempts| - 1]) + SignedLength(attempts[|attempts| - 1].txs)
  }

  lemma {:induction false} SignedLengthGrows(txs: seq<SignedTx>, k: nat)
    requires k <= |txs|
    ensures SignedLength(txs[..k]) <= SignedLength(txs)
    decreases |txs|
  {
    if k < |txs| {
      SignedLengthGrows(txs[..|txs| - 1], k);
      assert txs[..|txs| - 1][..k] == txs[..k];
    } else {
      assert txs[..k] == txs;
    }
  }

  lemma {:induction false} QueueLengthGrows(attempts: seq<Attempt>, k: nat)
    requires k <= |attempts|
    ensures QueueLength(attempts[..k]) <= QueueLength(attempts)
    decreases |attempts|
  {
    if k < |attempts| {
      QueueLengthGrows(attempts[..|attempts| - 1], k);
      assert attempts[..|attempts| - 1][..k] == attempts[..k];
    } else {
      assert attempts[..k] == attempts;
    }
  }

  /** The two checks that need the text and the signed bytes themselves: the size of the
      JSON text in bytes, and the verification of every signed transaction. */
  datatype Checks = Checks(bytes: Json -> nat, verifies: Snapshot -> bool)

  /** The text holds at least the signed bytes it spells out. */
  ghost predicate CountsSignedBytes(checks: Checks) {
    forall s: Snapshot :: QueueLength(s.attempts) <= checks.bytes(EncodeSnapshot(s))
  }

  function DecodeJournal(j: Json, expected: Identity, checks: Checks): Option<Snapshot> {
    if checks.bytes(j) > MAX_JOURNAL_BYTES then None
    else
      var s :- DecodeSnapshot(j, expected);
      if checks.verifies(s) then Some(s) else None
  }

  /** Encoding succeeds exactly for the valid, verified snapshots of this signer whose
      text is within the file limit: counting the signed bytes first only refuses early
      what the size of the text would refuse anyway. */
  method EncodeJournal(s: Snapshot, expected: Identity, checks: Checks) returns (r: Option<Json>)
    ensures r.Some? <==>
      && s.identity == expected && Valid(s) && checks.verifies(s)
      && QueueLength(s.attempts) <= MAX_JOURNAL_BYTES && checks.bytes(EncodeSnapshot(s)) <= MAX_JOURNAL_BYTES
    ensures CountsSignedBytes(checks) ==>
      (r.Some? <==> s.identity == expected && Valid(s) && checks.verifies(s) && checks.bytes(EncodeSnapshot(s)) <= MAX_JOURNAL_BYTES)
    ensures r.Some? ==> DecodeJournal(r.value, expected, checks) == Some(s)
  {
    hide Valid;
    hide DecodeSnapshot;
    hide EncodeSnapshot;
    var ok := ValidateStructure(s, expected);
    if !ok { return None; }
    var length := 0;
    for i := 0 to |s.attempts|
      invariant length == QueueLength(s.attempts[..i]) <= MAX_JOURNAL_BYTES
    {
      var txs := s.attempts[i].txs;
      assert s.attempts[..i + 1][..i] == s.attempts[..i];
      for k := 0 to |txs|
        invariant length == QueueLength(s.attempts[..i]) + SignedLength(txs[..k]) <= MAX_JOURNAL_BYTES
      {
        length := length + |txs[k].raw|;
        assert txs[..k + 1][..k] == txs[..k];
        if length > MAX_JOURNAL_BYTES {
          SignedLengthGrows(txs, k + 1);
          QueueLengthGrows(s.attempts, i + 1);
          return None;
        }
      }
      assert txs[..|txs|] == txs;
    }
    assert s.attempts[..|s.attempts|] == s.attempts;
    SnapshotRoundTrip(s);
    var contents := EncodeSnapshot(s);
    if checks.bytes(contents) > MAX_JOURNAL_BYTES || !checks.verifies(s) { return None; }
    return Some(contents);
  }
}
