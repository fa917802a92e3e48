/** Sealing facts onto a stream and the store that keeps every stream and their global order. */
module EventStore {
  import opened Base
  import opened Framing
  import opened Journal

  datatype Fact = Fact(
    eventId: Text, eventType: Text, ceremonyId: Text, definitionName: Text, definitionVersion: Text,
    occurredAt: Text, instant: int, actorId: Text, actorKind: Text, actorRole: Option<Text>,
    correlationId: Option<Text>, causationId: Option<Text>, traceId: Option<Text>,
    eventSchemaVersion: u32, event: Text)

  datatype Evidence = Evidence(text: Text, admittedAt: int, validUntil: int)

  datatype StoreError =
    | NoFacts | ForeignFact | RepeatedEvent | AlteredPredecessor | ForeignPredecessor | EvidenceNotLive

  /** The evidence covers the instant of the fact. Facts without evidence are always admitted. */
  predicate Live(evidence: Option<Evidence>, fact: Fact) {
    evidence.Some? ==>
      && evidence.value.admittedAt < evidence.value.validUntil
      && evidence.value.admittedAt <= fact.instant < evidence.value.validUntil
  }

  /** So it does exactly when the fact happens from the admission on and before the expiry. */
  lemma {:induction false} LiveIs(evidence: Option<Evidence>, fact: Fact)
    ensures Live(evidence, fact) <==>
              evidence == None || evidence.value.admittedAt <= fact.instant < evidence.value.validUntil
  {
  }

  function Unsealed(fact: Fact, evidence: Option<Evidence>, sequence: u64, previousHash: Option<Text>): AuditRecord {
    AuditRecord(fact.eventId, fact.eventType, if evidence.Some? then AUTHORIZED else EVENT_BEARING, fact.ceremonyId,
                fact.definitionName, fact.definitionVersion, sequence, fact.occurredAt,
                fact.actorId, fact.actorKind, fact.actorRole,
                fact.correlationId, fact.causationId, fact.traceId,
                Some(fact.eventSchemaVersion), Some(fact.event),
                if evidence.Some? then Some(evidence.value.text) else None,
                previousHash, [])
  }

  /** Every field but position, link and digest comes from the fact and its evidence. */
  ghost predicate CarriesFact(fact: Fact, evidence: Option<Evidence>, r: AuditRecord) {
    && r.eventId == fact.eventId && r.eventType == fact.eventType && r.ceremonyId == fact.ceremonyId
    && r.definitionName == fact.definitionName && r.definitionVersion == fact.definitionVersion
    && r.occurredAt == fact.occurredAt
    && r.actorId == fact.actorId && r.actorKind == fact.actorKind && r.actorRole == fact.actorRole
    && r.correlationId == fact.correlationId && r.causationId == fact.causationId && r.traceId == fact.traceId
    && r.eventSchemaVersion == Some(fact.eventSchemaVersion) && r.event == Some(fact.event)
    && match evidence
       case None => r.schemaVersion == 2 && r.evidence == None
       case Some(e) => r.schemaVersion == 3 && r.evidence == Some(e.text)
  }

  /** Nothing is left open: the fact, its evidence and the predecessor determine the record but for its digest. */
  lemma {:induction false} CarriedIsDetermined(intact: Check, fact: Fact, evidence: Option<Evidence>,
                                               previous: Option<AuditRecord>, r: AuditRecord, q: AuditRecord)
    requires CarriesFact(fact, evidence, r) && LinksTo(intact, previous, r)
    requires CarriesFact(fact, evidence, q) && LinksTo(intact, previous, q)
    ensures r == q.(recordHash := r.recordHash)
  {
  }

  /** An intact record at the position after `previous`, or at the first one. */
  ghost predicate LinksTo(intact: Check, previous: Option<AuditRecord>, r: AuditRecord) {
    && intact(r)
    && (previous.None? ==> r.sequence == 1 && r.previousHash == None)
    && (previous.Some? ==>
          r.sequence == SaturatingNext(previous.value.sequence) && r.previousHash == Some(previous.value.recordHash))
  }

  /** `AuditRecord::seal`: position and previous digest are taken from the predecessor. */
  function Sealed(hash: Hash, fact: Fact, evidence: Option<Evidence>, previous: Option<AuditRecord>): (r: AuditRecord)
    ensures LinksTo(DigestCheck(hash), previous, r) && CarriesFact(fact, evidence, r)
  {
    var r :=
      match previous
      case None => Unsealed(fact, evidence, 1, None)
      case Some(p) => Unsealed(fact, evidence, SaturatingNext(p.sequence), Some(p.recordHash));
    var sealed := r.(recordHash := hash(Canonical(r)));
    CanonicalIgnoresDigest(r, sealed.recordHash);
    sealed
  }

  lemma {:induction false} CanonicalIgnoresDigest(r: AuditRecord, digest: Text)
    requires HasCanonicalShape(r)
    ensures Canonical(r.(recordHash := digest)) == Canonical(r)
  {
  }

  type Sealer = (Fact, Option<Evidence>, Option<AuditRecord>) -> AuditRecord

  function SealWith(hash: Hash): Sealer {
    (fact: Fact, evidence: Option<Evidence>, previous: Option<AuditRecord>) => Sealed(hash, fact, evidence, previous)
  }

  /** Sealing yields an intact record that carries the fact and links to its predecessor. */
  ghost predicate Seals(intact: Check, seal: Sealer) {
    forall fact, evidence, previous ::
      LinksTo(intact, previous, seal(fact, evidence, previous))
          && CarriesFact(fact, evidence, seal(fact, evidence, previous))
  }

  lemma {:induction false} SealWithSeals(hash: Hash)
    ensures Seals(DigestCheck(hash), SealWith(hash))
  {
  }

  function EventIds(records: seq<AuditRecord>): seq<Text> {
    seq(|records|, i requires 0 <= i < |records| => records[i].eventId)
  }

  function FactIds(facts: seq<Fact>): seq<Text> {
    seq(|facts|, i requires 0 <= i < |facts| => facts[i].eventId)
  }

  /** What a stored stream satisfies: one ceremony, one unbroken chain, no event id twice. */
  ghost predicate JournalOk(intact: Check, stream: Text, records: seq<AuditRecord>) {
    && IsChain(intact, records)
    && (forall i :: 0 <= i < |records| ==> records[i].ceremonyId == stream)
    && Distinct(EventIds(records))
  }

  /** What `seal_continuation` demands: facts of the stream with new event ids, and an intact record to continue. */
  ghost predicate Admissible(intact: Check, stream: Text, existing: seq<AuditRecord>, facts: seq<Fact>,
                             authorization: Option<Evidence>) {
    && facts != []
    && (forall i :: 0 <= i < |facts| ==> facts[i].ceremonyId == stream && Live(authorization, facts[i]))
    && AllNew(EventIds(existing), FactIds(facts))
    && Followable(intact, stream, Last(existing))
  }

  /** Why a batch is refused: the first of the demands that it does not meet. */
  ghost predicate Refuses(intact: Check, stream: Text, existing: seq<AuditRecord>, facts: seq<Fact>,
                          authorization: Option<Evidence>, error: StoreError) {
    var own := forall i :: 0 <= i < |facts| ==> facts[i].ceremonyId == stream;
    var fits := own && AllNew(EventIds(existing), FactIds(facts));
    match error
    case NoFacts => facts == []
    case ForeignFact => facts != [] && !own
    case RepeatedEvent => facts != [] && own && !fits
    case AlteredPredecessor => facts != [] && fits && existing != [] && !intact(existing[|existing| - 1])
    case ForeignPredecessor =>
      && facts != [] && fits && existing != [] && intact(existing[|existing| - 1])
      && existing[|existing| - 1].ceremonyId != stream
    case EvidenceNotLive =>
      && facts != [] && fits && Followable(intact, stream, Last(existing))
      && exists i :: 0 <= i < |facts| && !Live(authorization, facts[i])
  }

  lemma {:induction false} RefusesOneWay(intact: Check, stream: Text, existing: seq<AuditRecord>, facts: seq<Fact>,
                                         authorization: Option<Evidence>, e: StoreError, f: StoreError)
    requires Refuses(intact, stream, existing, facts, authorization, e)
    ensures !Admissible(intact, stream, existing, facts, authorization)
    ensures Refuses(intact, stream, existing, facts, authorization, f) ==> e == f
  {
  }

  ghost predicate AllNew(stored: seq<Text>, ids: seq<Text>) {
    Distinct(ids) && forall i :: 0 <= i < |ids| ==> ids[i] !in stored
  }

  /** What it means for a record to carry a fact. */
  type Carrier = (Fact, AuditRecord) -> bool

  ghost function CarrierOf(authorization: Option<Evidence>): Carrier {
    (fact: Fact, r: AuditRecord) => CarriesFact(fact, authorization, r)
  }

  ghost predicate Identifies(fact: Fact, r: AuditRecord) {
    r.eventId == fact.eventId && r.ceremonyId == fact.ceremonyId
  }

  /** Each record carries the fact at its position. */
  ghost predicate Carries(facts: seq<Fact>, carries: Carrier, records: seq<AuditRecord>) {
    && |records| == |facts|
    && forall i :: 0 <= i < |facts| ==> carries(facts[i], records[i]) && Identifies(facts[i], records[i])
  }

  /** Sealing with one authorization, for the facts of one batch. */
  ghost predicate SealsWith(intact: Check, seal: Sealer, authorization: Option<Evidence>, carries: Carrier) {
    forall fact, previous :: SealsOne(intact, previous, fact, carries, seal(fact, authorization, previous))
  }

  ghost predicate SealsOne(intact: Check, previous: Option<AuditRecord>, fact: Fact, carries: Carrier, r: AuditRecord) {
    LinksTo(intact, previous, r) && carries(fact, r) && Identifies(fact, r)
  }

  lemma {:induction false} SealsBatch(intact: Check, seal: Sealer, authorization: Option<Evidence>)
    requires Seals(intact, seal)
    ensures SealsWith(intact, seal, authorization, CarrierOf(authorization))
  {
    forall fact, previous
      ensures SealsOne(intact, previous, fact, CarrierOf(authorization), seal(fact, authorization, previous))
    {
      assert CarriesFact(fact, authorization, seal(fact, authorization, previous));
    }
  }

  /** The sealed records link on from the last existing one. */
  ghost predicate Linked(intact: Check, existing: seq<AuditRecord>, sealed: seq<AuditRecord>) {
    forall i :: 0 <= i < |sealed| ==> LinkedAt(intact, existing, sealed, i)
  }

  ghost predicate LinkedAt(intact: Check, existing: seq<AuditRecord>, sealed: seq<AuditRecord>, i: nat)
    requires i < |sealed|
  {
    LinksTo(intact, if i == 0 then Last(existing) else Some(sealed[i - 1]), sealed[i])
  }

  /** The scan for repeated event ids, over any stored records. */
  method RepeatsEvent(existing: seq<AuditRecord>, facts: seq<Fact>) returns (repeats: bool)
    ensures repeats <==> !AllNew(EventIds(existing), FactIds(facts))
  {
    ghost var stored, ids := EventIds(existing), FactIds(facts);
    var seen := set x | x in EventIds(existing);
    for k := 0 to |facts|
      invariant AllNew(stored, ids[..k])
      invariant forall x :: x in seen <==> x in stored || x in ids[..k]
    {
      assert ids[..k + 1] == ids[..k] + [facts[k].eventId];
      if facts[k].eventId in seen {
        RepeatedAt(stored, ids, k);
        return true;
      }
      seen := seen + {facts[k].eventId};
    }
    assert ids[..|facts|] == ids;
    return false;
  }

  lemma {:induction false} RepeatedAt(stored: seq<Text>, ids: seq<Text>, k: nat)
    requires k < |ids| && (ids[k] in stored || ids[k] in ids[..k])
    ensures !AllNew(stored, ids)
  {
    if ids[k] !in stored {
      var j :| 0 <= j < k && ids[..k][j] == ids[k];
      assert ids[j] == ids[k];
    }
  }

  function Last(records: seq<AuditRecord>): Option<AuditRecord> {
    if records == [] then None else Some(records[|records| - 1])
  }

  /** The sealing loop after `k` facts. */
  ghost predicate SealedUpTo(intact: Check, existing: seq<AuditRecord>, facts: seq<Fact>, carries: Carrier,
                             k: nat, sealed: seq<AuditRecord>) {
    k <= |facts| && Carries(facts[..k], carries, sealed) && Linked(intact, existing, sealed)
  }

  lemma {:induction false} SealNext(intact: Check, existing: seq<AuditRecord>, facts: seq<Fact>, carries: Carrier,
                                    k: nat, sealed: seq<AuditRecord>, r: AuditRecord)
    requires SealedUpTo(intact, existing, facts, carries, k, sealed) && k < |facts|
    requires SealsOne(intact, if k == 0 then Last(existing) else Some(sealed[k - 1]), facts[k], carries, r)
    ensures SealedUpTo(intact, existing, facts, carries, k + 1, sealed + [r])
  {
    var more := sealed + [r];
    forall i | 0 <= i < |more| ensures LinkedAt(intact, existing, more, i) {
      assert i < k ==> LinkedAt(intact, existing, sealed, i);
    }
    assert facts[..k + 1] == facts[..k] + [facts[k]];
  }

  /** A journal continued by linked records of its stream with new event ids is a journal. */
  lemma {:induction false} JournalContinues(intact: Check, stream: Text, existing: seq<AuditRecord>, facts: seq<Fact>,
                                            carries: Carrier, sealed: seq<AuditRecord>)
    requires JournalOk(intact, stream, existing) && Linked(intact, existing, sealed)
    requires Carries(facts, carries, sealed) && AllNew(EventIds(existing), FactIds(facts))
    requires forall i :: 0 <= i < |facts| ==> facts[i].ceremonyId == stream
    ensures JournalOk(intact, stream, existing + sealed)
  {
    forall i | 0 <= i < |sealed| ensures sealed[i].ceremonyId == stream {
      assert Identifies(facts[i], sealed[i]);
    }
    ChainContinues(intact, stream, existing, sealed);
    assert EventIds(existing + sealed) == EventIds(existing) + FactIds(facts);
    DistinctJoin(EventIds(existing), FactIds(facts));
  }

  lemma {:induction false} ChainContinues(intact: Check, stream: Text, existing: seq<AuditRecord>,
                                          sealed: seq<AuditRecord>)
    requires IsChain(intact, existing) && Linked(intact, existing, sealed)
    requires forall i :: 0 <= i < |existing| ==> existing[i].ceremonyId == stream
    requires forall i :: 0 <= i < |sealed| ==> sealed[i].ceremonyId == stream
    ensures IsChain(intact, existing + sealed)
  {
    var all, n := existing + sealed, |existing|;
    forall i | n <= i < |all| ensures LinksTo(intact, if i == 0 then None else Some(all[i - 1]), all[i]) {
      assert LinkedAt(intact, existing, sealed, i - n);
    }
    if n == 0 && sealed != [] {
      assert LinkedAt(intact, existing, sealed, 0);
    }
    forall i | 0 < i < |all| ensures Continues(intact, all[i - 1], all[i]) {
      if i < n {
        assert Continues(intact, existing[i - 1], existing[i]);
      }
    }
  }

  lemma {:induction false} DistinctJoin(stored: seq<Text>, ids: seq<Text>)
    requires Distinct(stored) && AllNew(stored, ids)
    ensures Distinct(stored + ids)
  {
    forall i, j | 0 <= i < |stored| && 0 <= j < |ids| ensures stored[i] != ids[j] {
      assert ids[j] !in stored;
    }
  }

  /**
   * `seal_continuation`, on any stored records: either the facts are refused and nothing is produced, or
   * the sealed records carry them and link on; a stream that was in order is then a longer one in order.
   */
  method SealContinuation(intact: Check, seal: Sealer, stream: Text, existing: seq<AuditRecord>,
                          facts: seq<Fact>, authorization: Option<Evidence>)
    returns (r: Result<seq<AuditRecord>, StoreError>)
    requires Seals(intact, seal)
    ensures r.Ok? <==> Admissible(intact, stream, existing, facts, authorization)
    ensures r.Err? ==> Refuses(intact, stream, existing, facts, authorization, r.error)
    ensures r.Ok? ==> Carries(facts, CarrierOf(authorization), r.value) && Linked(intact, existing, r.value)
    ensures r.Ok? && JournalOk(intact, stream, existing) ==> JournalOk(intact, stream, existing + r.value)
  {
    if facts == [] {
      return Err(NoFacts);
    }
    if i :| 0 <= i < |facts| && facts[i].ceremonyId != stream {
      return Err(ForeignFact);
    }
    var repeats := RepeatsEvent(existing, facts);
    if repeats {
      return Err(RepeatedEvent);
    }
    SealsBatch(intact, seal, authorization);
    r := SealFacts(intact, seal, stream, existing, facts, authorization, CarrierOf(authorization));
    if r.Ok? && JournalOk(intact, stream, existing) {
      JournalContinues(intact, stream, existing, facts, CarrierOf(authorization), r.value);
    }
  }

  /** Why a fact may not follow `head`: altered or foreign predecessor, or evidence that does not cover it. */
  function Refusal(intact: Check, head: Option<AuditRecord>, fact: Fact,
                   authorization: Option<Evidence>): Option<StoreError> {
    if head.Some? && !intact(head.value) then Some(AlteredPredecessor)
    else if head.Some? && head.value.ceremonyId != fact.ceremonyId then Some(ForeignPredecessor)
    else if !Live(authorization, fact) then Some(EvidenceNotLive)
    else None
  }

  /** The last stored record can be followed. */
  ghost predicate Followable(intact: Check, stream: Text, head: Option<AuditRecord>) {
    head.Some? ==> intact(head.value) && head.value.ceremonyId == stream
  }

  method SealOne(ghost intact: Check, seal: Sealer, fact: Fact, authorization: Option<Evidence>,
                 head: Option<AuditRecord>, ghost carries: Carrier)
    returns (r: AuditRecord)
    requires SealsWith(intact, seal, authorization, carries)
    ensures SealsOne(intact, head, fact, carries, r)
  {
    r := seal(fact, authorization, head);
  }

  /** The sealing loop: each record follows the one sealed before it, the first one the last stored. */
  method SealFacts(intact: Check, seal: Sealer, stream: Text, existing: seq<AuditRecord>,
                   facts: seq<Fact>, authorization: Option<Evidence>, ghost carries: Carrier)
    returns (r: Result<seq<AuditRecord>, StoreError>)
    requires SealsWith(intact, seal, authorization, carries) && facts != []
    requires forall i :: 0 <= i < |facts| ==> facts[i].ceremonyId == stream
    ensures r.Ok? <==>
              (forall i :: 0 <= i < |facts| ==> Live(authorization, facts[i]))
                  && Followable(intact, stream, Last(existing))
    ensures r.Err? ==>
              match Last(existing)
              case None => r.error == EvidenceNotLive
              case Some(last) =>
                r.error == if !intact(last) then AlteredPredecessor
                           else if last.ceremonyId != stream then ForeignPredecessor
                           else EvidenceNotLive
    ensures r.Ok? ==> Carries(facts, carries, r.value) && Linked(intact, existing, r.value)
  {
    var sealed: seq<AuditRecord> := [];
    var head := Last(existing);
    for k := 0 to |facts|
      invariant SealedUpTo(intact, existing, facts, carries, k, sealed)
      invariant head == if k == 0 then Last(existing) else Some(sealed[k - 1])
      invariant forall i :: 0 <= i < k ==> Live(authorization, facts[i])
      invariant Followable(intact, stream, head) <==> Followable(intact, stream, Last(existing))
      invariant k > 0 ==> Followable(intact, stream, head)
    {
      var refusal := Refusal(intact, head, facts[k], authorization);
      if refusal.Some? {
        return Err(refusal.value);
      }
      var record := SealOne(intact, seal, facts[k], authorization, head, carries);
      SealNext(intact, existing, facts, carries, k, sealed, record);
      sealed, head := sealed + [record], Some(record);
    }
    r := Ok(sealed);
    assert facts[..|facts|] == facts;
  }

  // -------------------------------------------------------------------- store

  function VersionOf(records: seq<AuditRecord>): u64 {
    if records == [] then 0 else records[|records| - 1].sequence
  }

  lemma {:induction false} VersionIsLength(intact: Check, records: seq<AuditRecord>)
    requires IsChain(intact, records)
    ensures VersionOf(records) == if |records| <= U64_MAX then |records| else U64_MAX
  {
    if records != [] {
      ChainSequence(intact, records, |records| - 1);
    }
  }

  function Sequences(records: seq<AuditRecord>): seq<u64> {
    seq(|records|, i requires 0 <= i < |records| => records[i].sequence)
  }

  datatype LogEntry = LogEntry(stream: Text, sequence: u64)

  /** The part of the global log that belongs to one stream, in log order. */
  ghost function LogOf(log: seq<LogEntry>, stream: Text): seq<u64> {
    if log == [] then []
    else LogOf(log[..|log| - 1], stream) + if log[|log| - 1].stream == stream then [log[|log| - 1].sequence] else []
  }

  lemma {:induction false} LogOfAppend(log: seq<LogEntry>, entry: LogEntry, stream: Text)
    ensures LogOf(log + [entry], stream) == LogOf(log, stream) + if entry.stream == stream then [entry.sequence] else []
  {
  }

  type StreamMap = map<Text, seq<AuditRecord>>

  function StreamIn(streams: StreamMap, id: Text): seq<AuditRecord> {
    if id in streams then streams[id] else []
  }

  /** Every stream is in order, and the global log lists exactly the records of the streams. */
  ghost predicate InOrder(ok: Verdicts, streams: StreamMap, log: seq<LogEntry>) {
    forall id :: StreamInOrder(ok, streams, log, id)
  }

  ghost predicate StreamInOrder(ok: Verdicts, streams: StreamMap, log: seq<LogEntry>, id: Text) {
    ok(id, StreamIn(streams, id)) && LogOf(log, id) == Sequences(StreamIn(streams, id))
  }

  /** A verdict on the records of a stream. */
  type Verdicts = (Text, seq<AuditRecord>) -> bool

  ghost function Journals(intact: Check): Verdicts {
    (id: Text, records: seq<AuditRecord>) => JournalOk(intact, id, records)
  }

  lemma {:induction false} AppendKeepsOrder(ok: Verdicts, streams: StreamMap, log: seq<LogEntry>, stream: Text,
                                            sealed: seq<AuditRecord>, extended: seq<LogEntry>)
    requires InOrder(ok, streams, log) && ok(stream, StreamIn(streams, stream) + sealed)
    requires forall id :: LogOf(extended, id) == LogOf(log, id) + if id == stream then Sequences(sealed) else []
    ensures InOrder(ok, streams[stream := StreamIn(streams, stream) + sealed], extended)
  {
    var existing := StreamIn(streams, stream);
    var more := streams[stream := existing + sealed];
    forall id ensures StreamInOrder(ok, more, extended, id) {
      assert StreamInOrder(ok, streams, log, id);
      assert Sequences(existing + sealed) == Sequences(existing) + Sequences(sealed);
    }
  }

  datatype AppendOutcome =
    | Appended(version: u64, records: seq<AuditRecord>, firstPosition: nat)
    | Conflict(expected: u64, actual: u64)
    | Refused(error: StoreError)

  /** The in-memory event store: streams and their global order. */
  class Store {
    const seal: Sealer
    const intact: Check
    var streams: StreamMap
    var log: seq<LogEntry>

    function Stream(id: Text): seq<AuditRecord>
      reads this
    {
      StreamIn(streams, id)
    }

    ghost predicate Valid()
      reads this
    {
      Seals(intact, seal) && InOrder(Journals(intact), streams, log)
    }

    constructor (seal: Sealer, intact: Check)
      requires Seals(intact, seal)
      ensures Valid() && streams == map[] && log == []
    {
      this.seal, this.intact, this.streams, this.log := seal, intact, map[], [];
      forall id ensures StreamInOrder(Journals(intact), map[], [], id) {
      }
    }

    /**
     * One append under the lock: all of the facts are sealed onto the stream and the log, or nothing
     * changes. An expectation that does not match the stream is a conflict.
     */
    method Append(stream: Text, expected: u64, facts: seq<Fact>, authorization: Option<Evidence>)
      returns (outcome: AppendOutcome)
      requires Valid()
      modifies this
      ensures Valid()
      ensures outcome.Conflict? <==> VersionOf(old(Stream(stream))) != expected
      ensures outcome.Appended? <==>
                !outcome.Conflict? && Admissible(intact, stream, old(Stream(stream)), facts, authorization)
      ensures !outcome.Appended? ==> streams == old(streams) && log == old(log)
      ensures outcome.Conflict? ==> outcome == Conflict(expected, VersionOf(old(Stream(stream))))
      ensures outcome.Refused? ==>
                Refuses(intact, stream, old(Stream(stream)), facts, authorization, outcome.error)
      ensures outcome.Appended? ==>
                && Carries(facts, CarrierOf(authorization), outcome.records)
                && streams == old(streams)[stream := old(Stream(stream)) + outcome.records]
                && |log| == |old(log)| + |facts| && log[..|old(log)|] == old(log)
                && outcome.firstPosition == |old(log)| + 1
                && outcome.version == VersionOf(Stream(stream))
    {
      var existing := Stream(stream);
      var actual := VersionOf(existing);
      if actual != expected {
        return Conflict(expected, actual);
      }
      assert StreamInOrder(Journals(intact), streams, log, stream);
      var sealed := SealContinuation(intact, seal, stream, existing, facts, authorization);
      if sealed.Err? {
        return Refused(sealed.error);
      }
      var first := |log| + 1;
      var extended := ExtendLog(stream, sealed.value);
      AppendKeepsOrder(Journals(intact), streams, log, stream, sealed.value, extended);
      streams := streams[stream := existing + sealed.value];
      log := extended;
      outcome := Appended(VersionOf(existing + sealed.value), sealed.value, first);
    }

    method ExtendLog(stream: Text, sealed: seq<AuditRecord>) returns (extended: seq<LogEntry>)
      ensures |extended| == |log| + |sealed| && extended[..|log|] == log
      ensures forall id :: LogOf(extended, id) == LogOf(log, id) + if id == stream then Sequences(sealed) else []
    {
      extended := log;
      for i := 0 to |sealed|
        invariant |extended| == |log| + i && extended[..|log|] == log
        invariant forall id ::
                    LogOf(extended, id) == LogOf(log, id) + if id == stream then Sequences(sealed[..i]) else []
      {
        forall id ensures LogOf(extended + [LogEntry(stream, sealed[i].sequence)], id)
                            == LogOf(log, id) + if id == stream then Sequences(sealed[..i + 1]) else []
        {
          LogOfAppend(extended, LogEntry(stream, sealed[i].sequence), id);
          assert Sequences(sealed[..i + 1]) == Sequences(sealed[..i]) + [sealed[i].sequence];
        }
        extended := extended + [LogEntry(stream, sealed[i].sequence)];
      }
      assert sealed[..|sealed|] == sealed;
    }

    /** A page of a stream: skip what the caller has, take at most `limit`. */
    method Read(stream: Text, after: u64, limit: nat) returns (page: seq<AuditRecord>)
      ensures page == Page(Stream(stream), after, limit)
    {
      page := [];
      var records := Stream(stream);
      var i: nat := after;
      while i < |records| && |page| < limit
        invariant after < |records| ==> after <= i <= |records| && page == records[after..i] && |page| <= limit
        invariant |records| <= after ==> page == [] && i == after
      {
        page := page + [records[i]];
        i := i + 1;
      }
    }
  }

  /** `skip(after).take(limit)`. */
  function Page(records: seq<AuditRecord>, after: nat, limit: nat): seq<AuditRecord> {
    if |records| <= after then []
    else if |records| - after <= limit then records[after..]
    else records[after..after + limit]
  }

  /** As many records as there are behind the cursor, up to the limit, in order. */
  lemma {:induction false} PageIs(records: seq<AuditRecord>, after: nat, limit: nat)
    ensures var page := Page(records, after, limit);
            && |page| <= limit && (page != [] ==> after + |page| <= |records|)
            && (|page| < limit ==> |records| <= after + |page|)
            && forall i :: 0 <= i < |page| ==> page[i] == records[after + i]
  {
  }

  /** A stored stream numbers its records from one without a gap, until the numbers end. */
  lemma {:induction false} JournalIsNumbered(intact: Check, stream: Text, records: seq<AuditRecord>)
    requires JournalOk(intact, stream, records)
    ensures forall i :: 0 <= i < |records| ==> records[i].sequence == NumberAt(i)
    ensures VersionOf(records) == if |records| <= U64_MAX then |records| else U64_MAX
  {
    forall i | 0 <= i < |records| ensures records[i].sequence == NumberAt(i) {
      ChainSequence(intact, records, i);
    }
    VersionIsLength(intact, records);
  }
}
