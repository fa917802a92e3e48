/** Sealed audit records, their canonical bytes and the hash chain over them. */
module Journal {
  import opened Base
  import opened Framing

  type u32 = x: int | 0 <= x < 0x1_0000_0000

  /** The digest. It is a parameter: nothing here depends on which function it is. */
  type Hash = Bytes -> Text

  datatype AuditRecord = AuditRecord(
    eventId: Text, eventType: Text, schemaVersion: u32, ceremonyId: Text,
    definitionName: Text, definitionVersion: Text, sequence: u64, occurredAt: Text,
    actorId: Text, actorKind: Text, actorRole: Option<Text>,
    correlationId: Option<Text>, causationId: Option<Text>, traceId: Option<Text>,
    eventSchemaVersion: Option<u32>, event: Option<Text>, evidence: Option<Text>,
    previousHash: Option<Text>, recordHash: Text)

  const LEGACY: u32 := 1
  const EVENT_BEARING: u32 := 2
  const AUTHORIZED: u32 := 3

  /** The fields present are those the schema version seals. */
  predicate HasCanonicalShape(r: AuditRecord) {
    && 1 <= r.schemaVersion <= 3
    && (r.event.Some? <==> r.schemaVersion >= EVENT_BEARING)
    && (r.eventSchemaVersion.Some? <==> r.schemaVersion >= EVENT_BEARING)
    && (r.evidence.Some? <==> r.schemaVersion == AUTHORIZED)
  }

  function Scheme(version: u32): (s: Bytes)
    ensures |s| == 30
  {
    if version == LEGACY then Ascii("underpass.made.audit-record.v1")
    else if version == EVENT_BEARING then Ascii("underpass.made.audit-record.v2")
    else Ascii("underpass.made.audit-record.v3")
  }

  function Envelope(r: AuditRecord): seq<Piece> {
    [Field(r.eventId), Field(r.eventType), Field(r.ceremonyId), Field(r.definitionName), Field(r.definitionVersion),
     Number(r.sequence, 8), Field(r.occurredAt), Field(r.actorId), Field(r.actorKind), Optional(r.actorRole),
     Optional(r.correlationId), Optional(r.causationId), Optional(r.traceId), Optional(r.previousHash)]
  }

  function Payload(r: AuditRecord): seq<Piece>
    requires HasCanonicalShape(r)
  {
    if r.schemaVersion == LEGACY then []
    else if r.schemaVersion == EVENT_BEARING then [Number(r.eventSchemaVersion.value, 4), Field(r.event.value)]
    else [Number(r.eventSchemaVersion.value, 4), Field(r.event.value), Field(r.evidence.value)]
  }

  function Pieces(r: AuditRecord): (ps: seq<Piece>)
    requires HasCanonicalShape(r)
    ensures AllFit(ps)
  {
    U64Range();
    [Number(r.schemaVersion, 4)] + (Envelope(r) + Payload(r))
  }

  /** The preimage of a record's digest. */
  function Canonical(r: AuditRecord): Bytes
    requires HasCanonicalShape(r)
  {
    Scheme(r.schemaVersion) + WriteAll(Pieces(r))
  }

  /** A record without an event, one with its event, or one with its event and the evidence that admitted it. */
  lemma {:induction false} ShapesAre(r: AuditRecord)
    ensures HasCanonicalShape(r) <==>
              || (r.schemaVersion == 1 && r.event == None && r.eventSchemaVersion == None && r.evidence == None)
              || (r.schemaVersion == 2 && r.event != None && r.eventSchemaVersion != None && r.evidence == None)
              || (r.schemaVersion == 3 && r.event != None && r.eventSchemaVersion != None && r.evidence != None)
  {
  }

  // ------------------------------------------------------------- reading records back

  /** What stands behind the version: five names, the number, three fields, five optional ones, and the payload. */
  function Layout(version: int): (shapes: seq<Shape>)
    ensures |shapes| == 14 + if version == 1 then 0 else if version == 2 then 2 else 3
  {
    [FieldShape, FieldShape, FieldShape, FieldShape, FieldShape, NumberShape(8), FieldShape, FieldShape, FieldShape]
    + [OptionalShape, OptionalShape, OptionalShape, OptionalShape, OptionalShape]
    + if version == 1 then [] else if version == 2 then [NumberShape(4), FieldShape]
      else [NumberShape(4), FieldShape, FieldShape]
  }

  predicate InRange(version: int, ps: seq<Piece>) {
    && |ps| == |Layout(version)| && (forall i :: 0 <= i < |ps| ==> HasShape(ps[i], Layout(version)[i]))
    && ps[5].value <= U64_MAX && (version > 1 ==> ps[14].value <= 0xFFFF_FFFF)
  }

  function Assemble(version: u32, ps: seq<Piece>): AuditRecord
    requires 1 <= version <= 3 && InRange(version, ps)
  {
    AuditRecord(ps[0].text, ps[1].text, version, ps[2].text, ps[3].text, ps[4].text, ps[5].value, ps[6].text,
                ps[7].text, ps[8].text, ps[9].field, ps[10].field, ps[11].field, ps[12].field,
                if version == 1 then None else Some(ps[14].value), if version == 1 then None else Some(ps[15].text),
                if version == 3 then Some(ps[16].text) else None, ps[13].field, [])
  }

  function VersionOfTag(tag: Bytes): Option<u32> {
    if tag == Ascii("underpass.made.audit-record.v1") then Some(1)
    else if tag == Ascii("underpass.made.audit-record.v2") then Some(2)
    else if tag == Ascii("underpass.made.audit-record.v3") then Some(3)
    else None
  }

  /** Takes canonical bytes apart: the tag, the version it stands for, and the record but for its digest. */
  function ReadRecord(bytes: Bytes): Option<AuditRecord> {
    if |bytes| < 30 || VersionOfTag(bytes[..30]).None? then None
    else
      var version := VersionOfTag(bytes[..30]).value;
      match ReadPieces([NumberShape(4)] + Layout(version), bytes[30..])
      case None => None
      case Some((ps, rest)) =>
        if rest == [] && ps != [] && ps[0] == Number(version, 4) && InRange(version, ps[1..])
        then Some(Assemble(version, ps[1..])) else None
  }

  lemma {:induction false} TagsAre(version: u32)
    requires 1 <= version <= 3
    ensures VersionOfTag(Scheme(version)) == Some(version)
  {
    assert Scheme(1)[29] == 49 && Scheme(2)[29] == 50 && Scheme(3)[29] == 51;
  }

  lemma {:induction false} PiecesHaveLayout(r: AuditRecord)
    requires HasCanonicalShape(r)
    ensures InRange(r.schemaVersion, Envelope(r) + Payload(r))
    ensures HaveShapes(Pieces(r), [NumberShape(4)] + Layout(r.schemaVersion))
  {
    var ps := Envelope(r) + Payload(r);
    assert ps[5] == Number(r.sequence, 8);
    assert r.schemaVersion > 1 ==> ps[14] == Number(r.eventSchemaVersion.value, 4);
  }

  lemma {:induction false} AssembleRestores(r: AuditRecord)
    requires HasCanonicalShape(r) && InRange(r.schemaVersion, Envelope(r) + Payload(r))
    ensures Assemble(r.schemaVersion, Envelope(r) + Payload(r)) == r.(recordHash := [])
  {
  }

  /** The canonical bytes hold the whole record: reading them gives it back, but for its digest. */
  lemma {:induction false} ReadCanonical(r: AuditRecord)
    requires HasCanonicalShape(r)
    ensures ReadRecord(Canonical(r)) == Some(r.(recordHash := []))
  {
    var version, ps := r.schemaVersion, Pieces(r);
    var bytes := Canonical(r);
    assert bytes[..30] == Scheme(version) && bytes[30..] == WriteAll(ps);
    TagsAre(version);
    PiecesHaveLayout(r);
    ReadWrittenPieces(ps, [NumberShape(4)] + Layout(version), []);
    assert WriteAll(ps) + [] == WriteAll(ps);
    assert ps[0] == Number(version, 4) && ps[1..] == Envelope(r) + Payload(r);
    AssembleRestores(r);
  }

  /** So two records with the same canonical form differ at most in the digest they store. */
  lemma {:induction false} CanonicalInjective(a: AuditRecord, b: AuditRecord)
    requires HasCanonicalShape(a) && HasCanonicalShape(b) && Canonical(a) == Canonical(b)
    ensures a == b.(recordHash := a.recordHash)
  {
    ReadCanonical(a);
    ReadCanonical(b);
  }

  /** `digest_is_intact`. */
  predicate Intact(hash: Hash, r: AuditRecord) {
    HasCanonicalShape(r) && hash(Canonical(r)) == r.recordHash
  }

  // ------------------------------------------------------------- verification

  /** A verdict on single records; the chain is defined relative to it. */
  type Check = AuditRecord -> bool

  function DigestCheck(hash: Hash): Check {
    (r: AuditRecord) => Intact(hash, r)
  }

  ghost predicate Opens(intact: Check, r: AuditRecord) {
    r.sequence == 1 && r.previousHash == None && intact(r)
  }

  ghost predicate Continues(intact: Check, previous: AuditRecord, r: AuditRecord) {
    && r.ceremonyId == previous.ceremonyId
    && r.sequence == SaturatingNext(previous.sequence)
    && r.previousHash == Some(previous.recordHash)
    && intact(r)
  }

  ghost predicate IsChain(intact: Check, records: seq<AuditRecord>) {
    && (records != [] ==> Opens(intact, records[0]))
    && forall i :: 0 < i < |records| ==> Continues(intact, records[i - 1], records[i])
  }

  datatype Defect =
    | DoesNotStartAtTheBeginning(found: u64)
    | DigestAltered(at: u64)
    | UnexpectedRoot(at: u64)
    | SequenceBroken(expected: u64, found: u64)
    | LinkBroken(at: u64)
    | ForeignCeremony(at: u64)

  datatype Verdict = Unbroken | Broken(defect: Defect)

  /**
   * What a reported defect claims about the record at `i`: this, and that the tests made before it pass. So at most
   * one defect explains a record.
   */
  ghost predicate Explains(intact: Check, records: seq<AuditRecord>, i: nat, d: Defect)
    requires i < |records|
  {
    var r := records[i];
    if i == 0 then
      match d
      case DoesNotStartAtTheBeginning(found) => found == r.sequence != 1
      case UnexpectedRoot(at) => at == r.sequence == 1 && r.previousHash.Some?
      case DigestAltered(at) => at == r.sequence == 1 && r.previousHash.None? && !intact(r)
      case _ => false
    else
      var p := records[i - 1];
      var own := r.ceremonyId == p.ceremonyId;
      var next := own && r.sequence == SaturatingNext(p.sequence);
      match d
      case ForeignCeremony(at) => at == r.sequence && !own
      case SequenceBroken(expected, found) =>
        own && !next && expected == SaturatingNext(p.sequence) && found == r.sequence
      case UnexpectedRoot(at) => next && at == r.sequence && r.previousHash.None?
      case LinkBroken(at) => next && at == r.sequence && r.previousHash.Some? && r.previousHash.value != p.recordHash
      case DigestAltered(at) => next && at == r.sequence && r.previousHash == Some(p.recordHash) && !intact(r)
      case _ => false
  }

  lemma {:induction false} ExplainsOneWay(intact: Check, records: seq<AuditRecord>, i: nat, d: Defect, e: Defect)
    requires i < |records| && Explains(intact, records, i, d) && Explains(intact, records, i, e)
    ensures d == e
  {
  }

  /** The records before `i` are in order and the one there is not, for the reason given. */
  ghost predicate FirstDefect(intact: Check, records: seq<AuditRecord>, i: nat, d: Defect) {
    i < |records| && IsChain(intact, records[..i]) && Explains(intact, records, i, d)
  }

  /** `AuditChain::verify`. */
  method VerifyChain(intact: Check, records: seq<AuditRecord>) returns (v: Verdict)
    ensures v.Unbroken? <==> IsChain(intact, records)
    ensures v.Broken? ==> exists i: nat :: FirstDefect(intact, records, i, v.defect)
  {
    if records == [] {
      return Unbroken;
    }
    var first := records[0];
    if first.sequence != 1 {
      v := Broken(DoesNotStartAtTheBeginning(first.sequence));
      assert FirstDefect(intact, records, 0, v.defect);
      return;
    }
    if first.previousHash.Some? {
      v := Broken(UnexpectedRoot(first.sequence));
      assert FirstDefect(intact, records, 0, v.defect);
      return;
    }
    if !intact(first) {
      v := Broken(DigestAltered(first.sequence));
      assert FirstDefect(intact, records, 0, v.defect);
      return;
    }
    for i := 1 to |records|
      invariant IsChain(intact, records[..i])
    {
      var defect := LinkDefect(intact, records[i - 1], records[i]);
      if defect.Some? {
        v := Broken(defect.value);
        assert FirstDefect(intact, records, i, v.defect);
        return;
      }
    }
    assert records[..|records|] == records;
    v := Unbroken;
  }

  /** The checks on one link, in the order the verifier makes them. */
  method LinkDefect(intact: Check, previous: AuditRecord, record: AuditRecord) returns (d: Option<Defect>)
    ensures d.None? <==> Continues(intact, previous, record)
    ensures d.Some? ==> Explains(intact, [previous, record], 1, d.value)
  {
    if record.ceremonyId != previous.ceremonyId {
      return Some(ForeignCeremony(record.sequence));
    }
    if record.sequence != SaturatingNext(previous.sequence) {
      return Some(SequenceBroken(SaturatingNext(previous.sequence), record.sequence));
    }
    if record.previousHash.None? {
      return Some(UnexpectedRoot(record.sequence));
    }
    if record.previousHash.value != previous.recordHash {
      return Some(LinkBroken(record.sequence));
    }
    if !intact(record) {
      return Some(DigestAltered(record.sequence));
    }
    return None;
  }

  // ---------------------------------------------------------- tamper evidence

  /** The number of the record at `i`: one more than its index, until the numbers end. */
  function NumberAt(i: nat): u64 {
    if i < U64_MAX then i + 1 else U64_MAX
  }

  lemma {:induction false} ChainSequence(intact: Check, records: seq<AuditRecord>, i: nat)
    requires IsChain(intact, records) && i < |records|
    ensures records[i].sequence == NumberAt(i) && intact(records[i])
  {
    if i > 0 {
      ChainSequence(intact, records, i - 1);
      assert Continues(intact, records[i - 1], records[i]);
    }
  }

  /** Different canonical forms with one digest. */
  ghost predicate CollidesAt(hash: Hash, x: AuditRecord, y: AuditRecord) {
    && HasCanonicalShape(x) && HasCanonicalShape(y)
    && Canonical(x) != Canonical(y) && hash(Canonical(x)) == hash(Canonical(y))
  }

  type Clash = (AuditRecord, AuditRecord) -> bool

  /** Records that pass the check and share a digest are equal, or clash. */
  ghost predicate DigestDetermines(intact: Check, clash: Clash) {
    forall x, y :: intact(x) && intact(y) && x.recordHash == y.recordHash ==> x == y || clash(x, y)
  }

  ghost predicate Clashes(clash: Clash, a: seq<AuditRecord>, b: seq<AuditRecord>) {
    exists i, j :: 0 <= i < |a| && 0 <= j < |b| && clash(a[i], b[j])
  }

  lemma {:induction false} ClashesGrow(clash: Clash, a: seq<AuditRecord>, b: seq<AuditRecord>, m: nat, n: nat)
    requires m <= |a| && n <= |b| && Clashes(clash, a[..m], b[..n])
    ensures Clashes(clash, a, b)
  {
    var i, j :| 0 <= i < m && 0 <= j < n && clash(a[..m][i], b[..n][j]);
    assert clash(a[i], b[j]);
  }

  lemma {:induction false} PrefixIsChain(intact: Check, a: seq<AuditRecord>, m: nat)
    requires IsChain(intact, a) && m <= |a|
    ensures IsChain(intact, a[..m])
  {
  }

  /** The last record says whether there is one before it, and which digest that one has. */
  lemma {:induction false} LastNamesPrevious(intact: Check, a: seq<AuditRecord>)
    requires IsChain(intact, a) && a != []
    ensures intact(a[|a| - 1])
    ensures a[|a| - 1].previousHash == if |a| == 1 then None else Some(a[|a| - 2].recordHash)
  {
    if |a| > 1 {
      assert Continues(intact, a[|a| - 2], a[|a| - 1]);
    }
  }

  lemma {:induction false} HeadDetermines(intact: Check, clash: Clash, a: seq<AuditRecord>, b: seq<AuditRecord>)
    requires DigestDetermines(intact, clash)
    requires IsChain(intact, a) && IsChain(intact, b) && a != [] && b != []
    requires a[|a| - 1].recordHash == b[|b| - 1].recordHash
    ensures a == b || Clashes(clash, a, b)
    decreases |a|
  {
    LastNamesPrevious(intact, a);
    LastNamesPrevious(intact, b);
    if a[|a| - 1] == b[|b| - 1] {
      if |a| > 1 {
        PrefixIsChain(intact, a, |a| - 1);
        PrefixIsChain(intact, b, |b| - 1);
        HeadDetermines(intact, clash, a[..|a| - 1], b[..|b| - 1]);
      }
      JoinLast(clash, a, b);
    } else {
      assert clash(a[|a| - 1], b[|b| - 1]);
    }
  }

  lemma {:induction false} JoinLast(clash: Clash, a: seq<AuditRecord>, b: seq<AuditRecord>)
    requires a != [] && b != [] && a[|a| - 1] == b[|b| - 1]
    requires a[..|a| - 1] == b[..|b| - 1] || Clashes(clash, a[..|a| - 1], b[..|b| - 1])
    ensures a == b || Clashes(clash, a, b)
  {
    if a[..|a| - 1] == b[..|b| - 1] {
      assert a == a[..|a| - 1] + [a[|a| - 1]] && b == b[..|b| - 1] + [b[|b| - 1]];
    } else {
      ClashesGrow(clash, a, b, |a| - 1, |b| - 1);
    }
  }

  lemma {:induction false} SameDigestSameRecord(hash: Hash, x: AuditRecord, y: AuditRecord)
    requires Intact(hash, x) && Intact(hash, y) && x.recordHash == y.recordHash
    ensures x == y || CollidesAt(hash, x, y)
  {
    if Canonical(x) == Canonical(y) {
      CanonicalInjective(x, y);
    }
  }

  /**
   * The last digest commits to the whole journal: two unbroken chains that end in the same digest
   * are the same chain, record for record, unless they exhibit a hash collision. The first record is
   * the one without a previous digest, so this does not depend on how many numbers there are.
   */
  lemma {:induction false} HeadCommitsToJournal(hash: Hash, a: seq<AuditRecord>, b: seq<AuditRecord>)
    requires IsChain(DigestCheck(hash), a) && IsChain(DigestCheck(hash), b) && a != [] && b != []
    requires a[|a| - 1].recordHash == b[|b| - 1].recordHash
    ensures a == b || exists i, j :: 0 <= i < |a| && 0 <= j < |b| && CollidesAt(hash, a[i], b[j])
  {
    ghost var clash: Clash := (x: AuditRecord, y: AuditRecord) => CollidesAt(hash, x, y);
    assert DigestDetermines(DigestCheck(hash), clash) by {
      forall x, y | Intact(hash, x) && Intact(hash, y) && x.recordHash == y.recordHash
        ensures x == y || CollidesAt(hash, x, y)
      {
        SameDigestSameRecord(hash, x, y);
      }
    }
    HeadDetermines(DigestCheck(hash), clash, a, b);
  }
}
