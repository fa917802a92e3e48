/** The resumable progress read: one finite stream of frames consumed into a batch and a cursor. */
module Progress {
  import opened Base
  import opened Framing

  datatype Record = Record(ceremonyId: Text, eventId: Text, sequence: u64, eventType: Text, event: Option<Text>)

  datatype Activity = Activity(sequence: u64, status: Bytes)

  datatype EndMark = EndMark(resumeAfter: u64, head: u64, reason: int, resumeActivityAfter: u64, activityHead: u64)

  /** What the stream yields: a frame, a frame without content, or a failed item. */
  datatype Frame =
    | RecordFrame(record: Record)
    | SnapshotFrame(snapshot: Bytes)
    | ActivityFrame(activity: Activity)
    | EndFrame(end: EndMark)
    | EmptyFrame
    | StatusFrame(unavailable: bool)

  datatype EndReason = Unspecified | Terminal | EventLimit | WaitElapsed

  datatype Checkpoint = Checkpoint(ceremonyId: Text, after: u64)

  datatype Batch = Batch(records: seq<Record>, checkpoint: Checkpoint, head: u64, reason: EndReason)

  datatype ClientError =
    | RemoteStatus(unavailable: bool)
    | ForeignRecord(ceremony: Text)
    | SequenceMismatch(expected: u64, found: u64)
    | EndCursorMismatch(found: u64, lastSeen: u64)
    | UnknownReason(reason: int)
    | UnrequestedActivity
    | NoContent
    | NoResumeCursor
    | RepeatedSnapshot
    | ActivityDidNotAdvance
    | EndDoesNotCover

  function DecodeReason(reason: int): Option<EndReason> {
    if reason == 0 then Some(Unspecified)
    else if reason == 1 then Some(Terminal)
    else if reason == 2 then Some(EventLimit)
    else if reason == 3 then Some(WaitElapsed)
    else None
  }

  // ------------------------------------------------------------ state machine

  /** The variables of the read loop. */
  datatype Reading = Reading(expected: u64, seen: set<Text>, records: seq<Record>)

  datatype Step<S, B> = More(state: S) | Done(result: Result<B, ClientError>)

  function Start(cp: Checkpoint): Reading {
    Reading(SaturatingNext(cp.after), {}, [])
  }

  /** The effect of one frame. */
  function Accept(cp: Checkpoint, s: Reading, frame: Frame): Step<Reading, Batch> {
    match frame
    case RecordFrame(r) =>
      if r.ceremonyId != cp.ceremonyId then Done(Err(ForeignRecord(r.ceremonyId)))
      else if r.eventId in s.seen then More(s)
      else if r.sequence != s.expected then Done(Err(SequenceMismatch(s.expected, r.sequence)))
      else More(Reading(SaturatingNext(s.expected), s.seen + {r.eventId}, s.records + [r]))
    case EndFrame(end) =>
      var lastSeen := SaturatingPrev(s.expected);
      if end.resumeAfter != lastSeen then Done(Err(EndCursorMismatch(end.resumeAfter, lastSeen)))
      else
        (match DecodeReason(end.reason)
         case None => Done(Err(UnknownReason(end.reason)))
         case Some(reason) =>
           Done(Ok(Batch(s.records, Checkpoint(cp.ceremonyId, end.resumeAfter), end.head, reason))))
    case SnapshotFrame(_) => Done(Err(UnrequestedActivity))
    case ActivityFrame(_) => Done(Err(UnrequestedActivity))
    case EmptyFrame => Done(Err(NoContent))
    case StatusFrame(unavailable) => Done(Err(RemoteStatus(unavailable)))
  }

  function Consume(cp: Checkpoint, s: Reading, frames: seq<Frame>): Result<Batch, ClientError>
    decreases |frames|
  {
    if frames == [] then Err(NoResumeCursor)
    else
      match Accept(cp, s, frames[0])
      case Done(result) => result
      case More(s') => Consume(cp, s', frames[1..])
  }

  /** The outcome of one read. */
  function Watch(cp: Checkpoint, frames: seq<Frame>): Result<Batch, ClientError> {
    Consume(cp, Start(cp), frames)
  }

  /** `watch_once`, given what the server streams. */
  method WatchOnce(cp: Checkpoint, frames: seq<Frame>) returns (r: Result<Batch, ClientError>)
    ensures r == Watch(cp, frames)
  {
    var expected := SaturatingNext(cp.after);
    var seen: set<Text> := {};
    var records: seq<Record> := [];
    var i := 0;
    assert frames[0..] == frames;
    while i < |frames|
      invariant 0 <= i <= |frames|
      invariant Watch(cp, frames) == Consume(cp, Reading(expected, seen, records), frames[i..])
    {
      assert frames[i..][0] == frames[i] && frames[i..][1..] == frames[i + 1..];
      match frames[i] {
        case RecordFrame(record) =>
          if record.ceremonyId != cp.ceremonyId {
            return Err(ForeignRecord(record.ceremonyId));
          }
          if record.eventId !in seen {
            if record.sequence != expected {
              return Err(SequenceMismatch(expected, record.sequence));
            }
            seen := seen + {record.eventId};
            expected := SaturatingNext(expected);
            records := records + [record];
          }
        case EndFrame(end) =>
          var lastSeen := SaturatingPrev(expected);
          if end.resumeAfter != lastSeen {
            return Err(EndCursorMismatch(end.resumeAfter, lastSeen));
          }
          var reason := DecodeReason(end.reason);
          if reason.None? {
            return Err(UnknownReason(end.reason));
          }
          return Ok(Batch(records, Checkpoint(cp.ceremonyId, end.resumeAfter), end.head, reason.value));
        case SnapshotFrame(_) => return Err(UnrequestedActivity);
        case ActivityFrame(_) => return Err(UnrequestedActivity);
        case EmptyFrame => return Err(NoContent);
        case StatusFrame(unavailable) => return Err(RemoteStatus(unavailable));
      }
      i := i + 1;
    }
    r := Err(NoResumeCursor);
  }

  // -------------------------------------------------- what a success delivers

  /** `k` saturating increments. */
  function Advance(x: u64, k: nat): u64 {
    if x + k <= U64_MAX then x + k else U64_MAX
  }

  /** The records of a frame list whose event id was not seen before, in order. */
  function Fresh(frames: seq<Frame>, seen: set<Text>): seq<Record> {
    if frames == [] then []
    else if frames[0].RecordFrame? && frames[0].record.eventId !in seen then
      [frames[0].record] + Fresh(frames[1..], seen + {frames[0].record.eventId})
    else Fresh(frames[1..], seen)
  }

  /** Records only, all of the ceremony, then an end frame. */
  ghost predicate RecordsThenEnd(cp: Checkpoint, frames: seq<Frame>, e: nat) {
    && e < |frames| && frames[e].EndFrame?
    && forall i :: 0 <= i < e ==> frames[i].RecordFrame? && frames[i].record.ceremonyId == cp.ceremonyId
  }

  /** The first occurrences are numbered from `expected` on and the end frame names the last of them. */
  ghost predicate Numbered(expected: u64, firsts: seq<Record>, end: EndMark) {
    && (forall k :: 0 <= k < |firsts| ==> firsts[k].sequence == Advance(expected, k))
    && end.resumeAfter == SaturatingPrev(Advance(expected, |firsts|))
    && DecodeReason(end.reason).Some?
  }

  ghost predicate Delivers(cp: Checkpoint, expected: u64, seen: set<Text>, frames: seq<Frame>, e: nat) {
    RecordsThenEnd(cp, frames, e) && Numbered(expected, Fresh(frames[..e], seen), frames[e].end)
  }

  lemma {:induction false} ConsumeDelivers(cp: Checkpoint, s: Reading, frames: seq<Frame>) returns (e: nat)
    requires Consume(cp, s, frames).Ok?
    ensures Delivers(cp, s.expected, s.seen, frames, e)
    ensures Consume(cp, s, frames).value.records == s.records + Fresh(frames[..e], s.seen)
    decreases |frames|
  {
    match Accept(cp, s, frames[0])
    case Done(result) =>
      e := 0;
      assert Advance(s.expected, 0) == s.expected;
    case More(s') =>
      var e' := ConsumeDelivers(cp, s', frames[1..]);
      e := e' + 1;
      assert frames[..e][1..] == frames[1..][..e'] && frames[..e][0] == frames[0];
      FreshStep(frames[..e], s, s');
  }

  /** How one accepted record shifts the numbering of the rest. */
  lemma {:induction false} FreshStep(frames: seq<Frame>, s: Reading, s': Reading)
    requires frames != [] && frames[0].RecordFrame?
    requires if frames[0].record.eventId in s.seen then s' == s
             else s' == Reading(SaturatingNext(s.expected), s.seen + {frames[0].record.eventId},
                                s.records + [frames[0].record])
    ensures s'.records + Fresh(frames[1..], s'.seen) == s.records + Fresh(frames, s.seen)
    ensures frames[0].record.eventId !in s.seen ==>
              forall k :: 0 <= k < |Fresh(frames, s.seen)| - 1 ==>
                            Fresh(frames, s.seen)[k + 1] == Fresh(frames[1..], s'.seen)[k]
  {
    if frames[0].record.eventId !in s.seen {
      var first, rest := frames[0].record, Fresh(frames[1..], s'.seen);
      assert Fresh(frames, s.seen) == [first] + rest;
      assert s.records + ([first] + rest) == s.records + [first] + rest;
    }
  }

  lemma {:induction false} DeliversConsumed(cp: Checkpoint, s: Reading, frames: seq<Frame>, e: nat)
    requires Delivers(cp, s.expected, s.seen, frames, e)
    ensures Consume(cp, s, frames).Ok?
    ensures Consume(cp, s, frames).value ==
              Batch(s.records + Fresh(frames[..e], s.seen), Checkpoint(cp.ceremonyId, frames[e].end.resumeAfter),
                    frames[e].end.head, DecodeReason(frames[e].end.reason).value)
    decreases e
  {
    if e == 0 {
      assert frames[..0] == [];
      assert Advance(s.expected, 0) == s.expected;
    } else {
      var r := frames[0].record;
      assert frames[..e][1..] == frames[1..][..e - 1] && frames[..e][0] == frames[0];
      var firsts := Fresh(frames[..e], s.seen);
      if r.eventId !in s.seen {
        assert firsts[0] == r && Advance(s.expected, 0) == s.expected;
      }
      var s' := Accept(cp, s, frames[0]).state;
      FreshStep(frames[..e], s, s');
      DeliversConsumed(cp, s', frames[1..], e - 1);
    }
  }

  /**
   * A read succeeds exactly on streams of records of the ceremony whose first occurrences are
   * numbered on from the checkpoint, closed by an end frame that names the last of them; the batch is
   * those first occurrences.
   */
  lemma {:induction false} WatchSucceedsIff(cp: Checkpoint, frames: seq<Frame>)
    ensures Watch(cp, frames).Ok? <==> exists e: nat :: Delivers(cp, SaturatingNext(cp.after), {}, frames, e)
    ensures forall e: nat :: Delivers(cp, SaturatingNext(cp.after), {}, frames, e) ==>
              Watch(cp, frames) ==
                Ok(Batch(Fresh(frames[..e], {}), Checkpoint(cp.ceremonyId, frames[e].end.resumeAfter),
                         frames[e].end.head, DecodeReason(frames[e].end.reason).value))
  {
    if Watch(cp, frames).Ok? {
      var e := ConsumeDelivers(cp, Start(cp), frames);
    }
    forall e: nat | Delivers(cp, SaturatingNext(cp.after), {}, frames, e)
      ensures Watch(cp, frames) ==
                Ok(Batch(Fresh(frames[..e], {}), Checkpoint(cp.ceremonyId, frames[e].end.resumeAfter),
                         frames[e].end.head, DecodeReason(frames[e].end.reason).value))
    {
      DeliversConsumed(cp, Start(cp), frames, e);
      assert [] + Fresh(frames[..e], {}) == Fresh(frames[..e], {});
    }
  }

  // --------------------------------------------------------------- contiguity

  /** What every successful read gives, the end of the `u64` range included. */
  ghost predicate Resumes(cp: Checkpoint, b: Batch) {
    && b.checkpoint.ceremonyId == cp.ceremonyId
    && b.checkpoint.after == SaturatingPrev(Advance(SaturatingNext(cp.after), |b.records|))
    && forall k :: 0 <= k < |b.records| ==>
         b.records[k].sequence == Advance(SaturatingNext(cp.after), k) && b.records[k].ceremonyId == cp.ceremonyId
  }

  lemma {:induction false} FreshOwned(cp: Checkpoint, frames: seq<Frame>, seen: set<Text>)
    requires forall i :: 0 <= i < |frames| ==> frames[i].RecordFrame? && frames[i].record.ceremonyId == cp.ceremonyId
    ensures forall k :: 0 <= k < |Fresh(frames, seen)| ==> Fresh(frames, seen)[k].ceremonyId == cp.ceremonyId
  {
    if frames != [] {
      FreshOwned(cp, frames[1..], seen);
      FreshOwned(cp, frames[1..], seen + {frames[0].record.eventId});
    }
  }

  lemma {:induction false} WatchResumes(cp: Checkpoint, frames: seq<Frame>)
    requires Watch(cp, frames).Ok?
    ensures Resumes(cp, Watch(cp, frames).value)
  {
    var e := ConsumeDelivers(cp, Start(cp), frames);
    DeliversConsumed(cp, Start(cp), frames, e);
    FreshOwned(cp, frames[..e], {});
    assert [] + Fresh(frames[..e], {}) == Fresh(frames[..e], {});
  }

  /** Consecutive numbers from the checkpoint to the new cursor, without gap or overlap. */
  ghost predicate Contiguous(cp: Checkpoint, b: Batch) {
    && b.checkpoint.after == cp.after + |b.records|
    && forall k :: 0 <= k < |b.records| ==> b.records[k].sequence == cp.after + 1 + k
  }

  /** The frames before the first end frame: all a read looks at. */
  function BeforeEnd(frames: seq<Frame>): seq<Frame> {
    if frames == [] || frames[0].EndFrame? then [] else [frames[0]] + BeforeEnd(frames[1..])
  }

  lemma {:induction false} BeforeEndIs(frames: seq<Frame>, e: nat)
    requires e < |frames| && frames[e].EndFrame? && forall i :: 0 <= i < e ==> !frames[i].EndFrame?
    ensures BeforeEnd(frames) == frames[..e]
  {
    if e > 0 {
      BeforeEndIs(frames[1..], e - 1);
      assert frames[..e] == [frames[0]] + frames[1..][..e - 1];
    }
  }

  /** The event ids a stream delivers for the first time. */
  function Firsts(frames: seq<Frame>): nat {
    |Fresh(BeforeEnd(frames), {})|
  }

  lemma {:induction false} BatchIsFirsts(cp: Checkpoint, frames: seq<Frame>)
    requires Watch(cp, frames).Ok?
    ensures Watch(cp, frames).value.records == Fresh(BeforeEnd(frames), {})
  {
    var e := ConsumeDelivers(cp, Start(cp), frames);
    BeforeEndIs(frames, e);
    assert [] + Fresh(frames[..e], {}) == Fresh(frames[..e], {});
  }

  /** The reader saturates at the end of the range: contiguity holds exactly when the stream stays below it. */
  lemma {:induction false} ContiguousIff(cp: Checkpoint, frames: seq<Frame>)
    requires Watch(cp, frames).Ok?
    ensures Contiguous(cp, Watch(cp, frames).value) <==> cp.after + Firsts(frames) < U64_MAX
  {
    BatchIsFirsts(cp, frames);
    WatchResumes(cp, frames);
  }

  /** At the very end of the range the cursor goes back by one. */
  lemma {:induction false} CursorGoesBackAtTheEnd(id: Text)
    ensures var cp := Checkpoint(id, U64_MAX);
            Watch(cp, [EndFrame(EndMark(U64_MAX - 1, U64_MAX, 3, 0, 0))])
              == Ok(Batch([], Checkpoint(id, U64_MAX - 1), U64_MAX, WaitElapsed))
  {
  }

  /** Just before it, the last record of the range is delivered and the cursor stays behind it. */
  lemma {:induction false} CursorStaysBehindTheLastRecord(cp: Checkpoint, event: Text)
    requires cp.after == U64_MAX - 1
    ensures var r := Record(cp.ceremonyId, event, U64_MAX, [], None);
            Watch(cp, [RecordFrame(r), EndFrame(EndMark(U64_MAX - 1, U64_MAX, 1, 0, 0))])
              == Ok(Batch([r], cp, U64_MAX, Terminal))
  {
    var r := Record(cp.ceremonyId, event, U64_MAX, [], None);
    var end := EndFrame(EndMark(U64_MAX - 1, U64_MAX, 1, 0, 0));
    assert [RecordFrame(r), end][1..] == [end] && [] + [r] == [r];
    var s := Reading(U64_MAX, {} + {event}, [r]);
    assert Accept(cp, Start(cp), RecordFrame(r)) == More(s);
    assert Consume(cp, s, [end]) == Ok(Batch([r], cp, U64_MAX, Terminal));
  }

  // ------------------------------------------------------------ chained reads

  datatype Delivered = Delivered(records: seq<Record>, checkpoint: Checkpoint)

  /** Successive reads, each resuming from the cursor of the one before; `None` when one fails. */
  function ReadAll(cp: Checkpoint, streams: seq<seq<Frame>>): Option<Delivered>
    decreases |streams|
  {
    if streams == [] then Some(Delivered([], cp))
    else
      match Watch(cp, streams[0])
      case Err(_) => None
      case Ok(b) =>
        match ReadAll(b.checkpoint, streams[1..])
        case None => None
        case Some(d) => Some(Delivered(b.records + d.records, d.checkpoint))
  }

  /** Consecutive numbers from the first cursor to the last, over all reads together. */
  ghost predicate ContiguousReads(cp: Checkpoint, d: Delivered) {
    && d.checkpoint.ceremonyId == cp.ceremonyId
    && d.checkpoint.after == cp.after + |d.records|
    && forall k :: 0 <= k < |d.records| ==> d.records[k].sequence == cp.after + 1 + k
  }

  function AllFirsts(streams: seq<seq<Frame>>): nat {
    if streams == [] then 0 else Firsts(streams[0]) + AllFirsts(streams[1..])
  }

  /** A read never leaves the cursor at the end of the range. */
  lemma {:induction false} CursorBelowTheEnd(cp: Checkpoint, streams: seq<seq<Frame>>)
    requires ReadAll(cp, streams).Some? && streams != []
    ensures ReadAll(cp, streams).value.checkpoint.after < U64_MAX
    ensures |ReadAll(cp, streams).value.records| == AllFirsts(streams)
    decreases |streams|
  {
    var b := Watch(cp, streams[0]).value;
    WatchResumes(cp, streams[0]);
    BatchIsFirsts(cp, streams[0]);
    if |streams| > 1 {
      CursorBelowTheEnd(b.checkpoint, streams[1..]);
    } else {
      assert streams[1..] == [];
    }
  }

  /** Any number of successful reads together number their records on, exactly when they stay below the end. */
  lemma {:induction false} ChainedReadsContiguousIff(cp: Checkpoint, streams: seq<seq<Frame>>)
    requires ReadAll(cp, streams).Some? && streams != []
    ensures ContiguousReads(cp, ReadAll(cp, streams).value) <==> cp.after + AllFirsts(streams) < U64_MAX
  {
    CursorBelowTheEnd(cp, streams);
    if cp.after + AllFirsts(streams) < U64_MAX {
      ChainedReadsAreContiguous(cp, streams);
    }
  }

  lemma {:induction false} ChainedReadsAreContiguous(cp: Checkpoint, streams: seq<seq<Frame>>)
    requires ReadAll(cp, streams).Some? && cp.after + AllFirsts(streams) < U64_MAX
    ensures ContiguousReads(cp, ReadAll(cp, streams).value)
    decreases |streams|
  {
    if streams != [] {
      var b := Watch(cp, streams[0]).value;
      WatchResumes(cp, streams[0]);
      BatchIsFirsts(cp, streams[0]);
      ContiguousIff(cp, streams[0]);
      ChainedReadsAreContiguous(b.checkpoint, streams[1..]);
      assert ReadAll(cp, streams).value.records == b.records + ReadAll(b.checkpoint, streams[1..]).value.records;
    }
  }

  /** A server that only ever streams records of the log, each under its own number. */
  ghost predicate Honest(log: seq<Record>, streams: seq<seq<Frame>>) {
    forall i, j :: 0 <= i < |streams| && 0 <= j < |streams[i]| && streams[i][j].RecordFrame? ==>
        InLog(log, streams[i][j].record)
  }

  ghost predicate InLog(log: seq<Record>, r: Record) {
    0 < r.sequence <= |log| && log[r.sequence - 1] == r
  }

  lemma {:induction false} FreshInLog(log: seq<Record>, frames: seq<Frame>, seen: set<Text>)
    requires forall j :: 0 <= j < |frames| && frames[j].RecordFrame? ==> InLog(log, frames[j].record)
    ensures forall k :: 0 <= k < |Fresh(frames, seen)| ==> InLog(log, Fresh(frames, seen)[k])
  {
    if frames != [] {
      FreshInLog(log, frames[1..], seen);
      if frames[0].RecordFrame? {
        FreshInLog(log, frames[1..], seen + {frames[0].record.eventId});
      }
    }
  }

  lemma {:induction false} DeliveredInLog(log: seq<Record>, cp: Checkpoint, streams: seq<seq<Frame>>)
    requires ReadAll(cp, streams).Some? && Honest(log, streams)
    ensures forall k :: 0 <= k < |ReadAll(cp, streams).value.records| ==>
              InLog(log, ReadAll(cp, streams).value.records[k])
    decreases |streams|
  {
    if streams != [] {
      var e := ConsumeDelivers(cp, Start(cp), streams[0]);
      assert [] + Fresh(streams[0][..e], {}) == Fresh(streams[0][..e], {});
      FreshInLog(log, streams[0][..e], {});
      DeliveredInLog(log, Watch(cp, streams[0]).value.checkpoint, streams[1..]);
    }
  }

  /** An honest server cannot number past its log. */
  lemma {:induction false} HonestStaysBelow(log: seq<Record>, cp: Checkpoint, streams: seq<seq<Frame>>)
    requires ReadAll(cp, streams).Some? && Honest(log, streams) && cp.after <= |log| < U64_MAX
    ensures cp.after + AllFirsts(streams) <= |log|
    decreases |streams|
  {
    if streams != [] {
      var b := Watch(cp, streams[0]).value;
      BatchIsFirsts(cp, streams[0]);
      WatchResumes(cp, streams[0]);
      var e := ConsumeDelivers(cp, Start(cp), streams[0]);
      BeforeEndIs(streams[0], e);
      FreshInLog(log, streams[0][..e], {});
      if b.records != [] {
        assert InLog(log, b.records[|b.records| - 1]);
      }
      HonestStaysBelow(log, b.checkpoint, streams[1..]);
    }
  }

  /** Chained reads refine the log: what they deliver is the slice between the two cursors. */
  lemma {:induction false} ChainedReadsRefineLog(log: seq<Record>, cp: Checkpoint, streams: seq<seq<Frame>>)
    requires ReadAll(cp, streams).Some? && Honest(log, streams)
    requires cp.after <= |log| < U64_MAX
    ensures var d := ReadAll(cp, streams).value;
            cp.after <= d.checkpoint.after <= |log| && d.records == log[cp.after..d.checkpoint.after]
  {
    var d := ReadAll(cp, streams).value;
    HonestStaysBelow(log, cp, streams);
    DeliveredInLog(log, cp, streams);
    ChainedReadsAreContiguous(cp, streams);
    if d.records != [] {
      assert InLog(log, d.records[|d.records| - 1]);
    }
    forall k | 0 <= k < |d.records| ensures d.records[k] == log[cp.after..d.checkpoint.after][k] {
      assert InLog(log, d.records[k]);
    }
  }

  // --------------------------------------------------------------- stuttering

  /** The event ids of accepted records stay in the set, and their ceremony was checked. */
  ghost predicate Remembers(cp: Checkpoint, s: Reading, frame: Frame) {
    frame.RecordFrame? && frame.record.ceremonyId == cp.ceremonyId && frame.record.eventId in s.seen
  }

  lemma {:induction false} RepetitionIgnored(cp: Checkpoint, s: Reading, before: seq<Frame>, copy: Frame,
                                             after: seq<Frame>)
    requires copy.RecordFrame? && (Remembers(cp, s, copy) || copy in before)
    ensures Consume(cp, s, before + [copy] + after) == Consume(cp, s, before + after)
    decreases |before|
  {
    if before == [] {
      assert before + [copy] + after == [copy] + after && before + after == after;
      assert ([copy] + after)[1..] == after;
    } else {
      var rest := before[1..];
      assert (before + [copy] + after)[1..] == rest + [copy] + after;
      assert (before + after)[1..] == rest + after;
      match Accept(cp, s, before[0])
      case Done(_) =>
      case More(s') =>
        assert before == [before[0]] + rest;
        RepetitionIgnored(cp, s', rest, copy, after);
    }
  }

  /** Repeat the frame at `from` just before position `at`. */
  datatype Repeat = Repeat(from: nat, at: nat)

  ghost predicate Applicable(frames: seq<Frame>, repeat: Repeat) {
    repeat.from < repeat.at <= |frames| && frames[repeat.from].RecordFrame?
  }

  ghost function Repeated(frames: seq<Frame>, repeats: seq<Repeat>): seq<Frame>
    decreases |repeats|
  {
    if repeats == [] || !Applicable(frames, repeats[0]) then frames
    else
      var Repeat(from, at) := repeats[0];
      Repeated(frames[..at] + [frames[from]] + frames[at..], repeats[1..])
  }

  /** Stuttering insensitivity: repeating record frames later in the stream, any number of times, changes nothing. */
  lemma {:induction false} StutteringChangesNothing(cp: Checkpoint, frames: seq<Frame>, repeats: seq<Repeat>)
    ensures Watch(cp, Repeated(frames, repeats)) == Watch(cp, frames)
    decreases |repeats|
  {
    if repeats != [] && Applicable(frames, repeats[0]) {
      var Repeat(from, at) := repeats[0];
      assert frames[..at][from] == frames[from];
      RepetitionIgnored(cp, Start(cp), frames[..at], frames[from], frames[at..]);
      assert frames[..at] + frames[at..] == frames;
      StutteringChangesNothing(cp, frames[..at] + [frames[from]] + frames[at..], repeats[1..]);
    }
  }
}
