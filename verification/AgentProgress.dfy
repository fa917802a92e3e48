/** The progress read with two cursors: sealed records and host activity in one stream. */
module AgentProgress {
  import opened Base
  import opened Framing
  import opened Progress

  datatype AgentBatch = AgentBatch(
    records: seq<Record>, snapshot: Option<Bytes>, activities: seq<Activity>,
    checkpoint: Checkpoint, activityAfter: u64, eventHead: u64, activityHead: u64, reason: EndReason)

  /** The variables of the read loop. */
  datatype Tracking = Tracking(
    expected: u64, lastActivity: u64, records: seq<Record>, snapshot: Option<Bytes>, activities: seq<Activity>)

  function StartAgent(cp: Checkpoint, activityAfter: u64): Tracking {
    Tracking(SaturatingNext(cp.after), activityAfter, [], None, [])
  }

  /** The effect of one frame. Unlike the plain read it neither checks the ceremony nor skips repetitions. */
  function AcceptAgent(cp: Checkpoint, activityAfter: u64, t: Tracking, frame: Frame): Step<Tracking, AgentBatch> {
    match frame
    case RecordFrame(r) =>
      if r.sequence != t.expected then Done(Err(SequenceMismatch(t.expected, r.sequence)))
      else More(t.(expected := SaturatingNext(t.expected), records := t.records + [r]))
    case SnapshotFrame(value) =>
      if activityAfter != 0 || t.snapshot.Some? then Done(Err(RepeatedSnapshot))
      else More(t.(snapshot := Some(value)))
    case ActivityFrame(a) =>
      if a.sequence <= t.lastActivity then Done(Err(ActivityDidNotAdvance))
      else More(t.(lastActivity := a.sequence, activities := t.activities + [a]))
    case EndFrame(end) =>
      var cursor := SaturatingPrev(t.expected);
      if end.resumeAfter != cursor || end.resumeActivityAfter < t.lastActivity then Done(Err(EndDoesNotCover))
      else
        (match DecodeReason(end.reason)
         case None => Done(Err(UnknownReason(end.reason)))
         case Some(reason) =>
           Done(Ok(AgentBatch(t.records, t.snapshot, t.activities, Checkpoint(cp.ceremonyId, cursor),
                              end.resumeActivityAfter, end.head, end.activityHead, reason))))
    case EmptyFrame => Done(Err(NoContent))
    case StatusFrame(unavailable) => Done(Err(RemoteStatus(unavailable)))
  }

  function ConsumeAgent(cp: Checkpoint, activityAfter: u64, t: Tracking, frames: seq<Frame>)
    : Result<AgentBatch, ClientError>
    decreases |frames|
  {
    if frames == [] then Err(NoResumeCursor)
    else
      match AcceptAgent(cp, activityAfter, t, frames[0])
      case Done(result) => result
      case More(t') => ConsumeAgent(cp, activityAfter, t', frames[1..])
  }

  function WatchAgent(cp: Checkpoint, activityAfter: u64, frames: seq<Frame>): Result<AgentBatch, ClientError> {
    ConsumeAgent(cp, activityAfter, StartAgent(cp, activityAfter), frames)
  }

  /** `watch_agent_activity_once`, given what the server streams. */
  method WatchAgentOnce(cp: Checkpoint, activityAfter: u64, frames: seq<Frame>)
    returns (r: Result<AgentBatch, ClientError>)
    ensures r == WatchAgent(cp, activityAfter, frames)
  {
    var expected := SaturatingNext(cp.after);
    var lastActivity := activityAfter;
    var records: seq<Record> := [];
    var snapshot: Option<Bytes> := None;
    var activities: seq<Activity> := [];
    var i := 0;
    assert frames[0..] == frames;
    while i < |frames|
      invariant 0 <= i <= |frames|
      invariant WatchAgent(cp, activityAfter, frames) ==
                  ConsumeAgent(cp, activityAfter, Tracking(expected, lastActivity, records, snapshot, activities),
                               frames[i..])
    {
      assert frames[i..][0] == frames[i] && frames[i..][1..] == frames[i + 1..];
      match frames[i] {
        case RecordFrame(record) =>
          if record.sequence != expected {
            return Err(SequenceMismatch(expected, record.sequence));
          }
          expected := SaturatingNext(expected);
          records := records + [record];
        case SnapshotFrame(value) =>
          if activityAfter != 0 || snapshot.Some? {
            return Err(RepeatedSnapshot);
          }
          snapshot := Some(value);
        case ActivityFrame(activity) =>
          if activity.sequence <= lastActivity {
            return Err(ActivityDidNotAdvance);
          }
          lastActivity := activity.sequence;
          activities := activities + [activity];
        case EndFrame(end) =>
          var cursor := SaturatingPrev(expected);
          if end.resumeAfter != cursor || end.resumeActivityAfter < lastActivity {
            return Err(EndDoesNotCover);
          }
          var reason := DecodeReason(end.reason);
          if reason.None? {
            return Err(UnknownReason(end.reason));
          }
          return Ok(AgentBatch(records, snapshot, activities, Checkpoint(cp.ceremonyId, cursor),
                               end.resumeActivityAfter, end.head, end.activityHead, reason.value));
        case EmptyFrame => return Err(NoContent);
        case StatusFrame(unavailable) => return Err(RemoteStatus(unavailable));
      }
      i := i + 1;
    }
    r := Err(NoResumeCursor);
  }

  // ------------------------------------------------------- when the read succeeds

  function RecordsOf(frames: seq<Frame>): seq<Record> {
    if frames == [] then []
    else if frames[0].RecordFrame? then [frames[0].record] + RecordsOf(frames[1..])
    else RecordsOf(frames[1..])
  }

  function ActivitiesOf(frames: seq<Frame>): seq<Activity> {
    if frames == [] then []
    else if frames[0].ActivityFrame? then [frames[0].activity] + ActivitiesOf(frames[1..])
    else ActivitiesOf(frames[1..])
  }

  function SnapshotsOf(frames: seq<Frame>): seq<Bytes> {
    if frames == [] then []
    else if frames[0].SnapshotFrame? then [frames[0].snapshot] + SnapshotsOf(frames[1..])
    else SnapshotsOf(frames[1..])
  }

  ghost predicate Ascending(from: u64, activities: seq<Activity>, to: u64) {
    && from <= to
    && (forall i :: 0 <= i < |activities| ==> from < activities[i].sequence <= to)
    && (forall i, j :: 0 <= i < j < |activities| ==> activities[i].sequence < activities[j].sequence)
  }

  /** Records, snapshots and activities, then an end frame. */
  ghost predicate ContentThenEnd(frames: seq<Frame>, e: nat) {
    && e < |frames| && frames[e].EndFrame?
    && forall i :: 0 <= i < e ==> frames[i].RecordFrame? || frames[i].SnapshotFrame? || frames[i].ActivityFrame?
  }

  /** The three kinds of content, each in order on its own, and an end mark that covers them. */
  ghost predicate Covers(activityAfter: u64, t: Tracking, content: seq<Frame>, end: EndMark) {
    && Numbered(t.expected, RecordsOf(content), end)
    && Ascending(t.lastActivity, ActivitiesOf(content), end.resumeActivityAfter)
    && |SnapshotsOf(content)| <= if activityAfter == 0 && t.snapshot.None? then 1 else 0
  }

  ghost predicate DeliversBoth(activityAfter: u64, t: Tracking, frames: seq<Frame>, e: nat) {
    ContentThenEnd(frames, e) && Covers(activityAfter, t, frames[..e], frames[e].end)
  }

  function FirstSnapshot(t: Tracking, frames: seq<Frame>): Option<Bytes> {
    if t.snapshot.None? && SnapshotsOf(frames) != [] then Some(SnapshotsOf(frames)[0]) else t.snapshot
  }

  function BatchOf(cp: Checkpoint, t: Tracking, content: seq<Frame>, end: EndMark): AgentBatch
    requires DecodeReason(end.reason).Some?
  {
    AgentBatch(t.records + RecordsOf(content), FirstSnapshot(t, content), t.activities + ActivitiesOf(content),
               Checkpoint(cp.ceremonyId, end.resumeAfter), end.resumeActivityAfter, end.head, end.activityHead,
               DecodeReason(end.reason).value)
  }

  /** One content frame shifts what the rest of the stream has to deliver. */
  lemma {:induction false} CoversStep(cp: Checkpoint, activityAfter: u64, t: Tracking, content: seq<Frame>,
                                      end: EndMark)
    requires content != [] && AcceptAgent(cp, activityAfter, t, content[0]).More?
    ensures var t' := AcceptAgent(cp, activityAfter, t, content[0]).state;
            && (Covers(activityAfter, t, content, end) <==> Covers(activityAfter, t', content[1..], end))
            && (Covers(activityAfter, t, content, end) ==>
                BatchOf(cp, t, content, end) == BatchOf(cp, t', content[1..], end))
  {
    var t' := AcceptAgent(cp, activityAfter, t, content[0]).state;
    var rest := content[1..];
    match content[0]
    case RecordFrame(r) =>
      NumberedStep(t.expected, r, RecordsOf(rest), end);
      assert t.records + ([r] + RecordsOf(rest)) == t'.records + RecordsOf(rest);
    case ActivityFrame(a) =>
      AscendingStep(t.lastActivity, a, ActivitiesOf(rest), end.resumeActivityAfter);
      assert t.activities + ([a] + ActivitiesOf(rest)) == t'.activities + ActivitiesOf(rest);
    case SnapshotFrame(_) =>
  }

  lemma {:induction false} ContentStep(cp: Checkpoint, activityAfter: u64, t: Tracking, frames: seq<Frame>, e: nat)
    requires 0 < e < |frames| && frames[e].EndFrame? && AcceptAgent(cp, activityAfter, t, frames[0]).More?
    ensures var t' := AcceptAgent(cp, activityAfter, t, frames[0]).state;
            && (DeliversBoth(activityAfter, t, frames, e) <==> DeliversBoth(activityAfter, t', frames[1..], e - 1))
            && (DeliversBoth(activityAfter, t, frames, e) ==>
                  BatchOf(cp, t, frames[..e], frames[e].end) == BatchOf(cp, t', frames[1..][..e - 1], frames[e].end))
  {
    assert frames[..e][1..] == frames[1..][..e - 1] && frames[..e][0] == frames[0] && frames[1..][e - 1] == frames[e];
    ContentStepKinds(frames, e);
    CoversStep(cp, activityAfter, t, frames[..e], frames[e].end);
  }

  lemma {:induction false} ContentStepKinds(frames: seq<Frame>, e: nat)
    requires 0 < e < |frames| && (frames[0].RecordFrame? || frames[0].SnapshotFrame? || frames[0].ActivityFrame?)
    ensures ContentThenEnd(frames, e) <==> ContentThenEnd(frames[1..], e - 1)
  {
    if ContentThenEnd(frames[1..], e - 1) {
      forall i | 0 <= i < e ensures frames[i].RecordFrame? || frames[i].SnapshotFrame? || frames[i].ActivityFrame? {
        assert i > 0 ==> frames[i] == frames[1..][i - 1];
      }
    }
  }

  lemma {:induction false} NumberedStep(expected: u64, r: Record, rest: seq<Record>, end: EndMark)
    requires r.sequence == expected
    ensures Numbered(expected, [r] + rest, end) <==> Numbered(SaturatingNext(expected), rest, end)
  {
    var all := [r] + rest;
    if Numbered(expected, all, end) {
      forall k | 0 <= k < |rest| ensures rest[k].sequence == Advance(SaturatingNext(expected), k) {
        assert all[k + 1] == rest[k];
      }
    }
  }

  lemma {:induction false} AscendingStep(from: u64, a: Activity, rest: seq<Activity>, to: u64)
    requires from < a.sequence
    ensures Ascending(from, [a] + rest, to) <==> Ascending(a.sequence, rest, to)
  {
    var all := [a] + rest;
    if Ascending(from, all, to) {
      forall i | 0 <= i < |rest| ensures a.sequence < rest[i].sequence <= to {
        assert all[i + 1] == rest[i] && all[0] == a;
      }
      forall i, j | 0 <= i < j < |rest| ensures rest[i].sequence < rest[j].sequence {
        assert all[i + 1] == rest[i] && all[j + 1] == rest[j];
      }
      assert all[0].sequence <= to;
    }
  }

  lemma {:induction false} AgentDelivers(cp: Checkpoint, activityAfter: u64, t: Tracking, frames: seq<Frame>)
    returns (e: nat)
    requires ConsumeAgent(cp, activityAfter, t, frames).Ok?
    ensures DeliversBoth(activityAfter, t, frames, e)
    decreases |frames|
  {
    match AcceptAgent(cp, activityAfter, t, frames[0])
    case Done(_) =>
      e := 0;
      assert frames[..0] == [] && Advance(t.expected, 0) == t.expected;
    case More(t') =>
      var e' := AgentDelivers(cp, activityAfter, t', frames[1..]);
      e := e' + 1;
      ContentStep(cp, activityAfter, t, frames, e);
  }

  /** The first frame of a stream that delivers is accepted. */
  lemma {:induction false} FirstIsAccepted(cp: Checkpoint, activityAfter: u64, t: Tracking, frames: seq<Frame>, e: nat)
    requires DeliversBoth(activityAfter, t, frames, e) && e > 0
    ensures AcceptAgent(cp, activityAfter, t, frames[0]).More?
  {
    var content := frames[..e];
    assert content[0] == frames[0];
    match frames[0]
    case RecordFrame(r) => assert RecordsOf(content)[0] == r && Advance(t.expected, 0) == t.expected;
    case ActivityFrame(a) => assert ActivitiesOf(content)[0] == a;
    case SnapshotFrame(value) => assert SnapshotsOf(content) == [value] + SnapshotsOf(content[1..]);
  }

  lemma {:induction false} AgentDelivered(cp: Checkpoint, activityAfter: u64, t: Tracking, frames: seq<Frame>, e: nat)
    requires DeliversBoth(activityAfter, t, frames, e)
    ensures ConsumeAgent(cp, activityAfter, t, frames) == Ok(BatchOf(cp, t, frames[..e], frames[e].end))
    decreases e
  {
    if e == 0 {
      assert frames[..0] == [] && Advance(t.expected, 0) == t.expected;
      assert t.records + [] == t.records && t.activities + [] == t.activities;
    } else {
      FirstIsAccepted(cp, activityAfter, t, frames, e);
      ContentStep(cp, activityAfter, t, frames, e);
      AgentDelivered(cp, activityAfter, AcceptAgent(cp, activityAfter, t, frames[0]).state, frames[1..], e - 1);
    }
  }

  /**
   * On arbitrary streams: the combined read succeeds exactly when records are numbered on from the
   * checkpoint, activities ascend from theirs, at most one snapshot appears and only in a read from the
   * start, and an end frame covers all of it. The batch is then all of it, repeated and foreign records included.
   */
  lemma {:induction false} WatchAgentSucceedsIff(cp: Checkpoint, activityAfter: u64, frames: seq<Frame>)
    ensures var t := StartAgent(cp, activityAfter);
            && (WatchAgent(cp, activityAfter, frames).Ok? <==>
                exists e: nat :: DeliversBoth(activityAfter, t, frames, e))
            && forall e: nat :: DeliversBoth(activityAfter, t, frames, e) ==>
                 WatchAgent(cp, activityAfter, frames) == Ok(BatchOf(cp, t, frames[..e], frames[e].end))
  {
    var t := StartAgent(cp, activityAfter);
    if WatchAgent(cp, activityAfter, frames).Ok? {
      var e := AgentDelivers(cp, activityAfter, t, frames);
    }
    forall e: nat | DeliversBoth(activityAfter, t, frames, e)
      ensures WatchAgent(cp, activityAfter, frames) == Ok(BatchOf(cp, t, frames[..e], frames[e].end))
    {
      AgentDelivered(cp, activityAfter, t, frames, e);
    }
  }

  /** What a successful read returns, in terms of the stream before its end frame. */
  lemma {:induction false} AgentBatchIs(cp: Checkpoint, activityAfter: u64, frames: seq<Frame>)
    requires WatchAgent(cp, activityAfter, frames).Ok?
    ensures var b := WatchAgent(cp, activityAfter, frames).value;
            && b.records == RecordsOf(BeforeEnd(frames)) && b.activities == ActivitiesOf(BeforeEnd(frames))
            && b.checkpoint == Checkpoint(cp.ceremonyId, SaturatingPrev(Advance(SaturatingNext(cp.after), |b.records|)))
            && forall k :: 0 <= k < |b.records| ==> b.records[k].sequence == Advance(SaturatingNext(cp.after), k)
  {
    var t := StartAgent(cp, activityAfter);
    var e := AgentDelivers(cp, activityAfter, t, frames);
    AgentDelivered(cp, activityAfter, t, frames, e);
    BeforeEndIs(frames, e);
    assert [] + RecordsOf(frames[..e]) == RecordsOf(frames[..e]);
    assert [] + ActivitiesOf(frames[..e]) == ActivitiesOf(frames[..e]);
  }

  // ------------------------------------------------------ two independent lanes

  /** The stream with snapshot and activity frames removed. */
  function Plain(frames: seq<Frame>): seq<Frame> {
    if frames == [] then []
    else if frames[0].SnapshotFrame? || frames[0].ActivityFrame? then Plain(frames[1..])
    else [frames[0]] + Plain(frames[1..])
  }

  /** Up to the end frame, records are of the ceremony and carry event ids not seen before. */
  predicate OwnRecords(cp: Checkpoint, seen: set<Text>, frames: seq<Frame>)
    decreases |frames|
  {
    frames == [] || frames[0].EndFrame? ||
    if frames[0].RecordFrame? then
      var r := frames[0].record;
      && r.ceremonyId == cp.ceremonyId && r.eventId !in seen
      && OwnRecords(cp, seen + {r.eventId}, frames[1..])
    else OwnRecords(cp, seen, frames[1..])
  }

  /** The activity side of the stream on its own: a first snapshot at most, then advancing activities. */
  predicate ActivityLane(fromStart: bool, snapshot: bool, last: u64, frames: seq<Frame>)
    decreases |frames|
  {
    frames != [] &&
    match frames[0]
    case RecordFrame(_) => ActivityLane(fromStart, snapshot, last, frames[1..])
    case SnapshotFrame(_) => fromStart && !snapshot && ActivityLane(fromStart, true, last, frames[1..])
    case ActivityFrame(a) => last < a.sequence && ActivityLane(fromStart, snapshot, a.sequence, frames[1..])
    case EndFrame(end) => last <= end.resumeActivityAfter
    case EmptyFrame => false
    case StatusFrame(_) => false
  }

  /** The record half of a combined batch. */
  function EventHalf(b: AgentBatch): Batch {
    Batch(b.records, b.checkpoint, b.eventHead, b.reason)
  }

  lemma {:induction false} LanesSplit(cp: Checkpoint, activityAfter: u64, s: Reading, t: Tracking, frames: seq<Frame>)
    requires s.expected == t.expected && s.records == t.records
    requires OwnRecords(cp, s.seen, frames)
    ensures ConsumeAgent(cp, activityAfter, t, frames).Ok? <==>
              && Consume(cp, s, Plain(frames)).Ok?
              && ActivityLane(activityAfter == 0, t.snapshot.Some?, t.lastActivity, frames)
    ensures ConsumeAgent(cp, activityAfter, t, frames).Ok? ==>
              Consume(cp, s, Plain(frames)) == Ok(EventHalf(ConsumeAgent(cp, activityAfter, t, frames).value))
    decreases |frames|
  {
    if frames != [] {
      var plain := Plain(frames);
      match frames[0]
      case RecordFrame(r) =>
        assert plain[0] == frames[0] && plain[1..] == Plain(frames[1..]);
        if r.sequence == t.expected {
          var s' := Reading(SaturatingNext(s.expected), s.seen + {r.eventId}, s.records + [r]);
          LanesSplit(cp, activityAfter, s', t.(expected := s'.expected, records := s'.records), frames[1..]);
        }
      case SnapshotFrame(value) =>
        LanesSplit(cp, activityAfter, s, t.(snapshot := Some(value)), frames[1..]);
      case ActivityFrame(a) =>
        LanesSplit(cp, activityAfter, s, t.(lastActivity := a.sequence, activities := t.activities + [a]), frames[1..]);
      case EndFrame(_) =>
        assert plain[0] == frames[0];
      case EmptyFrame =>
        assert plain[0] == frames[0];
      case StatusFrame(_) =>
        assert plain[0] == frames[0];
    }
  }

  /**
   * Two-cursor refinement. On streams whose records are the ceremony's own and not repeated, the
   * combined read succeeds exactly when the plain read of the stream without agent frames succeeds
   * and the activity lane is in order; records, cursor, head and reason are then those of the plain read.
   */
  lemma {:induction false} AgentRefinesPlain(cp: Checkpoint, activityAfter: u64, frames: seq<Frame>)
    requires OwnRecords(cp, {}, frames)
    ensures WatchAgent(cp, activityAfter, frames).Ok? <==>
              Watch(cp, Plain(frames)).Ok? && ActivityLane(activityAfter == 0, false, activityAfter, frames)
    ensures WatchAgent(cp, activityAfter, frames).Ok? ==>
              Watch(cp, Plain(frames)) == Ok(EventHalf(WatchAgent(cp, activityAfter, frames).value))
  {
    LanesSplit(cp, activityAfter, Start(cp), StartAgent(cp, activityAfter), frames);
  }

  /** Once the combined read holds more records than the plain one, it keeps doing so. */
  lemma {:induction false} StaysLonger(cp: Checkpoint, activityAfter: u64, s: Reading, t: Tracking, frames: seq<Frame>)
    requires |s.records| < |t.records|
    requires ConsumeAgent(cp, activityAfter, t, frames).Ok? && Consume(cp, s, Plain(frames)).Ok?
    ensures |Consume(cp, s, Plain(frames)).value.records| < |ConsumeAgent(cp, activityAfter, t, frames).value.records|
    decreases |frames|
  {
    var t' := AcceptAgent(cp, activityAfter, t, frames[0]);
    if t'.More? {
      if frames[0].RecordFrame? {
        assert Plain(frames)[0] == frames[0] && Plain(frames)[1..] == Plain(frames[1..]);
        StaysLonger(cp, activityAfter, Accept(cp, s, frames[0]).state, t'.state, frames[1..]);
      } else {
        StaysLonger(cp, activityAfter, s, t'.state, frames[1..]);
      }
    } else {
      assert Plain(frames)[0] == frames[0];
    }
  }

  /** The first foreign or repeated record separates the two reads for good. */
  lemma {:induction false} BadRecordSeparates(cp: Checkpoint, activityAfter: u64, s: Reading, t: Tracking,
                                              frames: seq<Frame>)
    requires s.expected == t.expected && s.records == t.records
    requires ConsumeAgent(cp, activityAfter, t, frames).Ok? && !OwnRecords(cp, s.seen, frames)
    ensures Consume(cp, s, Plain(frames)).Ok? ==>
              |Consume(cp, s, Plain(frames)).value.records| < |ConsumeAgent(cp, activityAfter, t, frames).value.records|
    decreases |frames|
  {
    var t' := AcceptAgent(cp, activityAfter, t, frames[0]).state;
    if frames[0].RecordFrame? {
      var r := frames[0].record;
      assert Plain(frames)[0] == frames[0] && Plain(frames)[1..] == Plain(frames[1..]);
      if r.ceremonyId == cp.ceremonyId && r.eventId in s.seen {
        if Consume(cp, s, Plain(frames)).Ok? {
          StaysLonger(cp, activityAfter, s, t', frames[1..]);
        }
      } else if r.ceremonyId == cp.ceremonyId {
        BadRecordSeparates(cp, activityAfter, Accept(cp, s, frames[0]).state, t', frames[1..]);
      }
    } else {
      BadRecordSeparates(cp, activityAfter, s, t', frames[1..]);
    }
  }

  /** Both reads succeed, and with the same records, cursor, head and reason. */
  ghost predicate Agree(cp: Checkpoint, activityAfter: u64, frames: seq<Frame>) {
    && WatchAgent(cp, activityAfter, frames).Ok?
    && Watch(cp, Plain(frames)) == Ok(EventHalf(WatchAgent(cp, activityAfter, frames).value))
  }

  /**
   * Exactly when the reads agree. Wherever either of them accepts its side of the stream, they return
   * the same if and only if every record up to the end frame is the ceremony's own and none is repeated.
   */
  lemma {:induction false} AgreeIffOwnRecords(cp: Checkpoint, activityAfter: u64, frames: seq<Frame>)
    requires || WatchAgent(cp, activityAfter, frames).Ok?
             || (Watch(cp, Plain(frames)).Ok? && ActivityLane(activityAfter == 0, false, activityAfter, frames))
    ensures Agree(cp, activityAfter, frames) <==> OwnRecords(cp, {}, frames)
  {
    if OwnRecords(cp, {}, frames) {
      AgentRefinesPlain(cp, activityAfter, frames);
    } else if WatchAgent(cp, activityAfter, frames).Ok? {
      BadRecordSeparates(cp, activityAfter, Start(cp), StartAgent(cp, activityAfter), frames);
    }
  }

  /** Below the end of the numbering a repetition the plain read skips always stops the combined read. */
  lemma {:induction false} RepetitionStopsAgentRead(cp: Checkpoint, activityAfter: u64, frames: seq<Frame>)
    requires Watch(cp, Plain(frames)).Ok? && !OwnRecords(cp, {}, frames)
    requires cp.after + |RecordsOf(BeforeEnd(frames))| < U64_MAX
    ensures WatchAgent(cp, activityAfter, frames).Err?
  {
    if WatchAgent(cp, activityAfter, frames).Ok? {
      BadRecordSeparates(cp, activityAfter, Start(cp), StartAgent(cp, activityAfter), frames);
      AgentBatchIs(cp, activityAfter, frames);
      WatchResumes(cp, Plain(frames));
      SameEnd(cp, activityAfter, Start(cp), StartAgent(cp, activityAfter), frames);
      assert false;
    }
  }

  /** Both reads end at the same frame, whose cursor both accept. */
  lemma {:induction false} SameEnd(cp: Checkpoint, activityAfter: u64, s: Reading, t: Tracking, frames: seq<Frame>)
    requires ConsumeAgent(cp, activityAfter, t, frames).Ok? && Consume(cp, s, Plain(frames)).Ok?
    ensures Consume(cp, s, Plain(frames)).value.checkpoint ==
            ConsumeAgent(cp, activityAfter, t, frames).value.checkpoint
    decreases |frames|
  {
    var t' := AcceptAgent(cp, activityAfter, t, frames[0]);
    if t'.More? {
      if frames[0].RecordFrame? {
        assert Plain(frames)[0] == frames[0] && Plain(frames)[1..] == Plain(frames[1..]);
        SameEnd(cp, activityAfter, Accept(cp, s, frames[0]).state, t'.state, frames[1..]);
      } else {
        SameEnd(cp, activityAfter, s, t'.state, frames[1..]);
      }
    } else {
      assert Plain(frames)[0] == frames[0];
    }
  }

  /** A record of another ceremony under the expected number: refused by the plain read, delivered by this one. */
  lemma {:induction false} ForeignRecordIsDelivered(cp: Checkpoint, r: Record)
    requires cp.after + 1 < U64_MAX && r.sequence == cp.after + 1 && r.ceremonyId != cp.ceremonyId
    ensures var frames := [RecordFrame(r), EndFrame(EndMark(cp.after + 1, cp.after + 1, 2, 0, 0))];
            && Watch(cp, Plain(frames)) == Err(ForeignRecord(r.ceremonyId))
            && WatchAgent(cp, 0, frames) ==
                 Ok(AgentBatch([r], None, [], Checkpoint(cp.ceremonyId, cp.after + 1), 0, cp.after + 1, 0, EventLimit))
  {
    var end := EndFrame(EndMark(cp.after + 1, cp.after + 1, 2, 0, 0));
    var frames := [RecordFrame(r), end];
    assert frames[1..] == [end] && Plain(frames)[0] == frames[0] && [] + [r] == [r];
    var t := StartAgent(cp, 0).(expected := cp.after + 2, records := [r]);
    assert AcceptAgent(cp, 0, StartAgent(cp, 0), frames[0]) == More(t);
    assert ConsumeAgent(cp, 0, t, [end]).Ok?;
  }

  /** A second record under the same event id: skipped by the plain read, delivered by this one. */
  lemma {:induction false} RepeatedEventIsDelivered(cp: Checkpoint, r: Record, again: Record)
    requires cp.after + 2 < U64_MAX && r.sequence == cp.after + 1 && again.sequence == cp.after + 2
    requires r.ceremonyId == again.ceremonyId == cp.ceremonyId && r.eventId == again.eventId
    ensures var frames := [RecordFrame(r), RecordFrame(again), EndFrame(EndMark(cp.after + 2, cp.after + 2, 2, 0, 0))];
            && WatchAgent(cp, 0, frames).Ok? && WatchAgent(cp, 0, frames).value.records == [r, again]
            && Watch(cp, Plain(frames)) == Err(EndCursorMismatch(cp.after + 2, cp.after + 1))
  {
    var end := EndFrame(EndMark(cp.after + 2, cp.after + 2, 2, 0, 0));
    var rest := [RecordFrame(again), end];
    var frames := [RecordFrame(r), RecordFrame(again), end];
    assert frames[1..] == rest && rest[1..] == [end] && [end][1..] == [];
    assert Plain([end]) == [end] && Plain(rest) == rest && Plain(frames) == frames;
    var t := StartAgent(cp, 0).(expected := cp.after + 2, records := [r]);
    var t' := t.(expected := cp.after + 3, records := [r, again]);
    assert [] + [r] == [r] && [r] + [again] == [r, again];
    assert AcceptAgent(cp, 0, StartAgent(cp, 0), frames[0]) == More(t) && AcceptAgent(cp, 0, t, rest[0]) == More(t');
    assert ConsumeAgent(cp, 0, t, rest) == ConsumeAgent(cp, 0, t', [end]);
    var s := Reading(cp.after + 2, {} + {r.eventId}, [r]);
    assert Accept(cp, Start(cp), frames[0]) == More(s) && Accept(cp, s, rest[0]) == More(s);
    assert Consume(cp, s, rest) == Consume(cp, s, [end]);
  }

  // --------------------------------------------------------- activity cursors

  lemma {:induction false} ConsumeAscends(cp: Checkpoint, activityAfter: u64, t: Tracking, frames: seq<Frame>)
    requires Ascending(activityAfter, t.activities, t.lastActivity)
    requires t.snapshot.Some? ==> activityAfter == 0
    requires ConsumeAgent(cp, activityAfter, t, frames).Ok?
    ensures var b := ConsumeAgent(cp, activityAfter, t, frames).value;
            Ascending(activityAfter, b.activities, b.activityAfter) && (b.snapshot.Some? ==> activityAfter == 0)
    decreases |frames|
  {
    match AcceptAgent(cp, activityAfter, t, frames[0])
    case Done(_) =>
    case More(t') => ConsumeAscends(cp, activityAfter, t', frames[1..]);
  }

  datatype AgentReads = AgentReads(
    records: seq<Record>, activities: seq<Activity>, checkpoint: Checkpoint, activityAfter: u64)

  /** What two runs of reads give together, the second from the cursors of the first. */
  function Joined(a: AgentReads, b: AgentReads): AgentReads {
    AgentReads(a.records + b.records, a.activities + b.activities, b.checkpoint, b.activityAfter)
  }

  function OneRead(b: AgentBatch): AgentReads {
    AgentReads(b.records, b.activities, b.checkpoint, b.activityAfter)
  }

  /** Successive combined reads, each resuming from both cursors of the one before. */
  function ReadAllAgent(cp: Checkpoint, activityAfter: u64, streams: seq<seq<Frame>>): Option<AgentReads>
    decreases |streams|
  {
    if streams == [] then Some(AgentReads([], [], cp, activityAfter))
    else
      match WatchAgent(cp, activityAfter, streams[0])
      case Err(_) => None
      case Ok(b) =>
        match ReadAllAgent(b.checkpoint, b.activityAfter, streams[1..])
        case None => None
        case Some(d) => Some(Joined(OneRead(b), d))
  }

  /** One read chained is that read. */
  lemma {:induction false} OneAgentRead(cp: Checkpoint, activityAfter: u64, frames: seq<Frame>)
    ensures match WatchAgent(cp, activityAfter, frames)
            case Err(_) => ReadAllAgent(cp, activityAfter, [frames]) == None
            case Ok(b) => ReadAllAgent(cp, activityAfter, [frames]) ==
                          Some(AgentReads(b.records, b.activities, b.checkpoint, b.activityAfter))
  {
    if WatchAgent(cp, activityAfter, frames).Ok? {
      var b := WatchAgent(cp, activityAfter, frames).value;
      assert ReadAllAgent(b.checkpoint, b.activityAfter, []).Some? && [frames][1..] == [];
      assert b.records + [] == b.records && b.activities + [] == b.activities;
    }
  }

  lemma {:induction false} JoinedAssociates(a: AgentReads, b: AgentReads, c: AgentReads)
    ensures Joined(Joined(a, b), c) == Joined(a, Joined(b, c))
  {
    assert a.records + b.records + c.records == a.records + (b.records + c.records);
    assert a.activities + b.activities + c.activities == a.activities + (b.activities + c.activities);
  }

  /** What follows the reads of `a`. */
  function Then(a: AgentReads, y: seq<seq<Frame>>): Option<AgentReads> {
    match ReadAllAgent(a.checkpoint, a.activityAfter, y)
    case None => None
    case Some(b) => Some(Joined(a, b))
  }

  /** Reads chain: the whole succeeds exactly when both parts do, the second from where the first ended. */
  lemma {:induction false} AgentReadsChain(cp: Checkpoint, activityAfter: u64, x: seq<seq<Frame>>, y: seq<seq<Frame>>)
    ensures ReadAllAgent(cp, activityAfter, x + y) ==
              match ReadAllAgent(cp, activityAfter, x) case None => None case Some(a) => Then(a, y)
    decreases |x|
  {
    if x == [] {
      assert x + y == y;
      if ReadAllAgent(cp, activityAfter, y).Some? {
        var b := ReadAllAgent(cp, activityAfter, y).value;
        assert [] + b.records == b.records && [] + b.activities == b.activities;
      }
    } else {
      assert (x + y)[0] == x[0] && (x + y)[1..] == x[1..] + y;
      if WatchAgent(cp, activityAfter, x[0]).Ok? {
        var b := WatchAgent(cp, activityAfter, x[0]).value;
        AgentReadsChain(b.checkpoint, b.activityAfter, x[1..], y);
        ThenAfter(OneRead(b), ReadAllAgent(b.checkpoint, b.activityAfter, x[1..]), y);
      }
    }
  }

  lemma {:induction false} ThenAfter(one: AgentReads, rest: Option<AgentReads>, y: seq<seq<Frame>>)
    ensures rest.Some? && Then(rest.value, y).Some? ==>
              Then(Joined(one, rest.value), y) == Some(Joined(one, Then(rest.value, y).value))
    ensures rest.Some? && Then(rest.value, y).None? ==> Then(Joined(one, rest.value), y).None?
  {
    if rest.Some? && Then(rest.value, y).Some? {
      JoinedAssociates(one, rest.value, ReadAllAgent(rest.value.checkpoint, rest.value.activityAfter, y).value);
    }
  }

  /** Across chained reads activities strictly advance and the activity cursor never goes back. */
  lemma {:induction false} ChainedActivityAscends(cp: Checkpoint, activityAfter: u64, streams: seq<seq<Frame>>)
    requires ReadAllAgent(cp, activityAfter, streams).Some?
    ensures var d := ReadAllAgent(cp, activityAfter, streams).value;
            Ascending(activityAfter, d.activities, d.activityAfter)
    decreases |streams|
  {
    if streams != [] {
      ConsumeAscends(cp, activityAfter, StartAgent(cp, activityAfter), streams[0]);
      var b := WatchAgent(cp, activityAfter, streams[0]).value;
      ChainedActivityAscends(b.checkpoint, b.activityAfter, streams[1..]);
    }
  }

  function AllRecords(streams: seq<seq<Frame>>): nat {
    if streams == [] then 0 else |RecordsOf(BeforeEnd(streams[0]))| + AllRecords(streams[1..])
  }

  /** A read never leaves the event cursor at the end of the range. */
  lemma {:induction false} AgentCursorBelowTheEnd(cp: Checkpoint, activityAfter: u64, streams: seq<seq<Frame>>)
    requires ReadAllAgent(cp, activityAfter, streams).Some? && streams != []
    ensures var d := ReadAllAgent(cp, activityAfter, streams).value;
            d.checkpoint.after < U64_MAX && |d.records| == AllRecords(streams)
    decreases |streams|
  {
    AgentBatchIs(cp, activityAfter, streams[0]);
    var b := WatchAgent(cp, activityAfter, streams[0]).value;
    if |streams| > 1 {
      AgentCursorBelowTheEnd(b.checkpoint, b.activityAfter, streams[1..]);
    } else {
      assert streams[1..] == [];
    }
  }

  /** The records of chained reads are numbered on without gap, exactly when they stay below the end of the range. */
  lemma {:induction false} ChainedAgentReadsContiguousIff(cp: Checkpoint, activityAfter: u64, streams: seq<seq<Frame>>)
    requires ReadAllAgent(cp, activityAfter, streams).Some? && streams != []
    ensures var d := ReadAllAgent(cp, activityAfter, streams).value;
            ContiguousReads(cp, Delivered(d.records, d.checkpoint)) <==> cp.after + AllRecords(streams) < U64_MAX
  {
    AgentCursorBelowTheEnd(cp, activityAfter, streams);
    if cp.after + AllRecords(streams) < U64_MAX {
      ChainedAgentReadsContiguous(cp, activityAfter, streams);
    }
  }

  lemma {:induction false} ChainedAgentReadsContiguous(cp: Checkpoint, activityAfter: u64, streams: seq<seq<Frame>>)
    requires ReadAllAgent(cp, activityAfter, streams).Some? && cp.after + AllRecords(streams) < U64_MAX
    ensures var d := ReadAllAgent(cp, activityAfter, streams).value;
            ContiguousReads(cp, Delivered(d.records, d.checkpoint))
    decreases |streams|
  {
    if streams != [] {
      AgentBatchIs(cp, activityAfter, streams[0]);
      var b := WatchAgent(cp, activityAfter, streams[0]).value;
      ChainedAgentReadsContiguous(b.checkpoint, b.activityAfter, streams[1..]);
      assert ReadAllAgent(cp, activityAfter, streams).value.records ==
             b.records + ReadAllAgent(b.checkpoint, b.activityAfter, streams[1..]).value.records;
    }
  }
}
