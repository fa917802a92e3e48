/** The server side of the progress stream: replay the journal, then follow it for a bounded wait. */
module ProgressServer {
  import opened Base
  import opened Framing
  import opened Journal
  import opened EventStore
  import opened Progress

  /** How the idle wait of one turn ended. */
  datatype Wake = Notified | DeadlinePassed | ReceiverGone

  /**
   * What one turn of the loop meets: the length of the journal when the page and when the head were
   * read, whether that read fails, which reads of the history fail, whether such a failure is one to
   * retry, and what ended the wait.
   */
  datatype Turn = Turn(
    pageLength: nat, headLength: nat, readFails: bool, historyFails: nat -> bool, retryable: bool, wake: Wake)

  /** The journal only grows, and the head is read after the page. */
  ghost predicate Observes(journal: seq<AuditRecord>, turns: seq<Turn>) {
    && (forall i :: 0 <= i < |turns| ==> turns[i].pageLength <= turns[i].headLength <= |journal|)
    && (forall i, j :: 0 <= i < j < |turns| ==> turns[i].headLength <= turns[j].pageLength)
  }

  predicate IsTerminal(r: AuditRecord) {
    || r.eventType == Ascii("ceremony_completed")
    || r.eventType == Ascii("ceremony_cancelled")
    || r.eventType == Ascii("ceremony_deadline_exceeded")
    || r.eventType == Ascii("state_deadline_exceeded")
  }

  /** Completion, cancellation and the two deadlines. */
  lemma {:induction false} TerminalsAre(r: AuditRecord)
    ensures IsTerminal(r) <==>
              exists name :: r.eventType == Ascii(name) && name in TERMINAL_EVENTS
  {
    if IsTerminal(r) {
      assert "ceremony_completed" in TERMINAL_EVENTS && "ceremony_cancelled" in TERMINAL_EVENTS;
      assert "ceremony_deadline_exceeded" in TERMINAL_EVENTS && "state_deadline_exceeded" in TERMINAL_EVENTS;
    }
  }

  const TERMINAL_EVENTS := {
    "ceremony_completed", "ceremony_cancelled", "ceremony_deadline_exceeded", "state_deadline_exceeded"}

  ghost predicate HasTerminal(records: seq<AuditRecord>) {
    exists i :: 0 <= i < |records| && IsTerminal(records[i])
  }

  /** The public projection of a sealed record. */
  function Wire(r: AuditRecord): Record {
    Record(r.ceremonyId, r.eventId, r.sequence, r.eventType, r.event)
  }

  /** It keeps the ceremony, the event with its type and payload, and the number. */
  lemma {:induction false} WireKeeps(r: AuditRecord)
    ensures var w := Wire(r);
            && w.ceremonyId == r.ceremonyId && w.sequence == r.sequence
            && w.eventId == r.eventId && w.eventType == r.eventType && w.event == r.event
  {
  }

  function Wires(records: seq<AuditRecord>): seq<Record> {
    seq(|records|, i requires 0 <= i < |records| => Wire(records[i]))
  }

  function WireFrames(records: seq<AuditRecord>): seq<Frame> {
    seq(|records|, i requires 0 <= i < |records| => RecordFrame(Wire(records[i])))
  }

  const HISTORY_PAGE := 200

  /** The read of page `k` of the history fails, and no earlier page ended the ceremony. */
  ghost predicate FailsAt(journal: seq<AuditRecord>, head: nat, fails: nat -> bool, k: nat)
    requires head <= |journal|
  {
    200 * k < head && fails(200 * k) && !HasTerminal(journal[..200 * k])
  }

  ghost predicate HistoryFails(journal: seq<AuditRecord>, head: nat, fails: nat -> bool)
    requires head <= |journal|
  {
    exists k: nat :: FailsAt(journal, head, fails, k)
  }

  /** Pages behind a terminal record are not read. */
  lemma {:induction false} TerminalStopsHistory(journal: seq<AuditRecord>, head: nat, fails: nat -> bool, k: nat,
                                                i: nat)
    requires head <= |journal| && i < head && i < 200 * (k + 1) && IsTerminal(journal[i])
    requires forall j :: 0 <= j <= k ==> !FailsAt(journal, head, fails, j)
    ensures !HistoryFails(journal, head, fails)
  {
    forall j: nat ensures !FailsAt(journal, head, fails, j) {
      if j > k && 200 * j < head {
        assert journal[..200 * j][i] == journal[i];
      }
    }
  }

  /** The first `k` pages were read and hold no terminal record. */
  ghost predicate ReadPages(journal: seq<AuditRecord>, head: nat, fails: nat -> bool, k: nat, from: nat)
    requires head <= |journal|
  {
    && from == (if 200 * k <= head then 200 * k else head) && !HasTerminal(journal[..from])
    && forall j :: 0 <= j < k ==> !FailsAt(journal, head, fails, j)
  }

  lemma {:induction false} ReadNextPage(journal: seq<AuditRecord>, head: nat, fails: nat -> bool, k: nat, from: nat,
                                        limit: nat)
    requires head <= |journal| && ReadPages(journal, head, fails, k, from) && from < head && !fails(from)
    requires limit == (if head - from < 200 then head - from else 200) && !HasTerminal(journal[from..from + limit])
    ensures ReadPages(journal, head, fails, k + 1, from + limit)
  {
    forall i | 0 <= i < from + limit ensures !IsTerminal(journal[i]) {
      assert if i < from then journal[..from][i] == journal[i] else journal[from..from + limit][i - from] == journal[i];
    }
  }

  lemma {:induction false} AllPagesRead(journal: seq<AuditRecord>, head: nat, fails: nat -> bool, k: nat)
    requires head <= |journal| && ReadPages(journal, head, fails, k, head)
    ensures !HistoryFails(journal, head, fails)
  {
  }

  /** `history_is_terminal`: page through the history up to the captured head; a failing read ends it with an error. */
  method HistoryIsTerminal(journal: seq<AuditRecord>, head: nat, fails: nat -> bool) returns (terminal: Option<bool>)
    requires head <= |journal|
    ensures terminal.None? <==> HistoryFails(journal, head, fails)
    ensures terminal.Some? ==> (terminal.value <==> HasTerminal(journal[..head]))
  {
    var from := 0;
    ghost var k := 0;
    while from < head
      invariant from <= head && ReadPages(journal, head, fails, k, from)
    {
      if fails(from) {
        assert FailsAt(journal, head, fails, k);
        return None;
      }
      var limit := if head - from < HISTORY_PAGE then head - from else HISTORY_PAGE;
      var records := Page(journal, from, limit);
      assert records == journal[from..from + limit];
      if i :| 0 <= i < |records| && IsTerminal(records[i]) {
        assert journal[..head][from + i] == records[i];
        TerminalStopsHistory(journal, head, fails, k, from + i);
        return Some(true);
      }
      ReadNextPage(journal, head, fails, k, from, limit);
      from, k := from + limit, k + 1;
    }
    AllPagesRead(journal, head, fails, k);
    return Some(false);
  }

  /** The first record of a page that ends the ceremony, or its length: where delivery stops. */
  function StopsAfter(page: seq<AuditRecord>): (n: nat)
    ensures n <= |page|
    ensures forall i :: 0 <= i < n - 1 ==> !IsTerminal(page[i])
    ensures n < |page| ==> n > 0 && IsTerminal(page[n - 1])
  {
    if page == [] then 0 else if IsTerminal(page[0]) then 1 else 1 + StopsAfter(page[1..])
  }

  /** `deliver_records` for a page no longer than what remains. */
  method DeliverRecords(page: seq<AuditRecord>) returns (sent: nat, terminal: bool)
    ensures sent == StopsAfter(page)
    ensures terminal <==> sent > 0 && IsTerminal(page[sent - 1])
  {
    sent, terminal := 0, false;
    while sent < |page|
      invariant sent <= |page| && StopsAfter(page) == sent + StopsAfter(page[sent..])
      invariant forall i :: 0 <= i < sent ==> !IsTerminal(page[i])
    {
      assert page[sent..][1..] == page[sent + 1..];
      sent := sent + 1;
      if IsTerminal(page[sent - 1]) {
        return sent, true;
      }
    }
  }

  // ----------------------------------------------------------------- a stream

  function TerminalMark(frontier: u64, head: u64): Frame { EndFrame(EndMark(frontier, head, 1, 0, 0)) }

  function LimitMark(frontier: u64, head: u64): Frame { EndFrame(EndMark(frontier, head, 2, 0, 0)) }

  function WaitMark(frontier: u64, head: u64): Frame { EndFrame(EndMark(frontier, head, 3, 0, 0)) }

  /** What an end frame claims about the journal and the delivered slice. */
  ghost predicate TruthfulEnd(journal: seq<AuditRecord>, after: nat, max: nat, sent: nat, last: Frame) {
    && last.EndFrame?
    && last.end.resumeAfter == after + sent
    && last.end.head <= |journal|
    && match last.end.reason
       case 1 => HasTerminal(journal[..last.end.head])
       case 2 => sent == max && (last.end.head <= after + sent ==> !HasTerminal(journal[..last.end.head]))
       case 3 => last.end.head <= after + sent && !HasTerminal(journal[..last.end.head])
       case _ => false
  }

  /** The frames of a stream: a slice of the journal, then at most an end frame or a failed item. */
  ghost predicate Streams(journal: seq<AuditRecord>, after: nat, max: nat, sent: nat, frames: seq<Frame>) {
    && sent <= max && sent <= |frames| <= sent + 1
    && (sent > 0 ==> after + sent <= |journal|)
    && (forall i :: 0 <= i < sent ==> frames[i] == RecordFrame(Wire(journal[after + i])))
    && (|frames| > sent ==> frames[sent].StatusFrame? || TruthfulEnd(journal, after, max, sent, frames[sent]))
  }

  /** None of `sent` records behind the cursor ends the ceremony. */
  ghost predicate RunsOn(journal: seq<AuditRecord>, after: nat, sent: int) {
    forall k :: after <= k < after + sent && k < |journal| ==> !IsTerminal(journal[k])
  }

  /** A record that ends the ceremony is the last one, and the end frame says so. */
  ghost predicate StopsAtTerminal(journal: seq<AuditRecord>, after: nat, sent: nat, frames: seq<Frame>) {
    && RunsOn(journal, after, sent - 1)
    && (RunsOn(journal, after, sent) || (|frames| > sent && frames[sent].EndFrame? && frames[sent].end.reason == 1))
  }

  lemma {:induction false} StreamExtends(journal: seq<AuditRecord>, after: nat, max: nat, sent: nat, frames: seq<Frame>,
                                         page: seq<AuditRecord>, n: nat, length: nat)
    requires Streams(journal, after, max, sent, frames) && |frames| == sent
    requires length <= |journal| && page == Page(journal[..length], after + sent, max - sent) && n <= |page|
    ensures Streams(journal, after, max, sent + n, frames + WireFrames(page[..n]))
    ensures n > 0 ==> after + sent + n <= length && page[n - 1] == journal[after + sent + n - 1]
    ensures n == |page| < max - sent ==> length <= after + sent + n
  {
  }

  /** A truthful end frame, or a failed item, completes a stream. */
  lemma {:induction false} Closes(journal: seq<AuditRecord>, after: u64, max: nat, sent: nat, frames: seq<Frame>,
                                  last: Frame)
    requires Streams(journal, after, max, sent, frames) && |frames| == sent
    requires last.StatusFrame? || TruthfulEnd(journal, after, max, sent, last)
    ensures Streams(journal, after, max, sent, frames + [last])
  {
  }

  // ------------------------------------------------------- when a stream ends, and how

  ghost predicate IsEnd(last: Frame, frontier: int, head: int, reason: int) {
    && last.EndFrame? && last.end.resumeAfter == frontier && last.end.head == head && last.end.reason == reason
    && last.end.resumeActivityAfter == 0 && last.end.activityHead == 0
  }

  /** How many records a page of a journal of this length brings the delivery to. */
  function Reach(after: nat, max: nat, length: nat): nat {
    if length <= after then 0 else if length - after <= max then length - after else max
  }

  /** The head read in this turn has been reached. */
  ghost predicate CaughtUp(after: nat, max: nat, turn: Turn) {
    turn.headLength <= after + Reach(after, max, turn.pageLength)
  }

  /** The page of this turn ends the stream. */
  ghost predicate PageCloses(journal: seq<AuditRecord>, after: nat, max: nat, turn: Turn)
    requires turn.headLength <= |journal|
  {
    || !RunsOn(journal, after, Reach(after, max, turn.pageLength))
    || (CaughtUp(after, max, turn) &&
        (HistoryFails(journal, turn.headLength, turn.historyFails) || HasTerminal(journal[..turn.headLength])))
    || Reach(after, max, turn.pageLength) == max
  }

  /** How it does: after a terminal record, or else by what the history says of a head reached, or else by the limit. */
  ghost predicate PageEnds(journal: seq<AuditRecord>, after: nat, max: nat, turn: Turn, sent: nat, last: Frame)
    requires turn.headLength <= |journal|
  {
    var head := turn.headLength;
    if !RunsOn(journal, after, Reach(after, max, turn.pageLength)) then
      && 0 < sent <= Reach(after, max, turn.pageLength) && after + sent <= |journal|
      && RunsOn(journal, after, sent - 1) && IsTerminal(journal[after + sent - 1])
      && IsEnd(last, after + sent, head, 1)
    else
      && sent == Reach(after, max, turn.pageLength)
      && if CaughtUp(after, max, turn) && HistoryFails(journal, head, turn.historyFails) then
           last == StatusFrame(turn.retryable)
         else if CaughtUp(after, max, turn) && HasTerminal(journal[..head]) then
           IsEnd(last, after + sent, head, 1)
         else
           IsEnd(last, after + sent, head, 2)
  }

  /** The stream is still open after turn `t`: nobody left, the wait is not over, and the page was read and goes on. */
  ghost predicate StaysOpen(journal: seq<AuditRecord>, after: nat, max: nat, waits: bool, turns: seq<Turn>, t: nat)
    requires t < |turns| && turns[t].headLength <= |journal|
  {
    && (t > 0 && CaughtUp(after, max, turns[t - 1]) ==> waits && turns[t].wake.Notified?)
    && !turns[t].readFails && !PageCloses(journal, after, max, turns[t])
  }

  /** Turn `t` is the one that ends the stream. */
  ghost predicate EndsIn(journal: seq<AuditRecord>, after: nat, max: nat, waits: bool, turns: seq<Turn>, t: nat,
                         frames: seq<Frame>, sent: nat)
    requires t < |turns| && turns[t].headLength <= |journal| && sent <= |frames|
  {
    if t > 0 && CaughtUp(after, max, turns[t - 1]) && !(waits && turns[t].wake.Notified?) then
      && sent == Reach(after, max, turns[t - 1].pageLength)
      && if waits && turns[t].wake.ReceiverGone? then |frames| == sent
         else |frames| == sent + 1 && IsEnd(frames[sent], after + sent, turns[t - 1].headLength, 3)
    else if turns[t].readFails then
      && t > 0 && sent == Reach(after, max, turns[t - 1].pageLength)
      && |frames| == sent + 1 && frames[sent] == StatusFrame(turns[t].retryable)
    else
      && PageCloses(journal, after, max, turns[t])
      && |frames| == sent + 1 && PageEnds(journal, after, max, turns[t], sent, frames[sent])
  }
  /** The turns before `last` leave the stream open, and `last` ends it, unless there are no more turns. */
  ghost predicate StreamIs(journal: seq<AuditRecord>, after: nat, max: nat, waits: bool, turns: seq<Turn>, last: nat,
                           frames: seq<Frame>, sent: nat)
    requires Observes(journal, turns) && turns != []
  {
    && sent <= |frames| && last <= |turns|
    && (forall t :: 0 <= t < last ==> StaysOpen(journal, after, max, waits, turns, t))
    && if last == |turns| then |frames| == sent == Reach(after, max, turns[last - 1].pageLength)
       else EndsIn(journal, after, max, waits, turns, last, frames, sent)
  }

  /** A caller that does not wait gets an end frame or an error as soon as a turn has caught up. */
  lemma {:induction false} NoWaitEndsAtOnce(journal: seq<AuditRecord>, after: nat, max: nat, turns: seq<Turn>,
                                            last: nat, frames: seq<Frame>, sent: nat, t: nat)
    requires Observes(journal, turns) && turns != [] && StreamIs(journal, after, max, false, turns, last, frames, sent)
    requires t < |turns| - 1 && CaughtUp(after, max, turns[t])
    ensures last <= t + 1 && |frames| == sent + 1
  {
    assert !StaysOpen(journal, after, max, false, turns, t + 1);
  }

  /** A caller that waits gets one when the deadline passes after it has caught up, unless it left before. */
  lemma {:induction false} DeadlineEndsStream(journal: seq<AuditRecord>, after: nat, max: nat, turns: seq<Turn>,
                                              last: nat, frames: seq<Frame>, sent: nat, t: nat)
    requires Observes(journal, turns) && turns != [] && StreamIs(journal, after, max, true, turns, last, frames, sent)
    requires t < |turns| - 1 && CaughtUp(after, max, turns[t]) && turns[t + 1].wake.DeadlinePassed?
    requires forall i :: 0 <= i < |turns| ==> !turns[i].wake.ReceiverGone?
    ensures last <= t + 1 && |frames| == sent + 1
  {
    assert !StaysOpen(journal, after, max, true, turns, t + 1);
  }

  /** A read that fails while the stream is open is passed on. */
  lemma {:induction false} FailureIsPassedOn(journal: seq<AuditRecord>, after: nat, max: nat, waits: bool,
                                             turns: seq<Turn>, last: nat, frames: seq<Frame>, sent: nat, t: nat)
    requires Observes(journal, turns) && turns != [] && StreamIs(journal, after, max, waits, turns, last, frames, sent)
    requires 0 < t < |turns| && turns[t].readFails && !CaughtUp(after, max, turns[t - 1])
    ensures last <= t && (last == t ==> |frames| == sent + 1 && frames[sent] == StatusFrame(turns[t].retryable))
  {
    assert !StaysOpen(journal, after, max, waits, turns, t);
  }

  /** What follows the records of a page: the terminal mark, a look at the history, the limit mark, or nothing. */
  method Conclude(journal: seq<AuditRecord>, after: u64, max: nat, sent: nat, over: bool, head: nat,
                  historyFails: nat -> bool, retryable: bool)
    returns (last: Option<Frame>)
    requires head <= |journal| <= U64_MAX && sent <= max && after + sent <= U64_MAX
    requires over ==> 0 < after + sent <= head && IsTerminal(journal[after + sent - 1])
    ensures last.Some? ==> last.value.StatusFrame? || TruthfulEnd(journal, after, max, sent, last.value)
    ensures over ==> last.Some? && IsEnd(last.value, after + sent, head, 1)
    ensures !over && head <= after + sent && HistoryFails(journal, head, historyFails) ==>
              last == Some(StatusFrame(retryable))
    ensures !over && head <= after + sent && !HistoryFails(journal, head, historyFails) && HasTerminal(journal[..head])
            ==> last.Some? && IsEnd(last.value, after + sent, head, 1)
    ensures !over && !(head <= after + sent &&
                       (HistoryFails(journal, head, historyFails) || HasTerminal(journal[..head]))) ==>
              if sent == max then last.Some? && IsEnd(last.value, after + sent, head, 2) else last.None?
  {
    if over {
      assert journal[..head][after + sent - 1] == journal[after + sent - 1];
      return Some(TerminalMark(after + sent, head));
    }
    if head <= after + sent {
      var ended := HistoryIsTerminal(journal, head, historyFails);
      if ended.None? {
        return Some(StatusFrame(retryable));
      }
      if ended.value {
        return Some(TerminalMark(after + sent, head));
      }
    }
    return if sent == max then Some(LimitMark(after + sent, head)) else None;
  }

  lemma {:induction false} PageReaches(journal: seq<AuditRecord>, after: nat, max: nat, sent: nat, length: nat)
    requires length <= |journal| && sent <= max && sent <= Reach(after, max, length)
    ensures sent + |Page(journal[..length], after + sent, max - sent)| == Reach(after, max, length)
  {
  }

  /** The first `n` records of a page continue a delivery that goes on. */
  lemma {:induction false} RunsOnThrough(journal: seq<AuditRecord>, after: nat, max: nat, sent: nat,
                                         page: seq<AuditRecord>, n: nat, length: nat)
    requires RunsOn(journal, after, sent) && sent <= max && length <= |journal|
    requires page == Page(journal[..length], after + sent, max - sent) && n == StopsAfter(page)
    ensures RunsOn(journal, after, sent + n - 1)
    ensures RunsOn(journal, after, sent + n) <==> !(n > 0 && IsTerminal(page[n - 1]))
  {
    assert forall i :: 0 <= i < |page| ==> page[i] == journal[after + sent + i];
    forall k | after <= k < after + sent + n - 1 && k < |journal| ensures !IsTerminal(journal[k]) {
      assert k < after + sent || page[k - after - sent] == journal[k];
    }
  }

  /** The records of one page. */
  method SendPage(journal: seq<AuditRecord>, after: u64, max: nat, frames: seq<Frame>, sent: nat, length: nat)
    returns (frames': seq<Frame>, sent': nat, over: bool)
    requires Streams(journal, after, max, sent, frames) && |frames| == sent < max && after + sent <= U64_MAX
    requires length <= |journal| <= U64_MAX && RunsOn(journal, after, sent) && sent <= Reach(after, max, length)
    ensures Streams(journal, after, max, sent', frames') && |frames'| == sent' && after + sent' <= U64_MAX
    ensures RunsOn(journal, after, sent' - 1) && (over <==> !RunsOn(journal, after, sent'))
    ensures over ==> 0 < sent' && after + sent' <= length && IsTerminal(journal[after + sent' - 1])
    ensures sent' <= Reach(after, max, length) && (!over ==> sent' == Reach(after, max, length))
  {
    var page := Page(journal[..length], after + sent, max - sent);
    PageReaches(journal, after, max, sent, length);
    var n;
    n, over := DeliverRecords(page);
    StreamExtends(journal, after, max, sent, frames, page, n, length);
    RunsOnThrough(journal, after, max, sent, page, n, length);
    frames', sent' := frames + WireFrames(page[..n]), sent + n;
  }

  /**
   * One page and the decision it leads to: the ceremony ended within it, had ended before the
   * captured head, the event limit is used up, or the stream goes on. An empty page read behind a
   * head that has moved on decides nothing.
   */
  method DeliverPage(journal: seq<AuditRecord>, after: u64, max: nat, frames: seq<Frame>, sent: nat, turn: Turn)
    returns (closed: bool, frames': seq<Frame>, sent': nat)
    requires Streams(journal, after, max, sent, frames) && |frames| == sent < max && after + sent <= U64_MAX
    requires turn.pageLength <= turn.headLength <= |journal| <= U64_MAX && RunsOn(journal, after, sent)
    requires sent <= Reach(after, max, turn.pageLength)
    ensures Streams(journal, after, max, sent', frames') && after + sent' <= U64_MAX
    ensures StopsAtTerminal(journal, after, sent', frames')
    ensures closed <==> PageCloses(journal, after, max, turn)
    ensures closed ==> |frames'| == sent' + 1 && PageEnds(journal, after, max, turn, sent', frames'[sent'])
    ensures !closed ==> |frames'| == sent' == Reach(after, max, turn.pageLength) < max && RunsOn(journal, after, sent')
  {
    var over;
    frames', sent', over := SendPage(journal, after, max, frames, sent, turn.pageLength);
    var last := Conclude(journal, after, max, sent', over, turn.headLength, turn.historyFails, turn.retryable);
    closed := last.Some?;
    if closed {
      Closes(journal, after, max, sent', frames', last.value);
      frames' := frames' + [last.value];
    }
  }

  /** The state of a stream that is still open after a turn. */
  ghost predicate OpenAfter(journal: seq<AuditRecord>, after: nat, max: nat, turn: Turn, frames: seq<Frame>, sent: nat)
    requires turn.headLength <= |journal|
  {
    && Streams(journal, after, max, sent, frames) && RunsOn(journal, after, sent) && after + sent <= U64_MAX
    && |frames| == sent == Reach(after, max, turn.pageLength) < max
    && (turn.headLength <= after + sent ==> !HasTerminal(journal[..turn.headLength]))
  }

  /** One pass of the loop: the wait, when everything up to the head is delivered, and the next page. */
  method TakeTurn(journal: seq<AuditRecord>, after: u64, max: nat, waits: bool, turns: seq<Turn>, t: nat,
                  frames: seq<Frame>, sent: nat)
    returns (closed: bool, frames': seq<Frame>, sent': nat)
    requires Observes(journal, turns) && 0 < t < |turns| && |journal| <= U64_MAX
    requires OpenAfter(journal, after, max, turns[t - 1], frames, sent)
    ensures Streams(journal, after, max, sent', frames') && StopsAtTerminal(journal, after, sent', frames')
    ensures closed ==> EndsIn(journal, after, max, waits, turns, t, frames', sent')
    ensures !closed ==>
              && StaysOpen(journal, after, max, waits, turns, t)
              && OpenAfter(journal, after, max, turns[t], frames', sent')
  {
    var turn, head: nat := turns[t], turns[t - 1].headLength;
    if head <= after + sent {
      if !waits || turn.wake.DeadlinePassed? {
        Closes(journal, after, max, sent, frames, WaitMark(after + sent, head));
        return true, frames + [WaitMark(after + sent, head)], sent;
      }
      if turn.wake.ReceiverGone? {
        return true, frames, sent;
      }
    }
    if turn.readFails {
      Closes(journal, after, max, sent, frames, StatusFrame(turn.retryable));
      return true, frames + [StatusFrame(turn.retryable)], sent;
    }
    closed, frames', sent' := DeliverPage(journal, after, max, frames, sent, turn);
  }

  /** What a request is answered with: a stream, or an error when nothing was read. */
  datatype Opening = Open | NotFound | Unreadable(retryable: bool)

  /**
   * The plain stream of `StreamCeremonyUseCase`: the initial page, then pages as the journal grows,
   * until the ceremony is over, the event limit is reached, the wait elapses, a read fails or the receiver
   * goes. `turns` is what each pass of the loop meets; running out of them is the receiver going away.
   */
  method RunStream(journal: seq<AuditRecord>, after: u64, max: nat, waits: bool, turns: seq<Turn>)
    returns (opening: Opening, frames: seq<Frame>, sent: nat, ghost last: nat)
    requires Observes(journal, turns) && turns != []
    requires 0 < max && |journal| <= U64_MAX
    ensures opening == if turns[0].readFails then Unreadable(turns[0].retryable)
                       else if turns[0].headLength == 0 then NotFound
                       else Open
    ensures !opening.Open? ==> frames == [] && sent == 0
    ensures Streams(journal, after, max, sent, frames) && StopsAtTerminal(journal, after, sent, frames)
    ensures opening.Open? ==> StreamIs(journal, after, max, waits, turns, last, frames, sent)
  {
    frames, sent, last := [], 0, 0;
    if turns[0].readFails {
      return Unreadable(turns[0].retryable), frames, sent, last;
    }
    if turns[0].headLength == 0 {
      return NotFound, frames, sent, last;
    }
    opening := Open;
    var closed;
    closed, frames, sent := DeliverPage(journal, after, max, frames, sent, turns[0]);
    if closed {
      return;
    }
    for t := 1 to |turns|
      invariant OpenAfter(journal, after, max, turns[t - 1], frames, sent)
      invariant forall i :: 0 <= i < t ==> StaysOpen(journal, after, max, waits, turns, i)
    {
      last := t;
      closed, frames, sent := TakeTurn(journal, after, max, waits, turns, t, frames, sent);
      if closed {
        return;
      }
    }
    last := |turns|;
  }

  // ------------------------------------------------- server and client together

  /** A journal of one ceremony, numbered from one, with no event id twice, short of the end of the numbering. */
  ghost predicate Orderly(stream: Text, journal: seq<AuditRecord>) {
    && |journal| < U64_MAX && Distinct(EventIds(journal))
    && forall i :: 0 <= i < |journal| ==> journal[i].ceremonyId == stream && journal[i].sequence == i + 1
  }

  /** What the store keeps is such a journal. */
  lemma {:induction false} StoredIsOrderly(intact: Check, stream: Text, journal: seq<AuditRecord>)
    requires JournalOk(intact, stream, journal) && |journal| < U64_MAX
    ensures Orderly(stream, journal)
  {
    JournalIsNumbered(intact, stream, journal);
  }

  lemma {:induction false} FreshKeepsDistinct(frames: seq<Frame>, seen: set<Text>, records: seq<Record>)
    requires |frames| == |records|
    requires forall i :: 0 <= i < |frames| ==> frames[i] == RecordFrame(records[i]) && records[i].eventId !in seen
    requires forall i, j :: 0 <= i < j < |records| ==> records[i].eventId != records[j].eventId
    ensures Fresh(frames, seen) == records
  {
    if frames != [] {
      FreshKeepsDistinct(frames[1..], seen + {records[0].eventId}, records[1..]);
      assert records == [records[0]] + records[1..];
    }
  }

  function RecordFrames(records: seq<Record>): seq<Frame> {
    seq(|records|, i requires 0 <= i < |records| => RecordFrame(records[i]))
  }

  /** The records of a stream: of this ceremony, numbered on from the cursor, without repetition. */
  lemma {:induction false} SentRecords(stream: Text, journal: seq<AuditRecord>, cp: Checkpoint, max: nat,
                                       sent: nat, frames: seq<Frame>) returns (records: seq<Record>)
    requires Orderly(stream, journal) && cp.ceremonyId == stream && cp.after < U64_MAX
    requires Streams(journal, cp.after, max, sent, frames)
    ensures records == Wires(if sent == 0 then [] else journal[cp.after..cp.after + sent])
    ensures |records| == sent && frames[..sent] == RecordFrames(records)
    ensures forall i :: 0 <= i < sent ==>
              records[i].ceremonyId == stream && records[i].sequence == Advance(cp.after + 1, i)
    ensures forall i, j :: 0 <= i < j < sent ==> records[i].eventId != records[j].eventId
  {
    var slice := if sent == 0 then [] else journal[cp.after..cp.after + sent];
    forall i, j | 0 <= i < j < |slice| ensures Wires(slice)[i].eventId != Wires(slice)[j].eventId {
      assert EventIds(journal)[cp.after + i] != EventIds(journal)[cp.after + j];
    }
    records := Wires(slice);
  }

  /**
   * End to end: whatever the journal did meanwhile, a stream the server closed is accepted by the
   * client, and the batch is exactly the slice of the journal behind the checkpoint.
   */
  lemma {:induction false} ServerFeedsClient(stream: Text, journal: seq<AuditRecord>, cp: Checkpoint,
                                             max: nat, sent: nat, frames: seq<Frame>)
    requires Orderly(stream, journal) && cp.ceremonyId == stream && cp.after < U64_MAX
    requires Streams(journal, cp.after, max, sent, frames) && |frames| > sent && frames[sent].EndFrame?
    ensures Watch(cp, frames).Ok?
    ensures var b := Watch(cp, frames).value;
            && b.checkpoint == Checkpoint(stream, cp.after + sent)
            && b.records == Wires(if sent == 0 then [] else journal[cp.after..cp.after + sent])
            && b.head == frames[sent].end.head && Some(b.reason) == DecodeReason(frames[sent].end.reason)
  {
    var records := SentRecords(stream, journal, cp, max, sent, frames);
    FreshKeepsDistinct(frames[..sent], {}, records);
    assert Delivers(cp, SaturatingNext(cp.after), {}, frames, sent);
    WatchSucceedsIff(cp, frames);
  }

  lemma {:induction false} UnfinishedFails(cp: Checkpoint, s: Reading, frames: seq<Frame>, records: seq<Record>,
                                           tail: seq<Frame>)
    requires frames == RecordFrames(records) + tail
    requires tail == [] || (|tail| == 1 && tail[0].StatusFrame?)
    requires forall i :: 0 <= i < |records| ==>
               && records[i].ceremonyId == cp.ceremonyId && records[i].eventId !in s.seen
               && records[i].sequence == Advance(s.expected, i)
    requires forall i, j :: 0 <= i < j < |records| ==> records[i].eventId != records[j].eventId
    ensures Consume(cp, s, frames) == Err(if tail == [] then NoResumeCursor else RemoteStatus(tail[0].unavailable))
    decreases |records|
  {
    if records != [] {
      var r := records[0];
      assert r.sequence == Advance(s.expected, 0) == s.expected;
      var s' := Reading(SaturatingNext(s.expected), s.seen + {r.eventId}, s.records + [r]);
      var rest := records[1..];
      assert frames[0] == RecordFrame(r);
      assert frames[1..] == RecordFrames(rest) + tail;
      forall i | 0 <= i < |rest| ensures rest[i].sequence == Advance(s'.expected, i) {
        assert rest[i] == records[i + 1];
      }
      UnfinishedFails(cp, s', frames[1..], rest, tail);
    }
  }

  /** A stream that breaks off is reported as such: the client never mistakes it for a bad stream. */
  lemma {:induction false} BrokenOffStreamIsNotMisread(stream: Text, journal: seq<AuditRecord>,
                                                       cp: Checkpoint, max: nat, sent: nat, frames: seq<Frame>)
    requires Orderly(stream, journal) && cp.ceremonyId == stream && cp.after < U64_MAX
    requires Streams(journal, cp.after, max, sent, frames) && (|frames| == sent || frames[sent].StatusFrame?)
    ensures Watch(cp, frames) ==
            Err(if |frames| == sent then NoResumeCursor else RemoteStatus(frames[sent].unavailable))
  {
    var records := SentRecords(stream, journal, cp, max, sent, frames);
    assert frames == frames[..sent] + frames[sent..];
    UnfinishedFails(cp, Start(cp), frames, records, frames[sent..]);
  }

  lemma {:induction false} WiresJoin(journal: seq<AuditRecord>, i: nat, j: nat, k: nat)
    requires i <= j <= k <= |journal|
    ensures Wires(journal[i..j]) + Wires(journal[j..k]) == Wires(journal[i..k])
  {
  }

  lemma {:induction false} SliceWithin(journal: seq<AuditRecord>, after: nat, max: nat, sent: nat, frames: seq<Frame>)
    requires Streams(journal, after, max, sent, frames) && after <= |journal|
    ensures after + sent <= |journal|
    ensures (if sent == 0 then [] else journal[after..after + sent]) == journal[after..after + sent]
  {
  }

  /** Any number of closed streams, each opened at the cursor the one before left. */
  ghost predicate Served(journal: seq<AuditRecord>, cp: Checkpoint, max: nat, streams: seq<seq<Frame>>, sent: seq<nat>)
    decreases |streams|
  {
    && |sent| == |streams|
    && (streams != [] ==>
          && Streams(journal, cp.after, max, sent[0], streams[0])
          && |streams[0]| > sent[0] && streams[0][sent[0]].EndFrame?
          && cp.after + sent[0] < U64_MAX
          && Served(journal, Checkpoint(cp.ceremonyId, cp.after + sent[0]), max, streams[1..], sent[1..]))
  }

  lemma {:induction false} ServedOnce(stream: Text, journal: seq<AuditRecord>, cp: Checkpoint, max: nat,
                                      sent: nat, frames: seq<Frame>)
    requires Orderly(stream, journal) && cp.ceremonyId == stream && cp.after <= |journal|
    requires Streams(journal, cp.after, max, sent, frames) && |frames| > sent && frames[sent].EndFrame?
    ensures cp.after + sent <= |journal| < U64_MAX && Watch(cp, frames).Ok?
    ensures Watch(cp, frames).value.checkpoint == Checkpoint(stream, cp.after + sent)
    ensures Watch(cp, frames).value.records == Wires(journal[cp.after..cp.after + sent])
    ensures Watch(cp, frames).value.head == frames[sent].end.head
    ensures Some(Watch(cp, frames).value.reason) == DecodeReason(frames[sent].end.reason)
  {
    ServerFeedsClient(stream, journal, cp, max, sent, frames);
    SliceWithin(journal, cp.after, max, sent, frames);
  }

  /** Following a ceremony: the reads together deliver the journal from the first cursor to the last, once. */
  lemma {:induction false} FollowingDeliversJournal(stream: Text, journal: seq<AuditRecord>,
                                                    cp: Checkpoint, max: nat, streams: seq<seq<Frame>>, sent: seq<nat>)
    requires Orderly(stream, journal) && cp.ceremonyId == stream && cp.after <= |journal|
    requires Served(journal, cp, max, streams, sent)
    ensures ReadAll(cp, streams).Some?
    ensures var d := ReadAll(cp, streams).value;
            && cp.after <= d.checkpoint.after <= |journal|
            && d.records == Wires(journal[cp.after..d.checkpoint.after])
    decreases |streams|
  {
    if streams != [] {
      var next := Checkpoint(stream, cp.after + sent[0]);
      ServedOnce(stream, journal, cp, max, sent[0], streams[0]);
      FollowingDeliversJournal(stream, journal, next, max, streams[1..], sent[1..]);
      WiresJoin(journal, cp.after, next.after, ReadAll(next, streams[1..]).value.checkpoint.after);
    }
  }
}
