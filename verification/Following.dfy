/** The console against the modelled server: what a `watch --follow` that returns has printed. */
module Following {
  import opened Base
  import opened Framing
  import opened Journal
  import opened Progress
  import opened ProgressServer
  import opened Console

  /** The frames are what the server streams from the cursor, however the stream went. */
  ghost predicate ServedFrames(journal: seq<AuditRecord>, cp: Checkpoint, frames: seq<Frame>) {
    exists max: nat, sent: nat :: Streams(journal, cp.after, max, sent, frames)
  }

  ghost predicate ServedStep(journal: seq<AuditRecord>, w: World, e: Event) {
    e.Receive? && w.session.Watching? ==> ServedFrames(journal, w.session.cp, e.frames)
  }

  /** Every read of the run was answered by the server. */
  ghost predicate ServedRun(journal: seq<AuditRecord>, s: Setup, w: World, events: seq<Event>) {
    forall i :: 0 <= i < |events| ==> ServedStep(journal, Run(s, w, events[..i]), events[i])
  }

  /** Printed records are records of the journal. */
  ghost predicate FromJournal(journal: seq<AuditRecord>, output: seq<Record>) {
    forall i :: 0 <= i < |output| ==> IsWired(journal, output[i])
  }

  ghost predicate IsWired(journal: seq<AuditRecord>, r: Record) {
    0 < r.sequence <= |journal| && r == Wire(journal[r.sequence - 1])
  }

  /** A session about to end its watch has read past a record that ended the ceremony. */
  ghost predicate EndsAfterTerminal(journal: seq<AuditRecord>, w: World) {
    w.session.Saving? && w.session.follow && w.session.finish ==>
      w.session.cp.after <= |journal| && HasTerminal(journal[..w.session.cp.after])
  }

  /** A covered cursor lies within the journal the output comes from. */
  lemma {:induction false} CoveredWithin(journal: seq<AuditRecord>, output: seq<Record>, base: u64, id: Text, c: u64)
    requires FromJournal(journal, output) && base <= |journal| && Covered(output, {base}, id, c)
    ensures c <= |journal|
  {
    var b :| b in {base} && b <= c && PrintedBetween(output, id, b, c);
    if b < c {
      assert IsPrinted(output, id, c);
      var i :| 0 <= i < |output| && output[i].sequence == c && output[i].ceremonyId == id;
      assert IsWired(journal, output[i]);
    }
  }

  lemma {:induction false} HasTerminalGrows(journal: seq<AuditRecord>, m: nat, n: nat)
    requires m <= n <= |journal| && HasTerminal(journal[..m])
    ensures HasTerminal(journal[..n])
  {
    var i :| 0 <= i < m && IsTerminal(journal[..m][i]);
    assert journal[..n][i] == journal[..m][i];
  }

  lemma {:induction false} SliceFromJournal(stream: Text, journal: seq<AuditRecord>, i: nat, j: nat)
    requires Orderly(stream, journal) && i <= j <= |journal|
    ensures FromJournal(journal, Wires(journal[i..j]))
  {
  }

  /**
   * What a batch brings: records of the journal. It finishes a following watch exactly when it reaches a head up
   * to which the ceremony has ended, and then the cursor is past the record that ended it.
   */
  ghost predicate StaysTrue(journal: seq<AuditRecord>, b: Batch) {
    && FromJournal(journal, b.records) && b.head <= |journal|
    && (Finishes(true, b) <==> b.head <= b.checkpoint.after && HasTerminal(journal[..b.head]))
    && (Finishes(true, b) ==> b.checkpoint.after <= |journal| && HasTerminal(journal[..b.checkpoint.after]))
  }

  /** A truthful end frame of a head already reached gives the terminal reason exactly when the ceremony has ended. */
  lemma {:induction false} EndDecides(journal: seq<AuditRecord>, after: nat, max: nat, sent: nat, last: Frame)
    requires TruthfulEnd(journal, after, max, sent, last)
    ensures last.end.head <= after + sent ==> (last.end.reason == 1 <==> HasTerminal(journal[..last.end.head]))
    ensures DecodeReason(last.end.reason) == Some(Terminal) <==> last.end.reason == 1
  {
  }

  lemma {:induction false} ClosedReadStaysTrue(stream: Text, journal: seq<AuditRecord>, cp: Checkpoint,
                                               max: nat, sent: nat, frames: seq<Frame>)
    requires Orderly(stream, journal) && cp.ceremonyId == stream && cp.after <= |journal|
    requires Streams(journal, cp.after, max, sent, frames) && |frames| > sent && frames[sent].EndFrame?
    ensures Watch(cp, frames).Ok? && StaysTrue(journal, Watch(cp, frames).value)
  {
    var end := frames[sent].end;
    EndDecides(journal, cp.after, max, sent, frames[sent]);
    ServedOnce(stream, journal, cp, max, sent, frames);
    SliceFromJournal(stream, journal, cp.after, cp.after + sent);
    if end.reason == 1 && end.head <= cp.after + sent {
      HasTerminalGrows(journal, end.head, cp.after + sent);
    }
  }

  /** So for every served read that succeeds: one that breaks off does not. */
  lemma {:induction false} ReadStaysTrue(stream: Text, journal: seq<AuditRecord>, cp: Checkpoint, frames: seq<Frame>)
    requires Orderly(stream, journal) && cp.ceremonyId == stream && cp.after <= |journal|
    requires ServedFrames(journal, cp, frames) && Watch(cp, frames).Ok?
    ensures StaysTrue(journal, Watch(cp, frames).value)
  {
    var max: nat, sent: nat :| Streams(journal, cp.after, max, sent, frames);
    if |frames| > sent && frames[sent].EndFrame? {
      ClosedReadStaysTrue(stream, journal, cp, max, sent, frames);
    } else {
      BrokenOffStreamIsNotMisread(stream, journal, cp, max, sent, frames);
    }
  }

  lemma {:induction false} StepStaysTrue(journal: seq<AuditRecord>, s: Setup, w: World, base: u64, e: Event)
    requires Orderly(s.id, journal) && base <= |journal| && w.bases <= {base}
    requires Inv(s, w) && ServedStep(journal, w, e)
    requires FromJournal(journal, w.output) && EndsAfterTerminal(journal, w)
    ensures FromJournal(journal, Apply(s, w, e).output) && EndsAfterTerminal(journal, Apply(s, w, e))
  {
    if e.Receive? && w.session.Watching? && Watch(w.session.cp, e.frames).Ok? {
      assert w.bases == {base};
      CoveredWithin(journal, w.output, base, s.id, w.session.cp.after);
      ReadStaysTrue(s.id, journal, w.session.cp, e.frames);
    }
  }

  lemma {:induction false} RunStaysTrue(journal: seq<AuditRecord>, s: Setup, w: World, base: u64, events: seq<Event>)
    requires RoundTrips(s.codec) && Untouched(s, w) && StartsAt(events, base)
    requires Orderly(s.id, journal) && base <= |journal| && ServedRun(journal, s, w, events)
    ensures Inv(s, Run(s, w, events)) && Run(s, w, events).bases <= {base}
    ensures FromJournal(journal, Run(s, w, events).output) && EndsAfterTerminal(journal, Run(s, w, events))
    decreases |events|
  {
    BasesAreArguments(s, w, events, base);
    RunKeeps(s, w, events);
    if events != [] {
      var front, last := events[..|events| - 1], events[|events| - 1];
      assert ServedRun(journal, s, w, front) by {
        forall i | 0 <= i < |front| ensures ServedStep(journal, Run(s, w, front[..i]), front[i]) {
          assert front[..i] == events[..i] && front[i] == events[i];
        }
      }
      RunStaysTrue(journal, s, w, base, front);
      assert ServedStep(journal, Run(s, w, events[..|front|]), events[|front|]);
      StepStaysTrue(journal, s, Run(s, w, front), base, last);
    }
  }

  /**
   * End to end over whole runs, interruptions included: when a following session saves its last cursor and
   * returns, the journal holds a record up to that cursor that ended the ceremony, and every record of the
   * journal from the start value to the cursor has been printed, as it is in the journal.
   */
  lemma {:induction false} FollowReturnsAfterTerminal(journal: seq<AuditRecord>, s: Setup, w: World, base: u64,
                                                      events: seq<Event>)
    requires RoundTrips(s.codec) && Untouched(s, w) && StartsAt(events, base)
    requires Orderly(s.id, journal) && base <= |journal| && ServedRun(journal, s, w, events)
    requires var before := Run(s, w, events);
             CanRename(before) && before.session.follow && before.session.finish
    ensures var after := Apply(s, Run(s, w, events), RenameTemporary);
            && after.session.Idle? && SavedCursor(s, after).Some?
            && var c := SavedCursor(s, after).value;
               && base <= c <= |journal| && HasTerminal(journal[..c])
               && forall k :: base <= k < c ==> Wire(journal[k]) in after.output
  {
    RunStaysTrue(journal, s, w, base, events);
    var before := Run(s, w, events);
    assert before.bases == {base};
    PrintedIsJournal(journal, before.output, base, s.id, before.session.cp.after);
    RenameSaves(s, before);
  }

  /** A covered cursor: the journal from the start value to it was printed. */
  lemma {:induction false} PrintedIsJournal(journal: seq<AuditRecord>, output: seq<Record>, base: u64, id: Text, c: u64)
    requires FromJournal(journal, output) && Covered(output, {base}, id, c) && c <= |journal|
    ensures base <= c && forall k :: base <= k < c ==> Wire(journal[k]) in output
  {
    var b :| b in {base} && b <= c && PrintedBetween(output, id, b, c);
    forall k | base <= k < c ensures Wire(journal[k]) in output {
      assert IsPrinted(output, id, k + 1);
      var i :| 0 <= i < |output| && output[i].sequence == k + 1 && output[i].ceremonyId == id;
      assert IsWired(journal, output[i]);
    }
  }

  lemma {:induction false} RenameSaves(s: Setup, w: World)
    requires RoundTrips(s.codec) && Inv(s, w) && CanRename(w)
    ensures SavedCursor(s, Apply(s, w, RenameTemporary)) == Some(w.session.cp.after)
  {
  }
}
