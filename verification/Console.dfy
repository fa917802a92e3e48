/**
 * The console's `watch`: read, print, save the cursor, repeat. Sessions may be interrupted at any
 * point, by a crash of the process or by a loss of power, and started again.
 */
module Console {
  import opened Base
  import opened Framing
  import opened Progress
  import opened Storage

  /** How checkpoints are written down. The encoding itself is a library's. */
  datatype Codec = Codec(encode: Checkpoint -> Bytes, decode: Bytes -> Option<Checkpoint>)

  ghost predicate RoundTrips(codec: Codec) {
    forall cp :: codec.decode(codec.encode(cp)) == Some(cp)
  }

  /** One console command line: the ceremony it follows and the cursor file it uses. */
  datatype Setup = Setup(codec: Codec, id: Text, path: string)

  datatype Stage = ToCreate | Writing(written: nat) | ToRename

  datatype Session =
    | Idle
    | Watching(cp: Checkpoint, follow: bool)
    | Saving(cp: Checkpoint, follow: bool, finish: bool, temporary: string, stage: Stage)

  /** The disk, what was printed so far, the running session, and the `--after` arguments that were used. */
  datatype World = World(dir: Directory, output: seq<Record>, session: Session, bases: set<u64>)

  datatype Event =
    | Launch(after: u64, follow: bool)
    | Receive(frames: seq<Frame>)
    | CreateTemporary(name: string)
    | WriteTemporary(count: nat)
    | SyncTemporary
    | RenameTemporary
    | SaveFails(tidied: bool)
    | Crash
    | PowerLoss(listing: nat, garbage: map<string, Bytes>)

  // ---------------------------------------------------------------- the steps

  datatype LoadError = CorruptCursor | CursorOfAnotherCeremony

  /** `load_checkpoint`: the cursor file when there is one, otherwise the argument. */
  function Load(s: Setup, v: Listing, after: u64): Result<Checkpoint, LoadError> {
    if s.path !in v then Ok(Checkpoint(s.id, after))
    else
      match s.codec.decode(v[s.path].bytes)
      case None => Err(CorruptCursor)
      case Some(cp) => if cp.ceremonyId == s.id then Ok(cp) else Err(CursorOfAnotherCeremony)
  }

  /** The watch is over: a single read, or a finished ceremony read up to its head. */
  predicate Finishes(follow: bool, b: Batch) {
    !follow || (b.reason == Terminal && b.head <= b.checkpoint.after)
  }

  predicate Retries(follow: bool, e: ClientError) {
    follow && e.RemoteStatus? && e.unavailable
  }

  /** The effect of one event; an event that is not possible now has none. */
  function Apply(s: Setup, w: World, e: Event): World {
    match e
    case Launch(after, follow) =>
      if !w.session.Idle? then w
      else
        (match Load(s, Visible(w.dir), after)
         case Err(_) => w
         case Ok(cp) =>
           w.(session := Watching(cp, follow),
              bases := if s.path in Visible(w.dir) then w.bases else w.bases + {after}))
    case Receive(frames) =>
      if !w.session.Watching? then w
      else
        (match Watch(w.session.cp, frames)
         case Err(error) => if Retries(w.session.follow, error) then w else w.(session := Idle)
         case Ok(b) =>
           w.(output := w.output + b.records,
              session := Saving(b.checkpoint, w.session.follow, Finishes(w.session.follow, b), "", ToCreate)))
    case CreateTemporary(name) =>
      if !(w.session.Saving? && w.session.stage.ToCreate?) || name == s.path then w
      else w.(dir := Create(w.dir, name), session := w.session.(temporary := name, stage := Writing(0)))
    case WriteTemporary(count) =>
      if !CanWrite(s, w, count) then w
      else
        var n := w.session.stage.written;
        var payload := s.codec.encode(w.session.cp);
        w.(dir := Append(w.dir, w.session.temporary, payload[n..n + count]),
           session := w.session.(stage := Writing(n + count)))
    case SyncTemporary =>
      if !CanSync(s, w) then w
      else w.(dir := SyncFile(w.dir, w.session.temporary), session := w.session.(stage := ToRename))
    case RenameTemporary =>
      if !CanRename(w) then w
      else
        w.(dir := Rename(w.dir, w.session.temporary, s.path),
           session := if w.session.finish then Idle else Watching(w.session.cp, w.session.follow))
    case SaveFails(tidied) =>
      if !w.session.Saving? then w
      else
        w.(dir := if w.session.stage.ToCreate? || !tidied then w.dir else Remove(w.dir, w.session.temporary),
           session := Idle)
    case Crash => w.(session := Idle)
    case PowerLoss(listing, garbage) =>
      if |w.dir| <= listing then w
      else w.(dir := Recovered(w.dir, listing, garbage), session := Idle)
  }

  predicate CanWrite(s: Setup, w: World, count: nat) {
    && w.session.Saving? && w.session.stage.Writing?
    && w.session.temporary in Visible(w.dir)
    && w.session.stage.written + count <= |s.codec.encode(w.session.cp)|
  }

  predicate CanSync(s: Setup, w: World) {
    && w.session.Saving? && w.session.temporary in Visible(w.dir)
    && w.session.stage == Writing(|s.codec.encode(w.session.cp)|)
  }

  predicate CanRename(w: World) {
    w.session.Saving? && w.session.stage.ToRename? && w.session.temporary in Visible(w.dir)
  }

  function Run(s: Setup, w: World, events: seq<Event>): World
    decreases |events|
  {
    if events == [] then w else Apply(s, Run(s, w, events[..|events| - 1]), events[|events| - 1])
  }

  // ------------------------------------------------------------ at least once

  ghost predicate IsPrinted(output: seq<Record>, id: Text, q: int) {
    exists i :: 0 <= i < |output| && output[i].sequence == q && output[i].ceremonyId == id
  }

  /** Every number after `b` up to `c` was printed. */
  ghost predicate PrintedBetween(output: seq<Record>, id: Text, b: int, c: int) {
    forall q :: b < q <= c ==> IsPrinted(output, id, q)
  }

  /** A cursor is covered when everything from some start up to it was printed. */
  ghost predicate Covered(output: seq<Record>, bases: set<u64>, id: Text, cursor: u64) {
    cursor < U64_MAX && exists b :: b in bases && b <= cursor && PrintedBetween(output, id, b, cursor)
  }

  lemma {:induction false} CoveredGrows(output: seq<Record>, more: seq<Record>, bases: set<u64>, bases': set<u64>,
                                        id: Text, cursor: u64)
    requires Covered(output, bases, id, cursor) && bases <= bases'
    ensures Covered(output + more, bases', id, cursor)
  {
    var b :| b in bases && b <= cursor && PrintedBetween(output, id, b, cursor);
    forall q | b < q <= cursor ensures IsPrinted(output + more, id, q) {
      assert IsPrinted(output, id, q);
      var i :| 0 <= i < |output| && output[i].sequence == q && output[i].ceremonyId == id;
      assert (output + more)[i] == output[i];
    }
    assert PrintedBetween(output + more, id, b, cursor);
  }

  /** Printing a batch covers its cursor. */
  lemma {:induction false} BatchCovers(output: seq<Record>, bases: set<u64>, cp: Checkpoint, frames: seq<Frame>)
    requires Covered(output, bases, cp.ceremonyId, cp.after) && Watch(cp, frames).Ok?
    ensures var b := Watch(cp, frames).value;
            && cp.after <= b.checkpoint.after && b.checkpoint.ceremonyId == cp.ceremonyId
            && Covered(output + b.records, bases, cp.ceremonyId, b.checkpoint.after)
            && PrintedBetween(output + b.records, cp.ceremonyId, cp.after, b.checkpoint.after)
  {
    WatchResumes(cp, frames);
    var b := Watch(cp, frames).value;
    var all := output + b.records;
    forall q | cp.after < q <= b.checkpoint.after ensures IsPrinted(all, cp.ceremonyId, q) {
      var k := q - cp.after - 1;
      assert all[|output| + k] == b.records[k];
    }
    CoveredGrows(output, b.records, bases, bases, cp.ceremonyId, cp.after);
    var base :| base in bases && base <= cp.after && PrintedBetween(all, cp.ceremonyId, base, cp.after);
    assert PrintedBetween(all, cp.ceremonyId, base, b.checkpoint.after);
  }

  /** Acceptable contents of the cursor file: a complete checkpoint of this ceremony whose cursor is covered. */
  ghost predicate GoodCursor(s: Setup, output: seq<Record>, bases: set<u64>, bytes: Bytes) {
    exists cp :: bytes == s.codec.encode(cp) && cp.ceremonyId == s.id && Covered(output, bases, s.id, cp.after)
  }

  ghost function Good(s: Setup, output: seq<Record>, bases: set<u64>): Bytes -> bool {
    (bytes: Bytes) => GoodCursor(s, output, bases, bytes)
  }

  lemma {:induction false} GoodGrows(s: Setup, d: Directory, output: seq<Record>, more: seq<Record>, bases: set<u64>,
                                     bases': set<u64>)
    requires Durably(d, s.path, Good(s, output, bases)) && bases <= bases'
    ensures Durably(d, s.path, Good(s, output + more, bases'))
  {
    forall bytes | GoodCursor(s, output, bases, bytes) ensures GoodCursor(s, output + more, bases', bytes) {
      var cp :| bytes == s.codec.encode(cp) && cp.ceremonyId == s.id && Covered(output, bases, s.id, cp.after);
      CoveredGrows(output, more, bases, bases', s.id, cp.after);
    }
    DurablyWeakens(d, s.path, Good(s, output, bases), Good(s, output + more, bases'));
  }

  /** The state of a save in progress. */
  ghost predicate SavingOk(s: Setup, w: World)
    requires w.session.Saving?
  {
    var Saving(cp, _, _, temporary, stage) := w.session;
    var payload := s.codec.encode(cp);
    match stage
    case ToCreate => true
    case Writing(n) =>
      && temporary != s.path && temporary in Visible(w.dir)
      && n <= |payload| && Visible(w.dir)[temporary].bytes == payload[..n]
    case ToRename =>
      && temporary != s.path && temporary in Visible(w.dir)
      && Visible(w.dir)[temporary] == File(payload, true)
  }

  /** The cursor file is acceptable in every listing, and a save in progress is in order. */
  ghost predicate Filed(s: Setup, w: World, good: Bytes -> bool) {
    Durably(w.dir, s.path, good) && (w.session.Saving? ==> SavingOk(s, w))
  }

  /** A complete checkpoint of this ceremony. No read leaves its cursor at the end of the numbering. */
  ghost predicate SoundCursor(s: Setup, bytes: Bytes) {
    exists cp :: bytes == s.codec.encode(cp) && cp.ceremonyId == s.id && cp.after < U64_MAX
  }

  ghost function Sound(s: Setup): Bytes -> bool {
    (bytes: Bytes) => SoundCursor(s, bytes)
  }

  /** A session is not behind the saved cursor; and one that starts at the end of the numbering finds none. */
  ghost predicate Ahead(s: Setup, w: World) {
    && (!w.session.Idle? ==>
          && w.session.cp.ceremonyId == s.id
          && forall c :: SavedCursor(s, w) == Some(c) ==> c <= w.session.cp.after < U64_MAX)
    && (w.session.Saving? ==> w.session.cp.after < U64_MAX)
  }

  /** What holds at every point of every run, wherever the sessions start. */
  ghost predicate Steady(s: Setup, w: World) {
    Filed(s, w, Sound(s)) && Ahead(s, w)
  }

  /** The cursor of the session is covered, and so is every cursor that could be loaded. */
  ghost predicate Covers(s: Setup, w: World) {
    && Durably(w.dir, s.path, Good(s, w.output, w.bases))
    && (!w.session.Idle? ==> Covered(w.output, w.bases, s.id, w.session.cp.after))
  }

  /** What holds at every point of every run in which no session starts at the end of the numbering. */
  ghost predicate Inv(s: Setup, w: World) {
    Steady(s, w) && Covers(s, w)
  }

  /** The cursor a listing holds. */
  function CursorIn(s: Setup, v: Listing): Option<u64> {
    if s.path !in v then None
    else
      match s.codec.decode(v[s.path].bytes)
      case None => None
      case Some(cp) => Some(cp.after)
  }

  /** The cursor a restart would load. */
  function SavedCursor(s: Setup, w: World): Option<u64> {
    CursorIn(s, Visible(w.dir))
  }

  /** A visible cursor file is readable, of this ceremony, and covered. */
  lemma {:induction false} SavedIsCovered(s: Setup, w: World)
    requires RoundTrips(s.codec) && Durably(w.dir, s.path, Good(s, w.output, w.bases))
    ensures s.path in Visible(w.dir) ==>
              exists cp :: && s.codec.decode(Visible(w.dir)[s.path].bytes) == Some(cp) && cp.ceremonyId == s.id
                           && SavedCursor(s, w) == Some(cp.after) && Covered(w.output, w.bases, s.id, cp.after)
  {
  }

  // --------------------------------------------- every step keeps the invariant

  /** The saved cursor is kept or moves forward. */
  ghost predicate Advances(s: Setup, w: World, w': World) {
    forall c :: SavedCursor(s, w) == Some(c) ==> exists c' :: SavedCursor(s, w') == Some(c') && c <= c'
  }

  /** Output and saved cursor stay, and the session goes on with its cursor or stops. */
  ghost predicate Quiet(s: Setup, w: World, w': World) {
    && w'.output == w.output && w'.bases == w.bases && SavedCursor(s, w') == SavedCursor(s, w)
    && (w'.session.Idle? || (w'.session.Saving? && w.session.Saving? && w'.session.cp == w.session.cp) || w' == w)
  }

  lemma {:induction false} CreateStepKeeps(s: Setup, w: World, name: string, good: Bytes -> bool)
    requires Filed(s, w, good)
    ensures var w' := Apply(s, w, CreateTemporary(name)); Filed(s, w', good) && Quiet(s, w, w')
  {
    if w.session.Saving? && w.session.stage.ToCreate? && name != s.path {
      CreateKeeps(w.dir, name, s.path, good);
    }
  }

  lemma {:induction false} WriteStepKeeps(s: Setup, w: World, count: nat, good: Bytes -> bool)
    requires Filed(s, w, good)
    ensures var w' := Apply(s, w, WriteTemporary(count)); Filed(s, w', good) && Quiet(s, w, w')
  {
    if CanWrite(s, w, count) {
      var n := w.session.stage.written;
      var payload := s.codec.encode(w.session.cp);
      AppendKeeps(w.dir, w.session.temporary, payload[n..n + count], s.path, good);
      assert payload[..n] + payload[n..n + count] == payload[..n + count];
    }
  }

  lemma {:induction false} SyncStepKeeps(s: Setup, w: World, good: Bytes -> bool)
    requires Filed(s, w, good)
    ensures var w' := Apply(s, w, SyncTemporary); Filed(s, w', good) && Quiet(s, w, w')
  {
    if CanSync(s, w) {
      AppendKeeps(w.dir, w.session.temporary, [], s.path, good);
      var payload := s.codec.encode(w.session.cp);
      assert payload[..|payload|] == payload;
    }
  }

  lemma {:induction false} StopKeeps(s: Setup, w: World, e: Event, good: Bytes -> bool)
    requires Filed(s, w, good) && (e.SaveFails? || e.Crash? || e.PowerLoss?)
    ensures var w' := Apply(s, w, e); Filed(s, w', good) && (!e.PowerLoss? ==> Quiet(s, w, w'))
  {
    if e.SaveFails? && w.session.Saving? && !w.session.stage.ToCreate? {
      RemoveKeeps(w.dir, w.session.temporary, s.path, good);
    } else if e.PowerLoss? && e.listing < |w.dir| {
      RecoveredKeeps(w.dir, e.listing, e.garbage, s.path, good);
    }
  }

  /** The steps that neither start a session, nor read, nor install a cursor. */
  predicate OnlyFiles(e: Event) {
    e.CreateTemporary? || e.WriteTemporary? || e.SyncTemporary? || e.SaveFails? || e.Crash? || e.PowerLoss?
  }

  lemma {:induction false} FileStepKeeps(s: Setup, w: World, e: Event, good: Bytes -> bool)
    requires Filed(s, w, good) && OnlyFiles(e)
    ensures var w' := Apply(s, w, e); Filed(s, w', good) && (!e.PowerLoss? ==> Quiet(s, w, w'))
  {
    match e
    case CreateTemporary(name) => CreateStepKeeps(s, w, name, good);
    case WriteTemporary(count) => WriteStepKeeps(s, w, count, good);
    case SyncTemporary => SyncStepKeeps(s, w, good);
    case SaveFails(_) => StopKeeps(s, w, e, good);
    case Crash => StopKeeps(s, w, e, good);
    case PowerLoss(_, _) => StopKeeps(s, w, e, good);
  }

  lemma {:induction false} RenameStepKeeps(s: Setup, w: World, good: Bytes -> bool)
    requires RoundTrips(s.codec) && Filed(s, w, good)
    requires w.session.Saving? ==> good(s.codec.encode(w.session.cp))
    ensures Filed(s, Apply(s, w, RenameTemporary), good)
    ensures CanRename(w) ==> SavedCursor(s, Apply(s, w, RenameTemporary)) == Some(w.session.cp.after)
  {
    if CanRename(w) {
      RenameInstalls(w.dir, w.session.temporary, s.path, good);
    }
  }

  // -------------------------------------------------- steadiness, wherever sessions start

  /** A visible cursor file is readable and of this ceremony. */
  lemma {:induction false} SavedIsSound(s: Setup, w: World)
    requires RoundTrips(s.codec) && Durably(w.dir, s.path, Sound(s))
    ensures s.path in Visible(w.dir) ==>
              exists cp :: && s.codec.decode(Visible(w.dir)[s.path].bytes) == Some(cp) && cp.ceremonyId == s.id
                           && SavedCursor(s, w) == Some(cp.after) && cp.after < U64_MAX
  {
    if s.path in Visible(w.dir) {
      assert Sound(s)(Visible(w.dir)[s.path].bytes);
    }
  }

  /** A successful read ends below the end of the numbering, and not behind a cursor that was below it. */
  lemma {:induction false} ReadStaysAhead(cp: Checkpoint, frames: seq<Frame>)
    requires Watch(cp, frames).Ok?
    ensures var next := Watch(cp, frames).value.checkpoint;
            && next.ceremonyId == cp.ceremonyId && next.after < U64_MAX
            && (cp.after < U64_MAX ==> cp.after <= next.after)
  {
    WatchResumes(cp, frames);
  }

  lemma {:induction false} LaunchIsSteady(s: Setup, w: World, after: u64, follow: bool)
    requires RoundTrips(s.codec) && Steady(s, w)
    ensures Steady(s, Apply(s, w, Launch(after, follow)))
  {
    SavedIsSound(s, w);
  }

  lemma {:induction false} ReceiveIsSteady(s: Setup, w: World, frames: seq<Frame>)
    requires Steady(s, w)
    ensures Steady(s, Apply(s, w, Receive(frames)))
  {
    if w.session.Watching? && Watch(w.session.cp, frames).Ok? {
      ReadStaysAhead(w.session.cp, frames);
    }
  }

  lemma {:induction false} StepIsSteady(s: Setup, w: World, e: Event)
    requires RoundTrips(s.codec) && Steady(s, w)
    ensures Steady(s, Apply(s, w, e))
    ensures !e.PowerLoss? ==> Advances(s, w, Apply(s, w, e))
  {
    match e
    case Launch(after, follow) => LaunchIsSteady(s, w, after, follow);
    case Receive(frames) => ReceiveIsSteady(s, w, frames);
    case RenameTemporary =>
      assert w.session.Saving? ==> SoundCursor(s, s.codec.encode(w.session.cp));
      RenameStepKeeps(s, w, Sound(s));
    case _ => FileStepKeeps(s, w, e, Sound(s));
  }

  // ------------------------------------------------------------- coverage, step by step

  lemma {:induction false} LaunchCovers(s: Setup, w: World, after: u64, follow: bool)
    requires RoundTrips(s.codec) && Covers(s, w) && U64_MAX !in Apply(s, w, Launch(after, follow)).bases
    ensures Covers(s, Apply(s, w, Launch(after, follow)))
  {
    var w' := Apply(s, w, Launch(after, follow));
    if w.session.Idle? && Load(s, Visible(w.dir), after).Ok? {
      assert w.output + [] == w.output;
      GoodGrows(s, w.dir, w.output, [], w.bases, w'.bases);
      SavedIsCovered(s, w');
      if s.path !in Visible(w.dir) {
        assert after in w'.bases && PrintedBetween(w'.output, s.id, after, after);
      }
    }
  }

  lemma {:induction false} ReceiveCovers(s: Setup, w: World, frames: seq<Frame>)
    requires Ahead(s, w) && Covers(s, w)
    ensures Covers(s, Apply(s, w, Receive(frames)))
  {
    if w.session.Watching? && Watch(w.session.cp, frames).Ok? {
      BatchCovers(w.output, w.bases, w.session.cp, frames);
      GoodGrows(s, w.dir, w.output, Watch(w.session.cp, frames).value.records, w.bases, w.bases);
    }
  }

  lemma {:induction false} StepCovers(s: Setup, w: World, e: Event)
    requires RoundTrips(s.codec) && Inv(s, w) && U64_MAX !in Apply(s, w, e).bases
    ensures Covers(s, Apply(s, w, e))
  {
    match e
    case Launch(after, follow) => LaunchCovers(s, w, after, follow);
    case Receive(frames) => ReceiveCovers(s, w, frames);
    case RenameTemporary =>
      assert w.session.Saving? ==> GoodCursor(s, w.output, w.bases, s.codec.encode(w.session.cp));
      RenameStepKeeps(s, w, Good(s, w.output, w.bases));
    case _ => FileStepKeeps(s, w, e, Good(s, w.output, w.bases));
  }

  /** Each step keeps the cursor file whole and the saved cursor from going back; and it keeps coverage. */
  lemma {:induction false} StepKeeps(s: Setup, w: World, e: Event)
    requires RoundTrips(s.codec) && Steady(s, w)
    ensures Steady(s, Apply(s, w, e))
    ensures !e.PowerLoss? ==> Advances(s, w, Apply(s, w, e))
    ensures Inv(s, w) && U64_MAX !in Apply(s, w, e).bases ==> Inv(s, Apply(s, w, e))
  {
    StepIsSteady(s, w, e);
    if Inv(s, w) && U64_MAX !in Apply(s, w, e).bases {
      StepCovers(s, w, e);
    }
  }

  // --------------------------------------------------------------- whole runs

  /** Before the first session: nothing printed, and no listing holds a cursor file. */
  ghost predicate Untouched(s: Setup, w: World) {
    && w.session.Idle? && w.output == [] && w.bases == {}
    && forall i :: 0 <= i < |w.dir| ==> s.path !in w.dir[i]
  }

  /**
   * Before the first session, on a disk that may hold cursor files from earlier: they are complete
   * checkpoints of this ceremony, and their cursors count as starts.
   */
  ghost predicate Inherited(s: Setup, w: World) {
    w.session.Idle? && w.output == [] && Durably(w.dir, s.path, InheritedBytes(s, w.bases))
  }

  ghost predicate InheritedCursor(s: Setup, bases: set<u64>, bytes: Bytes) {
    exists cp :: bytes == s.codec.encode(cp) && cp.ceremonyId == s.id && cp.after < U64_MAX && cp.after in bases
  }

  ghost function InheritedBytes(s: Setup, bases: set<u64>): Bytes -> bool {
    (bytes: Bytes) => InheritedCursor(s, bases, bytes)
  }

  lemma {:induction false} InheritedIsCovered(s: Setup, w: World)
    requires Inherited(s, w)
    ensures Inv(s, w)
  {
    forall bytes | InheritedCursor(s, w.bases, bytes)
      ensures SoundCursor(s, bytes) && GoodCursor(s, w.output, w.bases, bytes)
    {
      var cp :| bytes == s.codec.encode(cp) && cp.ceremonyId == s.id && cp.after < U64_MAX && cp.after in w.bases;
      assert PrintedBetween(w.output, s.id, cp.after, cp.after);
    }
    DurablyWeakens(w.dir, s.path, InheritedBytes(s, w.bases), Sound(s));
    DurablyWeakens(w.dir, s.path, InheritedBytes(s, w.bases), Good(s, w.output, w.bases));
  }

  ghost predicate PowerStaysOn(events: seq<Event>) {
    forall i :: 0 <= i < |events| ==> !events[i].PowerLoss?
  }

  lemma {:induction false} RunKeeps(s: Setup, w: World, events: seq<Event>)
    requires RoundTrips(s.codec) && Steady(s, w)
    ensures Steady(s, Run(s, w, events))
    ensures PowerStaysOn(events) ==> Advances(s, w, Run(s, w, events))
    ensures Inv(s, w) && U64_MAX !in Run(s, w, events).bases ==> Inv(s, Run(s, w, events))
    decreases |events|
  {
    if events != [] {
      var front, last := events[..|events| - 1], events[|events| - 1];
      assert Run(s, w, front).bases <= Run(s, w, events).bases;
      RunKeeps(s, w, front);
      StepKeeps(s, Run(s, w, front), last);
      if PowerStaysOn(events) {
        AdvancesTransitively(s, w, Run(s, w, front), Run(s, w, events));
      }
    }
  }

  lemma {:induction false} AdvancesTransitively(s: Setup, a: World, b: World, c: World)
    requires Advances(s, a, b) && Advances(s, b, c)
    ensures Advances(s, a, c)
  {
  }

  /**
   * At least once, over every interleaving of reads, retries, saves, crashes, power losses and
   * restarts: what the saved cursor skips on the next start has all been printed, and the cursor file
   * is never torn. The one start to avoid is the end of the numbering.
   */
  lemma {:induction false} AtLeastOnce(s: Setup, w: World, events: seq<Event>)
    requires RoundTrips(s.codec) && Inherited(s, w) && U64_MAX !in Run(s, w, events).bases
    ensures var w' := Run(s, w, events);
            && Durably(w'.dir, s.path, Good(s, w'.output, w'.bases))
            && forall c :: SavedCursor(s, w') == Some(c) ==> Covered(w'.output, w'.bases, s.id, c)
  {
    InheritedIsCovered(s, w);
    RunKeeps(s, w, events);
    SavedIsCovered(s, Run(s, w, events));
  }

  ghost predicate StartsAt(events: seq<Event>, base: u64) {
    forall i :: 0 <= i < |events| && events[i].Launch? ==> events[i].after == base
  }

  /** When every session was started with the same `--after`, everything behind it up to the cursor was printed. */
  lemma {:induction false} BasesAreArguments(s: Setup, w: World, events: seq<Event>, base: u64)
    requires w.bases <= {base} && StartsAt(events, base)
    ensures Run(s, w, events).bases <= {base}
    decreases |events|
  {
    if events != [] {
      BasesAreArguments(s, w, events[..|events| - 1], base);
    }
  }

  lemma {:induction false} EverythingFromTheStartWasPrinted(s: Setup, w: World, events: seq<Event>, base: u64, c: u64)
    requires RoundTrips(s.codec) && Untouched(s, w) && base < U64_MAX && StartsAt(events, base)
    requires SavedCursor(s, Run(s, w, events)) == Some(c)
    ensures base <= c && PrintedBetween(Run(s, w, events).output, s.id, base, c)
  {
    BasesAreArguments(s, w, events, base);
    AtLeastOnce(s, w, events);
    var w' := Run(s, w, events);
    var b :| b in w'.bases && b <= c && PrintedBetween(w'.output, s.id, b, c);
  }

  lemma {:induction false} RunStep(s: Setup, w: World, events: seq<Event>, e: Event)
    ensures Run(s, w, events + [e]) == Apply(s, Run(s, w, events), e)
  {
  }

  /** Whatever happens after sessions started with `--after base`, a saved cursor is covered. */
  ghost predicate AlwaysCovered(s: Setup, w: World, base: u64) {
    forall events :: StartsAt(events, base) ==> SavedCovered(s, Run(s, w, events))
  }

  ghost predicate SavedCovered(s: Setup, w: World) {
    forall c :: SavedCursor(s, w) == Some(c) ==> Covered(w.output, w.bases, s.id, c)
  }

  /** The end of the numbering is the one start that breaks the guarantee. */
  lemma {:induction false} CoveredIffBelowTheEnd(s: Setup, w: World, base: u64, name: string)
    requires RoundTrips(s.codec) && Untouched(s, w) && name != s.path
    ensures AlwaysCovered(s, w, base) <==> base < U64_MAX
  {
    if base < U64_MAX {
      forall events | StartsAt(events, base) ensures SavedCovered(s, Run(s, w, events)) {
        BasesAreArguments(s, w, events, base);
        AtLeastOnce(s, w, events);
      }
    } else {
      var events := SaveAtTheEnd(s, w, name);
      assert StartsAt(events, base) && !SavedCovered(s, Run(s, w, events));
    }
  }

  /** Six events after which the cursor lies before the only start there was. */
  lemma {:induction false} SaveAtTheEnd(s: Setup, w: World, name: string) returns (events: seq<Event>)
    requires RoundTrips(s.codec) && Untouched(s, w) && name != s.path
    ensures StartsAt(events, U64_MAX) && !SavedCovered(s, Run(s, w, events))
  {
    var cp := Checkpoint(s.id, U64_MAX - 1);
    CursorGoesBackAtTheEnd(s.id);
    var frames := [EndFrame(EndMark(U64_MAX - 1, U64_MAX, 3, 0, 0))];
    events := [Launch(U64_MAX, false)];
    assert Run(s, w, events) == w.(session := Watching(Checkpoint(s.id, U64_MAX), false), bases := {U64_MAX});
    RunStep(s, w, events, Receive(frames));
    events := events + [Receive(frames)];
    var w2 := Run(s, w, events);
    assert w2 == w.(session := Saving(cp, false, true, "", ToCreate), bases := {U64_MAX});
    var saving := SaveSteps(s, w2, cp, name);
    RunConcat(s, w, events, saving);
    assert !Covered([], {U64_MAX}, s.id, U64_MAX - 1);
    events := events + saving;
  }

  /** An uninterrupted save, in the steps of a run. */
  lemma {:induction false} SaveSteps(s: Setup, w: World, cp: Checkpoint, name: string) returns (events: seq<Event>)
    requires RoundTrips(s.codec) && name != s.path
    requires w.session.Saving? && w.session.stage.ToCreate? && w.session.cp == cp
    ensures forall i :: 0 <= i < |events| ==> !events[i].Launch? && !events[i].PowerLoss?
    ensures var w' := Run(s, w, events);
            && w'.output == w.output && w'.bases == w.bases && w.dir <= w'.dir
            && SavedCursor(s, w') == Some(cp.after)
            && w'.session == if w.session.finish then Idle else Watching(cp, w.session.follow)
  {
    events := FillSteps(s, w, cp, name);
    var filled := Run(s, w, events);
    RunStep(s, w, events, SyncTemporary);
    var synced := Apply(s, filled, SyncTemporary);
    events := events + [SyncTemporary];
    assert Visible(synced.dir)[name] == File(s.codec.encode(cp), true) && w.dir <= synced.dir;
    RunStep(s, w, events, RenameTemporary);
    events := events + [RenameTemporary];
  }

  lemma {:induction false} FillSteps(s: Setup, w: World, cp: Checkpoint, name: string) returns (events: seq<Event>)
    requires name != s.path && w.session.Saving? && w.session.stage.ToCreate? && w.session.cp == cp
    ensures forall i :: 0 <= i < |events| ==> !events[i].Launch? && !events[i].PowerLoss?
    ensures var w' := Run(s, w, events);
            && w'.output == w.output && w'.bases == w.bases && |w'.dir| == |w.dir| + 1 && w.dir <= w'.dir
            && name in Visible(w'.dir) && Visible(w'.dir)[name].bytes == s.codec.encode(cp)
            && w'.session == w.session.(temporary := name, stage := Writing(|s.codec.encode(cp)|))
  {
    var payload := s.codec.encode(cp);
    events := [CreateTemporary(name)];
    assert Run(s, w, []) == w && events[..0] == [];
    var created := Run(s, w, events);
    assert created == w.(dir := Create(w.dir, name), session := w.session.(temporary := name, stage := Writing(0)));
    RunStep(s, w, events, WriteTemporary(|payload|));
    events := events + [WriteTemporary(|payload|)];
    assert payload[0..0 + |payload|] == payload && [] + payload == payload;
  }

  lemma {:induction false} RunConcat(s: Setup, w: World, a: seq<Event>, b: seq<Event>)
    ensures Run(s, w, a + b) == Run(s, Run(s, w, a), b)
    decreases |b|
  {
    if b == [] {
      assert a + b == a;
    } else {
      assert (a + b)[..|a + b| - 1] == a + b[..|b| - 1];
      RunConcat(s, w, a, b[..|b| - 1]);
    }
  }

  /** While the power stays on, the saved cursor never moves back, wherever the sessions start. */
  lemma {:induction false} SavedCursorNeverMovesBack(s: Setup, w: World, before: seq<Event>, events: seq<Event>)
    requires RoundTrips(s.codec) && Inherited(s, w) && PowerStaysOn(events)
    ensures Advances(s, Run(s, w, before), Run(s, Run(s, w, before), events))
  {
    InheritedIsCovered(s, w);
    RunKeeps(s, w, before);
    RunKeeps(s, Run(s, w, before), events);
  }

  /** A power loss can bring back the cursor of any listing not yet superseded by a directory sync. */
  lemma {:induction false} PowerLossRestoresAListing(s: Setup, w: World, i: nat, garbage: map<string, Bytes>)
    requires Steady(s, w) && i < |w.dir|
    ensures SavedCursor(s, Apply(s, w, PowerLoss(i, garbage))) == CursorIn(s, w.dir[i])
  {
  }

  /** So it keeps the saved cursor from going back exactly when that listing holds one no lower. */
  lemma {:induction false} PowerLossAdvancesIff(s: Setup, w: World, i: nat, garbage: map<string, Bytes>)
    requires Steady(s, w) && i < |w.dir|
    ensures Advances(s, w, Apply(s, w, PowerLoss(i, garbage))) <==>
              forall c :: SavedCursor(s, w) == Some(c) ==>
                  CursorIn(s, w.dir[i]).Some? && c <= CursorIn(s, w.dir[i]).value
  {
    PowerLossRestoresAListing(s, w, i, garbage);
  }

  /** A stream of the next record. */
  function NextRecord(cp: Checkpoint, event: Text): seq<Frame>
    requires cp.after + 1 < U64_MAX
  {
    [RecordFrame(Record(cp.ceremonyId, event, cp.after + 1, [], None)),
     EndFrame(EndMark(cp.after + 1, cp.after + 1, 2, 0, 0))]
  }

  lemma {:induction false} ReadsNextRecord(cp: Checkpoint, event: Text)
    requires cp.after + 1 < U64_MAX
    ensures Watch(cp, NextRecord(cp, event)) ==
              Ok(Batch([Record(cp.ceremonyId, event, cp.after + 1, [], None)], Checkpoint(cp.ceremonyId, cp.after + 1),
                       cp.after + 1, EventLimit))
  {
    var r := Record(cp.ceremonyId, event, cp.after + 1, [], None);
    var frames := NextRecord(cp, event);
    var s := Reading(cp.after + 2, {} + {event}, [r]);
    assert frames[1..] == [frames[1]] && [] + [r] == [r];
    assert Accept(cp, Start(cp), frames[0]) == More(s);
    assert Consume(cp, s, [frames[1]]).Ok?;
  }

  /** One read and one save while following: the cursor moves on by one and the earlier listings remain. */
  lemma {:induction false} FollowOnce(s: Setup, w: World, cp: Checkpoint, event: Text, name: string)
    returns (events: seq<Event>)
    requires RoundTrips(s.codec) && name != s.path && cp.after + 1 < U64_MAX && w.session == Watching(cp, true)
    ensures StartsAt(events, 0) && PowerStaysOn(events)
    ensures var w' := Run(s, w, events);
            && w'.session == Watching(Checkpoint(cp.ceremonyId, cp.after + 1), true)
            && SavedCursor(s, w') == Some(cp.after + 1) && w.dir <= w'.dir && w'.bases == w.bases
  {
    ReadsNextRecord(cp, event);
    var next := Checkpoint(cp.ceremonyId, cp.after + 1);
    var read := [Receive(NextRecord(cp, event))];
    assert Run(s, w, []) == w && read[..0] == [];
    var w1 := Run(s, w, read);
    assert w1.session == Saving(next, true, false, "", ToCreate) && w1.dir == w.dir && w1.bases == w.bases;
    var saving := SaveSteps(s, w1, next, name);
    RunConcat(s, w, read, saving);
    events := read + saving;
  }

  lemma {:induction false} FollowFirst(s: Setup, w: World, name: string, event: Text) returns (events: seq<Event>)
    requires RoundTrips(s.codec) && Untouched(s, w) && name != s.path
    ensures StartsAt(events, 0) && PowerStaysOn(events)
    ensures var w' := Run(s, w, events);
            && w'.session == Watching(Checkpoint(s.id, 1), true) && w'.bases == {0}
            && SavedCursor(s, w') == Some(1) && w.dir <= w'.dir
  {
    var launch := [Launch(0, true)];
    assert Run(s, w, []) == w && launch[..0] == [];
    var launched := Run(s, w, launch);
    assert launched == w.(session := Watching(Checkpoint(s.id, 0), true), bases := {0});
    var once := FollowOnce(s, launched, Checkpoint(s.id, 0), event, name);
    RunConcat(s, w, launch, once);
    events := launch + once;
  }

  /** Cursor 2 is saved, the listing at `i` still holds cursor 1, and the oldest listing holds none. */
  ghost predicate SavedTwice(s: Setup, w: World, i: nat) {
    && SavedCursor(s, w) == Some(2) && w.bases == {0}
    && i < |w.dir| && CursorIn(s, w.dir[i]) == Some(1) && CursorIn(s, w.dir[0]) == None
  }

  /** Two reads and two saves. */
  lemma {:induction false} FollowTwice(s: Setup, w: World, name: string, first: Text, second: Text)
    returns (events: seq<Event>, i: nat)
    requires RoundTrips(s.codec) && Untouched(s, w) && name != s.path
    ensures StartsAt(events, 0) && PowerStaysOn(events) && SavedTwice(s, Run(s, w, events), i)
  {
    var once, twice;
    once, twice, i := FollowTwiceInParts(s, w, name, first, second);
    JoinQuiet(once, twice, 0);
    RunConcat(s, w, once, twice);
    events := once + twice;
  }

  lemma {:induction false} FollowTwiceInParts(s: Setup, w: World, name: string, first: Text, second: Text)
    returns (once: seq<Event>, twice: seq<Event>, i: nat)
    requires RoundTrips(s.codec) && Untouched(s, w) && name != s.path
    ensures StartsAt(once, 0) && PowerStaysOn(once) && StartsAt(twice, 0) && PowerStaysOn(twice)
    ensures SavedTwice(s, Run(s, Run(s, w, once), twice), i)
  {
    once, twice := TwoFollows(s, w, name, first, second);
    i := |Run(s, w, once).dir| - 1;
    TwoListings(s, w, Run(s, w, once), Run(s, Run(s, w, once), twice));
  }

  lemma {:induction false} TwoListings(s: Setup, w: World, w1: World, w2: World)
    requires Untouched(s, w) && w.dir <= w1.dir <= w2.dir
    requires SavedCursor(s, w1) == Some(1) && SavedCursor(s, w2) == Some(2) && w2.bases == {0}
    ensures SavedTwice(s, w2, |w1.dir| - 1)
  {
    PrefixesHold(s, w.dir, w1.dir, w2.dir, 1);
  }

  lemma {:induction false} TwoFollows(s: Setup, w: World, name: string, first: Text, second: Text)
    returns (once: seq<Event>, twice: seq<Event>)
    requires RoundTrips(s.codec) && Untouched(s, w) && name != s.path
    ensures StartsAt(once, 0) && PowerStaysOn(once) && StartsAt(twice, 0) && PowerStaysOn(twice)
    ensures var w1 := Run(s, w, once);
            var w2 := Run(s, w1, twice);
            && w.dir <= w1.dir <= w2.dir && SavedCursor(s, w1) == Some(1) && SavedCursor(s, w2) == Some(2)
            && w2.bases == {0}
  {
    once := FollowFirst(s, w, name, first);
    twice := FollowOnce(s, Run(s, w, once), Checkpoint(s.id, 1), second, name);
  }

  lemma {:induction false} JoinQuiet(a: seq<Event>, b: seq<Event>, base: u64)
    requires StartsAt(a, base) && PowerStaysOn(a) && StartsAt(b, base) && PowerStaysOn(b)
    ensures StartsAt(a + b, base) && PowerStaysOn(a + b)
  {
  }

  /** Directories that grow keep the cursors of their earlier listings. */
  lemma {:induction false} PrefixesHold(s: Setup, d0: Directory, d1: Directory, d2: Directory, c: u64)
    requires d0 <= d1 <= d2 && s.path !in d0[0] && CursorIn(s, Visible(d1)) == Some(c)
    ensures CursorIn(s, d2[|d1| - 1]) == Some(c) && CursorIn(s, d2[0]) == None
  {
    assert d2[|d1| - 1] == d1[|d1| - 1] && d2[0] == d1[0] == d0[0];
  }

  /**
   * The cursor does go back. Two saves and a power loss that restores the listing of the first bring back
   * the first cursor; one that restores the oldest listing leaves none.
   */
  lemma {:induction false} PowerLossMovesCursorBack(s: Setup, w: World, name: string, first: Text, second: Text)
    returns (events: seq<Event>, i: nat)
    requires RoundTrips(s.codec) && Untouched(s, w) && name != s.path
    ensures StartsAt(events, 0) && PowerStaysOn(events)
    ensures SavedCursor(s, Run(s, w, events)) == Some(2) && i < |Run(s, w, events).dir|
    ensures forall garbage :: SavedCursor(s, Run(s, w, events + [PowerLoss(i, garbage)])) == Some(1)
    ensures forall garbage :: SavedCursor(s, Run(s, w, events + [PowerLoss(0, garbage)])) == None
  {
    events, i := FollowTwice(s, w, name, first, second);
    var w' := Run(s, w, events);
    RunKeeps(s, w, events);
    forall garbage
      ensures SavedCursor(s, Run(s, w, events + [PowerLoss(i, garbage)])) == Some(1)
      ensures SavedCursor(s, Run(s, w, events + [PowerLoss(0, garbage)])) == None
    {
      RunStep(s, w, events, PowerLoss(i, garbage));
      RunStep(s, w, events, PowerLoss(0, garbage));
      PowerLossRestoresAListing(s, w', i, garbage);
      PowerLossRestoresAListing(s, w', 0, garbage);
    }
  }

  // -------------------------------------------------------------- the program

  /** Steps of processes, with the power on, lead from `start` to `w`. */
  ghost predicate Reached(s: Setup, start: World, w: World) {
    exists events :: w == Run(s, start, events) && PowerStaysOn(events)
  }

  lemma {:induction false} ReachedAtStart(s: Setup, start: World)
    ensures Reached(s, start, start)
  {
    assert start == Run(s, start, []) && PowerStaysOn([]);
  }

  lemma {:induction false} ReachedByStep(s: Setup, start: World, w: World, e: Event)
    requires Reached(s, start, w) && !e.PowerLoss?
    ensures Reached(s, start, Apply(s, w, e))
  {
    var events :| w == Run(s, start, events) && PowerStaysOn(events);
    RunStep(s, start, events, e);
    assert Apply(s, w, e) == Run(s, start, events + [e]);
  }

  /** The name `save` writes to before it renames; `unique` is the generated identifier. */
  function TemporaryName(path: string, unique: string): (name: string)
    ensures name != path && |name| == |path| + |unique| + 7
    ensures name[0] == '.' && name[1..|path| + 1] == path && name[|name| - 5..] == ".part"
    ensures name[|path| + 2..|name| - 5] == unique
  {
    var name := "." + path + "." + unique + ".part";
    assert |name| > |path|;
    name
  }

  datatype Fault = NoFault | CreateFails | WriteFails(written: nat) | SyncFails | RenameFails

  /** What one pass of the loop meets: the stream, the generated name, the save's fault, and whether tidying works. */
  datatype Pass = Pass(frames: seq<Frame>, unique: string, fault: Fault, tidies: bool)

  /** What a read adds to the output, and the cursor it leaves. */
  function NewRecords(cp: Checkpoint, frames: seq<Frame>): seq<Record> {
    match Progress.Watch(cp, frames) case Ok(b) => b.records case Err(_) => []
  }

  function NextCursor(cp: Checkpoint, frames: seq<Frame>): Checkpoint {
    match Progress.Watch(cp, frames) case Ok(b) => b.checkpoint case Err(_) => cp
  }

  /** From the cursor a watch loaded, everything up to `c` is in `printed`. */
  ghost predicate PrintedSince(s: Setup, loaded: Result<Checkpoint, LoadError>, printed: seq<Record>, c: u64) {
    loaded.Ok? && (loaded.value.after < U64_MAX ==> Covered(printed, {loaded.value.after}, s.id, c))
  }

  ghost predicate SpansFrom(s: Setup, loaded: Result<Checkpoint, LoadError>, printed: seq<Record>, cp: Checkpoint) {
    cp.ceremonyId == s.id && PrintedSince(s, loaded, printed, cp.after)
  }

  lemma {:induction false} SpansAtStart(s: Setup, loaded: Result<Checkpoint, LoadError>)
    requires loaded.Ok? && loaded.value.ceremonyId == s.id
    ensures SpansFrom(s, loaded, [], loaded.value)
  {
    assert PrintedBetween([], s.id, loaded.value.after, loaded.value.after);
  }

  lemma {:induction false} SpansOn(s: Setup, loaded: Result<Checkpoint, LoadError>, printed: seq<Record>,
                                   cp: Checkpoint, frames: seq<Frame>)
    requires SpansFrom(s, loaded, printed, cp)
    ensures SpansFrom(s, loaded, printed + NewRecords(cp, frames), NextCursor(cp, frames))
  {
    assert printed + [] == printed;
    if Progress.Watch(cp, frames).Ok? {
      ReadStaysAhead(cp, frames);
      if loaded.value.after < U64_MAX {
        BatchCovers(printed, {loaded.value.after}, cp, frames);
      }
    }
  }

  /** How a pass ends: with another one from a cursor, or with the end of the watch. */
  datatype Outcome = Again(next: Checkpoint) | Stop(exit: Exit)

  /** No fault strikes before the save is done. */
  predicate Saves(s: Setup, cp: Checkpoint, fault: Fault) {
    fault.NoFault? || (fault.WriteFails? && |s.codec.encode(cp)| <= fault.written)
  }

  ghost predicate HoldsCursor(s: Setup, v: Listing, cp: Checkpoint) {
    s.path in v && v[s.path] == File(s.codec.encode(cp), true)
  }

  /** What a pass makes of its stream and of the fault its save meets. */
  ghost function OutcomeOf(s: Setup, cp: Checkpoint, follow: bool, pass: Pass): Outcome {
    match Progress.Watch(cp, pass.frames)
    case Err(error) => if follow && error == RemoteStatus(true) then Again(cp) else Stop(Failed)
    case Ok(b) =>
      if !Saves(s, b.checkpoint, pass.fault) then Stop(Failed)
      else if follow && (b.reason != Terminal || b.checkpoint.after < b.head) then Again(b.checkpoint)
      else Stop(Returned(b.head, b.reason))
  }

  /** The cursor before pass `n`, and what the passes before it printed. */
  ghost function CursorAt(cp: Checkpoint, passes: seq<Pass>, n: nat): Checkpoint
    requires n <= |passes|
  {
    if n == 0 then cp else NextCursor(CursorAt(cp, passes, n - 1), passes[n - 1].frames)
  }

  ghost function PrintedBy(cp: Checkpoint, passes: seq<Pass>, n: nat): seq<Record>
    requires n <= |passes|
  {
    if n == 0 then []
    else PrintedBy(cp, passes, n - 1) + NewRecords(CursorAt(cp, passes, n - 1), passes[n - 1].frames)
  }

  /** The first `n` passes go on. */
  ghost predicate GoneOn(s: Setup, cp: Checkpoint, follow: bool, passes: seq<Pass>, n: nat) {
    n <= |passes| && forall i :: 0 <= i < n ==> PassGoesOn(s, cp, follow, passes, i)
  }

  ghost predicate PassGoesOn(s: Setup, cp: Checkpoint, follow: bool, passes: seq<Pass>, i: nat)
    requires i < |passes|
  {
    OutcomeOf(s, CursorAt(cp, passes, i), follow, passes[i]).Again?
  }

  /** The first `n` passes go on and the next one, if there is one, ends the watch. */
  ghost predicate WentFor(s: Setup, cp: Checkpoint, follow: bool, passes: seq<Pass>, n: nat, exit: Exit,
                          printed: seq<Record>) {
    && GoneOn(s, cp, follow, passes, n)
    && if n == |passes| then exit == OutOfPasses && printed == PrintedBy(cp, passes, n)
       else
         && OutcomeOf(s, CursorAt(cp, passes, n), follow, passes[n]) == Stop(exit)
         && printed == PrintedBy(cp, passes, n + 1)
  }

  /** The first `n` passes go on, to this cursor, and print these records. */
  ghost predicate Arrives(s: Setup, cp: Checkpoint, follow: bool, passes: seq<Pass>, n: nat, at: Checkpoint,
                          printed: seq<Record>) {
    GoneOn(s, cp, follow, passes, n) && at == CursorAt(cp, passes, n) && printed == PrintedBy(cp, passes, n)
  }

  lemma {:induction false} ArrivesNext(s: Setup, cp: Checkpoint, follow: bool, passes: seq<Pass>, n: nat,
                                       at: Checkpoint, printed: seq<Record>)
    requires Arrives(s, cp, follow, passes, n, at, printed) && n < |passes|
    ensures var more := printed + NewRecords(at, passes[n].frames);
            && CursorAt(cp, passes, n + 1) == NextCursor(at, passes[n].frames)
            && match OutcomeOf(s, at, follow, passes[n])
               case Again(next) => Arrives(s, cp, follow, passes, n + 1, next, more)
               case Stop(exit) => WentFor(s, cp, follow, passes, n, exit, more)
  {
  }

  lemma {:induction false} SpansBy(s: Setup, loaded: Result<Checkpoint, LoadError>, passes: seq<Pass>, n: nat)
    requires loaded.Ok? && loaded.value.ceremonyId == s.id && n <= |passes|
    ensures SpansFrom(s, loaded, PrintedBy(loaded.value, passes, n), CursorAt(loaded.value, passes, n))
  {
    if n == 0 {
      SpansAtStart(s, loaded);
    } else {
      SpansBy(s, loaded, passes, n - 1);
      SpansOn(s, loaded, PrintedBy(loaded.value, passes, n - 1), CursorAt(loaded.value, passes, n - 1),
              passes[n - 1].frames);
    }
  }

  lemma {:induction false} StaysPut(cp: Checkpoint, passes: seq<Pass>, n: nat)
    requires n <= |passes|
    requires forall i :: 0 <= i < |passes| ==> Progress.Watch(cp, passes[i].frames).Err?
    ensures CursorAt(cp, passes, n) == cp && PrintedBy(cp, passes, n) == []
  {
    if n > 0 {
      StaysPut(cp, passes, n - 1);
    }
  }

  /** While the server cannot be reached, a following watch prints nothing and goes on, pass after pass. */
  lemma {:induction false} UnreachableKeepsWatching(s: Setup, cp: Checkpoint, passes: seq<Pass>, n: nat, exit: Exit,
                                                    printed: seq<Record>)
    requires forall i :: 0 <= i < |passes| ==> Progress.Watch(cp, passes[i].frames) == Err(RemoteStatus(true))
    requires WentFor(s, cp, true, passes, n, exit, printed)
    ensures exit == OutOfPasses && printed == []
  {
    StaysPut(cp, passes, n);
  }

  /** Any other failure ends it, whether it follows or not. */
  lemma {:induction false} OtherFailureStops(s: Setup, cp: Checkpoint, follow: bool, passes: seq<Pass>, n: nat,
                                             exit: Exit, printed: seq<Record>, error: ClientError)
    requires passes != [] && Progress.Watch(cp, passes[0].frames) == Err(error)
    requires !follow || error != RemoteStatus(true)
    requires WentFor(s, cp, follow, passes, n, exit, printed)
    ensures exit == Failed && printed == []
  {
    assert CursorAt(cp, passes, 0) == cp && PrintedBy(cp, passes, 0) == [];
    assert !PassGoesOn(s, cp, follow, passes, 0);
    if n == 0 {
      assert PrintedBy(cp, passes, 1) == PrintedBy(cp, passes, 0) + NewRecords(cp, passes[0].frames);
    }
  }

  datatype Exit = Returned(head: u64, reason: EndReason) | Failed | OutOfPasses

  /** One console process at a time over a disk. The ghost fields follow it as a run of the steps above. */
  class Watcher {
    const setup: Setup
    var dir: Directory
    var output: seq<Record>
    ghost var session: Session
    ghost var bases: set<u64>
    ghost const start: World

    ghost function Now(): World
      reads this
    {
      World(dir, output, session, bases)
    }

    /** The state is one that steps of a process lead to. */
    ghost predicate Valid()
      reads this
    {
      Reached(setup, start, Now())
    }

    /** The cursors of files that are already there count as starts. */
    constructor (setup: Setup, dir: Directory, ghost inherited: set<u64>)
      ensures Valid() && this.setup == setup && Now() == World(dir, [], Idle, inherited) == start
    {
      this.setup, this.dir, this.output := setup, dir, [];
      this.session, this.bases := Idle, inherited;
      this.start := World(dir, [], Idle, inherited);
      new;
      ReachedAtStart(setup, start);
    }

    /** Records that the assignments since the last step amount to `e`. */
    ghost method Record(e: Event, before: World)
      requires Reached(setup, start, before) && !e.PowerLoss?
      requires dir == Apply(setup, before, e).dir && output == Apply(setup, before, e).output
      modifies this`session, this`bases
      ensures Valid() && Now() == Apply(setup, before, e)
    {
      ReachedByStep(setup, start, before, e);
      session, bases := Apply(setup, before, e).session, Apply(setup, before, e).bases;
    }

    /** `load_checkpoint`. */
    method LoadCheckpoint(after: u64, ghost follow: bool) returns (r: Result<Checkpoint, LoadError>)
      requires Valid() && session.Idle?
      modifies this
      ensures Valid()
      ensures r == Load(setup, Visible(old(dir)), after) && dir == old(dir) && output == old(output)
      ensures session == if r.Ok? then Watching(r.value, follow) else Idle
    {
      ghost var before := Now();
      if setup.path !in Visible(dir) {
        r := Ok(Checkpoint(setup.id, after));
      } else {
        match setup.codec.decode(Visible(dir)[setup.path].bytes) {
          case None => r := Err(CorruptCursor);
          case Some(cp) => r := if cp.ceremonyId == setup.id then Ok(cp) else Err(CursorOfAnotherCeremony);
        }
      }
      Record(Launch(after, follow), before);
    }

    method CreateStep(name: string)
      requires Valid() && session.Saving? && session.stage.ToCreate? && name != setup.path
      modifies this
      ensures Valid() && output == old(output) && bases == old(bases)
      ensures Visible(dir) == Visible(old(dir))[name := File([], false)]
      ensures session == old(session).(temporary := name, stage := Writing(0))
    {
      ghost var before := Now();
      dir := Create(dir, name);
      Record(CreateTemporary(name), before);
    }

    method WriteStep(name: string, payload: Bytes, count: nat)
      requires Valid() && session.Saving? && session.temporary == name && session.stage == Writing(0)
      requires name in Visible(dir) && Visible(dir)[name].bytes == [] && payload == setup.codec.encode(session.cp)
               && count <= |payload|
      modifies this
      ensures Valid() && output == old(output) && bases == old(bases)
      ensures Visible(dir) == Visible(old(dir))[name := File(payload[..count], false)]
      ensures session == old(session).(stage := Writing(count))
    {
      ghost var before := Now();
      assert payload[0..0 + count] == payload[..count] && [] + payload[..count] == payload[..count];
      dir := Append(dir, name, payload[..count]);
      Record(WriteTemporary(count), before);
    }

    method SyncStep(name: string)
      requires Valid() && session.Saving? && session.temporary == name && name in Visible(dir)
      requires session.stage == Writing(|setup.codec.encode(session.cp)|)
      modifies this
      ensures Valid() && output == old(output) && bases == old(bases)
      ensures Visible(dir) == Visible(old(dir))[name := File(Visible(old(dir))[name].bytes, true)]
      ensures session == old(session).(stage := ToRename)
    {
      ghost var before := Now();
      dir := SyncFile(dir, name);
      Record(SyncTemporary, before);
    }

    method RenameStep(name: string)
      requires Valid() && session.Saving? && session.temporary == name && name in Visible(dir)
               && session.stage.ToRename?
      modifies this
      ensures Valid() && output == old(output) && bases == old(bases)
      ensures Visible(dir) == (Visible(old(dir)) - {name})[setup.path := Visible(old(dir))[name]]
      ensures session == if old(session).finish then Idle else Watching(old(session).cp, old(session).follow)
    {
      ghost var before := Now();
      dir := Rename(dir, name, setup.path);
      Record(RenameTemporary, before);
    }

    method TidyStep(name: string, tidies: bool)
      requires Valid() && session.Saving? && !session.stage.ToCreate? && session.temporary == name
      modifies this
      ensures Valid() && output == old(output) && bases == old(bases) && session.Idle?
      ensures Visible(dir) == if tidies then Visible(old(dir)) - {name} else Visible(old(dir))
    {
      ghost var before := Now();
      if tidies {
        dir := Remove(dir, name);
      }
      Record(SaveFails(tidies), before);
    }

    /** Creates the temporary file and writes the cursor into it, up to a write fault. */
    method Fill(cp: Checkpoint, temporary: string, count: nat)
      requires Valid() && session.Saving? && session.cp == cp && session.stage.ToCreate? && temporary != setup.path
      requires count <= |setup.codec.encode(cp)|
      modifies this
      ensures Valid() && output == old(output) && bases == old(bases)
      ensures session == old(session).(temporary := temporary, stage := Writing(count))
      ensures Visible(dir) == Visible(old(dir))[temporary := File(setup.codec.encode(cp)[..count], false)]
    {
      CreateStep(temporary);
      WriteStep(temporary, setup.codec.encode(cp), count);
    }

    /** Syncs a completely written temporary file and renames it over the cursor. */
    method Publish(temporary: string, fault: Fault) returns (ok: bool)
      requires Valid() && session.Saving? && session.temporary == temporary && temporary != setup.path
               && temporary in Visible(dir)
      requires session.stage == Writing(|setup.codec.encode(session.cp)|)
      modifies this
      ensures Valid() && output == old(output) && bases == old(bases)
      ensures ok <==> !fault.SyncFails? && !fault.RenameFails?
      ensures ok ==>
                setup.path in Visible(dir)
                && Visible(dir)[setup.path] == File(Visible(old(dir))[temporary].bytes, true)
      ensures ok ==> session == if old(session).finish then Idle else Watching(old(session).cp, old(session).follow)
      ensures !ok ==> session == old(session).(stage := Writing(|setup.codec.encode(old(session).cp)|))
                      || session == old(session).(stage := ToRename)
      ensures !ok ==> SameFile(Visible(old(dir)), Visible(dir), setup.path)
    {
      if fault.SyncFails? {
        return false;
      }
      SyncStep(temporary);
      if fault.RenameFails? {
        return false;
      }
      RenameStep(temporary);
      return true;
    }

    /** The save once the temporary file can be created; tidies up on failure. */
    method ReplaceCursor(cp: Checkpoint, temporary: string, fault: Fault, tidies: bool) returns (ok: bool)
      requires Valid() && session.Saving? && session.cp == cp && session.stage.ToCreate? && temporary != setup.path
      modifies this
      ensures Valid() && output == old(output) && bases == old(bases)
      ensures ok <==>
                !fault.SyncFails? && !fault.RenameFails?
                && !(fault.WriteFails? && fault.written < |setup.codec.encode(cp)|)
      ensures ok ==> setup.path in Visible(dir) && Visible(dir)[setup.path] == File(setup.codec.encode(cp), true)
      ensures ok ==> session == if old(session).finish then Idle else Watching(cp, old(session).follow)
      ensures !ok ==> session.Idle? && SameFile(Visible(old(dir)), Visible(dir), setup.path)
      ensures !ok && tidies ==> temporary !in Visible(dir)
    {
      var payload := setup.codec.encode(cp);
      var count := if fault.WriteFails? && fault.written < |payload| then fault.written else |payload|;
      Fill(cp, temporary, count);
      if count == |payload| {
        assert payload[..count] == payload;
        ok := Publish(temporary, fault);
        if ok {
          return;
        }
      }
      TidyStep(temporary, tidies);
      return false;
    }

    /** `ProgressCheckpoint::save`: write a fresh file, sync it, rename it over the cursor; tidy up on failure. */
    method Save(cp: Checkpoint, unique: string, fault: Fault, tidies: bool) returns (ok: bool)
      requires Valid() && session.Saving? && session.cp == cp && session.stage.ToCreate?
      modifies this
      ensures Valid() && output == old(output) && bases == old(bases)
      ensures ok <==> fault.NoFault? || (fault.WriteFails? && |setup.codec.encode(cp)| <= fault.written)
      ensures ok ==> setup.path in Visible(dir) && Visible(dir)[setup.path] == File(setup.codec.encode(cp), true)
      ensures ok ==> session == if old(session).finish then Idle else Watching(cp, old(session).follow)
      ensures !ok ==> session.Idle? && SameFile(Visible(old(dir)), Visible(dir), setup.path)
      ensures !ok && tidies && !fault.CreateFails? ==> TemporaryName(setup.path, unique) !in Visible(dir)
      ensures !ok && fault.CreateFails? ==> dir == old(dir)
    {
      if fault.CreateFails? {
        ghost var before := Now();
        Record(SaveFails(false), before);
        return false;
      }
      ok := ReplaceCursor(cp, TemporaryName(setup.path, unique), fault, tidies);
    }

    /** One read and, when it succeeds, its output. */
    method ReadStep(cp: Checkpoint, follow: bool, frames: seq<Frame>) returns (r: Result<Batch, ClientError>)
      requires Valid() && session == Watching(cp, follow)
      modifies this
      ensures Valid() && dir == old(dir) && bases == old(bases) && r == Progress.Watch(cp, frames)
      ensures Now() == Apply(setup, old(Now()), Receive(frames))
      ensures output == old(output) + if r.Ok? then r.value.records else []
      ensures r.Ok? ==> session == Saving(r.value.checkpoint, follow, Finishes(follow, r.value), "", ToCreate)
      ensures r.Err? ==> session == if Retries(follow, r.error) then Watching(cp, follow) else Idle
    {
      ghost var before := Now();
      r := WatchOnce(cp, frames);
      if r.Ok? {
        output := output + r.value.records;
      }
      Record(Receive(frames), before);
    }

    /**
     * One pass of the loop: read, print, save, and go on or stop. A read that failed is repeated exactly when
     * following and the server could not be reached; one that succeeded is printed, and goes on exactly when its
     * cursor was saved, following, short of a terminal head.
     */
    method OnePass(checkpoint: Checkpoint, follow: bool, pass: Pass) returns (r: Outcome)
      requires Valid() && session == Watching(checkpoint, follow) && RoundTrips(setup.codec)
      modifies this
      ensures Valid() && output == old(output) + NewRecords(checkpoint, pass.frames)
      ensures r == OutcomeOf(setup, checkpoint, follow, pass)
      ensures r.Again? ==> session == Watching(r.next, follow)
      ensures r.Stop? ==> session.Idle?
      ensures match Progress.Watch(checkpoint, pass.frames)
              case Err(_) => dir == old(dir)
              case Ok(b) =>
                if Saves(setup, b.checkpoint, pass.fault) then HoldsCursor(setup, Visible(dir), b.checkpoint)
                else SameFile(Visible(old(dir)), Visible(dir), setup.path)
      ensures Steady(setup, old(Now())) ==> Advances(setup, old(Now()), Now())
    {
      ghost var before := Now();
      var read := ReadStep(checkpoint, follow, pass.frames);
      match read {
        case Err(error) => r := if Retries(follow, error) then Again(checkpoint) else Stop(Failed);
        case Ok(batch) =>
          if Steady(setup, before) {
            StepIsSteady(setup, before, Receive(pass.frames));
          }
          var saved := Save(batch.checkpoint, pass.unique, pass.fault, pass.tidies);
          if !saved {
            r := Stop(Failed);
          } else if Finishes(follow, batch) {
            r := Stop(Returned(batch.head, batch.reason));
          } else {
            r := Again(batch.checkpoint);
          }
      }
    }

    /** The pass at `i`, as the loop sees it. */
    method TakePass(checkpoint: Checkpoint, follow: bool, passes: seq<Pass>, i: nat, ghost cp: Checkpoint,
                    ghost printed: seq<Record>, ghost first: World)
      returns (r: Outcome, ghost more: seq<Record>)
      requires Valid() && session == Watching(checkpoint, follow) && RoundTrips(setup.codec)
      requires i < |passes| && Arrives(setup, cp, follow, passes, i, checkpoint, printed)
      requires output == first.output + printed
      modifies this
      ensures Valid() && output == first.output + more
      ensures match r
              case Again(next) =>
                session == Watching(next, follow) && Arrives(setup, cp, follow, passes, i + 1, next, more)
              case Stop(exit) =>
                && session.Idle? && WentFor(setup, cp, follow, passes, i, exit, more)
                && (exit.Returned? ==> HoldsCursor(setup, Visible(dir), CursorAt(cp, passes, i + 1)))
      ensures Inherited(setup, start) && Advances(setup, first, old(Now())) ==> Advances(setup, first, Now())
    {
      ReachedKeeps(setup, start, Now());
      ArrivesNext(setup, cp, follow, passes, i, checkpoint, printed);
      r := OnePass(checkpoint, follow, passes[i]);
      ghost var added := NewRecords(checkpoint, passes[i].frames);
      more := printed + added;
      assert first.output + printed + added == first.output + (printed + added);
      if Inherited(setup, start) && Advances(setup, first, old(Now())) {
        AdvancesTransitively(setup, first, old(Now()), Now());
      }
    }

    /** The loop of `watch`. */
    method RunPasses(cp: Checkpoint, follow: bool, passes: seq<Pass>)
      returns (exit: Exit, ghost n: nat, ghost printed: seq<Record>)
      requires Valid() && session == Watching(cp, follow) && RoundTrips(setup.codec)
      modifies this
      ensures Valid() && output == old(output) + printed && WentFor(setup, cp, follow, passes, n, exit, printed)
      ensures exit.Returned? ==> HoldsCursor(setup, Visible(dir), CursorAt(cp, passes, n + 1))
      ensures if exit.OutOfPasses? then session.Watching? else session.Idle?
      ensures Inherited(setup, start) ==> Advances(setup, old(Now()), Now())
    {
      var checkpoint := cp;
      printed := [];
      for i := 0 to |passes|
        invariant Valid() && session == Watching(checkpoint, follow) && output == old(output) + printed
        invariant Arrives(setup, cp, follow, passes, i, checkpoint, printed)
        invariant Inherited(setup, start) ==> Advances(setup, old(Now()), Now())
      {
        var r;
        r, printed := TakePass(checkpoint, follow, passes, i, cp, printed, old(Now()));
        match r {
          case Again(next) => checkpoint := next;
          case Stop(result) => return result, i, printed;
        }
      }
      exit, n := OutOfPasses, |passes|;
    }

    /**
     * `watch`: load the cursor, then read, print and save until the watch is over. A cursor file that cannot be
     * used fails the watch and changes nothing. Otherwise the first pass that does not go on decides how the watch
     * ends, and exactly the records of the passes up to it are printed. A successful return leaves a saved cursor,
     * and this watch printed everything from the cursor it loaded up to there; under `follow` it reaches the head a
     * terminal end frame reported. The saved cursor does not go back, and stays covered unless some session was
     * started at the end of the numbering.
     */
    method Watch(after: u64, follow: bool, passes: seq<Pass>) returns (exit: Exit, ghost n: nat)
      requires Valid() && session.Idle? && RoundTrips(setup.codec)
      modifies this
      ensures Valid() && old(output) <= output
      ensures Load(setup, Visible(old(dir)), after).Err? ==> exit.Failed? && dir == old(dir) && output == old(output)
      ensures Load(setup, Visible(old(dir)), after).Ok? ==>
                WentFor(setup, Load(setup, Visible(old(dir)), after).value, follow, passes, n, exit,
                        output[|old(output)|..])
      ensures exit.Returned? ==>
                exists c :: && SavedCursor(setup, Now()) == Some(c)
                            && PrintedSince(setup, Load(setup, Visible(old(dir)), after), output[|old(output)|..], c)
                            && (follow ==> exit.reason == Terminal && exit.head <= c)
      ensures exit.OutOfPasses? ==> session.Watching?
      ensures !exit.OutOfPasses? ==> session.Idle?
      ensures Inherited(setup, start) ==> Steady(setup, Now()) && Advances(setup, old(Now()), Now())
      ensures Inherited(setup, start) && U64_MAX !in bases ==> Inv(setup, Now()) && SavedCovered(setup, Now())
    {
      var loaded := LoadCheckpoint(after, follow);
      if loaded.Err? {
        ReachedKeeps(setup, start, Now());
        return Failed, 0;
      }
      ghost var printed;
      exit, n, printed := RunPasses(loaded.value, follow, passes);
      assert output[|old(output)|..] == printed;
      ReachedKeeps(setup, start, Now());
      if exit.Returned? {
        SpansBy(setup, loaded, passes, n + 1);
        assert SavedCursor(setup, Now()) == Some(CursorAt(loaded.value, passes, n + 1).after);
      }
    }
  }

  lemma {:induction false} ReachedKeeps(s: Setup, start: World, w: World)
    requires RoundTrips(s.codec) && Reached(s, start, w)
    ensures Inherited(s, start) ==> Steady(s, w)
    ensures Inherited(s, start) && U64_MAX !in w.bases ==> Inv(s, w) && SavedCovered(s, w)
  {
    var events :| w == Run(s, start, events) && PowerStaysOn(events);
    if Inherited(s, start) {
      InheritedIsCovered(s, start);
      RunKeeps(s, start, events);
      if U64_MAX !in w.bases {
        AtLeastOnce(s, start, events);
      }
    }
  }

  predicate SameFile(v: Listing, v': Listing, name: string) {
    (name in v <==> name in v') && (name in v ==> v[name] == v'[name])
  }
}
