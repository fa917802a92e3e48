/** The recoverable worker: the effect is durable before the result is visible, whatever interrupts it. */
module Worker {
  import opened Framing
  import opened Storage

  /** One operation: its request bytes and the result document, which carries the time of the run. */
  datatype Job = Job(operation: string, result: string, request: Bytes, document: int -> Bytes)

  const EFFECTS := "effects"

  function Effect(job: Job): (name: string)
    ensures |name| == |job.operation| + 5 && job.operation <= name && name[|job.operation|..] == ".json"
  {
    job.operation + ".json"
  }

  function TemporaryEffect(job: Job): (name: string)
    ensures |name| == |job.operation| + 5 && name[0] == '.'
    ensures job.operation <= name[1..] && name[|job.operation| + 1..] == ".tmp"
  {
    "." + job.operation + ".tmp"
  }

  function TemporaryResult(job: Job): (name: string)
    ensures |name| == |job.operation| + 12 && name[0] == '.'
    ensures job.operation <= name[1..] && name[|job.operation| + 1..] == ".result.tmp"
  {
    "." + job.operation + ".result.tmp"
  }

  /** The result path is not one of the names the worker uses beside it. */
  predicate Named(job: Job) {
    job.result != EFFECTS && job.result != TemporaryResult(job)
  }

  lemma {:induction false} EffectNamesDiffer(job: Job)
    ensures Effect(job) != TemporaryEffect(job)
  {
    assert Effect(job)[|Effect(job)| - 1] == 'n' && TemporaryEffect(job)[|TemporaryEffect(job)| - 1] == 'p';
  }

  lemma {:induction false} ResultNamesDiffer(job: Job)
    ensures TemporaryResult(job) != EFFECTS
  {
    assert TemporaryResult(job)[0] == '.' && EFFECTS[0] == 'e';
  }

  /** Where the script stands. Writing keeps how much of the file is out. */
  datatype Point =
    | Stopped
    | WritingEffect(written: nat)
    | EffectSynced
    | EffectReplaced
    | EffectDurable
    | WritingResult(at: int, count: nat)
    | ResultSynced(time: int)
    | ResultReplaced

  /** The operation directory, which lists the effects directory as an entry, and the effects directory. */
  datatype World = World(root: Directory, effects: Directory, point: Point)

  datatype Event =
    | Begin
    | WriteEffect(n: nat)
    | SyncEffect
    | ReplaceEffect
    | SyncEffects
    | OpenResult(time: int)
    | WriteResult(n: nat)
    | SyncResult
    | ReplaceResult
    | SyncRoot
    | Crash
    | PowerLoss(root: nat, effects: nat, garbage: map<string, Bytes>)

  function MakeEffects(d: Directory): Directory {
    if EFFECTS in Visible(d) then d else d + [Visible(d)[EFFECTS := File([], true)]]
  }

  /** The effect of one event; an event that is not possible now has none. */
  function Apply(job: Job, w: World, e: Event): World {
    match e
    case Begin =>
      if !w.point.Stopped? then w
      else World(MakeEffects(w.root), Create(w.effects, TemporaryEffect(job)), WritingEffect(0))
    case WriteEffect(n) =>
      if !(w.point.WritingEffect? && w.point.written + n <= |job.request|
          && TemporaryEffect(job) in Visible(w.effects)) then w
      else
        var from := w.point.written;
        w.(effects := Append(w.effects, TemporaryEffect(job), job.request[from..from + n]),
           point := WritingEffect(from + n))
    case SyncEffect =>
      if !(w.point == WritingEffect(|job.request|) && TemporaryEffect(job) in Visible(w.effects)) then w
      else w.(effects := SyncFile(w.effects, TemporaryEffect(job)), point := EffectSynced)
    case ReplaceEffect =>
      if !(w.point.EffectSynced? && TemporaryEffect(job) in Visible(w.effects)) then w
      else w.(effects := Rename(w.effects, TemporaryEffect(job), Effect(job)), point := EffectReplaced)
    case SyncEffects =>
      if !w.point.EffectReplaced? then w
      else w.(effects := SyncDirectory(w.effects), point := EffectDurable)
    case OpenResult(time) =>
      if !w.point.EffectDurable? then w
      else w.(root := Create(w.root, TemporaryResult(job)), point := WritingResult(time, 0))
    case WriteResult(n) =>
      if !(w.point.WritingResult? && w.point.count + n <= |job.document(w.point.at)|
          && TemporaryResult(job) in Visible(w.root)) then w
      else
        var from := w.point.count;
        w.(root := Append(w.root, TemporaryResult(job), job.document(w.point.at)[from..from + n]),
           point := WritingResult(w.point.at, from + n))
    case SyncResult =>
      if !(w.point.WritingResult? && w.point.count == |job.document(w.point.at)|
          && TemporaryResult(job) in Visible(w.root)) then w
      else w.(root := SyncFile(w.root, TemporaryResult(job)), point := ResultSynced(w.point.at))
    case ReplaceResult =>
      if !(w.point.ResultSynced? && TemporaryResult(job) in Visible(w.root)) then w
      else w.(root := Rename(w.root, TemporaryResult(job), job.result), point := ResultReplaced)
    case SyncRoot =>
      if !w.point.ResultReplaced? then w
      else w.(root := SyncDirectory(w.root), point := Stopped)
    case Crash => w.(point := Stopped)
    case PowerLoss(i, j, garbage) =>
      if |w.root| <= i || |w.effects| <= j then w
      else
        World(Recovered(w.root, i, garbage),
              if EFFECTS in w.root[i] then Recovered(w.effects, j, garbage) else [map[]], Stopped)
  }

  function Run(job: Job, w: World, events: seq<Event>): World {
    if events == [] then w else Apply(job, Run(job, w, events[..|events| - 1]), events[|events| - 1])
  }

  // -------------------------------------------------------------- the invariant

  ghost function IsRequest(job: Job): Bytes -> bool {
    (bytes: Bytes) => bytes == job.request
  }

  ghost predicate IsDocument(job: Job, bytes: Bytes) {
    exists time :: bytes == job.document(time)
  }

  ghost function IsResult(job: Job): Bytes -> bool {
    (bytes: Bytes) => IsDocument(job, bytes)
  }

  ghost predicate Everywhere(d: Directory, name: string) {
    forall i :: 0 <= i < |d| ==> name in d[i]
  }

  /** Some listing of the operation directory holds the result. */
  ghost predicate ResultPossible(job: Job, w: World) {
    exists i :: 0 <= i < |w.root| && job.result in w.root[i]
  }

  /** A listing with the result also lists the effects directory. */
  ghost predicate ResultsHaveEffects(job: Job, root: Directory) {
    forall i :: 0 <= i < |root| && job.result in root[i] ==> EFFECTS in root[i]
  }

  ghost predicate PointOk(job: Job, w: World) {
    match w.point
    case Stopped => true
    case WritingEffect(n) =>
      && EFFECTS in Visible(w.root)
      && TemporaryEffect(job) in Visible(w.effects) && n <= |job.request|
      && Visible(w.effects)[TemporaryEffect(job)].bytes == job.request[..n]
    case EffectSynced =>
      && EFFECTS in Visible(w.root)
      && TemporaryEffect(job) in Visible(w.effects)
      && Visible(w.effects)[TemporaryEffect(job)] == File(job.request, true)
    case EffectReplaced => EFFECTS in Visible(w.root) && Effect(job) in Visible(w.effects)
    case EffectDurable => EFFECTS in Visible(w.root) && Everywhere(w.effects, Effect(job))
    case WritingResult(time, n) =>
      && EFFECTS in Visible(w.root) && Everywhere(w.effects, Effect(job))
      && TemporaryResult(job) in Visible(w.root) && n <= |job.document(time)|
      && Visible(w.root)[TemporaryResult(job)].bytes == job.document(time)[..n]
    case ResultSynced(time) =>
      && EFFECTS in Visible(w.root) && Everywhere(w.effects, Effect(job))
      && TemporaryResult(job) in Visible(w.root)
      && Visible(w.root)[TemporaryResult(job)] == File(job.document(time), true)
    case ResultReplaced => EFFECTS in Visible(w.root) && Everywhere(w.effects, Effect(job))
  }

  /**
   * Neither final path is ever half-written, in any listing that could come back; and wherever the
   * result could be seen, the effect is there in every listing that could come back with it.
   */
  ghost predicate Inv(job: Job, w: World) {
    && Durably(w.effects, Effect(job), IsRequest(job))
    && Durably(w.root, job.result, IsResult(job))
    && ResultsHaveEffects(job, w.root)
    && (ResultPossible(job, w) ==> Everywhere(w.effects, Effect(job)))
    && PointOk(job, w)
  }

  lemma {:induction false} BeginKeeps(job: Job, w: World)
    requires Named(job) && Inv(job, w)
    ensures Inv(job, Apply(job, w, Begin))
  {
    EffectNamesDiffer(job);
    if w.point.Stopped? {
      CreateKeeps(w.effects, TemporaryEffect(job), Effect(job), IsRequest(job));
    }
  }

  lemma {:induction false} WriteEffectKeeps(job: Job, w: World, n: nat)
    requires Named(job) && Inv(job, w)
    ensures Inv(job, Apply(job, w, WriteEffect(n)))
  {
    EffectNamesDiffer(job);
    if w.point.WritingEffect? && w.point.written + n <= |job.request| {
      var from := w.point.written;
      AppendKeeps(w.effects, TemporaryEffect(job), job.request[from..from + n], Effect(job), IsRequest(job));
      assert job.request[..from] + job.request[from..from + n] == job.request[..from + n];
    }
  }

  lemma {:induction false} FinishEffectKeeps(job: Job, w: World, e: Event)
    requires Named(job) && Inv(job, w) && (e.SyncEffect? || e.ReplaceEffect? || e.SyncEffects?)
    ensures Inv(job, Apply(job, w, e))
  {
    EffectNamesDiffer(job);
    if e.SyncEffect? && w.point == WritingEffect(|job.request|) {
      AppendKeeps(w.effects, TemporaryEffect(job), [], Effect(job), IsRequest(job));
      assert job.request[..|job.request|] == job.request;
    } else if e.ReplaceEffect? && w.point.EffectSynced? {
      RenameInstalls(w.effects, TemporaryEffect(job), Effect(job), IsRequest(job));
    }
  }

  lemma {:induction false} WriteResultKeeps(job: Job, w: World, e: Event)
    requires Named(job) && Inv(job, w) && (e.OpenResult? || e.WriteResult? || e.SyncResult?)
    ensures Inv(job, Apply(job, w, e))
  {
    ResultNamesDiffer(job);
    if e.OpenResult? && w.point.EffectDurable? {
      CreateKeeps(w.root, TemporaryResult(job), job.result, IsResult(job));
    } else if w.point.WritingResult? {
      var document := job.document(w.point.at);
      var from := w.point.count;
      if e.WriteResult? && from + e.n <= |document| {
        AppendKeeps(w.root, TemporaryResult(job), document[from..from + e.n], job.result, IsResult(job));
        assert document[..from] + document[from..from + e.n] == document[..from + e.n];
      } else if e.SyncResult? && from == |document| {
        AppendKeeps(w.root, TemporaryResult(job), [], job.result, IsResult(job));
        assert document[..|document|] == document;
      }
    }
  }

  lemma {:induction false} PublishResultKeeps(job: Job, w: World, e: Event)
    requires Named(job) && Inv(job, w) && (e.ReplaceResult? || e.SyncRoot?)
    ensures Inv(job, Apply(job, w, e))
  {
    ResultNamesDiffer(job);
    if e.ReplaceResult? && w.point.ResultSynced? {
      assert IsDocument(job, job.document(w.point.time));
      RenameInstalls(w.root, TemporaryResult(job), job.result, IsResult(job));
    }
  }

  lemma {:induction false} InterruptionKeeps(job: Job, w: World, e: Event)
    requires Named(job) && Inv(job, w) && (e.Crash? || e.PowerLoss?)
    ensures Inv(job, Apply(job, w, e))
  {
    if e.PowerLoss? && e.root < |w.root| && e.effects < |w.effects| {
      RecoveredKeeps(w.root, e.root, e.garbage, job.result, IsResult(job));
      RecoveredKeeps(w.effects, e.effects, e.garbage, Effect(job), IsRequest(job));
    }
  }

  lemma {:induction false} RunKeeps(job: Job, w: World, events: seq<Event>)
    requires Named(job) && Inv(job, w)
    ensures Inv(job, Run(job, w, events))
  {
    if events != [] {
      var front := events[..|events| - 1];
      RunKeeps(job, w, front);
      var w' := Run(job, w, front);
      match events[|events| - 1]
      case Begin => BeginKeeps(job, w');
      case WriteEffect(n) => WriteEffectKeeps(job, w', n);
      case SyncEffect => FinishEffectKeeps(job, w', SyncEffect);
      case ReplaceEffect => FinishEffectKeeps(job, w', ReplaceEffect);
      case SyncEffects => FinishEffectKeeps(job, w', SyncEffects);
      case OpenResult(time) => WriteResultKeeps(job, w', OpenResult(time));
      case WriteResult(n) => WriteResultKeeps(job, w', WriteResult(n));
      case SyncResult => WriteResultKeeps(job, w', SyncResult);
      case ReplaceResult => PublishResultKeeps(job, w', ReplaceResult);
      case SyncRoot => PublishResultKeeps(job, w', SyncRoot);
      case Crash => InterruptionKeeps(job, w', Crash);
      case PowerLoss(i, j, garbage) => InterruptionKeeps(job, w', PowerLoss(i, j, garbage));
    }
  }

  /** Before the first run: no listing holds the effect or the result. */
  ghost predicate Untouched(job: Job, w: World) {
    && w.point.Stopped?
    && (forall i :: 0 <= i < |w.root| ==> job.result !in w.root[i])
    && (forall i :: 0 <= i < |w.effects| ==> Effect(job) !in w.effects[i])
  }

  /**
   * After any sequence of runs, reruns, crashes and power losses: a visible result is a complete
   * document and stands beside a complete effect with exactly the request bytes; a visible effect is
   * never anything else.
   */
  lemma {:induction false} ResultImpliesEffect(job: Job, w: World, events: seq<Event>)
    requires Named(job) && Untouched(job, w)
    ensures var w' := Run(job, w, events);
            && (job.result in Visible(w'.root) ==>
                  && IsDocument(job, Visible(w'.root)[job.result].bytes)
                  && EFFECTS in Visible(w'.root)
                  && Effect(job) in Visible(w'.effects))
            && (Effect(job) in Visible(w'.effects) ==> Visible(w'.effects)[Effect(job)] == File(job.request, true))
  {
    RunKeeps(job, w, events);
    var w' := Run(job, w, events);
    assert job.result in Visible(w'.root) ==> IsResult(job)(Visible(w'.root)[job.result].bytes);
    assert Effect(job) in Visible(w'.effects) ==> IsRequest(job)(Visible(w'.effects)[Effect(job)].bytes);
  }

  // --------------------------------------------------------- how long an effect lasts

  ghost predicate PowerStaysOn(events: seq<Event>) {
    forall i :: 0 <= i < |events| ==> !events[i].PowerLoss?
  }

  lemma {:induction false} StepKeepsVisible(job: Job, w: World, e: Event)
    requires Effect(job) in Visible(w.effects) && !e.PowerLoss?
    ensures Effect(job) in Visible(Apply(job, w, e).effects)
  {
    EffectNamesDiffer(job);
  }

  /** From the moment it can be seen, reruns and crashes at any point leave the effect as it is. */
  lemma {:induction false} VisibleEffectStays(job: Job, w: World, events: seq<Event>)
    requires Named(job) && Inv(job, w) && Effect(job) in Visible(w.effects) && PowerStaysOn(events)
    ensures Effect(job) in Visible(Run(job, w, events).effects)
    ensures Visible(Run(job, w, events).effects)[Effect(job)] == File(job.request, true)
  {
    RunKeeps(job, w, events);
    if events != [] {
      var front := events[..|events| - 1];
      VisibleEffectStays(job, w, front);
      StepKeepsVisible(job, Run(job, w, front), events[|events| - 1]);
    }
    assert IsRequest(job)(Visible(Run(job, w, events).effects)[Effect(job)].bytes);
  }

  /** Every listing that could come back holds the effect, and lists its directory. */
  ghost predicate Settled(job: Job, w: World) {
    Everywhere(w.effects, Effect(job)) && Everywhere(w.root, EFFECTS)
  }

  lemma {:induction false} RootKeepsEffects(job: Job, w: World, e: Event)
    requires Named(job) && Everywhere(w.root, EFFECTS)
    ensures Everywhere(Apply(job, w, e).root, EFFECTS)
  {
    ResultNamesDiffer(job);
  }

  lemma {:induction false} EffectsKeepEffect(job: Job, w: World, e: Event)
    requires Everywhere(w.effects, Effect(job)) && (e.PowerLoss? ==> Everywhere(w.root, EFFECTS))
    ensures Everywhere(Apply(job, w, e).effects, Effect(job))
  {
    EffectNamesDiffer(job);
  }

  /** Then power losses leave it as it is, too. */
  lemma {:induction false} EffectStays(job: Job, w: World, events: seq<Event>)
    requires Named(job) && Inv(job, w) && Settled(job, w)
    ensures Settled(job, Run(job, w, events))
    ensures Visible(Run(job, w, events).effects)[Effect(job)] == File(job.request, true)
  {
    RunKeeps(job, w, events);
    if events != [] {
      var front := events[..|events| - 1];
      EffectStays(job, w, front);
      RootKeepsEffects(job, Run(job, w, front), events[|events| - 1]);
      EffectsKeepEffect(job, Run(job, w, front), events[|events| - 1]);
    }
    assert IsRequest(job)(Visible(Run(job, w, events).effects)[Effect(job)].bytes);
  }

  /** The last step of a run settles the effect, whatever came before it: nothing afterwards takes it away. */
  lemma {:induction false} FinishedRunSettles(job: Job, w: World, before: seq<Event>, events: seq<Event>)
    requires Named(job) && Inv(job, w) && Run(job, w, before).point.ResultReplaced?
    ensures Settled(job, Run(job, w, before + [SyncRoot] + events))
    ensures Visible(Run(job, w, before + [SyncRoot] + events).effects)[Effect(job)] == File(job.request, true)
  {
    var w', w'' := Run(job, w, before), Run(job, w, before + [SyncRoot]);
    assert Inv(job, w') by { RunKeeps(job, w, before); }
    assert w'' == Apply(job, w', SyncRoot) by { RunStep(job, w, before, SyncRoot); }
    SyncSettles(job, w');
    assert Run(job, w, before + [SyncRoot] + events) == Run(job, w'', events) by {
      RunConcat(job, w, before + [SyncRoot], events);
    }
    EffectStays(job, w'', events);
  }

  lemma {:induction false} SyncSettles(job: Job, w: World)
    requires Named(job) && Inv(job, w) && w.point.ResultReplaced?
    ensures Settled(job, Apply(job, w, SyncRoot)) && Inv(job, Apply(job, w, SyncRoot))
  {
    PublishResultKeeps(job, w, SyncRoot);
  }

  /** Whatever happens from here on, power losses included, the effect can be seen. */
  ghost predicate Outlasts(job: Job, w: World) {
    forall events :: Effect(job) in Visible(Run(job, w, events).effects)
  }

  lemma {:induction false} OneEvent(job: Job, w: World, e: Event)
    ensures Run(job, w, [e]) == Apply(job, w, e)
  {
    assert [] + [e] == [e];
    RunStep(job, w, [], e);
  }

  /** Being settled is exactly what it takes. */
  lemma {:induction false} OutlastsIffSettled(job: Job, w: World)
    requires Named(job) && Inv(job, w)
    ensures Outlasts(job, w) <==> Settled(job, w)
  {
    if Settled(job, w) {
      forall events ensures Effect(job) in Visible(Run(job, w, events).effects) {
        EffectStays(job, w, events);
      }
    } else if i :| 0 <= i < |w.root| && EFFECTS !in w.root[i] {
      OneEvent(job, w, PowerLoss(i, 0, map[]));
      assert Effect(job) !in Visible(Run(job, w, [PowerLoss(i, 0, map[])]).effects);
    } else {
      var j :| 0 <= j < |w.effects| && Effect(job) !in w.effects[j];
      OneEvent(job, w, PowerLoss(0, j, map[]));
      assert Effect(job) !in Visible(Run(job, w, [PowerLoss(0, j, map[])]).effects);
    }
  }

  /** One power loss takes a durable effect along exactly when it brings back a listing without its directory. */
  lemma {:induction false} EffectSurvivesIff(job: Job, w: World, i: nat, j: nat, garbage: map<string, Bytes>)
    requires Everywhere(w.effects, Effect(job)) && i < |w.root| && j < |w.effects|
    ensures Effect(job) in Visible(Apply(job, w, PowerLoss(i, j, garbage)).effects) <==> EFFECTS in w.root[i]
  {
  }

  /** The steps of the first half of a run. */
  lemma {:induction false} EffectSteps(job: Job, w: World) returns (events: seq<Event>)
    requires w.point.Stopped?
    ensures var w' := Run(job, w, events);
            && PowerStaysOn(events) && w'.point.EffectDurable? && w'.root == MakeEffects(w.root)
            && |w'.effects| == 1 && Effect(job) in Visible(w'.effects)
            && Visible(w'.effects)[Effect(job)] == File(job.request, true)
  {
    EffectNamesDiffer(job);
    var n := |job.request|;
    OneEvent(job, w, Begin);
    events := [Begin];
    RunStep(job, w, events, WriteEffect(n));
    events := events + [WriteEffect(n)];
    assert [] + job.request[0..0 + n] == job.request;
    assert Visible(Run(job, w, events).effects)[TemporaryEffect(job)].bytes == job.request;
    RunStep(job, w, events, SyncEffect);
    events := events + [SyncEffect];
    RunStep(job, w, events, ReplaceEffect);
    events := events + [ReplaceEffect];
    RunStep(job, w, events, SyncEffects);
    events := events + [SyncEffects];
  }

  /**
   * The script syncs the effects directory but not yet the directory that lists it. So from every stop whose
   * operation directory could come back without that entry, there is a run in which the effect is complete and in
   * every listing of the effects directory, and a power loss takes it away.
   */
  lemma {:induction false} DurableEffectCanBeLost(job: Job, w: World, i: nat) returns (events: seq<Event>)
    requires w.point.Stopped? && i < |w.root| && EFFECTS !in w.root[i]
    ensures PowerStaysOn(events) && Run(job, w, events).point.EffectDurable?
    ensures Everywhere(Run(job, w, events).effects, Effect(job))
    ensures Visible(Run(job, w, events).effects)[Effect(job)] == File(job.request, true)
    ensures forall garbage :: Effect(job) !in Visible(Run(job, w, events + [PowerLoss(i, 0, garbage)]).effects)
  {
    events := EffectSteps(job, w);
    var w' := Run(job, w, events);
    assert w'.root[i] == w.root[i];
    forall garbage ensures Effect(job) !in Visible(Run(job, w, events + [PowerLoss(i, 0, garbage)]).effects) {
      RunStep(job, w, events, PowerLoss(i, 0, garbage));
      EffectSurvivesIff(job, w', i, 0, garbage);
    }
  }

  // --------------------------------------------------------------- the script

  lemma {:induction false} RunStep(job: Job, w: World, events: seq<Event>, e: Event)
    ensures Run(job, w, events + [e]) == Apply(job, Run(job, w, events), e)
  {
  }

  lemma {:induction false} RunConcat(job: Job, w: World, a: seq<Event>, b: seq<Event>)
    ensures Run(job, w, a + b) == Run(job, Run(job, w, a), b)
    decreases |b|
  {
    if b == [] {
      assert a + b == a;
    } else {
      assert (a + b)[..|a + b| - 1] == a + b[..|b| - 1];
      RunConcat(job, w, a, b[..|b| - 1]);
    }
  }

  /** A listing in which `name` holds the file and no `temporary` is left. */
  function Published(v: Listing, temporary: string, name: string, file: File): Listing {
    (v - {temporary})[name := file]
  }

  lemma {:induction false} PublishStaged(v: Listing, temporary: string, name: string, file: File)
    ensures Published(v[temporary := file], temporary, name, file) == Published(v, temporary, name, file)
  {
  }

  /** The request goes into a synced temporary file. */
  method StageEffect(job: Job, root: Directory, effects: Directory)
    returns (root': Directory, effects': Directory, ghost events: seq<Event>)
    ensures World(root', effects', EffectSynced) == Run(job, World(root, effects, Stopped), events)
    ensures root' == MakeEffects(root)
    ensures Visible(effects') == Visible(effects)[TemporaryEffect(job) := File(job.request, true)]
  {
    ghost var start := World(root, effects, Stopped);
    var temporary := TemporaryEffect(job);
    root', effects', events := MakeEffects(root), Create(effects, temporary), [Begin];
    assert World(root', effects', WritingEffect(0)) == Run(job, start, events);
    assert job.request[0..0 + |job.request|] == job.request && [] + job.request == job.request;
    RunStep(job, start, events, WriteEffect(|job.request|));
    effects', events := Append(effects', temporary, job.request), events + [WriteEffect(|job.request|)];
    assert World(root', effects', WritingEffect(|job.request|)) == Run(job, start, events);
    RunStep(job, start, events, SyncEffect);
    effects', events := SyncFile(effects', temporary), events + [SyncEffect];
  }

  /** The temporary file becomes the effect, and the effects directory is synced. */
  method InstallEffect(job: Job, root: Directory, effects: Directory)
    returns (effects': Directory, ghost events: seq<Event>)
    requires TemporaryEffect(job) in Visible(effects)
             && Visible(effects)[TemporaryEffect(job)] == File(job.request, true)
    ensures World(root, effects', EffectDurable) == Run(job, World(root, effects, EffectSynced), events)
    ensures effects' == [Published(Visible(effects), TemporaryEffect(job), Effect(job), File(job.request, true))]
  {
    ghost var start := World(root, effects, EffectSynced);
    EffectNamesDiffer(job);
    effects', events := Rename(effects, TemporaryEffect(job), Effect(job)), [ReplaceEffect];
    assert World(root, effects', EffectReplaced) == Run(job, start, events);
    RunStep(job, start, events, SyncEffects);
    effects', events := SyncDirectory(effects'), events + [SyncEffects];
  }

  /** The first half of `main`: the request becomes the effect, and the effects directory is synced. */
  method PublishEffect(job: Job, root: Directory, effects: Directory)
    returns (root': Directory, effects': Directory, ghost events: seq<Event>)
    ensures World(root', effects', EffectDurable) == Run(job, World(root, effects, Stopped), events)
    ensures root' == MakeEffects(root)
    ensures effects' == [Published(Visible(effects), TemporaryEffect(job), Effect(job), File(job.request, true))]
  {
    ghost var staging, installing;
    root', effects', staging := StageEffect(job, root, effects);
    effects', installing := InstallEffect(job, root', effects');
    PublishStaged(Visible(effects), TemporaryEffect(job), Effect(job), File(job.request, true));
    RunConcat(job, World(root, effects, Stopped), staging, installing);
    events := staging + installing;
  }

  /** The document goes into a synced temporary file. */
  method StageResult(job: Job, root: Directory, effects: Directory, time: int)
    returns (root': Directory, ghost events: seq<Event>)
    ensures World(root', effects, ResultSynced(time)) == Run(job, World(root, effects, EffectDurable), events)
    ensures Visible(root') == Visible(root)[TemporaryResult(job) := File(job.document(time), true)]
  {
    ghost var start := World(root, effects, EffectDurable);
    var temporary, document := TemporaryResult(job), job.document(time);
    root', events := Create(root, temporary), [OpenResult(time)];
    assert World(root', effects, WritingResult(time, 0)) == Run(job, start, events);
    assert document[0..0 + |document|] == document && [] + document == document;
    RunStep(job, start, events, WriteResult(|document|));
    root', events := Append(root', temporary, document), events + [WriteResult(|document|)];
    assert World(root', effects, WritingResult(time, |document|)) == Run(job, start, events);
    RunStep(job, start, events, SyncResult);
    root', events := SyncFile(root', temporary), events + [SyncResult];
  }

  /** The temporary file becomes the result, and the operation directory is synced. */
  method InstallResult(job: Job, root: Directory, effects: Directory, time: int)
    returns (root': Directory, ghost events: seq<Event>)
    requires Named(job)
    requires TemporaryResult(job) in Visible(root)
             && Visible(root)[TemporaryResult(job)] == File(job.document(time), true)
    ensures World(root', effects, Stopped) == Run(job, World(root, effects, ResultSynced(time)), events)
    ensures root' == [Published(Visible(root), TemporaryResult(job), job.result, File(job.document(time), true))]
  {
    ghost var start := World(root, effects, ResultSynced(time));
    root', events := Rename(root, TemporaryResult(job), job.result), [ReplaceResult];
    assert World(root', effects, ResultReplaced) == Run(job, start, events);
    RunStep(job, start, events, SyncRoot);
    root', events := SyncDirectory(root'), events + [SyncRoot];
  }

  /** The second half: the document becomes the result, and the operation directory is synced. */
  method PublishResult(job: Job, root: Directory, effects: Directory, time: int)
    returns (root': Directory, ghost events: seq<Event>)
    requires Named(job)
    ensures World(root', effects, Stopped) == Run(job, World(root, effects, EffectDurable), events)
    ensures root' == [Published(Visible(root), TemporaryResult(job), job.result, File(job.document(time), true))]
  {
    ghost var staging, installing;
    root', staging := StageResult(job, root, effects, time);
    root', installing := InstallResult(job, root', effects, time);
    PublishStaged(Visible(root), TemporaryResult(job), job.result, File(job.document(time), true));
    RunConcat(job, World(root, effects, EffectDurable), staging, installing);
    events := staging + installing;
  }

  /**
   * `main`, uninterrupted: a run of the steps that leaves both files durable under their final names, no
   * temporary file, every other file as it was, and the effect settled.
   */
  method Work(job: Job, root: Directory, effects: Directory, time: int)
    returns (root': Directory, effects': Directory, ghost events: seq<Event>)
    requires Named(job)
    ensures World(root', effects', Stopped) == Run(job, World(root, effects, Stopped), events)
    ensures root' ==
              [Published(Visible(MakeEffects(root)), TemporaryResult(job), job.result, File(job.document(time), true))]
    ensures effects' == [Published(Visible(effects), TemporaryEffect(job), Effect(job), File(job.request, true))]
    ensures Settled(job, World(root', effects', Stopped))
    ensures Inv(job, World(root, effects, Stopped)) ==> Inv(job, World(root', effects', Stopped))
  {
    ResultNamesDiffer(job);
    ghost var first, second;
    root', effects', first := PublishEffect(job, root, effects);
    root', second := PublishResult(job, root', effects', time);
    RunConcat(job, World(root, effects, Stopped), first, second);
    events := first + second;
    if Inv(job, World(root, effects, Stopped)) {
      RunKeeps(job, World(root, effects, Stopped), events);
    }
  }
}
