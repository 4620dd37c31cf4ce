/** Epoch isolation: the worker commits batches while a reset changes the epoch and wipes
    the store at any moment between its steps. */
module Epoch {
  import opened Lists
  import opened Options

  /** A batch that went into the pipeline: the epoch value it was begun under, and how many
      times the worker had adopted a value by then. */
  datatype Commit = Commit(batch: nat, value: Option<string>, generation: nat)

  /** Where the worker is in a batch, or in the reset it does before or after one. */
  datatype Phase =
    | Idle
    | Ready(batch: nat, value: Option<string>)
    | Dirty(value: Option<string>)
    | Projected(value: Option<string>)
    | Checking(value: Option<string>)
    | Wiping(target: Option<string>, resume: Option<nat>)
    | Renewing(target: Option<string>, resume: Option<nat>)
    | Loading(target: Option<string>, resume: Option<nat>)

  /** epoch: the shared key; disk: what the durable pipeline state derives from; clean: the
      projections are those of an empty pipeline. */
  datatype World = World(
    epoch: Option<string>,
    disk: Option<seq<Commit>>,
    clean: bool,
    memory: seq<Commit>,
    adopted: Option<string>,
    generation: nat,
    phase: Phase)

  datatype Action =
    | SetEpoch(value: Option<string>)
    | WipeStore
    | Begin(batch: nat)
    | Process(news: bool)
    | Project
    | Persist
    | Check
    | Wipe
    | Renew
    | Load
    | Raise

  predicate Enabled(w: World, a: Action) {
    match a
    case SetEpoch(_) => true
    case WipeStore => true
    case Begin(_) => w.phase.Idle?
    case Process(_) => w.phase.Ready?
    case Project => w.phase.Dirty?
    case Persist => w.phase.Projected?
    case Check => w.phase.Checking?
    case Wipe => w.phase.Wiping?
    case Renew => w.phase.Renewing?
    case Load => w.phase.Loading?
    case Raise => !w.phase.Idle?
  }

  /** SetEpoch and WipeStore are the reset's; all other steps are the worker's.  Raise is
      a failure anywhere in a batch, after which the same worker goes on. */
  function Step(w: World, a: Action): World
    requires Enabled(w, a)
  {
    match a
    case SetEpoch(value) => w.(epoch := value)
    case WipeStore => w.(disk := None, clean := true)
    case Begin(batch) =>
      w.(phase := if w.epoch != w.adopted then Wiping(w.epoch, Some(batch)) else Ready(batch, w.epoch))
    case Process(news) =>
      var value := w.phase.value;
      if news then w.(memory := w.memory + [Commit(w.phase.batch, value, w.generation)], phase := Dirty(value))
      else w.(phase := Checking(value))
    case Project => w.(clean := false, phase := Projected(w.phase.value))
    case Persist => w.(disk := Some(w.memory), phase := Checking(w.phase.value))
    case Check => w.(phase := if w.epoch != w.phase.value then Wiping(w.epoch, None) else Idle)
    case Wipe => w.(disk := None, clean := true, phase := Renewing(w.phase.target, w.phase.resume))
    case Renew => w.(memory := [], phase := Loading(w.phase.target, w.phase.resume))
    case Load =>
      w.(memory := if w.disk.Some? then w.disk.value else w.memory,
         adopted := w.phase.target,
         generation := w.generation + 1,
         phase := if w.phase.resume.Some? then Ready(w.phase.resume.value, w.phase.target) else Idle)
    case Raise => w.(phase := Idle)
  }

  /** A worker that just started: whatever it restored counts as its first generation. */
  predicate Started(w: World) {
    && w.phase.Idle? && w.generation == 0
    && (forall c :: c in w.memory ==> c.generation == 0)
    && (w.disk.Some? ==> w.disk.value == w.memory)
  }

  predicate Possible(w: World, run: seq<Action>)
    decreases |run|, 0
  {
    run == [] || (Possible(w, Front(run)) && Enabled(After(w, Front(run)), Last(run)))
  }

  function After(w: World, run: seq<Action>): World
    requires Possible(w, run)
    decreases |run|, 1
  {
    if run == [] then w else Step(After(w, Front(run)), Last(run))
  }

  // ---- isolation ----------------------------------------------------------------

  /** Committed since the worker adopted its current value, and, but for what the worker
      started with, under that value. */
  predicate Own(w: World, c: Commit) {
    c.generation == w.generation && (w.generation > 0 ==> c.value == w.adopted)
  }

  predicate AllOwn(w: World, cs: seq<Commit>) {
    forall c :: c in cs ==> Own(w, c)
  }

  /** Memory and disk derive from the worker's own commits only. */
  predicate Isolated(w: World) {
    AllOwn(w, w.memory) && (w.disk.Some? ==> AllOwn(w, w.disk.value))
  }

  predicate PhaseFits(w: World) {
    match w.phase
    case Ready(_, value) => value == w.adopted
    case Renewing(_, _) => w.disk.None? && w.clean
    case Loading(_, _) => w.disk.None? && w.clean && w.memory == []
    case _ => true
  }

  predicate Invariant(w: World) { Isolated(w) && PhaseFits(w) }

  lemma OwnAfter(w: World, w': World, cs: seq<Commit>)
    requires AllOwn(w, cs) && w'.generation == w.generation && w'.adopted == w.adopted
    ensures AllOwn(w', cs)
  {
    forall c | c in cs ensures Own(w', c) {
      assert Own(w, c);
    }
  }

  lemma StepKeeps(w: World, a: Action)
    requires Invariant(w) && Enabled(w, a)
    ensures Invariant(Step(w, a))
  {
    var w' := Step(w, a);
    if a.Load? {
      assert w'.memory == [];
    } else {
      OwnAfter(w, w', w.memory);
      if w.disk.Some? {
        OwnAfter(w, w', w.disk.value);
      }
    }
  }

  /** Under any interleaving of reset steps and failures with the worker, memory and
      durable state derive only from batches committed since the worker adopted its
      current epoch value: at every return of a batch, and in fact at every moment. */
  lemma {:induction false} AlwaysIsolated(w: World, run: seq<Action>)
    requires Started(w) && Possible(w, run)
    ensures Invariant(After(w, run))
    decreases |run|
  {
    if run != [] {
      AlwaysIsolated(w, Front(run));
      StepKeeps(After(w, Front(run)), Last(run));
    }
  }

  /** A batch during which nothing else happens, under the value adopted, is kept: in memory and
      durably, after what was in memory. */
  lemma BatchKept(w: World, batch: nat)
    requires w.phase.Idle? && w.epoch == w.adopted
    ensures Enabled(w, Begin(batch))
    ensures var w1 := Step(w, Begin(batch));
      Enabled(w1, Process(true)) &&
      var w2 := Step(w1, Process(true));
      Enabled(w2, Project) &&
      var w3 := Step(w2, Project);
      Enabled(w3, Persist) &&
      var w4 := Step(w3, Persist);
      Enabled(w4, Check) &&
      var kept := w.memory + [Commit(batch, w.epoch, w.generation)];
      Step(w4, Check) == w.(memory := kept, disk := Some(kept), clean := false)
  {
  }

  // ---- a change seen after the batch --------------------------------------------

  predicate External(a: Action) { a.SetEpoch? || a.WipeStore? }

  /** The worker is undoing a batch during which the epoch changed. */
  predicate Undoing(w: World) {
    (w.phase.Wiping? || w.phase.Renewing? || w.phase.Loading?) && w.phase.resume.None?
  }

  /** Nothing of any batch is left: an empty pipeline, no durable state, and the clean
      projections. */
  predicate Pristine(w: World) {
    w.memory == [] && w.disk.None? && w.clean
  }

  /** How many of its own steps the worker still needs. */
  function Left(phase: Phase): nat {
    match phase
    case Wiping(_, _) => 3
    case Renewing(_, _) => 2
    case Loading(_, _) => 1
    case _ => 0
  }

  /** How many steps of the run are the worker's. */
  function WorkerSteps(run: seq<Action>): (n: nat)
    ensures n <= |run|
  {
    if run == [] then 0 else WorkerSteps(Front(run)) + if External(Last(run)) then 0 else 1
  }

  /** No failure, and no further batch. */
  predicate Undisturbed(run: seq<Action>) {
    forall i :: 0 <= i < |run| ==> !run[i].Raise? && !run[i].Begin?
  }

  /** A batch whose last check sees another epoch is undone: whatever steps of a reset come
      between, the worker returns after exactly three more of its own, and then nothing of
      any batch is left, in the pipeline, in the store and in the projections, and the value
      seen by the check is adopted. */
  lemma ChangeSeenIsUndone(w: World, run: seq<Action>)
    requires Invariant(w) && w.phase.Checking? && w.epoch != w.phase.value
    requires Possible(Step(w, Check), run) && Undisturbed(run)
    ensures var v := After(Step(w, Check), run);
      && (v.phase.Idle? <==> WorkerSteps(run) == 3)
      && (v.phase.Idle? ==> Pristine(v) && v.adopted == w.epoch)
  {
    StepKeeps(w, Check);
    UndoingRuns(Step(w, Check), run);
  }

  lemma {:induction false} UndoingRuns(w: World, run: seq<Action>)
    requires Invariant(w) && Undoing(w) && Possible(w, run) && Undisturbed(run)
    ensures Invariant(After(w, run)) && WorkerSteps(run) <= Left(w.phase)
    ensures var v := After(w, run);
      if WorkerSteps(run) == Left(w.phase) then v.phase.Idle? && Pristine(v) && v.adopted == w.phase.target
      else Undoing(v) && v.phase.target == w.phase.target && Left(v.phase) == Left(w.phase) - WorkerSteps(run)
    decreases |run|
  {
    if run != [] {
      UndoingRuns(w, Front(run));
      StepKeeps(After(w, Front(run)), Last(run));
    }
  }

  // ---- restarts -----------------------------------------------------------------

  /** What a new worker restores counts as its first generation. */
  function Restored(cs: seq<Commit>): seq<Commit> {
    seq(|cs|, i requires 0 <= i < |cs| => cs[i].(generation := 0))
  }

  /** A new worker restores what the store holds and adopts the value in force, setting
      one where there is none. */
  function Restart(w: World, newValue: string): World {
    var epoch := if w.epoch.Some? then w.epoch else Some(newValue);
    var disk := if w.disk.Some? then Some(Restored(w.disk.value)) else None;
    World(epoch, disk, w.clean, if disk.Some? then disk.value else [], epoch, 0, Idle)
  }

  predicate OneValue(w: World) {
    forall c :: c in w.memory ==> c.value == w.adopted
  }

  predicate AllOf(cs: seq<Commit>, value: Option<string>) {
    forall c :: c in cs ==> c.value == value
  }

  /** cs begins with what the worker restored when it started, and what it added is
      committed under its value. */
  predicate Extends(cs: seq<Commit>, restored: seq<Commit>, value: Option<string>) {
    restored <= cs && AllOf(cs[|restored|..], value)
  }

  predicate Inherited(cs: seq<Commit>, restored: seq<Commit>, value: Option<string>) {
    Extends(cs, restored, value) || AllOf(cs, value)
  }

  ghost predicate FirstLife(w: World, restored: seq<Commit>, value: Option<string>) {
    w.generation == 0 ==>
      && w.adopted == value
      && (w.disk.Some? ==> Inherited(w.disk.value, restored, value))
      && Inherited(w.memory, restored, value)
  }

  /** Until the first reset is complete the memory and the disk extend what the worker
      restored, or have nothing of it left. */
  lemma {:induction false} FirstGeneration(w: World, run: seq<Action>)
    requires Started(w) && Possible(w, run)
    ensures FirstLife(After(w, run), w.memory, w.adopted)
    decreases |run|
  {
    if run != [] {
      FirstGeneration(w, Front(run));
      AlwaysIsolated(w, Front(run));
      FirstLifeStep(After(w, Front(run)), Last(run), w.memory, w.adopted);
    }
  }

  lemma FirstLifeStep(w: World, a: Action, restored: seq<Commit>, value: Option<string>)
    requires Invariant(w) && FirstLife(w, restored, value) && Enabled(w, a)
    ensures FirstLife(Step(w, a), restored, value)
  {
    if a.Process? && a.news && w.generation == 0 {
      InheritedSnoc(w.memory, restored, value, Commit(w.phase.batch, w.phase.value, w.generation));
    }
  }

  lemma InheritedSnoc(cs: seq<Commit>, restored: seq<Commit>, value: Option<string>, c: Commit)
    requires Inherited(cs, restored, value) && c.value == value
    ensures Inherited(cs + [c], restored, value)
  {
    if restored <= cs {
      assert (cs + [c])[|restored|..] == cs[|restored|..] + [c];
    }
  }

  lemma InheritedAllOf(cs: seq<Commit>, restored: seq<Commit>, value: Option<string>, other: Option<string>)
    requires Inherited(cs, restored, value)
    ensures AllOf(cs, other) <==>
      if restored <= cs then AllOf(restored, other) && (|cs| == |restored| || value == other)
      else cs == [] || value == other
  {
    if restored <= cs {
      var added := cs[|restored|..];
      assert cs == restored + added;
      assert forall c :: c in cs <==> c in restored || c in added;
      assert AllOf(added, value);
      assert AllOf(cs, other) <==> AllOf(restored, other) && AllOf(added, other);
      assert added != [] ==> added[0] in added;
    } else {
      assert cs != [] ==> cs[0] in cs;
    }
  }

  lemma RestoredAllOf(cs: seq<Commit>, value: Option<string>)
    ensures AllOf(Restored(cs), value) <==> AllOf(cs, value)
  {
    if AllOf(Restored(cs), value) {
      forall c | c in cs ensures c.value == value {
        var i :| 0 <= i < |cs| && cs[i] == c;
        assert Restored(cs)[i] in Restored(cs);
      }
    }
  }

  /** The store holds no commits. */
  predicate DiskEmpty(w: World) { w.disk.None? || w.disk.value == [] }

  /** It does not compare the two.  Once the worker has gone through a reset, what the next
      one restores belongs to the value that one adopts exactly when the store is empty or
      the value in force is still the one the old worker had adopted.  Before that, as long
      as the store still begins with what the old worker itself had restored, that must
      belong to it as well, and the values need only agree when the old worker added to it. */
  lemma RestartIsolatedIff(start: World, run: seq<Action>, newValue: string)
    requires Started(start) && Possible(start, run)
    ensures var w := After(start, run);
      var r := Restart(w, newValue);
      OneValue(r) <==>
        if w.generation == 0 && w.disk.Some? && start.memory <= w.disk.value
        then AllOf(start.memory, r.epoch) && (|w.disk.value| == |start.memory| || r.epoch == w.adopted)
        else DiskEmpty(w) || r.epoch == w.adopted
  {
    var w := After(start, run);
    var r := Restart(w, newValue);
    AlwaysIsolated(start, run);
    FirstGeneration(start, run);
    if w.disk.Some? {
      RestoredAllOf(w.disk.value, r.epoch);
      assert OneValue(r) <==> AllOf(w.disk.value, r.epoch);
      if w.generation == 0 {
        InheritedAllOf(w.disk.value, start.memory, w.adopted, r.epoch);
      } else if w.disk.value != [] {
        assert Own(w, w.disk.value[0]);
      }
    }
  }

  /** Over one life after another: a worker that started with a state of its own value
      leaves the next one such a state exactly when the store is empty or the value in
      force is still its own. */
  lemma RestartKeepsOneValueIff(start: World, run: seq<Action>, newValue: string)
    requires Started(start) && OneValue(start) && Possible(start, run)
    ensures var w := After(start, run); var r := Restart(w, newValue);
      Started(r) && (OneValue(r) <==> DiskEmpty(w) || r.epoch == w.adopted)
  {
    var w := After(start, run);
    RestartIsolatedIff(start, run, newValue);
    FirstGeneration(start, run);
    if start.memory != [] {
      assert start.memory[0] in start.memory;
    }
  }

  /** So a reset during a batch survives when the worker crashes before its last check: the
      old batch is restored under the new value, and no later batch will notice. */
  lemma CrashKeepsOldEpoch(w: World, batch: nat, a: string, b: string, newValue: string)
    requires a != b && w.phase.Idle? && w.epoch == Some(a) && w.adopted == Some(a)
    ensures var run := [Begin(batch), Process(true), WipeStore, SetEpoch(Some(b)), Project, Persist];
      && Possible(w, run)
      && var r := Restart(After(w, run), newValue);
         !OneValue(r) && Step(r, Begin(batch + 1)).phase.Ready?
  {
    var commit := Commit(batch, Some(a), w.generation);
    var r1 := [Begin(batch)];
    var r2 := [Begin(batch), Process(true)];
    var r3 := [Begin(batch), Process(true), WipeStore];
    var r4 := [Begin(batch), Process(true), WipeStore, SetEpoch(Some(b))];
    var r5 := [Begin(batch), Process(true), WipeStore, SetEpoch(Some(b)), Project];
    var r6 := [Begin(batch), Process(true), WipeStore, SetEpoch(Some(b)), Project, Persist];
    Snoc(w, [], Begin(batch), r1);
    Snoc(w, r1, Process(true), r2);
    Snoc(w, r2, WipeStore, r3);
    Snoc(w, r3, SetEpoch(Some(b)), r4);
    Snoc(w, r4, Project, r5);
    Snoc(w, r5, Persist, r6);
    assert AllOf(w.memory + [commit], Some(b)) ==> commit.value == Some(b) by { assert commit in w.memory + [commit]; }
    RestoredAllOf(w.memory + [commit], Some(b));
  }

  lemma Snoc(w: World, run: seq<Action>, a: Action, next: seq<Action>)
    requires Possible(w, run) && Enabled(After(w, run), a) && next == run + [a]
    ensures Possible(w, next) && After(w, next) == Step(After(w, run), a)
  {
    assert Front(next) == run;
  }
}
