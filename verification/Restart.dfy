// Starting, restarting and destroying a pipeline with file-backed exporters (the end of
// otel_tracer_start and otel_meter_start, otel_file_exporter and its span and metric children,
// otel_exporter_files_open and otel_exporter_files_truncate).
//
// A start opens the files of the new exporters in append mode, shuts down the installed exporters,
// empties the files, and installs.  Worker threads export in between, also those of the pipeline
// that is still being built; each exporter method holds the exporter's mutex and is one step.  Every
// record is tagged with the generation of the exporter that wrote it.  A step that cannot be taken
// leaves the state alone, so every sequence of steps is an interleaving.

module Restart {

  datatype Record = Record(gen: nat, data: int)

  datatype Exporter = Exporter(gen: nat, file: nat, open: bool, down: bool)

  /** A start goes through opening, shutting down and truncating, a destroy through closing. */
  datatype Phase =
    | Running
    | Opening(next: nat)
    | ShuttingDown(next: nat)
    | Truncating(next: nat)
    | Closing(next: nat, flushed: bool)

  datatype World = World(
    files: map<nat, seq<Record>>,
    devices: set<nat>,            // what truncate() cannot empty
    exporters: seq<Exporter>,     // every exporter ever built, in order
    from: nat, to: nat,           // the installed pipeline is exporters[from..to]
    first: nat,                   // the pipeline being built is exporters[first..]
    gen: nat,
    phase: Phase)

  datatype Step =
    | Begin(names: seq<nat>)
    | Fail                        // some part of the pipeline could not be built
    | Open(ok: bool)
    | Proceed
    | ShutDown
    | Truncate
    | Install(ok: bool)
    | Export(e: nat, batch: seq<int>)
    | Destroy(flushed: bool)      // the flush is over, with or without success
    | Drop                        // the provider is released

  function Tagged(batch: seq<int>, gen: nat): (r: seq<Record>)
    ensures |r| == |batch| && forall i | 0 <= i < |r| :: r[i].gen == gen
  {
    seq(|batch|, i requires 0 <= i < |batch| => Record(gen, batch[i]))
  }

  /** Opening in append mode creates a missing file and leaves an existing one intact. */
  function Created(files: map<nat, seq<Record>>, f: nat): map<nat, seq<Record>> {
    if f in files then files else files[f := []]
  }

  function Contents(files: map<nat, seq<Record>>, f: nat): seq<Record> {
    if f in files then files[f] else []
  }

  predicate Writes(x: Exporter) { x.open && !x.down }

  function Written(files: map<nat, seq<Record>>, x: Exporter, batch: seq<int>): map<nat, seq<Record>> {
    if Writes(x) && batch != [] then files[x.file := Contents(files, x.file) + Tagged(batch, x.gen)] else files
  }

  function Emptied(files: map<nat, seq<Record>>, devices: set<nat>, f: nat): map<nat, seq<Record>> {
    if f in devices || f !in files then files else files[f := []]
  }

  function NewExporters(names: seq<nat>, gen: nat): (r: seq<Exporter>)
    ensures |r| == |names|
  {
    seq(|names|, i requires 0 <= i < |names| => Exporter(gen, names[i], false, false))
  }

  /** The exporters from..to shut down. */
  function Stopped(xs: seq<Exporter>, from: nat, to: nat): (r: seq<Exporter>)
    ensures |r| == |xs|
  {
    seq(|xs|, i requires 0 <= i < |xs| => if from <= i < to then xs[i].(down := true) else xs[i])
  }

  function Abandon(w: World): World {
    w.(exporters := Stopped(w.exporters, w.first, |w.exporters|), phase := Running)
  }

  predicate Enabled(w: World, step: Step) {
    match step
    case Begin(_) => w.phase.Running?
    case Fail => w.phase == Opening(w.first)
    case Open(_) => w.phase.Opening? && w.phase.next < |w.exporters|
    case Proceed => w.phase == Opening(|w.exporters|) || w.phase == ShuttingDown(w.to)
    case ShutDown =>
      && (w.phase.ShuttingDown? || (w.phase.Closing? && !w.phase.flushed))
      && w.phase.next < w.to && w.phase.next < |w.exporters|
    case Truncate => w.phase.Truncating? && w.phase.next < |w.exporters|
    case Install(_) => w.phase == Truncating(|w.exporters|)
    case Export(e, _) => e < |w.exporters|
    case Destroy(_) => w.phase.Running?
    case Drop => w.phase.Closing? && (w.phase.flushed || w.phase.next == w.to)
  }

  function Apply(w: World, step: Step): World {
    if !Enabled(w, step) then w else
    match step
    case Begin(names) =>
      w.(exporters := w.exporters + NewExporters(names, w.gen + 1), first := |w.exporters|,
         gen := w.gen + 1, phase := Opening(|w.exporters|))
    case Fail => Abandon(w)
    case Open(ok) =>
      var i := w.phase.next;
      if !ok then Abandon(w)
      else w.(files := Created(w.files, w.exporters[i].file),
              exporters := w.exporters[i := w.exporters[i].(open := true)], phase := Opening(i + 1))
    case Proceed => w.(phase := if w.phase.Opening? then ShuttingDown(w.from) else Truncating(w.first))
    case ShutDown =>
      var i := w.phase.next;
      w.(exporters := w.exporters[i := w.exporters[i].(down := true)],
         phase := if w.phase.ShuttingDown? then ShuttingDown(i + 1) else Closing(i + 1, false))
    case Truncate =>
      var i := w.phase.next;
      w.(files := Emptied(w.files, w.devices, w.exporters[i].file), phase := Truncating(i + 1))
    case Install(ok) =>
      if ok then w.(from := w.first, to := |w.exporters|, phase := Running)
      else Abandon(w).(from := 0, to := 0)
    case Export(e, batch) => w.(files := Written(w.files, w.exporters[e], batch))
    case Destroy(flushed) => w.(phase := Closing(w.from, flushed))
    case Drop => w.(exporters := Stopped(w.exporters, w.from, w.to), from := 0, to := 0, phase := Running)
  }

  function Exec(w: World, sched: seq<Step>): World
    decreases |sched|
  {
    if |sched| == 0 then w else Exec(Apply(w, sched[0]), sched[1..])
  }

  /** Nothing started yet; the records already in the files belong to generation 0. */
  function Start(files: map<nat, seq<int>>, devices: set<nat>): World {
    World(map f | f in files :: Tagged(files[f], 0), devices, [], 0, 0, 0, 0, Running)
  }

  // ---------- the invariant ----------

  /** No record is older, or newer, than generation g. */
  predicate NoneOlder(records: seq<Record>, g: nat) {
    forall i | 0 <= i < |records| :: records[i].gen >= g
  }

  predicate NoneNewer(records: seq<Record>, g: nat) {
    forall i | 0 <= i < |records| :: records[i].gen <= g
  }

  predicate InStart(w: World) { w.phase.Opening? || w.phase.ShuttingDown? || w.phase.Truncating? }

  ghost predicate Shape(w: World) {
    && w.from <= w.to <= |w.exporters| && w.first <= |w.exporters|
    && (InStart(w) ==> w.to <= w.first)
    && (w.phase.Opening? ==> w.first <= w.phase.next <= |w.exporters|)
    && (w.phase.ShuttingDown? || w.phase.Closing? ==> w.from <= w.phase.next <= w.to)
    && (w.phase.Closing? && w.phase.flushed ==> w.phase.next == w.from)
    && (w.phase.Truncating? ==> w.first <= w.phase.next <= |w.exporters|)
  }

  ghost predicate ExporterOk(w: World, e: nat)
    requires e < |w.exporters|
  {
    var x := w.exporters[e];
    && x.gen <= w.gen
    && (x.open ==> x.file in w.files)
    && (InStart(w) ==> if e < w.first then x.gen < w.gen else x.gen == w.gen && !x.down)
    && (w.phase.Opening? ==> (e >= w.first ==> (x.open <==> e < w.phase.next)))
    && (w.phase.ShuttingDown? || w.phase.Truncating? ==> (e >= w.first ==> x.open))
    && (w.from <= e < w.to ==> x.open)
    && (w.from <= e < w.to && (w.phase.Running? || w.phase.Opening?) ==> !x.down)
    && (w.phase.ShuttingDown? && w.from <= e < w.phase.next ==> x.down)
    && (w.phase.Closing? && w.from <= e < w.to ==> (x.down <==> e < w.phase.next))
    && (w.phase.Truncating? && e < w.first ==> x.down)
    && (!(w.from <= e < w.to) && (!InStart(w) || e < w.first) ==> x.down)
  }

  ghost predicate EmptiedOk(w: World, e: nat)
    requires e < |w.exporters|
  {
    w.phase.Truncating? && w.first <= e < w.phase.next && w.exporters[e].file !in w.devices ==>
      NoneOlder(Contents(w.files, w.exporters[e].file), w.gen)
  }

  ghost predicate Inv(w: World) {
    && Shape(w)
    && (forall f | f in w.files :: NoneNewer(w.files[f], w.gen))
    && (forall e: nat | e < |w.exporters| :: ExporterOk(w, e))
    && (forall e: nat | e < |w.exporters| :: EmptiedOk(w, e))
  }

  lemma ExporterStep(w: World, step: Step, e: nat)
    requires Inv(w) && e < |Apply(w, step).exporters|
    ensures ExporterOk(Apply(w, step), e)
  {
    if e < |w.exporters| {
      assert ExporterOk(w, e);
    }
  }

  lemma EmptiedStep(w: World, step: Step, e: nat)
    requires Inv(w) && e < |Apply(w, step).exporters|
    ensures EmptiedOk(Apply(w, step), e)
  {
    if e < |w.exporters| {
      assert EmptiedOk(w, e) && ExporterOk(w, e);
      if step.Export? && step.e < |w.exporters| {
        assert ExporterOk(w, step.e);
      }
    }
  }

  lemma RecordsStep(w: World, step: Step)
    requires Inv(w)
    ensures forall f | f in Apply(w, step).files :: NoneNewer(Apply(w, step).files[f], Apply(w, step).gen)
  {
    if step.Export? && Enabled(w, step) { assert ExporterOk(w, step.e); }
  }

  lemma StepKeepsInv(w: World, step: Step)
    requires Inv(w)
    ensures Inv(Apply(w, step))
  {
    var w' := Apply(w, step);
    assert Shape(w');
    RecordsStep(w, step);
    forall e: nat | e < |w'.exporters| ensures ExporterOk(w', e) && EmptiedOk(w', e) {
      ExporterStep(w, step, e);
      EmptiedStep(w, step, e);
    }
  }

  lemma {:induction false} ExecKeepsInv(w: World, sched: seq<Step>)
    requires Inv(w)
    ensures Inv(Exec(w, sched))
    decreases |sched|
  {
    if |sched| > 0 {
      StepKeepsInv(w, sched[0]);
      ExecKeepsInv(Apply(w, sched[0]), sched[1..]);
    }
  }

  // ---------- an emptied file stays free of older records ----------

  /** The file holds nothing older than generation g, and whatever is older can no longer write. */
  ghost predicate Sealed(w: World, f: nat, g: nat) {
    && g <= w.gen
    && NoneOlder(Contents(w.files, f), g)
    && forall e | 0 <= e < |w.exporters| :: w.exporters[e].gen < g ==> w.exporters[e].down
  }

  lemma SealedStep(w: World, step: Step, f: nat, g: nat)
    requires Inv(w) && Sealed(w, f, g)
    ensures Sealed(Apply(w, step), f, g)
  {
  }

  lemma {:induction false} SealedRun(w: World, sched: seq<Step>, f: nat, g: nat)
    requires Inv(w) && Sealed(w, f, g)
    ensures Sealed(Exec(w, sched), f, g)
    decreases |sched|
  {
    if |sched| > 0 {
      SealedStep(w, sched[0], f, g);
      StepKeepsInv(w, sched[0]);
      SealedRun(Apply(w, sched[0]), sched[1..], f, g);
    }
  }

  /** Once a start has emptied a file, no record of an earlier pipeline is ever in it again, whatever
      the workers export and however often the pipeline is restarted or destroyed afterwards. */
  lemma EmptiedFileStaysClean(files: map<nat, seq<int>>, devices: set<nat>, before: seq<Step>, after: seq<Step>)
    requires Enabled(Exec(Start(files, devices), before), Truncate)
    ensures var w := Exec(Start(files, devices), before);
            var f := w.exporters[w.phase.next].file;
            f !in w.devices ==> NoneOlder(Contents(Exec(Apply(w, Truncate), after).files, f), w.gen)
  {
    ExecKeepsInv(Start(files, devices), before);
    var w := Exec(Start(files, devices), before);
    var f := w.exporters[w.phase.next].file;
    if f !in w.devices {
      forall e | 0 <= e < |w.exporters| && w.exporters[e].gen < w.gen ensures w.exporters[e].down {
        assert ExporterOk(w, e);
      }
      StepKeepsInv(w, Truncate);
      SealedRun(Apply(w, Truncate), after, f, w.gen);
    }
  }

  /** The moment a start succeeds, its exporters are open and working, every other exporter is shut
      down, and each file of the pipeline that can be emptied holds records of this pipeline only. */
  lemma InstalledPipelineIsFresh(files: map<nat, seq<int>>, devices: set<nat>, before: seq<Step>, e: nat)
    requires Enabled(Exec(Start(files, devices), before), Install(true))
    requires e < |Exec(Start(files, devices), before).exporters|
    ensures var w := Apply(Exec(Start(files, devices), before), Install(true));
            && (Writes(w.exporters[e]) <==> w.from <= e < w.to)
            && (w.from <= e < w.to && w.exporters[e].file !in w.devices ==>
                  forall i | 0 <= i < |Contents(w.files, w.exporters[e].file)| ::
                    Contents(w.files, w.exporters[e].file)[i].gen == w.gen)
  {
    var s := Exec(Start(files, devices), before);
    ExecKeepsInv(Start(files, devices), before);
    assert ExporterOk(s, e) && EmptiedOk(s, e);
    StepKeepsInv(s, Install(true));
    assert ExporterOk(Apply(s, Install(true)), e);
  }

  // ---------- a start that fails before the shutdown ----------

  /** The old contents of every file are still there, at the front of the file. */
  predicate Extends(old_: map<nat, seq<Record>>, new_: map<nat, seq<Record>>) {
    forall f | f in old_ :: f in new_ && old_[f] <= new_[f]
  }

  /** Every state the run passes through before its last one is in the opening phase. */
  predicate StaysOpening(w: World, sched: seq<Step>)
    decreases |sched|
  {
    |sched| == 0 || (w.phase.Opening? && StaysOpening(Apply(w, sched[0]), sched[1..]))
  }

  /** The installed pipeline is the same, down to the state of its exporters. */
  predicate SameInstalled(w: World, w': World) {
    && w'.from == w.from && w'.to == w.to <= |w.exporters| <= |w'.exporters|
    && w'.exporters[..w.to] == w.exporters[..w.to]
  }

  lemma OpeningStep(w: World, step: Step)
    requires Inv(w) && w.phase.Opening?
    ensures SameInstalled(w, Apply(w, step)) && Extends(w.files, Apply(w, step).files)
  {
    var w' := Apply(w, step);
    forall e | 0 <= e < w.to ensures w'.exporters[e] == w.exporters[e] {
    }
  }

  lemma {:induction false} OpeningRun(w: World, sched: seq<Step>)
    requires Inv(w) && StaysOpening(w, sched)
    ensures SameInstalled(w, Exec(w, sched)) && Extends(w.files, Exec(w, sched).files)
    decreases |sched|
  {
    if |sched| > 0 {
      var w1 := Apply(w, sched[0]);
      OpeningStep(w, sched[0]);
      StepKeepsInv(w, sched[0]);
      OpeningRun(w1, sched[1..]);
    }
  }

  /** A start that fails before it reaches the shutdown, because something could not be built or
      because any one of the files could not be opened, leaves the installed pipeline working as it
      was and every file with its contents in place, whatever is exported meanwhile; the exporters it
      built can write no more. */
  lemma FailedStartLeavesPipeline(files: map<nat, seq<int>>, devices: set<nat>, before: seq<Step>,
                                  names: seq<nat>, during: seq<Step>)
    requires var w := Exec(Start(files, devices), before);
             && w.phase.Running?
             && StaysOpening(Apply(w, Begin(names)), during)
             && Exec(Apply(w, Begin(names)), during).phase.Running?
    ensures var w := Exec(Start(files, devices), before);
            var w' := Exec(Apply(w, Begin(names)), during);
            && SameInstalled(w, w') && Extends(w.files, w'.files)
            && forall e | 0 <= e < |w'.exporters| :: Writes(w'.exporters[e]) <==> w.from <= e < w.to
  {
    var w := Exec(Start(files, devices), before);
    ExecKeepsInv(Start(files, devices), before);
    StepKeepsInv(w, Begin(names));
    assert Apply(w, Begin(names)).exporters[..w.to] == w.exporters[..w.to];
    OpeningRun(Apply(w, Begin(names)), during);
    ExecKeepsInv(Apply(w, Begin(names)), during);
    var w' := Exec(Apply(w, Begin(names)), during);
    forall e | 0 <= e < |w'.exporters| ensures Writes(w'.exporters[e]) <==> w.from <= e < w.to {
      assert ExporterOk(w', e);
    }
  }

  /** A start that fails while it installs leaves nothing installed and every exporter shut down. */
  lemma FailedInstallLeavesNothing(files: map<nat, seq<int>>, devices: set<nat>, before: seq<Step>)
    requires Enabled(Exec(Start(files, devices), before), Install(false))
    ensures var w := Apply(Exec(Start(files, devices), before), Install(false));
            w.from == w.to && forall e | 0 <= e < |w.exporters| :: !Writes(w.exporters[e])
  {
    var s := Exec(Start(files, devices), before);
    ExecKeepsInv(Start(files, devices), before);
    StepKeepsInv(s, Install(false));
    var w := Apply(s, Install(false));
    forall e | 0 <= e < |w.exporters| ensures !Writes(w.exporters[e]) { assert ExporterOk(w, e); }
  }

  /** A destroy whose flush did not complete shuts the exporters down first, so that the drain of the
      provider writes nothing. */
  lemma UnflushedDestroyDropsTelemetry(files: map<nat, seq<int>>, devices: set<nat>, before: seq<Step>,
                                       e: nat, batch: seq<int>)
    requires var w := Exec(Start(files, devices), before); w.phase == Closing(w.to, false)
    ensures var w := Exec(Start(files, devices), before); Apply(w, Export(e, batch)).files == w.files
  {
    ExecKeepsInv(Start(files, devices), before);
    var w := Exec(Start(files, devices), before);
    if e < |w.exporters| { assert ExporterOk(w, e); }
  }

  // ---------- what the files hold ----------

  /** The records of a batch, in order, each with the generation of its exporter. */
  function Stamped(batch: seq<int>, gen: nat): seq<Record> {
    if |batch| == 0 then [] else [Record(gen, batch[0])] + Stamped(batch[1..], gen)
  }

  lemma {:induction false} TaggedIsStamped(batch: seq<int>, gen: nat)
    ensures Tagged(batch, gen) == Stamped(batch, gen)
  {
    if |batch| > 0 {
      TaggedIsStamped(batch[1..], gen);
      assert Tagged(batch, gen) == [Record(gen, batch[0])] + Tagged(batch[1..], gen);
    }
  }

  /** What a file that held `old_` should hold after a step: an export through an exporter of that file
      that is open and not shut down adds its batch, and a truncate of that file, unless it is a
      device, leaves nothing. */
  function After(w: World, step: Step, f: nat, old_: seq<Record>): seq<Record> {
    match step
    case Export(e, batch) =>
      if e < |w.exporters| && w.exporters[e].file == f && w.exporters[e].open && !w.exporters[e].down
      then old_ + Stamped(batch, w.exporters[e].gen) else old_
    case Truncate =>
      if w.phase.Truncating? && w.phase.next < |w.exporters| && w.exporters[w.phase.next].file == f && f !in w.devices
      then [] else old_
    case _ => old_
  }

  function Story(w: World, sched: seq<Step>, f: nat, old_: seq<Record>): seq<Record>
    decreases |sched|
  {
    if |sched| == 0 then old_ else Story(Apply(w, sched[0]), sched[1..], f, After(w, sched[0], f, old_))
  }

  lemma StoryStep(w: World, step: Step, f: nat)
    ensures Contents(Apply(w, step).files, f) == After(w, step, f, Contents(w.files, f))
  {
    if step.Export? && step.e < |w.exporters| { TaggedIsStamped(step.batch, w.exporters[step.e].gen); }
  }

  /** Over every run a file holds exactly what it held before, less what a truncate of that file removed,
      and the accepted batches since, in the order in which they were exported; nothing else changes
      it, neither opening it nor any other step of a start or a destroy. */
  lemma {:induction false} FilesHoldTheirStory(w: World, sched: seq<Step>, f: nat)
    ensures Contents(Exec(w, sched).files, f) == Story(w, sched, f, Contents(w.files, f))
    decreases |sched|
  {
    if |sched| > 0 {
      StoryStep(w, sched[0], f);
      FilesHoldTheirStory(Apply(w, sched[0]), sched[1..], f);
    }
  }

  /** An export through an exporter of the installed pipeline extends its file by the whole batch, and
      no other file; one through an exporter that is closed or shut down changes nothing. */
  lemma ExportExtends(files: map<nat, seq<int>>, devices: set<nat>, before: seq<Step>, e: nat, batch: seq<int>)
    requires e < |Exec(Start(files, devices), before).exporters|
    ensures var w := Exec(Start(files, devices), before);
            var x, w' := w.exporters[e], Apply(w, Export(e, batch));
            && (w.phase.Running? && w.from <= e < w.to ==>
                  && x.file in w.files && w'.files == w.files[x.file := w.files[x.file] + Stamped(batch, x.gen)])
            && (!x.open || x.down ==> w' == w)
  {
    ExecKeepsInv(Start(files, devices), before);
    var w := Exec(Start(files, devices), before);
    assert ExporterOk(w, e);
    var x := w.exporters[e];
    TaggedIsStamped(batch, x.gen);
    if x.file in w.files { assert w.files[x.file] + [] == w.files[x.file]; }
  }

  // ---------- whole starts and destroys ----------

  /** Every state the run passes through before its last one is inside a start. */
  predicate StaysInStart(w: World, sched: seq<Step>)
    decreases |sched|
  {
    |sched| == 0 || (InStart(w) && StaysInStart(Apply(w, sched[0]), sched[1..]))
  }

  /** The exporters of the start are those of the names, in order. */
  predicate Named(w: World, first: nat, gen: nat, names: seq<nat>) {
    && w.first == first && w.gen == gen && |w.exporters| == first + |names|
    && forall i | first <= i < |w.exporters| :: w.exporters[i].file == names[i - first] && w.exporters[i].gen == gen
  }

  lemma {:induction false} NamedRun(w: World, sched: seq<Step>, first: nat, gen: nat, names: seq<nat>)
    requires StaysInStart(w, sched) && Named(w, first, gen, names)
    ensures Named(Exec(w, sched), first, gen, names)
    decreases |sched|
  {
    if |sched| > 0 {
      NamedStep(w, sched[0], first, gen, names);
      NamedRun(Apply(w, sched[0]), sched[1..], first, gen, names);
    }
  }

  lemma NamedStep(w: World, step: Step, first: nat, gen: nat, names: seq<nat>)
    requires InStart(w) && Named(w, first, gen, names)
    ensures Named(Apply(w, step), first, gen, names)
  {
  }

  /** A start that succeeds, whatever is exported meanwhile, installs exactly one exporter for each of
      its names, in order, open, working and of a new generation. */
  lemma StartInstallsItsNames(w: World, names: seq<nat>, during: seq<Step>)
    requires Inv(w) && w.phase.Running? && StaysInStart(Apply(w, Begin(names)), during)
    requires Enabled(Exec(Apply(w, Begin(names)), during), Install(true))
    ensures AsNamed(Apply(Exec(Apply(w, Begin(names)), during), Install(true)), w.gen + 1, names)
  {
    var w1 := Apply(w, Begin(names));
    StepKeepsInv(w, Begin(names));
    ExecKeepsInv(w1, during);
    NamedRun(w1, during, |w.exporters|, w.gen + 1, names);
    InstallsNamed(Exec(w1, during), |w.exporters|, w.gen + 1, names);
  }

  predicate AsNamed(w: World, gen: nat, names: seq<nat>) {
    && w.phase.Running? && w.to == w.from + |names| <= |w.exporters|
    && forall i | 0 <= i < |names| :: w.exporters[w.from + i] == Exporter(gen, names[i], true, false)
  }

  lemma InstallsNamed(w: World, first: nat, gen: nat, names: seq<nat>)
    requires Inv(w) && Named(w, first, gen, names) && Enabled(w, Install(true))
    ensures AsNamed(Apply(w, Install(true)), gen, names)
  {
    forall i | 0 <= i < |names| ensures w.exporters[first + i] == Exporter(gen, names[i], true, false) {
      assert ExporterOk(w, first + i);
      assert names[first + i - first] == names[i];
    }
  }

  /** A failure, wherever it happens in a start, ends it; no exporter it built can write from then on,
      and no file is changed by it. */
  lemma FailureEndsStart(w: World, step: Step, e: nat)
    requires Inv(w) && Enabled(w, step) && (step == Fail || step == Open(false) || step == Install(false))
    requires w.first <= e < |w.exporters|
    ensures var w' := Apply(w, step); w'.phase.Running? && w'.files == w.files && !Writes(w'.exporters[e])
  {
  }

  /** Every state the run passes through before its last one is inside a destroy. */
  predicate StaysClosing(w: World, sched: seq<Step>)
    decreases |sched|
  {
    |sched| == 0 || (w.phase.Closing? && StaysClosing(Apply(w, sched[0]), sched[1..]))
  }

  /** The provider of a destroy is still there. */
  predicate Closes(w: World, flushed: bool, from: nat, to: nat) {
    w.phase.Closing? && w.phase.flushed == flushed && w.from == from && w.to == to
  }

  lemma {:induction false} ClosingRun(w: World, sched: seq<Step>, flushed: bool, from: nat, to: nat)
    requires Closes(w, flushed, from, to) && StaysClosing(w, sched) && Exec(w, sched).phase.Closing?
    ensures Closes(Exec(w, sched), flushed, from, to)
    decreases |sched|
  {
    if |sched| > 0 {
      if |sched| > 1 { assert Apply(w, sched[0]).phase.Closing?; }
      ClosingRun(Apply(w, sched[0]), sched[1..], flushed, from, to);
    }
  }

  /** When a destroy releases the provider, the drain of that provider still reaches the files exactly
      if the flush completed; afterwards nothing is installed and nothing can write. */
  lemma DrainWritesExactlyIfFlushed(files: map<nat, seq<int>>, devices: set<nat>, before: seq<Step>,
                                    flushed: bool, during: seq<Step>)
    requires var w := Exec(Start(files, devices), before);
             && w.phase.Running? && StaysClosing(Apply(w, Destroy(flushed)), during)
             && Enabled(Exec(Apply(w, Destroy(flushed)), during), Drop)
    ensures var w := Exec(Start(files, devices), before);
            var s := Exec(Apply(w, Destroy(flushed)), during);
            var w' := Apply(s, Drop);
            && s.from == w.from && s.to == w.to <= |s.exporters| == |w'.exporters|
            && (forall e | 0 <= e < |s.exporters| :: Writes(s.exporters[e]) <==> flushed && w.from <= e < w.to)
            && w'.phase.Running? && w'.from == w'.to && w'.files == s.files
            && forall e | 0 <= e < |w'.exporters| :: !Writes(w'.exporters[e])
  {
    ExecKeepsInv(Start(files, devices), before);
    var w := Exec(Start(files, devices), before);
    var w1 := Apply(w, Destroy(flushed));
    StepKeepsInv(w, Destroy(flushed));
    ExecKeepsInv(w1, during);
    ClosingRun(w1, during, flushed, w.from, w.to);
    var s := Exec(w1, during);
    StepKeepsInv(s, Drop);
    forall e | 0 <= e < |s.exporters|
      ensures Writes(s.exporters[e]) <==> flushed && w.from <= e < w.to
      ensures !Writes(Apply(s, Drop).exporters[e])
    {
      assert ExporterOk(s, e) && ExporterOk(Apply(s, Drop), e);
    }
  }

  /** No exporter of the latest start names the file. */
  predicate Unnamed(w: World, f: nat) {
    forall e | 0 <= e < |w.exporters| && w.exporters[e].gen == w.gen :: w.exporters[e].file != f
  }

  lemma UnnamedStep(w: World, step: Step, f: nat)
    requires Inv(w) && Unnamed(w, f) && (step.Begin? ==> f !in step.names)
    ensures Unnamed(Apply(w, step), f)
  {
    var w1 := Apply(w, step);
    forall e | 0 <= e < |w1.exporters| && w1.exporters[e].gen == w1.gen ensures w1.exporters[e].file != f {
      if e < |w.exporters| { assert ExporterOk(w, e); }
    }
  }

  lemma UnnamedFileGrows(w: World, step: Step, f: nat)
    requires Inv(w) && Unnamed(w, f) && f in w.files
    ensures f in Apply(w, step).files && w.files[f] <= Apply(w, step).files[f]
  {
    if step.Truncate? && Enabled(w, step) { assert ExporterOk(w, w.phase.next); }
  }

  /** No run ever loses a record from a file that no exporter of a start names. */
  lemma {:induction false} UnnamedFilesOnlyGrow(w: World, sched: seq<Step>, f: nat)
    requires Inv(w) && f in w.files && Unnamed(w, f)
    requires forall i | 0 <= i < |sched| && sched[i].Begin? :: f !in sched[i].names
    ensures f in Exec(w, sched).files && w.files[f] <= Exec(w, sched).files[f]
    decreases |sched|
  {
    if |sched| > 0 {
      StepKeepsInv(w, sched[0]);
      UnnamedStep(w, sched[0], f);
      UnnamedFileGrows(w, sched[0], f);
      UnnamedFilesOnlyGrow(Apply(w, sched[0]), sched[1..], f);
    }
  }

  // ---------- the exporters and the instance as objects ----------

  class Disk {
    var files: map<nat, seq<Record>>
    const devices: set<nat>

    constructor (files: map<nat, seq<Record>>, devices: set<nat>)
      ensures this.files == files && this.devices == devices
    {
      this.files, this.devices := files, devices;
    }
  }

  /** otel_file_exporter with the SDK exporter it wraps; every method holds the exporter's mutex. */
  class FileExporter {
    const disk: Disk
    const gen: nat
    const file: nat
    var streamOpen: bool
    var down: bool
    var buffer: seq<Record>   // written to the stream, not yet flushed

    constructor (disk: Disk, gen: nat, file: nat)
      ensures this.disk == disk && this.file == file && View() == Exporter(gen, file, false, false)
      ensures buffer == []
    {
      this.disk, this.gen, this.file := disk, gen, file;
      streamOpen, down, buffer := false, false, [];
    }

    function View(): Exporter
      reads this
    {
      Exporter(gen, file, streamOpen, down)
    }

    method OpenFile(ok: bool) returns (success: bool)
      requires !streamOpen
      modifies this`streamOpen, disk`files
      ensures success == streamOpen == ok
      ensures disk.files == if ok then Created(old(disk.files), file) else old(disk.files)
    {
      if ok {
        if file !in disk.files {
          disk.files := disk.files[file := []];
        }
        streamOpen := true;
      }
      return streamOpen;
    }

    method TruncateFile()
      modifies disk`files
      ensures disk.files == Emptied(old(disk.files), disk.devices, file)
    {
      if file !in disk.devices && file in disk.files {
        disk.files := disk.files[file := []];
      }
    }

    /** The SDK exporter writes into the stream unless it is shut down, a closed stream takes nothing,
        and the flush empties the stream buffer, so no record outlives the call outside the file. */
    method ExportBatch(batch: seq<int>)
      requires buffer == []
      modifies this`buffer, disk`files
      ensures disk.files == Written(old(disk.files), View(), batch) && buffer == []
    {
      if !down && streamOpen {
        buffer := buffer + Tagged(batch, gen);
        assert buffer == Tagged(batch, gen);
      }
      Flush();
    }

    method Flush()
      modifies this`buffer, disk`files
      ensures buffer == []
      ensures disk.files == if old(buffer) == [] then old(disk.files)
                            else old(disk.files)[file := Contents(old(disk.files), file) + old(buffer)]
    {
      if buffer != [] {
        disk.files := disk.files[file := Contents(disk.files, file) + buffer];
      }
      buffer := [];
    }

    method ShutdownExporter()
      requires buffer == []
      modifies this`down, this`buffer, disk`files
      ensures down && buffer == [] && disk.files == old(disk.files)
    {
      down := true;
      Flush();
    }
  }

  /** A tracer or meter instance with every exporter it ever built. */
  class Instance {
    const disk: Disk
    var all: seq<FileExporter>
    var from: nat
    var to: nat
    var first: nat
    var gen: nat
    var phase: Phase

    constructor (files: map<nat, seq<int>>, devices: set<nat>)
      ensures Valid() && View() == Start(files, devices) && fresh(disk)
    {
      disk := new Disk(map f | f in files :: Tagged(files[f], 0), devices);
      all, from, to, first, gen, phase := [], 0, 0, 0, 0, Running;
    }

    ghost predicate Valid()
      reads this, all
    {
      && (forall i, j | 0 <= i < j < |all| :: all[i] != all[j])
      && (forall i | 0 <= i < |all| :: all[i].disk == disk && all[i].buffer == [])
    }

    ghost function Views(): (xs: seq<Exporter>)
      reads this, all
      ensures |xs| == |all| && forall i | 0 <= i < |xs| :: xs[i] == all[i].View()
    {
      seq(|all|, i requires 0 <= i < |all| reads this, all => all[i].View())
    }

    ghost function View(): World
      reads this, disk, all
    {
      World(disk.files, disk.devices, Views(), from, to, first, gen, phase)
    }

    /** Builds the exporters of the next pipeline; their files stay closed. */
    method BeginStart(names: seq<nat>)
      requires Valid() && phase.Running?
      modifies this
      ensures Valid() && View() == Apply(old(View()), Begin(names))
      ensures all[..first] == old(all) && first == |old(all)|
    {
      gen := gen + 1;
      var built := BuildExporters(disk, gen, names);
      first := |all|;
      all := all + built;
      phase := Opening(first);
    }

    static method BuildExporters(disk: Disk, gen: nat, names: seq<nat>) returns (built: seq<FileExporter>)
      ensures |built| == |names| && forall i, j | 0 <= i < j < |built| :: built[i] != built[j]
      ensures forall i | 0 <= i < |built| ::
                && fresh(built[i]) && built[i].disk == disk && built[i].buffer == []
                && built[i].View() == Exporter(gen, names[i], false, false)
    {
      built := [];
      for i := 0 to |names|
        invariant |built| == i && forall j, k | 0 <= j < k < i :: built[j] != built[k]
        invariant forall j | 0 <= j < i ::
          && fresh(built[j]) && built[j].disk == disk && built[j].buffer == []
          && built[j].View() == Exporter(gen, names[j], false, false)
      {
        var x := new FileExporter(disk, gen, names[i]);
        built := built + [x];
      }
    }

    /** Releases the exporters from..to: each is down from then on. */
    method Release(from: nat, to: nat)
      requires Valid() && from <= to <= |all|
      modifies all, disk
      ensures disk.files == old(disk.files)
      ensures Valid() && Views() == Stopped(old(Views()), from, to)
      ensures forall i | 0 <= i < |all| :: all[i].streamOpen == old(all[i].streamOpen)
    {
      for i := from to to
        invariant Valid() && disk.files == old(disk.files)
        invariant forall j | 0 <= j < |all| :: all[j].streamOpen == old(all[j].streamOpen)
        invariant forall j | 0 <= j < |all| :: all[j].down == (old(all[j].down) || from <= j < i)
      {
        all[i].ShutdownExporter();
      }
    }

    method FailStart()
      requires Valid() && Enabled(View(), Fail) && first <= |all|
      modifies this, disk, all
      ensures Valid() && all == old(all) && View() == Apply(old(View()), Fail)
    {
      Release(first, |all|);
      phase := Running;
    }

    method OpenNext(ok: bool)
      requires Valid() && Enabled(View(), Open(ok)) && RestClosed(View()) && first <= |all|
      modifies this, disk, all
      ensures Valid() && all == old(all) && View() == Apply(old(View()), Open(ok))
    {
      var i := phase.next;
      var success := all[i].OpenFile(ok);
      if success {
        phase := Opening(i + 1);
      } else {
        Release(first, |all|);
        phase := Running;
      }
    }

    /** Worker threads export, one batch after the other. */
    method Interfere(batches: seq<(nat, seq<int>)>)
      requires Valid()
      modifies disk, all
      ensures Valid() && View() == Exec(old(View()), Exports(batches))
    {
      ghost var w := View();
      for i := 0 to |batches|
        invariant Valid() && Exec(View(), Exports(batches[i..])) == Exec(w, Exports(batches))
      {
        ExportsNext(View(), batches, i);
        if batches[i].0 < |all| {
          WorkerExport(batches[i].0, batches[i].1);
        }
      }
    }

    /** One turn of the open loop, after what workers export before it. */
    method OpenTurn(ok: bool, batches: seq<(nat, seq<int>)>)
      requires Valid() && phase.Opening? && phase.next < |all| && first <= |all|
      requires RestClosed(Exec(View(), Exports(batches)))
      modifies this, disk, all
      ensures Valid() && all == old(all)
      ensures View() == Apply(Exec(old(View()), Exports(batches)), Open(ok))
    {
      ExportsKeep(View(), batches);
      Interfere(batches);
      OpenNext(ok);
    }

    /** otel_exporter_files_open: the first file that cannot be opened stops the loop and fails the
        start.  Before each turn workers may export. */
    method FilesOpen(oks: seq<bool>, between: seq<seq<(nat, seq<int>)>>) returns (ok: bool)
      requires Valid() && Inv(View()) && phase == Opening(first) && first + |oks| == |all| && |between| == |oks|
      modifies this, disk, all
      ensures Valid() && all == old(all)
      ensures ok == (forall i | 0 <= i < |oks| :: oks[i])
      ensures View() == Exec(old(View()), Opens(oks, between))
      ensures phase == if ok then Opening(|all|) else Running
    {
      InvRestClosed(View());
      ok := OpenLoop(oks, between);
    }

    method OpenLoop(oks: seq<bool>, between: seq<seq<(nat, seq<int>)>>) returns (ok: bool)
      requires Valid() && RestClosed(View()) && phase == Opening(first)
      requires first + |oks| == |all| && |between| == |oks|
      modifies this, disk, all
      ensures Valid() && all == old(all)
      ensures ok == (forall i | 0 <= i < |oks| :: oks[i])
      ensures View() == Exec(old(View()), Opens(oks, between))
      ensures phase == if ok then Opening(|all|) else Running
    {
      ghost var w := View();
      var i := 0;
      while i < |oks|
        invariant 0 <= i <= |oks| && Valid() && all == old(all) && first + |oks| == |all|
        invariant forall j | 0 <= j < i :: oks[j]
        invariant phase == Opening(first + i)
        invariant Exec(View(), Opens(oks[i..], between[i..])) == Exec(w, Opens(oks, between))
        invariant RestClosed(View())
      {
        ghost var v, step := View(), Open(oks[i]);
        OpensNext(v, oks, between, i);
        OpenTurn(oks[i], between[i]);
        assert View() == Apply(Exec(v, Exports(between[i])), step);
        i := i + 1;
        if !oks[i - 1] {
          return false;
        }
      }
      return true;
    }

    method ShutdownNext()
      requires Valid() && Enabled(View(), ShutDown)
      modifies this, disk, all
      ensures Valid() && all == old(all) && View() == Apply(old(View()), ShutDown)
    {
      var i := phase.next;
      all[i].ShutdownExporter();
      phase := if phase.ShuttingDown? then ShuttingDown(i + 1) else Closing(i + 1, false);
    }

    method TruncateNext()
      requires Valid() && Enabled(View(), Truncate)
      modifies this, disk
      ensures Valid() && all == old(all) && View() == Apply(old(View()), Truncate)
    {
      var i := phase.next;
      all[i].TruncateFile();
      phase := Truncating(i + 1);
    }

    /** otel_exporter_files_truncate; before each turn workers may export. */
    method FilesTruncate(between: seq<seq<(nat, seq<int>)>>)
      requires Valid() && phase == Truncating(first) && first + |between| == |all|
      modifies this, disk, all
      ensures Valid() && all == old(all)
      ensures View() == Exec(old(View()), Truncates(between))
      ensures phase == Truncating(|all|)
    {
      ghost var w := View();
      var i := 0;
      while i < |between|
        invariant 0 <= i <= |between| && Valid() && all == old(all) && first + |between| == |all|
        invariant phase == Truncating(first + i)
        invariant Exec(View(), Truncates(between[i..])) == Exec(w, Truncates(between))
      {
        TruncatesNext(View(), between, i);
        Interfere(between[i]);
        TruncateNext();
        i := i + 1;
      }
    }

    method ProceedStart()
      requires Valid() && Enabled(View(), Proceed)
      modifies this
      ensures Valid() && all == old(all) && View() == Apply(old(View()), Proceed)
    {
      if phase.Opening? {
        phase := ShuttingDown(from);
      } else {
        phase := Truncating(first);
      }
    }

    method InstallPipeline(ok: bool)
      requires Valid() && Enabled(View(), Install(ok)) && first <= |all|
      modifies this, disk, all
      ensures Valid() && all == old(all) && View() == Apply(old(View()), Install(ok))
    {
      if ok {
        from, to := first, |all|;
      } else {
        Release(first, |all|);
        from, to := 0, 0;
      }
      phase := Running;
    }

    /** A worker thread exports through any exporter, at any time. */
    method WorkerExport(e: nat, batch: seq<int>)
      requires Valid() && e < |all|
      modifies disk, all
      ensures Valid() && View() == Apply(old(View()), Export(e, batch))
    {
      all[e].ExportBatch(batch);
    }

    method BeginDestroy(flushed: bool)
      requires Valid() && phase.Running?
      modifies this`phase
      ensures Valid() && View() == Apply(old(View()), Destroy(flushed))
    {
      phase := Closing(from, flushed);
    }

    method DropPipeline()
      requires Valid() && Enabled(View(), Drop) && from <= to <= |all|
      modifies this, disk, all
      ensures Valid() && all == old(all) && View() == Apply(old(View()), Drop)
    {
      Release(from, to);
      from, to, phase := 0, 0, Running;
    }
  }

  /** No stream is open among the exporters whose files are still to be opened. */
  predicate RestClosed(w: World) {
    w.phase.Opening? ==> forall e | w.phase.next <= e < |w.exporters| :: !w.exporters[e].open
  }

  lemma InvRestClosed(w: World)
    requires Inv(w)
    ensures RestClosed(w)
  {
    forall e: nat | w.phase.Opening? && w.phase.next <= e < |w.exporters| ensures !w.exporters[e].open {
      assert ExporterOk(w, e);
    }
  }

  function Exports(batches: seq<(nat, seq<int>)>): (r: seq<Step>)
    ensures |r| == |batches|
  {
    seq(|batches|, i requires 0 <= i < |batches| => Export(batches[i].0, batches[i].1))
  }

  /** The open loop as a run of the protocol: it ends with the first failure. */
  function Opens(oks: seq<bool>, between: seq<seq<(nat, seq<int>)>>): seq<Step>
    requires |oks| == |between|
  {
    if |oks| == 0 then []
    else Exports(between[0]) + ([Open(oks[0])] + if oks[0] then Opens(oks[1..], between[1..]) else [])
  }

  /** The truncate loop as a run of the protocol. */
  function Truncates(between: seq<seq<(nat, seq<int>)>>): seq<Step> {
    if |between| == 0 then [] else Exports(between[0]) + ([Truncate] + Truncates(between[1..]))
  }

  lemma {:induction false} ExecAppend(w: World, a: seq<Step>, b: seq<Step>)
    ensures Exec(w, a + b) == Exec(Exec(w, a), b)
    decreases |a|
  {
    if |a| == 0 {
      assert a + b == b;
    } else {
      assert (a + b)[1..] == a[1..] + b;
      ExecAppend(Apply(w, a[0]), a[1..], b);
    }
  }

  lemma ExecCons(w: World, step: Step, rest: seq<Step>)
    ensures Exec(w, [step] + rest) == Exec(Apply(w, step), rest)
  {
    assert ([step] + rest)[1..] == rest;
  }

  lemma ExportsNext(w: World, batches: seq<(nat, seq<int>)>, i: nat)
    requires i < |batches|
    ensures Exec(w, Exports(batches[i..]))
         == Exec(Apply(w, Export(batches[i].0, batches[i].1)), Exports(batches[i + 1..]))
  {
    assert Exports(batches[i..])[1..] == Exports(batches[i + 1..]);
  }

  /** Exports change nothing but files. */
  lemma {:induction false} ExportsKeep(w: World, batches: seq<(nat, seq<int>)>)
    ensures Exec(w, Exports(batches)) == w.(files := Exec(w, Exports(batches)).files)
    decreases |batches|
  {
    if |batches| > 0 {
      assert Exports(batches)[1..] == Exports(batches[1..]);
      ExportsKeep(Apply(w, Exports(batches)[0]), batches[1..]);
    }
  }

  lemma OpensNext(w: World, oks: seq<bool>, between: seq<seq<(nat, seq<int>)>>, i: nat)
    requires i < |oks| == |between| && w.phase.Opening? && w.phase.next < |w.exporters| && RestClosed(w)
    ensures var s := Exec(w, Exports(between[i]));
            && s == w.(files := s.files) && RestClosed(s) && RestClosed(Apply(s, Open(oks[i])))
            && Exec(w, Opens(oks[i..], between[i..]))
            == if oks[i] then Exec(Apply(s, Open(true)), Opens(oks[i + 1..], between[i + 1..]))
               else Apply(s, Open(false))
  {
    var rest := if oks[i] then Opens(oks[i + 1..], between[i + 1..]) else [];
    assert oks[i..][1..] == oks[i + 1..] && between[i..][1..] == between[i + 1..];
    assert Opens(oks[i..], between[i..]) == Exports(between[i]) + ([Open(oks[i])] + rest);
    ExportsKeep(w, between[i]);
    ExecAppend(w, Exports(between[i]), [Open(oks[i])] + rest);
    ExecCons(Exec(w, Exports(between[i])), Open(oks[i]), rest);
  }

  lemma TruncatesNext(w: World, between: seq<seq<(nat, seq<int>)>>, i: nat)
    requires i < |between|
    ensures var s := Exec(w, Exports(between[i]));
            && s == w.(files := s.files)
            && Exec(w, Truncates(between[i..])) == Exec(Apply(s, Truncate), Truncates(between[i + 1..]))
  {
    assert between[i..][1..] == between[i + 1..];
    assert Truncates(between[i..]) == Exports(between[i]) + ([Truncate] + Truncates(between[i + 1..]));
    ExportsKeep(w, between[i]);
    ExecAppend(w, Exports(between[i]), [Truncate] + Truncates(between[i + 1..]));
    ExecCons(Exec(w, Exports(between[i])), Truncate, Truncates(between[i + 1..]));
  }

  /** Whether the file is one of those of the exporters from..to that can be emptied. */
  predicate Emptiable(w: World, from: nat, to: nat, f: nat) {
    f !in w.devices && exists i | from <= i < to && i < |w.exporters| :: w.exporters[i].file == f
  }

  /** With no export in between, the loop of otel_exporter_files_truncate empties every file of the new
      pipeline that can be emptied, changes no other file, creates none, and leaves the exporters
      alone. */
  lemma {:induction false} TruncatesAll(w: World, n: nat)
    requires w.phase.Truncating? && w.phase.next + n <= |w.exporters|
    ensures var w' := Exec(w, Truncates(seq(n, _ => [])));
            && w' == w.(files := w'.files, phase := Truncating(w.phase.next + n))
            && w'.files.Keys == w.files.Keys
            && forall f | f in w.files ::
                 w'.files[f] == if Emptiable(w, w.phase.next, w.phase.next + n, f) then [] else w.files[f]
    decreases n
  {
    if n > 0 {
      var between := seq(n, _ => []);
      TruncatesNext(w, between, 0);
      assert between[0..] == between && between[1..] == seq(n - 1, _ => []);
      assert Exports(between[0]) == [];
      var s := Apply(w, Truncate);
      TruncatesAll(s, n - 1);
      forall f | f in w.files
        ensures Emptiable(w, w.phase.next, w.phase.next + n, f)
           <==> Emptiable(s, s.phase.next, s.phase.next + n - 1, f)
                || (f !in w.devices && w.exporters[w.phase.next].file == f)
      {
      }
    }
  }

  /** The truncate loop goes through all exporters of the new pipeline and changes only files. */
  lemma {:induction false} TruncatesGoThrough(w: World, between: seq<seq<(nat, seq<int>)>>)
    requires w.phase.Truncating? && w.phase.next + |between| == |w.exporters|
    ensures var w' := Exec(w, Truncates(between)); w' == w.(files := w'.files, phase := Truncating(|w.exporters|))
    decreases |between|
  {
    if |between| > 0 {
      TruncatesNext(w, between, 0);
      assert between[0..] == between;
      TruncatesGoThrough(Apply(Exec(w, Exports(between[0])), Truncate), between[1..]);
    }
  }

  // ---------- a start by itself ----------

  /** With nothing failing and nobody exporting, the open loop opens every file of the new pipeline. */
  lemma {:induction false} OpensAll(w: World, n: nat)
    requires w.phase.Opening? && w.phase.next + n == |w.exporters| && RestClosed(w)
    ensures var w' := Exec(w, Opens(seq(n, _ => true), seq(n, _ => [])));
            && w' == w.(files := w'.files, exporters := w'.exporters, phase := Opening(|w.exporters|))
            && |w'.exporters| == |w.exporters|
            && (forall e | 0 <= e < |w.exporters| ::
                  w'.exporters[e] == if e < w.phase.next then w.exporters[e] else w.exporters[e].(open := true))
            && forall f :: Contents(w'.files, f) == Contents(w.files, f)
    decreases n
  {
    var oks, between := seq(n, _ => true), seq(n, _ => []);
    if n > 0 {
      assert oks[0..] == oks && between[0..] == between && Exports(between[0]) == [];
      assert oks[1..] == seq(n - 1, _ => true) && between[1..] == seq(n - 1, _ => []);
      OpensNext(w, oks, between, 0);
      OpensAll(Apply(w, Open(true)), n - 1);
    }
  }

  function ShutDowns(n: nat): seq<Step> { seq(n, _ => ShutDown) }

  lemma {:induction false} ShutDownsAll(w: World, n: nat)
    requires w.phase.ShuttingDown? && w.phase.next + n == w.to <= |w.exporters|
    ensures var w' := Exec(w, ShutDowns(n));
            && w' == w.(exporters := w'.exporters, phase := ShuttingDown(w.to)) && |w'.exporters| == |w.exporters|
            && forall e | 0 <= e < |w.exporters| ::
                 w'.exporters[e] == if w.phase.next <= e < w.to then w.exporters[e].(down := true) else w.exporters[e]
    decreases n
  {
    if n > 0 {
      assert ShutDowns(n)[1..] == ShutDowns(n - 1);
      ShutDownsAll(Apply(w, ShutDown), n - 1);
    }
  }

  /** The steps of a start, in order. */
  function WholeStart(names: seq<nat>, installed: nat): seq<Step> {
    var n := |names|;
    [Begin(names)] + (Opens(seq(n, _ => true), seq(n, _ => [])) + ([Proceed] + (ShutDowns(installed) +
      ([Proceed] + (Truncates(seq(n, _ => [])) + [Install(true)])))))
  }

  /** What a start with nothing failing and nobody exporting makes of the world: the exporters of its
      names are installed, open and working, those installed before are shut down, every file it names
      and that can be emptied is empty, and every other file holds what it held. */
  predicate Restarted(w: World, w': World, names: seq<nat>) {
    && w'.phase.Running? && w'.gen == w.gen + 1 && w'.devices == w.devices
    && w'.from == |w.exporters| && w'.to == |w'.exporters| == |w.exporters| + |names|
    && (forall i | 0 <= i < |names| :: w'.exporters[w'.from + i] == Exporter(w'.gen, names[i], true, false))
    && (forall e | 0 <= e < |w.exporters| ::
          w'.exporters[e] == if w.from <= e < w.to then w.exporters[e].(down := true) else w.exporters[e])
  }

  lemma BeginAndOpen(w: World, names: seq<nat>, rest: seq<Step>) returns (s: World)
    requires w.phase.Running?
    ensures Exec(w, [Begin(names)] + (Opens(seq(|names|, _ => true), seq(|names|, _ => [])) + rest)) == Exec(s, rest)
    ensures s == w.(files := s.files, exporters := s.exporters, first := |w.exporters|, gen := w.gen + 1,
                    phase := Opening(|s.exporters|))
    ensures |s.exporters| == |w.exporters| + |names| && s.exporters[..|w.exporters|] == w.exporters
    ensures forall i | 0 <= i < |names| :: s.exporters[|w.exporters| + i] == Exporter(s.gen, names[i], true, false)
    ensures forall f :: Contents(s.files, f) == Contents(w.files, f)
  {
    var opens, w1 := Opens(seq(|names|, _ => true), seq(|names|, _ => [])), Apply(w, Begin(names));
    ExecCons(w, Begin(names), opens + rest);
    ExecAppend(w1, opens, rest);
    OpensAll(w1, |names|);
    s := Exec(w1, opens);
  }

  lemma ProceedAndShutDown(w: World, rest: seq<Step>) returns (s: World)
    requires w.phase == Opening(|w.exporters|) && w.from <= w.to <= |w.exporters|
    ensures Exec(w, [Proceed] + (ShutDowns(w.to - w.from) + rest)) == Exec(s, rest)
    ensures s == w.(exporters := s.exporters, phase := ShuttingDown(w.to)) && |s.exporters| == |w.exporters|
    ensures forall e | 0 <= e < |w.exporters| ::
              s.exporters[e] == if w.from <= e < w.to then w.exporters[e].(down := true) else w.exporters[e]
  {
    var shuts, w1 := ShutDowns(w.to - w.from), Apply(w, Proceed);
    ExecCons(w, Proceed, shuts + rest);
    ExecAppend(w1, shuts, rest);
    ShutDownsAll(w1, w.to - w.from);
    s := Exec(w1, shuts);
  }

  lemma ProceedAndTruncate(w: World, n: nat) returns (s: World)
    requires w.phase == ShuttingDown(w.to) && w.first + n == |w.exporters|
    ensures Exec(w, [Proceed] + (Truncates(seq(n, _ => [])) + [Install(true)])) == s
    ensures s == w.(files := s.files, from := w.first, to := |w.exporters|, phase := Running)
    ensures forall f ::
              Contents(s.files, f) == if Emptiable(w, w.first, |w.exporters|, f) then [] else Contents(w.files, f)
  {
    var cuts, w1 := Truncates(seq(n, _ => [])), Apply(w, Proceed);
    ExecCons(w, Proceed, cuts + [Install(true)]);
    ExecAppend(w1, cuts, [Install(true)]);
    TruncatesAll(w1, n);
    ExecCons(Exec(w1, cuts), Install(true), []);
    assert [Install(true)] + [] == [Install(true)];
    s := Apply(Exec(w1, cuts), Install(true));
  }

  lemma StartRuns(w: World, names: seq<nat>)
    requires w.phase.Running? && w.from <= w.to <= |w.exporters|
    ensures var w' := Exec(w, WholeStart(names, w.to - w.from));
            && Restarted(w, w', names)
            && forall f :: Contents(w'.files, f) == if f in names && f !in w.devices then [] else Contents(w.files, f)
  {
    var s1, s2, s3 := StartChain(w, names);
    StoppedAndNew(w, s1, s2, names);
    forall f ensures Emptiable(s2, s2.first, |s2.exporters|, f) <==> f in names && f !in w.devices {
      EmptiableNames(s2, s2.first, names, f);
    }
  }

  /** The world after the open loop, after the shutdowns, and after the install. */
  lemma StartChain(w: World, names: seq<nat>) returns (s1: World, s2: World, s3: World)
    requires w.phase.Running? && w.from <= w.to <= |w.exporters|
    ensures Exec(w, WholeStart(names, w.to - w.from)) == s3
    ensures s1.gen == w.gen + 1 && |s1.exporters| == |w.exporters| + |names|
    ensures s1.exporters[..|w.exporters|] == w.exporters
    ensures forall i | 0 <= i < |names| :: s1.exporters[|w.exporters| + i] == Exporter(s1.gen, names[i], true, false)
    ensures s2 == w.(files := s2.files, exporters := s2.exporters, first := |w.exporters|, gen := w.gen + 1,
                     phase := ShuttingDown(w.to))
    ensures |s2.exporters| == |s1.exporters| && forall e | 0 <= e < |s1.exporters| ::
              s2.exporters[e] == if w.from <= e < w.to then s1.exporters[e].(down := true) else s1.exporters[e]
    ensures forall f :: Contents(s2.files, f) == Contents(w.files, f)
    ensures s3 == s2.(files := s3.files, from := |w.exporters|, to := |s2.exporters|, phase := Running)
    ensures forall f ::
              Contents(s3.files, f) == if Emptiable(s2, s2.first, |s2.exporters|, f) then [] else Contents(s2.files, f)
  {
    var end := [Proceed] + (Truncates(seq(|names|, _ => [])) + [Install(true)]);
    s1 := BeginAndOpen(w, names, [Proceed] + (ShutDowns(w.to - w.from) + end));
    s2 := ProceedAndShutDown(s1, end);
    s3 := ProceedAndTruncate(s2, |names|);
  }

  lemma StoppedAndNew(w: World, s1: World, s2: World, names: seq<nat>)
    requires w.from <= w.to <= |w.exporters| && |s2.exporters| == |s1.exporters| == |w.exporters| + |names|
    requires s1.exporters[..|w.exporters|] == w.exporters
    requires forall i | 0 <= i < |names| :: s1.exporters[|w.exporters| + i] == Exporter(s1.gen, names[i], true, false)
    requires forall e | 0 <= e < |s1.exporters| ::
               s2.exporters[e] == if w.from <= e < w.to then s1.exporters[e].(down := true) else s1.exporters[e]
    ensures forall e | 0 <= e < |w.exporters| ::
              s2.exporters[e] == if w.from <= e < w.to then w.exporters[e].(down := true) else w.exporters[e]
    ensures forall i | 0 <= i < |names| :: s2.exporters[|w.exporters| + i] == Exporter(s1.gen, names[i], true, false)
  {
    forall e | 0 <= e < |w.exporters| ensures s1.exporters[e] == w.exporters[e] {
      assert s1.exporters[e] == s1.exporters[..|w.exporters|][e];
    }
  }

  lemma EmptiableNames(w: World, first: nat, names: seq<nat>, f: nat)
    requires first + |names| == |w.exporters|
    requires forall i | 0 <= i < |names| :: w.exporters[first + i].file == names[i]
    ensures Emptiable(w, first, |w.exporters|, f) <==> f in names && f !in w.devices
  {
    if f in names {
      var i :| 0 <= i < |names| && names[i] == f;
      assert w.exporters[first + i].file == f;
    }
    if i :| first <= i < |w.exporters| && w.exporters[i].file == f {
      assert w.exporters[first + (i - first)].file == names[i - first];
    }
  }

  /** Whatever workers export in between, once the truncate loop is through no file of the new pipeline
      that can be emptied holds a record of an earlier one. */
  lemma TruncateLoopSeals(files: map<nat, seq<int>>, devices: set<nat>, before: seq<Step>,
                          between: seq<seq<(nat, seq<int>)>>, e: nat)
    requires var w := Exec(Start(files, devices), before);
             w.phase == Truncating(w.first) && w.first + |between| == |w.exporters| && w.first <= e < |w.exporters|
    ensures var w := Exec(Start(files, devices), before);
            w.exporters[e].file !in w.devices ==>
              NoneOlder(Contents(Exec(w, Truncates(between)).files, w.exporters[e].file), w.gen)
  {
    ExecKeepsInv(Start(files, devices), before);
    var w := Exec(Start(files, devices), before);
    ExecKeepsInv(w, Truncates(between));
    TruncatesGoThrough(w, between);
    assert EmptiedOk(Exec(w, Truncates(between)), e);
  }
}
