// The lifetime of tracers and of the two handle maps they share (src/tracer.cpp, src/span.cpp, the
// default shared-handle build).
//
// Creates, destroys, span starts, span context creates and the use of spans and span contexts by any
// number of threads are steps in any order.  Register and unregister run under the tracer count
// mutex, which is held until the teardown is over.  What the library asks of its callers is that a
// tracer is destroyed only after its own calls have returned.  Spans and span contexts may outlive
// the maps, and their ends and destroys, and creates of span contexts, may run at any time.

module TracerLifetime {
  import opened HandleLifetime

  /** Whether the tracer count mutex is held by a teardown, and how far that is. */
  datatype Stage = Open | ClosingContexts | ClosingSpans

  /** `tracers` tells for each counted tracer whether its registration found or made both maps. */
  datatype World = World(count: int, tracers: map<int, bool>, stage: Stage, spans: Store, contexts: Store)

  const NEW: World := World(0, map[], Open, Empty(true), Empty(false))

  datatype Step =
    | Register(t: nat, spanMemory: bool, contextMemory: bool, shards: nat)
    | Unregister(t: nat)
    | Close                 // one step of the teardown
    | OnSpans(op: Op)
    | OnContexts(op: Op)

  predicate CallerOp(op: Op) { op.Enter? || op.Create? || op.Resume? }

  predicate Registered(w: World, owner: int) {
    owner in w.tracers && w.tracers[owner]
  }

  predicate Owns(s: Store, t: int) {
    exists c | c in s.calls :: Makes(s.calls[c]) && s.calls[c].owner == t
  }

  predicate Enabled(w: World, a: Step) {
    match a
    case Register(t, _, _, n) => w.stage.Open? && t !in w.tracers && n > 0
    case Unregister(t) => w.stage.Open? && t in w.tracers && !Owns(w.spans, t) && !Owns(w.contexts, t)
    case Close => !w.stage.Open?
    case OnSpans(op) => CallerOp(op) && (op.Create? ==> op.owner != NOBODY && Registered(w, op.owner))
    case OnContexts(op) => CallerOp(op) && (op.Create? ==> op.owner == NOBODY || Registered(w, op.owner))
  }

  /** The next step of the teardown of one map. */
  function NextOp(s: Store): Op {
    match s.phase
    case Standing => BeginTeardown
    case Sweeping(i) => if i < s.shards then SweepShard else SaveBase
    case Saved => DeleteMap
    case Deleted => ClearPointer
  }

  /** What a step does to the span map, and to the span context map. */
  function SpansOp(w: World, a: Step): seq<Op> {
    match a
    case Register(_, memory, _, n) => if w.spans.pointer.Live? || memory then [Allocate(n)] else []
    case Close => if w.stage.ClosingSpans? then [NextOp(w.spans)] else []
    case OnSpans(op) => [op]
    case _ => []
  }

  function ContextsOp(w: World, a: Step): seq<Op> {
    match a
    case Register(_, spanMemory, memory, n) =>
      if (w.spans.pointer.Live? || spanMemory) && (w.contexts.pointer.Live? || memory)
      then [Allocate(n)] else []
    case Close => if w.stage.ClosingContexts? then [NextOp(w.contexts)] else []
    case OnContexts(op) => [op]
    case _ => []
  }

  function Do(s: Store, ops: seq<Op>): Store {
    if ops == [] then s else ApplyOp(s, ops[0])
  }

  /** A map that is not there needs no teardown, and a teardown is over when the pointer is clear. */
  function NextStage(w: World): Stage {
    if w.stage.ClosingContexts? && w.contexts.pointer.Null? then ClosingSpans
    else if w.stage.ClosingSpans? && w.spans.pointer.Null? then Open
    else w.stage
  }

  function Apply(w: World, a: Step): World {
    if !Enabled(w, a) then w else
    var w' := w.(spans := Do(w.spans, SpansOp(w, a)), contexts := Do(w.contexts, ContextsOp(w, a)));
    match a
    case Register(t, _, _, _) => w'.(count := w.count + 1, tracers := w.tracers[t := ContextsOp(w, a) != []])
    case Unregister(t) =>
      w'.(count := w.count - 1, tracers := w.tracers - {t},
          stage := if w.count == 1 then ClosingContexts else Open)
    case Close => w'.(stage := NextStage(w))
    case _ => w'
  }

  /** Runs a schedule, first step first. */
  function Exec(w: World, sched: seq<Step>): World {
    if |sched| == 0 then w else Apply(Exec(w, sched[..|sched| - 1]), sched[|sched| - 1])
  }

  // ---------- what every step keeps ----------

  ghost predicate Counted(w: World) {
    && w.count == |w.tracers|
    && (!w.stage.Open? ==> w.tracers == map[])
    && (w.stage.Open? ==> w.spans.phase.Standing? && w.contexts.phase.Standing?)
    && (w.stage.ClosingContexts? ==> w.spans.phase.Standing?)
    && (w.stage.ClosingSpans? ==> w.contexts.pointer.Null?)
    && (forall t | t in w.tracers && w.tracers[t] :: w.spans.pointer.Live? && w.contexts.pointer.Live?)
    && (w.stage.Open? && w.tracers == map[] ==> w.spans.pointer.Null? && w.contexts.pointer.Null?)
  }

  /** A create made by a tracer belongs to one whose registration succeeded, and works on this map. */
  predicate OwnerOk(s: Store, tracers: map<int, bool>, call: Call) {
    Makes(call) && call.owner != NOBODY ==>
      call.owner in tracers && tracers[call.owner] && (call.Publishing? ==> call.gen == s.gen)
  }

  predicate Owners(s: Store, tracers: map<int, bool>) {
    forall c | c in s.calls :: OwnerOk(s, tracers, s.calls[c])
  }

  predicate AllOwned(s: Store) {
    forall c | c in s.calls :: Makes(s.calls[c]) ==> s.calls[c].owner != NOBODY
  }

  ghost predicate SpansInv(s: Store) {
    && StoreInv(s) && Exclusive(s) && AllOwned(s) && Rising(s) && SweptClean(s)
    && s.ends && s.log.dropped == multiset{}
  }

  ghost predicate ContextsInv(s: Store) {
    StoreInv(s) && Exclusive(s) && LateIds(s) && !s.ends
  }

  ghost predicate Inv(w: World) {
    && Counted(w)
    && Owners(w.spans, w.tracers) && Owners(w.contexts, w.tracers)
    && SpansInv(w.spans) && ContextsInv(w.contexts)
  }

  lemma SpansSettled(w: World)
    requires Counted(w) && Owners(w.spans, w.tracers) && AllOwned(w.spans)
    ensures Settled(w.spans)
  {
    forall c | c in w.spans.calls ensures w.spans.phase.Standing? || !Makes(w.spans.calls[c]) {
      assert OwnerOk(w.spans, w.tracers, w.spans.calls[c]);
    }
  }

  lemma OwnedStep(s: Store, op: Op)
    requires AllOwned(s) && (op.Create? ==> op.owner != NOBODY)
    ensures AllOwned(ApplyOp(s, op))
  {
  }

  lemma EndsStays(s: Store, op: Op)
    ensures ApplyOp(s, op).ends == s.ends
  {
  }

  lemma SpansInvStep(s: Store, op: Op)
    requires SpansInv(s) && Settled(s) && (op.Create? ==> op.owner != NOBODY)
    ensures SpansInv(ApplyOp(s, op))
  {
    OpKeepsInv(s, op);
    ExclusiveStep(s, op);
    RisingStep(s, op);
    SweptStep(s, op);
    OwnedStep(s, op);
    EndsStays(s, op);
  }

  lemma ContextsInvStep(s: Store, op: Op)
    requires ContextsInv(s)
    ensures ContextsInv(ApplyOp(s, op))
  {
    OpKeepsInv(s, op);
    ExclusiveStep(s, op);
    LateStep(s, op);
    EndsStays(s, op);
  }

  lemma StepKeepsStores(w: World, a: Step)
    requires Inv(w) && Enabled(w, a)
    ensures SpansInv(Apply(w, a).spans) && ContextsInv(Apply(w, a).contexts)
  {
    SpansSettled(w);
    if SpansOp(w, a) != [] { SpansInvStep(w.spans, SpansOp(w, a)[0]); }
    if ContextsOp(w, a) != [] { ContextsInvStep(w.contexts, ContextsOp(w, a)[0]); }
  }

  /** The owners stay registered: calls are only added for registered tracers, and a map that is
      allocated or torn down has no create of a tracer under way. */
  lemma OwnersStep(s: Store, op: Op, tracers: map<int, bool>)
    requires Owners(s, tracers)
    requires op.Create? && op.owner != NOBODY ==> op.owner in tracers && tracers[op.owner]
    requires op.Allocate? && s.pointer.Null? ==> forall t | t in tracers :: !tracers[t]
    ensures Owners(ApplyOp(s, op), tracers)
  {
    var s' := ApplyOp(s, op);
    forall c | c in s'.calls ensures OwnerOk(s', tracers, s'.calls[c]) { OwnersStepAt(s, op, tracers, c); }
  }

  lemma OwnersStepAt(s: Store, op: Op, tracers: map<int, bool>, c: nat)
    requires Owners(s, tracers) && c in ApplyOp(s, op).calls
    requires op.Create? && op.owner != NOBODY ==> op.owner in tracers && tracers[op.owner]
    requires op.Allocate? && s.pointer.Null? ==> forall t | t in tracers :: !tracers[t]
    ensures OwnerOk(ApplyOp(s, op), tracers, ApplyOp(s, op).calls[c])
  {
    if c in s.calls { assert OwnerOk(s, tracers, s.calls[c]); }
  }

  lemma MoreOwners(s: Store, tracers: map<int, bool>, t: int, ok: bool)
    requires Owners(s, tracers) && t !in tracers
    ensures Owners(s, tracers[t := ok])
  {
    forall c | c in s.calls ensures OwnerOk(s, tracers[t := ok], s.calls[c]) {
      assert OwnerOk(s, tracers, s.calls[c]);
    }
  }

  lemma FewerOwners(s: Store, tracers: map<int, bool>, t: int)
    requires Owners(s, tracers) && !Owns(s, t)
    ensures Owners(s, tracers - {t})
  {
    forall c | c in s.calls ensures OwnerOk(s, tracers - {t}, s.calls[c]) {
      assert OwnerOk(s, tracers, s.calls[c]);
    }
  }

  lemma StepKeepsOwners(w: World, a: Step)
    requires Inv(w) && Enabled(w, a)
    ensures Owners(Apply(w, a).spans, Apply(w, a).tracers)
    ensures Owners(Apply(w, a).contexts, Apply(w, a).tracers)
  {
    var spans, contexts := SpansOp(w, a), ContextsOp(w, a);
    if spans != [] { OwnersStep(w.spans, spans[0], w.tracers); }
    if contexts != [] { OwnersStep(w.contexts, contexts[0], w.tracers); }
    var w' := w.(spans := Do(w.spans, spans), contexts := Do(w.contexts, contexts));
    if a.Register? {
      MoreOwners(w'.spans, w.tracers, a.t, contexts != []);
      MoreOwners(w'.contexts, w.tracers, a.t, contexts != []);
    } else if a.Unregister? {
      FewerOwners(w.spans, w.tracers, a.t);
      FewerOwners(w.contexts, w.tracers, a.t);
    }
  }

  lemma OneMoreKey(m: map<int, bool>, t: int, ok: bool)
    requires t !in m
    ensures |m[t := ok]| == |m| + 1
  {
    assert m[t := ok].Keys == m.Keys + {t};
    assert |m[t := ok].Keys| == |m[t := ok]| && |m.Keys| == |m|;
  }

  lemma OneKeyLess(m: map<int, bool>, t: int)
    requires t in m
    ensures |m - {t}| == |m| - 1 && (|m| == 1 ==> m - {t} == map[])
  {
    assert (m - {t}).Keys == m.Keys - {t};
    assert |(m - {t}).Keys| == |m - {t}| && |m.Keys| == |m|;
  }

  lemma RegisterKeepsCount(w: World, a: Step)
    requires Inv(w) && Enabled(w, a) && a.Register?
    ensures Counted(Apply(w, a))
  {
    OneMoreKey(w.tracers, a.t, ContextsOp(w, a) != []);
    assert a.t in Apply(w, a).tracers;
  }

  lemma UnregisterKeepsCount(w: World, a: Step)
    requires Inv(w) && Enabled(w, a) && a.Unregister?
    ensures Counted(Apply(w, a))
  {
    OneKeyLess(w.tracers, a.t);
  }

  lemma CloseKeepsCount(w: World)
    requires Inv(w) && Enabled(w, Close)
    ensures Counted(Apply(w, Close))
  {
  }

  lemma CallerKeepsPointer(s: Store, op: Op)
    requires CallerOp(op)
    ensures ApplyOp(s, op).pointer == s.pointer && ApplyOp(s, op).phase == s.phase
  {
  }

  lemma StepKeepsCounted(w: World, a: Step)
    requires Inv(w) && Enabled(w, a)
    ensures Counted(Apply(w, a))
  {
    match a
    case Register(_, _, _, _) => RegisterKeepsCount(w, a);
    case Unregister(_) => UnregisterKeepsCount(w, a);
    case Close => CloseKeepsCount(w);
    case OnSpans(op) => CallerKeepsPointer(w.spans, op);
    case OnContexts(op) => CallerKeepsPointer(w.contexts, op);
  }

  lemma StepKeepsInv(w: World, a: Step)
    requires Inv(w)
    ensures Inv(Apply(w, a))
  {
    if Enabled(w, a) {
      StepKeepsCounted(w, a);
      StepKeepsOwners(w, a);
      StepKeepsStores(w, a);
    }
  }

  lemma {:induction false} RunKeepsInv(sched: seq<Step>)
    ensures Inv(Exec(NEW, sched))
  {
    if |sched| == 0 {
      EmptyHasInv(true);
      EmptyHasInv(false);
    } else {
      RunKeepsInv(sched[..|sched| - 1]);
      StepKeepsInv(Exec(NEW, sched[..|sched| - 1]), sched[|sched| - 1]);
    }
  }

  /** Some schedule leads to the state. */
  ghost predicate Reachable(w: World) { exists sched :: Exec(NEW, sched) == w }

  lemma ReachableInv(w: World)
    requires Reachable(w)
    ensures Inv(w)
  {
    var sched :| Exec(NEW, sched) == w;
    RunKeepsInv(sched);
  }

  // ---------- tracers and maps ----------

  /** A call that a tracer makes and that its destroy waits for. */
  predicate OwnCall(s: Store, c: nat) {
    c in s.calls && Makes(s.calls[c]) && s.calls[c].owner != NOBODY
  }

  /** In every interleaving, with every failure: the count is the number of registered tracers; a
      tracer whose registration succeeded has both maps until its own unregister; the calls of
      tracers, all span starts among them, are safe; without tracers, and with no teardown under way,
      there are no maps. */
  lemma MapsLiveWithTracers(w: World, c: nat)
    requires Reachable(w)
    ensures w.count == |w.tracers|
    ensures forall t | t in w.tracers && w.tracers[t] :: w.spans.pointer.Live? && w.contexts.pointer.Live?
    ensures w.stage.Open? && w.count == 0 ==> w.spans.pointer.Null? && w.contexts.pointer.Null?
    ensures OwnCall(w.spans, c) ==> w.spans.pointer.Live? && CallSafe(w.spans, w.spans.calls[c])
    ensures OwnCall(w.contexts, c) ==> w.contexts.pointer.Live? && CallSafe(w.contexts, w.contexts.calls[c])
    ensures c in w.spans.calls && Makes(w.spans.calls[c]) ==> OwnCall(w.spans, c)
  {
    ReachableInv(w);
    if c in w.spans.calls { assert OwnerOk(w.spans, w.tracers, w.spans.calls[c]); }
    if c in w.contexts.calls { assert OwnerOk(w.contexts, w.tracers, w.contexts.calls[c]); }
  }

  /** A map stops being usable only in the teardown, which begins when the count goes from one to
      zero and lasts while it is zero and no tracer can register. */
  lemma TeardownOnlyAtZero(w: World, a: Step)
    requires Reachable(w)
    ensures !w.stage.Open? ==> w.count == 0 && w.tracers == map[]
    ensures var w' := Apply(w, a);
            && (w.stage.Open? && !w'.stage.Open? <==> a.Unregister? && w.count == 1 && w'.count == 0)
            && ((w.spans.pointer.Live? && !w'.spans.pointer.Live?) ||
                (w.contexts.pointer.Live? && !w'.contexts.pointer.Live?) ==>
                  a.Close? && !w.stage.Open? && w'.tracers == map[])
  {
    ReachableInv(w);
    if !a.Close? { PointersStay(w, a); }
    if a.Unregister? && a.t in w.tracers { OneKeyLess(w.tracers, a.t); }
  }

  lemma PointersStay(w: World, a: Step)
    requires !a.Close?
    ensures w.spans.pointer.Live? ==> Apply(w, a).spans.pointer.Live?
    ensures w.contexts.pointer.Live? ==> Apply(w, a).contexts.pointer.Live?
  {
    if a.OnSpans? && Enabled(w, a) { CallerKeepsPointer(w.spans, a.op); }
    if a.OnContexts? && Enabled(w, a) { CallerKeepsPointer(w.contexts, a.op); }
  }

  predicate SameHandles(s: Store, s': Store) {
    && s'.entries == s.entries && s'.calls == s.calls && s'.structs == s.structs && s'.log == s.log
    && s'.issued == s.issued && s'.base == s.base
  }

  /** A map after a registration that asked for it: the one that was there, or a new one that goes on with
      the saved numbering, or none when there is no memory for it. */
  predicate Prepared(s: Store, s': Store, asked: bool, memory: bool) {
    && SameHandles(s, s')
    && (s'.pointer.Live? <==> s.pointer.Live? || (asked && memory))
    && (if s'.pointer.Live? && !s.pointer.Live? then s'.gen == s.gen + 1 && s'.id == s.base && s'.entries == map[]
        else s' == s)
  }

  /** A registration counts the tracer in whatever happens; it succeeds exactly when both maps are there
      or can be made, and looks for the second only if it has the first.  Another destroy than the last
      changes nothing but the count. */
  lemma RegistrationExactly(w: World, t: nat, spanMemory: bool, contextMemory: bool, n: nat)
    requires Reachable(w)
    ensures Enabled(w, Register(t, spanMemory, contextMemory, n)) ==>
              var w' := Apply(w, Register(t, spanMemory, contextMemory, n));
              var spans := w.spans.pointer.Live? || spanMemory;
              && w'.stage.Open? && w'.count == w.count + 1
              && w'.tracers == w.tracers[t := spans && (w.contexts.pointer.Live? || contextMemory)]
              && Prepared(w.spans, w'.spans, true, spanMemory)
              && Prepared(w.contexts, w'.contexts, spans, contextMemory)
    ensures Enabled(w, Unregister(t)) ==>
              Apply(w, Unregister(t)) == w.(count := w.count - 1, tracers := w.tracers - {t},
                                            stage := if |w.tracers| == 1 then ClosingContexts else Open)
  {
    ReachableInv(w);
  }

  /** How many steps the teardown of a map has in front of it. */
  function Remaining(s: Store): int {
    match s.pointer
    case Null => 0
    case Freed => 1
    case Live =>
      match s.phase
      case Standing => s.shards + 4
      case Sweeping(i) => s.shards - i + 3
      case _ => 2
  }

  function StagesLeft(stage: Stage): nat {
    match stage
    case Open => 0
    case ClosingSpans => 1
    case ClosingContexts => 2
  }

  /** Every step of a teardown brings it nearer to its end, span contexts first and then spans, unless a
      call holds the lock of the shard that comes next. */
  lemma TeardownComesToAnEnd(w: World)
    requires Reachable(w) && !w.stage.Open?
    ensures var w' := Apply(w, Close);
            var s, s' := StoreOf(w, w.stage.ClosingSpans?), StoreOf(w', w.stage.ClosingSpans?);
            || StagesLeft(w'.stage) + 1 == StagesLeft(w.stage)
            || (w'.stage == w.stage && 0 <= Remaining(s') < Remaining(s))
            || (w' == w && s.phase.Sweeping? && Held(s, s.phase.next))
  {
    ReachableInv(w);
    var s := StoreOf(w, w.stage.ClosingSpans?);
    if !s.pointer.Null? {
      NextOpGoesOn(s);
      assert StoreOf(Apply(w, Close), w.stage.ClosingSpans?) == ApplyOp(s, NextOp(s));
    }
  }

  lemma NextOpGoesOn(s: Store)
    requires Shape(s) && !s.pointer.Null?
    ensures var s' := ApplyOp(s, NextOp(s));
            0 <= Remaining(s') < Remaining(s) || (s' == s && s.phase.Sweeping? && Held(s, s.phase.next))
  {
  }

  // ---------- uses of a deleted map ----------

  predicate Danger(w: World) { InDanger(w.spans) || InDanger(w.contexts) }

  function Faults(w: World): nat { w.spans.faults + w.contexts.faults }

  function ResumeOn(spans: bool, c: nat, outcome: Outcome): Step {
    if spans then OnSpans(Resume(c, outcome)) else OnContexts(Resume(c, outcome))
  }

  /** The pointer of a map never dangles while a call on that map is under way. */
  predicate NeverInDanger(sched: seq<Step>) {
    forall k | 0 <= k <= |sched| :: !Danger(Exec(NEW, sched[..k]))
  }

  /** Wherever the run is interrupted to let some call go on, no deleted or missing map is used. */
  ghost predicate FaultFree(sched: seq<Step>) {
    forall k, spans, c, outcome | 0 <= k <= |sched| ::
      Faults(Apply(Exec(NEW, sched[..k]), ResumeOn(spans, c, outcome))) == 0
  }

  lemma {:induction false} SafeRun(sched: seq<Step>)
    requires NeverInDanger(sched)
    ensures Safe(Exec(NEW, sched).spans) && Safe(Exec(NEW, sched).contexts)
  {
    assert sched[..|sched|] == sched;
    if |sched| > 0 {
      var init := sched[..|sched| - 1];
      forall k | 0 <= k <= |init| ensures !Danger(Exec(NEW, init[..k])) { assert init[..k] == sched[..k]; }
      SafeRun(init);
      RunKeepsInv(init);
      var w, a := Exec(NEW, init), sched[|sched| - 1];
      if Enabled(w, a) {
        if SpansOp(w, a) != [] { SafeStep(w.spans, SpansOp(w, a)[0]); }
        if ContextsOp(w, a) != [] { SafeStep(w.contexts, ContextsOp(w, a)[0]); }
      }
    }
  }

  lemma ResumeFaultFree(sched: seq<Step>, k: nat, spans: bool, c: nat, outcome: Outcome)
    requires NeverInDanger(sched) && k <= |sched|
    ensures Faults(Apply(Exec(NEW, sched[..k]), ResumeOn(spans, c, outcome))) == 0
  {
    var init := sched[..k];
    forall j | 0 <= j <= |init| ensures !Danger(Exec(NEW, init[..j])) { assert init[..j] == sched[..j]; }
    SafeRun(init);
    SafeResume(Exec(NEW, init).spans, c, outcome);
    SafeResume(Exec(NEW, init).contexts, c, outcome);
  }

  lemma DangerHasFault(w: World) returns (spans: bool, c: nat)
    requires Danger(w)
    ensures Faults(Apply(w, ResumeOn(spans, c, Published))) > 0
  {
    spans := InDanger(w.spans);
    c := DangerFaults(if spans then w.spans else w.contexts);
  }

  /** The ends and destroys of leftovers and the creates of span contexts do not wait for the
      teardown.  A run is free of uses of a missing or deleted map, wherever any of its calls goes on,
      exactly when no call on a map is under way between the delete of the map and the clearing of
      the pointer. */
  lemma FaultFreeExactly(sched: seq<Step>)
    ensures FaultFree(sched) <==> NeverInDanger(sched)
  {
    if NeverInDanger(sched) {
      forall k, spans, c, outcome | 0 <= k <= |sched|
        ensures Faults(Apply(Exec(NEW, sched[..k]), ResumeOn(spans, c, outcome))) == 0
      {
        ResumeFaultFree(sched, k, spans, c, outcome);
      }
    }
    if FaultFree(sched) {
      forall k | 0 <= k <= |sched| ensures !Danger(Exec(NEW, sched[..k])) {
        if Danger(Exec(NEW, sched[..k])) {
          var spans, c := DangerHasFault(Exec(NEW, sched[..k]));
        }
      }
    }
  }

  // ---------- lookups without the shard lock ----------

  function Races(w: World): nat { w.spans.races + w.contexts.races }

  /** No call that saw no map is still under way when there is one again. */
  predicate NeverOvertaken(sched: seq<Step>) {
    forall k | 0 <= k <= |sched| ::
      !Overtaken(Exec(NEW, sched[..k]).spans) && !Overtaken(Exec(NEW, sched[..k]).contexts)
  }

  /** Wherever the run is interrupted to let some call go on, no map is used without its shard lock. */
  ghost predicate RaceFree(sched: seq<Step>) {
    forall k, spans, c, outcome | 0 <= k <= |sched| ::
      Races(Apply(Exec(NEW, sched[..k]), ResumeOn(spans, c, outcome))) == 0
  }

  lemma {:induction false} OrderedRun(sched: seq<Step>)
    requires NeverOvertaken(sched)
    ensures Races(Exec(NEW, sched)) == 0
  {
    if |sched| > 0 {
      var init := sched[..|sched| - 1];
      forall k | 0 <= k <= |init|
        ensures !Overtaken(Exec(NEW, init[..k]).spans) && !Overtaken(Exec(NEW, init[..k]).contexts)
      {
        assert init[..k] == sched[..k];
      }
      OrderedRun(init);
      assert init[..|init|] == init;
      RacesGrow(Exec(NEW, init), sched[|sched| - 1]);
    }
  }

  lemma RacesGrow(w: World, a: Step)
    ensures !Overtaken(w.spans) && !Overtaken(w.contexts) ==> Races(Apply(w, a)) == Races(w)
    ensures Races(w) <= Races(Apply(w, a))
  {
    if SpansOp(w, a) != [] { OvertakenRaces(w.spans, SpansOp(w, a)[0]); }
    if ContextsOp(w, a) != [] { OvertakenRaces(w.contexts, ContextsOp(w, a)[0]); }
  }

  lemma OvertakenHasRace(w: World) returns (spans: bool, c: nat)
    requires Overtaken(w.spans) || Overtaken(w.contexts)
    ensures Races(Apply(w, ResumeOn(spans, c, Published))) > 0
  {
    spans := Overtaken(w.spans);
    c := OvertakenCall(if spans then w.spans else w.contexts);
  }

  /** A run uses no map without its shard lock, wherever any of its calls goes on, exactly when no end
      or destroy that saw no map is still under way when there is one again. */
  lemma RaceFreeExactly(sched: seq<Step>)
    ensures RaceFree(sched) <==> NeverOvertaken(sched)
  {
    if NeverOvertaken(sched) {
      forall k, spans, c, outcome | 0 <= k <= |sched|
        ensures Races(Apply(Exec(NEW, sched[..k]), ResumeOn(spans, c, outcome))) == 0
      {
        var init := sched[..k];
        forall j | 0 <= j <= |init|
          ensures !Overtaken(Exec(NEW, init[..j]).spans) && !Overtaken(Exec(NEW, init[..j]).contexts)
        {
          assert init[..j] == sched[..j];
        }
        OrderedRun(init);
        RacesGrow(Exec(NEW, init), ResumeOn(spans, c, outcome));
        assert init[..|init|] == init;
      }
    }
    if RaceFree(sched) {
      forall k | 0 <= k <= |sched|
        ensures !Overtaken(Exec(NEW, sched[..k]).spans) && !Overtaken(Exec(NEW, sched[..k]).contexts)
      {
        var w := Exec(NEW, sched[..k]);
        if Overtaken(w.spans) || Overtaken(w.contexts) { var spans, c := OvertakenHasRace(w); }
      }
    }
  }

  // ---------- handles and identifiers ----------

  /** Handles are conserved over every run, every generation and every race of calls with a sweep:
      inserted = erased + swept + dropped with the map + in the map, each is deleted and ended at most
      once, every span handle a teardown finds is swept, and every swept one was ended. */
  lemma HandlesConserved(w: World)
    requires Reachable(w)
    ensures LedgerHolds(w.spans) && LedgerHolds(w.contexts)
    ensures w.spans.ends && w.spans.log.dropped == multiset{}
  {
    ReachableInv(w);
    LedgerAdds(w.spans);
    LedgerAdds(w.contexts);
  }

  function StoreOf(w: World, spans: bool): Store { if spans then w.spans else w.contexts }

  /** What a step that is taken does to one of the maps. */
  function OpOf(w: World, a: Step, spans: bool): seq<Op> {
    if !Enabled(w, a) then [] else if spans then SpansOp(w, a) else ContextsOp(w, a)
  }

  /** How often a run puts a handle into its map, or takes it out, for this cause. */
  function TimesIn(sched: seq<Step>, spans: bool, cause: Cause, h: nat): nat {
    if |sched| == 0 then 0
    else
      var init, a := sched[..|sched| - 1], sched[|sched| - 1];
      TimesIn(init, spans, cause, h) + TimesNow(Exec(NEW, init), a, spans, cause, h)
  }

  function TimesNow(w: World, a: Step, spans: bool, cause: Cause, h: nat): nat {
    var ops := OpOf(w, a, spans);
    if ops == [] then 0 else Times(StoreOf(w, spans), ops[0], cause, h)
  }

  /** The records about a handle are the counts of its causes. */
  ghost predicate Tallied(s: Store, h: nat, created: nat, ended: nat, destroyed: nat, swept: nat, dropped: nat) {
    && s.log.inserted[h] == created && s.log.erased[h] == ended + destroyed
    && s.log.swept[h] == swept && s.log.dropped[h] == dropped
    && s.log.ended[h] == ended + (if s.ends then swept else 0)
  }

  lemma TallyStep(w: World, a: Step, spans: bool, h: nat, n: nat, e: nat, d: nat, m: nat, k: nat)
    requires Inv(w) && Tallied(StoreOf(w, spans), h, n, e, d, m, k)
    ensures Tallied(StoreOf(Apply(w, a), spans), h,
              n + TimesNow(w, a, spans, ByCreate, h), e + TimesNow(w, a, spans, ByEnd, h),
              d + TimesNow(w, a, spans, ByDestroy, h), m + TimesNow(w, a, spans, BySweep, h),
              k + TimesNow(w, a, spans, ByDelete, h))
  {
    var s := StoreOf(w, spans);
    OneStore(w, a, spans);
    if OpOf(w, a, spans) != [] {
      EndsStays(s, OpOf(w, a, spans)[0]);
      StepRecorded(s, OpOf(w, a, spans)[0], h);
    }
  }

  lemma OneStore(w: World, a: Step, spans: bool)
    ensures StoreOf(Apply(w, a), spans) == Do(StoreOf(w, spans), OpOf(w, a, spans))
  {
  }

  lemma {:induction false} TallyRun(sched: seq<Step>, spans: bool, h: nat)
    ensures Tallied(StoreOf(Exec(NEW, sched), spans), h,
              TimesIn(sched, spans, ByCreate, h), TimesIn(sched, spans, ByEnd, h),
              TimesIn(sched, spans, ByDestroy, h), TimesIn(sched, spans, BySweep, h),
              TimesIn(sched, spans, ByDelete, h))
  {
    if |sched| > 0 {
      var init, a := sched[..|sched| - 1], sched[|sched| - 1];
      TallyRun(init, spans, h);
      RunKeepsInv(init);
      TallyStep(Exec(NEW, init), a, spans, h,
        TimesIn(init, spans, ByCreate, h), TimesIn(init, spans, ByEnd, h),
        TimesIn(init, spans, ByDestroy, h), TimesIn(init, spans, BySweep, h),
        TimesIn(init, spans, ByDelete, h));
    }
  }

  /** Over every run, whatever is interleaved: a handle is put into its map by one create at most, and
      is in the map exactly until one end, destroy, sweep or delete takes it out, which happens once at
      most.  A handle that an end takes out has been ended once, one that a destroy takes out never,
      and one that the sweep takes out once if it is a span. */
  lemma EndedExactlyOnce(sched: seq<Step>, spans: bool, h: nat)
    ensures var s := StoreOf(Exec(NEW, sched), spans);
            var created, ended := TimesIn(sched, spans, ByCreate, h), TimesIn(sched, spans, ByEnd, h);
            var destroyed, swept := TimesIn(sched, spans, ByDestroy, h), TimesIn(sched, spans, BySweep, h);
            var left := ended + destroyed + swept + TimesIn(sched, spans, ByDelete, h);
            && left <= created <= 1 && (Present(s, h) <==> left < created)
            && s.log.deleted[h] == left
            && (ended > 0 ==> s.log.ended[h] == 1)
            && (destroyed > 0 ==> s.log.ended[h] == 0)
            && (swept > 0 ==> s.log.ended[h] == if spans then 1 else 0)
            && (Present(s, h) ==> s.log.ended[h] == 0)
  {
    TallyRun(sched, spans, h);
    RunKeepsInv(sched);
    var s := StoreOf(Exec(NEW, sched), spans);
    assert StoreInv(s) && s.ends == spans;
    assert Balanced(s, h);
  }

  /** Over every run and for both maps: no two calls hold the lock of one shard, and while a call holds
      it nobody else changes an entry of that shard, but for the delete of the map and a call that saw
      no map. */
  lemma ShardLocksProtect(w: World, a: Step, spans: bool, c: nat, d: nat, idx: int)
    requires Reachable(w)
    ensures Apart(StoreOf(w, spans), c, d)
    ensures OpOf(w, a, spans) != [] && Guarded(StoreOf(w, spans), OpOf(w, a, spans)[0], c, idx) ==>
              SameEntry(StoreOf(w, spans), StoreOf(Apply(w, a), spans), idx)
  {
    ReachableInv(w);
    var s := StoreOf(w, spans);
    assert StoreInv(s) && Exclusive(s);
    OneStore(w, a, spans);
    if OpOf(w, a, spans) != [] && Guarded(s, OpOf(w, a, spans)[0], c, idx) {
      LockProtects(s, OpOf(w, a, spans)[0], c, idx);
    }
  }

  /** A step that takes a span context identifier. */
  predicate TakesContext(w: World, a: Step) {
    Enabled(w, a) && a.OnContexts? && Takes(w.contexts, a.op)
  }

  /** A run with the generations of the span context map in which an identifier was taken between the
      save and the delete of the teardown, and whether one was taken in a later generation. */
  datatype Trace = Trace(w: World, late: set<nat>, reissued: bool)

  predicate Before(late: set<nat>, g: nat) { exists x | x in late :: x < g }

  function Next(r: Trace, a: Step): Trace {
    var takes := TakesContext(r.w, a);
    Trace(Apply(r.w, a),
          if takes && r.w.contexts.phase.Saved? then r.late + {r.w.contexts.gen} else r.late,
          r.reissued || (takes && Before(r.late, r.w.contexts.gen)))
  }

  function TraceOf(sched: seq<Step>): Trace {
    if |sched| == 0 then Trace(NEW, {}, false) else Next(TraceOf(sched[..|sched| - 1]), sched[|sched| - 1])
  }

  /** Some step of the run takes a span context identifier in a generation after one in which one was
      taken late. */
  predicate Reissues(sched: seq<Step>) { TraceOf(sched).reissued }

  /** The generation that the next identifier belongs to. */
  function NextGen(s: Store): nat { if s.pointer.Live? then s.gen else s.gen + 1 }

  function NumberingOf(late: set<nat>, s: Store): Numbering {
    if Before(late, NextGen(s)) then Behind else if late != {} then TakenLate else Sound
  }

  ghost predicate TraceOk(r: Trace) {
    && Inv(r.w)
    && (forall g | g in r.late :: g <= r.w.contexts.gen)
    && (if r.reissued then !Distinct(r.w.contexts)
        else NumberingOk(r.w.contexts, NumberingOf(r.late, r.w.contexts)))
  }

  /** What a step does to the generation and to who takes identifiers. */
  lemma ContextsFollow(w: World, a: Step)
    requires Enabled(w, a) && ContextsOp(w, a) != [] && Shape(w.contexts)
    ensures var s, s', op := w.contexts, Apply(w, a).contexts, ContextsOp(w, a)[0];
            && (TakesContext(w, a) <==> Takes(s, op))
            && (s'.gen == s.gen || (s'.gen == s.gen + 1 && s.pointer.Null? && s'.pointer.Live?))
            && (op.DeleteMap? && s.phase.Saved? ==> s'.gen == s.gen && !s'.pointer.Live?)
            && (s.pointer.Live? && !(op.DeleteMap? && s.phase.Saved?) ==> s'.pointer.Live? && s'.gen == s.gen)
            && (!s.pointer.Live? && s'.gen == s.gen ==> !s'.pointer.Live?)
  {
  }

  lemma StatusFollows(r: Trace, a: Step)
    requires TraceOk(r) && !r.reissued && Enabled(r.w, a) && ContextsOp(r.w, a) != []
    ensures var s, op := r.w.contexts, ContextsOp(r.w, a)[0];
            && (TakesContext(r.w, a) && Before(r.late, s.gen) <==> NumberingOf(r.late, s).Behind? && Takes(s, op))
            && (!(NumberingOf(r.late, s).Behind? && Takes(s, op)) ==>
                  NumberingOf(Next(r, a).late, Apply(r.w, a).contexts)
                  == NextNumbering(s, op, NumberingOf(r.late, s)))
  {
    ContextsFollow(r.w, a);
    if NumberingOf(r.late, r.w.contexts).Behind? {
      BehindFollows(r, a);
    } else if NumberingOf(r.late, r.w.contexts).TakenLate? {
      SomeLate(r.late, r.w.contexts);
      assert r.w.contexts.phase.Saved? && r.w.contexts.pointer.Live?;
    }
  }

  lemma BehindFollows(r: Trace, a: Step)
    requires Before(r.late, NextGen(r.w.contexts)) && NextGen(r.w.contexts) <= NextGen(Apply(r.w, a).contexts)
    ensures Before(Next(r, a).late, NextGen(Apply(r.w, a).contexts))
  {
    var x :| x in r.late && x < NextGen(r.w.contexts);
    assert x in Next(r, a).late;
  }

  lemma SomeLate(late: set<nat>, s: Store)
    requires late != {} && forall g | g in late :: g <= s.gen
    ensures Before(late, s.gen + 1)
  {
    var g :| g in late;
    assert g < s.gen + 1;
  }

  lemma TraceStep(r: Trace, a: Step)
    requires TraceOk(r)
    ensures TraceOk(Next(r, a))
  {
    StepKeepsInv(r.w, a);
    if Enabled(r.w, a) && ContextsOp(r.w, a) != [] {
      var op := ContextsOp(r.w, a)[0];
      ContextsFollow(r.w, a);
      if r.reissued {
        RepeatStays(r.w.contexts, op);
      } else {
        NumberingStep(r.w.contexts, op, NumberingOf(r.late, r.w.contexts));
        StatusFollows(r, a);
      }
    }
  }

  lemma {:induction false} TraceRun(sched: seq<Step>)
    ensures TraceOk(TraceOf(sched)) && TraceOf(sched).w == Exec(NEW, sched)
  {
    if |sched| == 0 {
      EmptyHasInv(true);
      EmptyHasInv(false);
    } else {
      TraceRun(sched[..|sched| - 1]);
      TraceStep(TraceOf(sched[..|sched| - 1]), sched[|sched| - 1]);
    }
  }

  /** No span identifier is issued twice over all generations.  Span context identifiers are distinct
      exactly in the runs that take none in a generation after one in which one was taken between the
      save and the delete of its teardown. */
  lemma IdentifiersRepeatExactly(sched: seq<Step>)
    ensures Distinct(Exec(NEW, sched).spans)
    ensures Distinct(Exec(NEW, sched).contexts) <==> !Reissues(sched)
  {
    RunKeepsInv(sched);
    TraceRun(sched);
    DistinctNumbering(TraceOf(sched));
  }

  lemma DistinctNumbering(r: Trace)
    requires TraceOk(r)
    ensures r.reissued <==> !Distinct(r.w.contexts)
  {
  }

  lemma {:induction false} HistoryRun(before: seq<Step>, after: seq<Step>)
    ensures HistoryGrows(Exec(NEW, before).spans, Exec(NEW, before + after).spans)
    ensures HistoryGrows(Exec(NEW, before).contexts, Exec(NEW, before + after).contexts)
    decreases |after|
  {
    if |after| == 0 {
      assert before + after == before;
    } else {
      var init := after[..|after| - 1];
      assert (before + after)[..|before + after| - 1] == before + init;
      HistoryRun(before, init);
      HistoryStep(Exec(NEW, before), Exec(NEW, before + init), after[|after| - 1]);
    }
  }

  lemma HistoryStep(was: World, w: World, a: Step)
    requires HistoryGrows(was.spans, w.spans) && HistoryGrows(was.contexts, w.contexts)
    ensures HistoryGrows(was.spans, Apply(w, a).spans) && HistoryGrows(was.contexts, Apply(w, a).contexts)
  {
    if SpansOp(w, a) != [] { OpKeepsHistory(w.spans, SpansOp(w, a)[0]); }
    if ContextsOp(w, a) != [] { OpKeepsHistory(w.contexts, ContextsOp(w, a)[0]); }
  }

  /** If the structure of the ticket finds a handle, it is its own, and was not deleted before. */
  predicate Resolves(s: Store, ticket: nat, was: Store) {
    ticket < |s.issued| && s.issued[ticket] in s.entries ==>
      s.entries[s.issued[ticket]] == ticket && was.log.deleted[ticket] == 0
  }

  lemma OwnHandleOnly(s: Store, ticket: nat, was: Store)
    requires StoreInv(s) && Distinct(s) && HistoryGrows(was, s)
    ensures Resolves(s, ticket, was)
  {
    if ticket < |s.issued| && s.issued[ticket] in s.entries {
      FindsOwnHandle(s, ticket);
      if was.log.deleted[ticket] > 0 { GoneForGood(s, ticket); }
    }
  }

  /** A structure whose handle was deleted never finds a handle again, whatever happens afterwards,
      and a structure that does find one finds the handle made for it; for span contexts as long as no
      identifier was issued twice. */
  lemma LeftoverNeverResolves(before: seq<Step>, after: seq<Step>, ticket: nat)
    ensures var w1, w2 := Exec(NEW, before), Exec(NEW, before + after);
            && Resolves(w2.spans, ticket, w1.spans)
            && (!Reissues(before + after) ==> Resolves(w2.contexts, ticket, w1.contexts))
  {
    RunKeepsInv(before + after);
    HistoryRun(before, after);
    IdentifiersRepeatExactly(before + after);
    var w1, w2 := Exec(NEW, before), Exec(NEW, before + after);
    OwnHandleOnly(w2.spans, ticket, w1.spans);
    if !Reissues(before + after) { OwnHandleOnly(w2.contexts, ticket, w1.contexts); }
  }

  /** The identifier of the call is not in the map. */
  predicate Misses(s: Store, c: nat) {
    c in s.calls && (s.calls[c].Publishing? || s.calls[c].Skipping?) ==> IdOf(s, s.calls[c].ticket) !in s.entries
  }

  lemma CallMisses(s: Store, c: nat)
    requires StoreInv(s) && Distinct(s)
    ensures Misses(s, c)
  {
    if c in s.calls {
      if s.calls[c].Publishing? { NoCollision(s, c); }
      if s.calls[c].Skipping? { UnlockedFindsNothing(s, c); }
    }
  }

  /** The "duplicate id" branch of a registration is never taken, and a call that found no map but is
      overtaken by a new one, and so looks into it without the shard lock, finds nothing there; for
      span contexts as long as no identifier was issued twice. */
  lemma PublishNeverCollides(sched: seq<Step>, c: nat)
    ensures Misses(Exec(NEW, sched).spans, c)
    ensures !Reissues(sched) ==> Misses(Exec(NEW, sched).contexts, c)
  {
    RunKeepsInv(sched);
    IdentifiersRepeatExactly(sched);
    CallMisses(Exec(NEW, sched).spans, c);
    if !Reissues(sched) { CallMisses(Exec(NEW, sched).contexts, c); }
  }

  // ---------- the failing runs ----------

  lemma Then(w: World, a: Step)
    requires Reachable(w)
    ensures Reachable(Apply(w, a))
  {
    var sched :| Exec(NEW, sched) == w;
    assert (sched + [a])[..|sched|] == sched;
    assert Exec(NEW, sched + [a]) == Apply(w, a);
  }

  lemma NewReachable()
    ensures Reachable(NEW)
  {
    assert Exec(NEW, []) == NEW;
  }

  /** A caller's step on the span context map. */
  function OnMap(w: World, op: Op): World {
    w.(contexts := ApplyOp(w.contexts, op))
  }

  lemma ThenOnContexts(w: World, op: Op)
    requires Reachable(w) && CallerOp(op) && (op.Create? ==> op.owner == NOBODY)
    ensures Reachable(OnMap(w, op))
  {
    Then(w, OnContexts(op));
  }

  predicate OneTracerOpen(w: World) {
    w.stage.Open? && w.count == 1 && w.tracers == map[0 := true] && IdleSpans(w.spans)
  }

  /** A span map of one shard without entries or calls. */
  predicate IdleSpans(s: Store) {
    s.pointer.Live? && s.phase.Standing? && s.shards == 1 && s.calls == map[] && s.entries == map[]
  }

  /** One tracer, maps of one shard, and a create of a span context by nobody's call under way. */
  lemma OneTracer() returns (w: World)
    ensures Reachable(w) && OneTracerOpen(w)
    ensures w.contexts == Empty(false).(pointer := Live, gen := 1, calls := map[0 := Creating(NOBODY)])
  {
    NewReachable();
    w := Apply(NEW, Register(0, true, true, 1));
    Then(NEW, Register(0, true, true, 1));
    ThenOnContexts(w, Create(0, NOBODY));
    w := OnMap(w, Create(0, NOBODY));
  }

  /** The only call under way, a create, goes on until the caller has its structure. */
  lemma FinishCreate(w: World) returns (w': World)
    requires Reachable(w) && w.contexts.pointer.Live? && w.contexts.calls == map[0 := Creating(NOBODY)]
    requires w.contexts.id !in w.contexts.entries
    ensures Reachable(w') && w' == OnContextMap(w, w'.contexts)
    ensures var s, p := w.contexts, |w.contexts.issued|;
            w'.contexts == s.(id := s.id + 1, issued := s.issued + [s.id], calls := map[], structs := s.structs + {p},
                              entries := s.entries[s.id := p],
                              log := s.log.(inserted := s.log.inserted + multiset{p}))
  {
    var op := Resume(0, Published);
    var w1 := OnMap(w, op);
    var w2 := OnMap(w1, op);
    ThenOnContexts(w, op);
    ThenOnContexts(w1, op);
    ThenOnContexts(w2, op);
    CreateAlone(w.contexts, 0);
    w' := OnMap(w2, op);
  }

  function OnContextMap(w: World, s: Store): World { w.(contexts := s) }

  lemma OneStructure() returns (w: World)
    ensures Reachable(w) && OneTracerOpen(w)
    ensures w.contexts.pointer.Live? && w.contexts.phase.Standing? && w.contexts.shards == 1
    ensures w.contexts.calls == map[] && 0 in w.contexts.structs && w.contexts.issued == [0]
  {
    var w0 := OneTracer();
    w := FinishCreate(w0);
  }

  predicate Outside(s: Store) {
    forall c | c in s.calls :: !s.calls[c].Inside? && !s.calls[c].Publishing?
  }

  /** The last destroy sweeps the span context map and saves the numbering. */
  lemma DestroyAndSave(w: World) returns (w': World)
    requires Reachable(w) && OneTracerOpen(w) && Outside(w.contexts) && !Owns(w.contexts, 0)
    requires w.contexts.pointer.Live? && w.contexts.phase.Standing? && w.contexts.shards == 1
    ensures Reachable(w') && w'.stage.ClosingContexts? && w'.contexts.phase.Saved? && w'.contexts.pointer.Live?
    ensures w'.contexts.calls == w.contexts.calls && w'.contexts.id == w'.contexts.base == w.contexts.id
    ensures w'.contexts.issued == w.contexts.issued && w'.contexts.structs == w.contexts.structs
    ensures w'.contexts.gen == w.contexts.gen && w'.contexts.shards == 1
    ensures w'.contexts.entries == map[] && w'.spans == w.spans && w'.count == 0 && w'.tracers == map[]
  {
    Then(w, Unregister(0));
    var w1 := Apply(w, Unregister(0));
    Then(w1, Close);
    var w2 := Apply(w1, Close);
    SweepAndSave(w2);
    Then(w2, Close);
    Then(Apply(w2, Close), Close);
    w' := Apply(Apply(w2, Close), Close);
  }

  lemma SweepAndSave(w: World)
    requires w.stage.ClosingContexts? && w.contexts.pointer.Live? && w.contexts.phase == Sweeping(0)
    requires w.contexts.shards == 1 && Outside(w.contexts)
    ensures var w' := Apply(Apply(w, Close), Close);
            && w'.stage.ClosingContexts? && w'.contexts.phase.Saved? && w'.contexts.pointer.Live?
            && w'.contexts.calls == w.contexts.calls
            && w'.contexts.id == w'.contexts.base == w.contexts.id
            && w'.contexts.issued == w.contexts.issued && w'.contexts.structs == w.contexts.structs
            && w'.contexts.gen == w.contexts.gen && w'.contexts.shards == 1
            && w'.contexts.entries == map[]
            && w'.spans == w.spans && w'.count == w.count && w'.tracers == w.tracers
  {
    assert !Held(w.contexts, 0);
    assert Apply(w, Close).contexts == SweptShard(w.contexts, 0);
    forall idx ensures idx !in SweptShard(w.contexts, 0).entries { HomeBelow(w.contexts, idx); }
    assert SweptShard(w.contexts, 0).entries.Keys == {};
  }

  lemma DeleteOvertakes(w: World)
    requires w.stage.ClosingContexts? && w.contexts.phase.Saved? && w.contexts.pointer.Live?
    requires w.contexts.calls == map[0 := Checked(0, Destroy)]
    ensures Apply(w, Close).contexts.calls == w.contexts.calls
    ensures Faults(Apply(Apply(w, Close), ResumeOn(false, 0, Published))) > 0
  {
    var w' := Apply(w, Close);
    assert w'.contexts == DeletedMap(w.contexts);
    assert Apply(w', ResumeOn(false, 0, Published)).contexts == Fault(w'.contexts, 0);
  }

  /** A destroy of a leftover span context that tested the pointer before the last tracer went away
      locks a shard of the deleted map. */
  lemma LeftoverDestroyFaults()
    ensures exists sched :: !FaultFree(sched)
                            && Exec(NEW, sched).contexts.calls == map[0 := Checked(0, Destroy)]
                            && Faults(Apply(Exec(NEW, sched), OnContexts(Resume(0, Published)))) > 0
  {
    var w0 := OneStructure();
    ThenOnContexts(w0, Enter(0, 0, Destroy));
    var w1 := OnMap(w0, Enter(0, 0, Destroy));
    assert w1.contexts.calls == map[0 := Checked(0, Destroy)];
    var w2 := DestroyAndSave(w1);
    DeleteOvertakes(w2);
    Then(w2, Close);
    var sched :| Exec(NEW, sched) == Apply(w2, Close);
    assert sched[..|sched|] == sched;
    assert Faults(Apply(Exec(NEW, sched[..|sched|]), ResumeOn(false, 0, Published))) > 0;
  }

  /** The teardown goes on: the span context map is deleted and its pointer cleared. */
  lemma DeleteAndClear(w: World) returns (w': World)
    requires Reachable(w) && w.stage.ClosingContexts? && w.contexts.phase.Saved? && w.contexts.pointer.Live?
    ensures Reachable(w')
    ensures w' == w.(contexts := w'.contexts) && w'.contexts.pointer.Null? && w'.contexts.phase.Standing?
    ensures w'.contexts == w.contexts.(pointer := Null, phase := Standing, entries := map[], log := w'.contexts.log)
    ensures w'.contexts.log.deleted
         == w.contexts.log.deleted + multiset(Tickets(w.contexts, w.contexts.entries.Keys))
  {
    Then(w, Close);
    var w1 := Apply(w, Close);
    assert w1.contexts == DeletedMap(w.contexts);
    Then(w1, Close);
    w' := Apply(w1, Close);
  }

  /** The span map follows, and a tracer can register again. */
  lemma CloseSpans(w: World) returns (w': World)
    requires Reachable(w) && w.stage.ClosingContexts? && IdleSpans(w.spans)
    requires w.contexts.pointer.Null? && w.contexts.phase.Standing?
    ensures Reachable(w') && w' == w.(stage := Open, spans := w'.spans)
    ensures w'.spans.pointer.Null? && w'.spans.phase.Standing? && w'.spans.calls == map[]
  {
    Then(w, Close);
    var w1 := Apply(w, Close);
    assert w1 == w.(stage := ClosingSpans);
    Then(w1, Close);
    var w2 := Apply(w1, Close);
    assert w2.spans == w.spans.(phase := Sweeping(0)) && !Held(w2.spans, 0);
    Then(w2, Close);
    var w3 := Apply(w2, Close);
    assert w3.spans == SweptShard(w2.spans, 0);
    Then(w3, Close);
    var w4 := Apply(w3, Close);
    w' := CloseSavedSpans(w4);
  }

  lemma CloseSavedSpans(w: World) returns (w': World)
    requires Reachable(w) && w.stage.ClosingSpans? && w.spans.phase.Saved? && w.spans.pointer.Live?
    ensures Reachable(w') && w' == w.(stage := Open, spans := w'.spans)
    ensures w'.spans.pointer.Null? && w'.spans.phase.Standing? && w'.spans.calls == w.spans.calls
  {
    Then(w, Close);
    var w1 := Apply(w, Close);
    assert w1.spans == DeletedMap(w.spans);
    Then(w1, Close);
    var w2 := Apply(w1, Close);
    Then(w2, Close);
    w' := Apply(w2, Close);
  }

  /** A new tracer brings new maps. */
  lemma Again(w: World) returns (w': World)
    requires Reachable(w) && w.stage.Open? && w.tracers == map[]
    requires w.spans.pointer.Null? && w.spans.phase.Standing? && w.contexts.pointer.Null? && w.contexts.phase.Standing?
    ensures Reachable(w') && w'.contexts == ApplyOp(w.contexts, Allocate(1))
  {
    Then(w, Register(1, true, true, 1));
    w' := Apply(w, Register(1, true, true, 1));
  }

  /** A create of a span context takes an identifier after the numbering was saved, and publishes its
      structure, ticket 0, before the delete. */
  lemma LateStructure() returns (w: World)
    ensures Reachable(w) && w.stage.ClosingContexts? && w.contexts.phase.Saved? && w.contexts.pointer.Live?
    ensures w.contexts.calls == map[] && w.contexts.issued == [0] && w.contexts.structs == {0}
    ensures w.contexts.entries == map[0 := 0] && w.contexts.base == 0
    ensures IdleSpans(w.spans) && w.tracers == map[] && w.contexts.shards == 1
  {
    var w0 := OneTracer();
    var w1 := DestroyAndSave(w0);
    w := FinishCreate(w1);
  }

  /** The identifier is issued again in the next generation: the contexts of a reachable state are not
      distinct, and the late structure, whose own handle is deleted, finds the handle of the new
      structure, ticket 1. */
  lemma LateStructureFindsForeignHandle() returns (w: World)
    ensures Reachable(w) && !Distinct(w.contexts) && w.contexts.issued == [0, 0]
    ensures w.contexts.structs == {0, 1} && w.contexts.entries == map[0 := 1] && w.contexts.log.deleted[0] > 0
    ensures w.contexts.pointer.Live? && w.contexts.calls == map[] && w.contexts.shards == 1
  {
    var w0 := LeftoverInNewMap();
    ThenOnContexts(w0, Create(0, NOBODY));
    w := FinishCreate(OnMap(w0, Create(0, NOBODY)));
    assert w.contexts.issued[0] == w.contexts.issued[1];
  }

  /** The late structure has outlived its map, and there is a new one. */
  lemma LeftoverInNewMap() returns (w: World)
    ensures Reachable(w) && w.contexts.pointer.Live? && w.contexts.shards == 1 && w.contexts.id == 0
    ensures w.contexts.calls == map[] && w.contexts.issued == [0] && w.contexts.structs == {0}
    ensures w.contexts.entries == map[] && w.contexts.log.deleted[0] > 0
  {
    var w0 := LateStructure();
    var w1 := DeleteAndClear(w0);
    HasTicket(w0.contexts, w0.contexts.entries.Keys, 0);
    var w2 := CloseSpans(w1);
    w := Again(w2);
  }

  /** And when it is destroyed it takes that handle away: the new structure is still in its caller's
      hands, and its handle is deleted. */
  lemma LateStructureErasesForeignHandle() returns (w: World)
    ensures Reachable(w) && w.contexts.structs == {1} && w.contexts.entries == map[]
    ensures w.contexts.log.erased[1] > 0 && w.contexts.log.deleted[1] > 0
  {
    var w0 := LateStructureFindsForeignHandle();
    var w1 := OnMap(w0, Enter(2, 0, Destroy));
    var w2 := OnMap(w1, Resume(2, Published));
    ThenOnContexts(w0, Enter(2, 0, Destroy));
    ThenOnContexts(w1, Resume(2, Published));
    ThenOnContexts(w2, Resume(2, Published));
    UseAlone(w0.contexts, 2, 0, Destroy);
    w := OnMap(w2, Resume(2, Published));
    assert w.contexts.entries == map[0 := 1] - {0} == map[];
  }

  /** A create that took its identifier late and was held up over the delete publishes in the next map;
      the create that is issued the same identifier there then meets it. */
  lemma CollisionReachable() returns (w: World)
    ensures Reachable(w) && !Misses(w.contexts, 1)
  {
    var w0 := OneTracer();
    var w1 := DestroyAndSave(w0);
    ThenOnContexts(w1, Resume(0, Published));
    var w2 := OnMap(w1, Resume(0, Published));
    assert w2.contexts == TakeId(w1.contexts, 0, NOBODY);
    var w3 := DeleteAndClear(w2);
    var w4 := CloseSpans(w3);
    var w5 := Again(w4);
    assert w5.contexts.calls == map[0 := Reserved(0, NOBODY)] && w5.contexts.issued == [0] && w5.contexts.id == 0;
    var w6 := SecondCreate(w5);
    w := Collide(w6);
  }

  lemma SecondCreate(w: World) returns (w': World)
    requires Reachable(w) && w.contexts.pointer.Live? && w.contexts.calls == map[0 := Reserved(0, NOBODY)]
    requires w.contexts.issued == [0] && w.contexts.id == 0 && w.contexts.entries == map[]
    ensures Reachable(w') && w'.contexts.pointer.Live? && w'.contexts.entries == map[]
    ensures w'.contexts.calls == map[0 := Reserved(0, NOBODY), 1 := Reserved(1, NOBODY)]
    ensures w'.contexts.issued == [0, 0]
  {
    ThenOnContexts(w, Create(1, NOBODY));
    var w1 := OnMap(w, Create(1, NOBODY));
    ThenOnContexts(w1, Resume(1, Published));
    w' := OnMap(w1, Resume(1, Published));
    CreateBeside(w.contexts, 1);
  }

  lemma Collide(w: World) returns (w': World)
    requires Reachable(w) && w.contexts.pointer.Live? && w.contexts.entries == map[]
    requires w.contexts.calls == map[0 := Reserved(0, NOBODY), 1 := Reserved(1, NOBODY)]
    requires w.contexts.issued == [0, 0]
    ensures Reachable(w') && !Misses(w'.contexts, 1)
  {
    PublishBeside(w.contexts, 0, 1, 0);
    ThenOnContexts(w, Resume(0, Published));
    var w1 := OnMap(w, Resume(0, Published));
    ThenOnContexts(w1, Resume(0, Published));
    var w2 := OnMap(w1, Resume(0, Published));
    var s := w2.contexts;
    assert s.calls == map[1 := Reserved(1, NOBODY)] && 0 in s.entries && s.issued == [0, 0];
    LockAlone(s, 1);
    ThenOnContexts(w2, Resume(1, Published));
    w' := OnMap(w2, Resume(1, Published));
    assert w'.contexts == Resumed(s, 1, Published);
  }

  /** A destroy of a leftover that finds no map is overtaken by the next tracer. */
  lemma OvertakenReachable() returns (w: World)
    ensures Reachable(w) && Overtaken(w.contexts)
  {
    var w0 := OneStructure();
    var w1 := DestroyAndSave(w0);
    var w2 := DeleteAndClear(w1);
    ThenOnContexts(w2, Enter(0, 0, Destroy));
    var w3 := OnMap(w2, Enter(0, 0, Destroy));
    assert w3.contexts.calls[0] == Skipping(0);
    var w4 := CloseSpans(w3);
    w := Again(w4);
    assert w.contexts.calls[0] == Skipping(0);
  }

  // ---------- the process-wide state as an object ----------

  /** The tracer count, the two maps, and how far a teardown is. */
  class TracerCount {
    var count: int
    ghost var tracers: map<int, bool>
    var stage: Stage
    const spans: SharedHandles
    const contexts: SharedHandles

    constructor ()
      ensures fresh(spans) && fresh(contexts) && spans != contexts
      ensures View() == NEW
    {
      count, tracers, stage := 0, map[], Open;
      spans := new SharedHandles(true);
      contexts := new SharedHandles(false);
    }

    ghost function View(): World
      reads this, spans, contexts
    {
      World(count, tracers, stage, spans.View(), contexts.View())
    }

    /** otel_tracer_register, under the tracer count mutex. */
    method RegisterTracer(t: nat, spanMemory: bool, contextMemory: bool, shards: nat) returns (ok: bool)
      requires Inv(View()) && Enabled(View(), Register(t, spanMemory, contextMemory, shards)) && spans != contexts
      modifies this, spans, contexts
      ensures View() == Apply(old(View()), Register(t, spanMemory, contextMemory, shards))
      ensures ok == tracers[t]
    {
      count := count + 1;
      ok := spans.Init(spanMemory, shards);
      if ok {
        ok := contexts.Init(contextMemory, shards);
      }
      tracers := tracers[t := ok];
    }

    /** otel_tracer_unregister up to the decision; at zero the mutex stays held for the teardown. */
    method UnregisterTracer(t: nat) returns (last: bool)
      requires Enabled(View(), Unregister(t))
      modifies this
      ensures View() == Apply(old(View()), Unregister(t)) && last == (count == 0)
    {
      tracers := tracers - {t};
      count := count - 1;
      last := count == 0;
      if last {
        stage := ClosingContexts;
      }
    }

    /** The next step of the teardown of one map; a sweep waits until the shard mutex is granted. */
    method Advance(s: SharedHandles, granted: bool)
      requires granted <==> s.phase.Sweeping? && !Held(s.View(), s.phase.next)
      requires s == spans || s == contexts
      requires StoreInv(s.View()) && spans != contexts && !s.pointer.Null?
      modifies s
      ensures s.View() == ApplyOp(old(s.View()), NextOp(old(s.View())))
    {
      EntriesDiffer(s.View());
      match s.phase {
        case Standing => s.StartTeardown();
        case Sweeping(i) =>
          if i >= s.shards {
            s.SaveNumbering();
          } else if granted {
            s.SweepOne();
          }
        case Saved => s.DeleteTheMap();
        case Deleted => s.ClearThePointer();
      }
    }

    method CloseStep(granted: bool)
      requires var s := if stage.ClosingContexts? then contexts else spans;
               granted <==> s.phase.Sweeping? && !Held(s.View(), s.phase.next)
      requires Inv(View()) && !stage.Open? && spans != contexts
      modifies this, spans, contexts
      ensures View() == Apply(old(View()), Close)
    {
      if stage.ClosingContexts? {
        if contexts.pointer.Null? {
          stage := ClosingSpans;
        } else {
          Advance(contexts, granted);
        }
      } else if spans.pointer.Null? {
        stage := Open;
      } else {
        Advance(spans, granted);
      }
    }
  }
}
