// The drop-counting protocol of the span and the log processor (src/processor.cpp).
//
// A producer call runs three separate atomic actions: load produced, load consumed, and then
// either raise produced or count a drop.  The exporter wrapper raises consumed whenever the batch
// processor hands it a batch.  `Exec` runs an arbitrary schedule of those actions; an action that
// is not enabled leaves the state alone, so every sequence of steps is an interleaving.
// The fields of `Counters` count without a limit; what a load returns is that number modulo 2^64,
// as the 64-bit atomics hold it.

module DropCounting {

  const U64: nat := 0x1_0000_0000_0000_0000
  const I63: nat := 0x8000_0000_0000_0000

  /** Unsigned 64-bit subtraction, which wraps. */
  function USub(a: nat, b: nat): nat {
    (a - b) % U64
  }

  /** The cast of an unsigned 64-bit value to a signed one. */
  function ToInt64(a: nat): int {
    if a % U64 < I63 then a % U64 else a % U64 - U64
  }

  /** The progress of one OnEnd/OnEmit call together with the values it has loaded. */
  datatype Call =
    | Idle
    | ProducedLoaded(prod: nat)
    | BothLoaded(prod: nat, cons: nat)

  datatype Counters = Counters(
    max: nat, produced: nat, consumed: nat, dropped: nat, completed: nat, calls: seq<Call>,
    exporting: seq<nat>, recordsOk: nat, recordsFail: nat)

  datatype Step =
    | LoadProduced(t: nat)
    | LoadConsumed(t: nat)
    | Count(t: nat)
    | ExportBegin(n: nat)
    | ExportEnd(i: nat, success: bool)

  function Start(max: nat, threads: nat): Counters {
    Counters(max, 0, 0, 0, 0, seq(threads, _ => Idle), [], 0, 0)
  }

  /** The test that classifies a record as dropped, from the two loaded values. */
  predicate Full(max: nat, prod: nat, cons: nat) {
    prod > cons && USub(prod, cons) >= max
  }

  predicate Enabled(s: Counters, a: Step) {
    match a
    case LoadProduced(t) => t < |s.calls| && s.calls[t].Idle?
    case LoadConsumed(t) => t < |s.calls| && s.calls[t].ProducedLoaded?
    case Count(t) => t < |s.calls| && s.calls[t].BothLoaded?
    case ExportBegin(_) => true
    case ExportEnd(i, _) => i < |s.exporting|
  }

  function Apply(s: Counters, a: Step): Counters {
    if !Enabled(s, a) then s else
    match a
    case LoadProduced(t) => s.(calls := s.calls[t := ProducedLoaded(s.produced % U64)])
    case LoadConsumed(t) => s.(calls := s.calls[t := BothLoaded(s.calls[t].prod, s.consumed % U64)])
    case Count(t) =>
      var s' := s.(calls := s.calls[t := Idle], completed := s.completed + 1);
      if Full(s.max, s.calls[t].prod, s.calls[t].cons)
      then s'.(dropped := s.dropped + 1)
      else s'.(produced := s.produced + 1)
    case ExportBegin(n) => s.(consumed := s.consumed + n, exporting := s.exporting + [n])
    case ExportEnd(i, success) =>
      var n := s.exporting[i];
      var s' := s.(exporting := s.exporting[..i] + s.exporting[i + 1..]);
      if success then s'.(recordsOk := s.recordsOk + n) else s'.(recordsFail := s.recordsFail + n)
  }

  /** Runs a schedule, first step first. */
  function Exec(s: Counters, sched: seq<Step>): Counters {
    if |sched| == 0 then s else Apply(Exec(s, sched[..|sched| - 1]), sched[|sched| - 1])
  }

  lemma {:induction false} ExecAppend(s: Counters, a: seq<Step>, b: seq<Step>)
    ensures Exec(s, a + b) == Exec(Exec(s, a), b)
    decreases |b|
  {
    if |b| == 0 {
      assert a + b == a;
    } else {
      var init := b[..|b| - 1];
      assert (a + b)[..|a + b| - 1] == a + init;
      ExecAppend(s, a, init);
    }
  }

  lemma LowWord(n: nat)
    requires n < U64
    ensures n % U64 == n
  {
  }

  // ---------- the overshoot bound ----------

  /** The effective capacity: with max_queue_size 0 the guard prod > cons still admits one record. */
  function Capacity(max: nat): nat {
    if max == 0 then 1 else max
  }

  function Sum(ns: seq<nat>): nat {
    if |ns| == 0 then 0 else ns[0] + Sum(ns[1..])
  }

  predicate InFlightBelow(c: Call, b: int) {
    !c.Idle? && c.prod < b
  }

  /** How many calls in flight loaded a produced value below b. */
  function Below(calls: seq<Call>, b: int): nat {
    if |calls| == 0 then 0
    else Below(calls[..|calls| - 1], b) + (if InFlightBelow(calls[|calls| - 1], b) then 1 else 0)
  }

  lemma {:induction false} BelowUpdate(calls: seq<Call>, t: nat, c: Call, b: int)
    requires t < |calls|
    ensures Below(calls[t := c], b) ==
            Below(calls, b) - (if InFlightBelow(calls[t], b) then 1 else 0) + (if InFlightBelow(c, b) then 1 else 0)
  {
    var n := |calls| - 1;
    if t == n {
      assert calls[t := c][..n] == calls[..n];
    } else {
      assert calls[t := c][..n] == calls[..n][t := c];
      BelowUpdate(calls[..n], t, c, b);
    }
  }

  lemma {:induction false} BelowMissesOne(calls: seq<Call>, t: nat, b: int)
    requires t < |calls| && !InFlightBelow(calls[t], b)
    ensures Below(calls, b) <= |calls| - 1
  {
    BelowAtMost(calls, b);
    var n := |calls| - 1;
    if t < n {
      BelowMissesOne(calls[..n], t, b);
    } else {
      BelowAtMost(calls[..n], b);
    }
  }

  lemma {:induction false} BelowAtMost(calls: seq<Call>, b: int)
    ensures Below(calls, b) <= |calls|
  {
    if |calls| > 0 { BelowAtMost(calls[..|calls| - 1], b); }
  }

  ghost predicate LoadsAreOld(s: Counters) {
    forall t | 0 <= t < |s.calls| ::
      && (!s.calls[t].Idle? ==> s.calls[t].prod <= s.produced)
      && (s.calls[t].BothLoaded? ==> s.calls[t].cons <= s.consumed)
  }

  /** For every level between the capacity mark and produced, the calls that may still raise
      produced past it and the raises already made past it leave one call out. */
  ghost predicate Overshoot(s: Counters) {
    forall b {:trigger Below(s.calls, b)} :: s.consumed + Capacity(s.max) <= b <= s.produced ==>
      Below(s.calls, b) + (s.produced - b) <= |s.calls| - 1
  }

  ghost predicate Inv(s: Counters) {
    && 0 < |s.calls|
    && LoadsAreOld(s)
    && Overshoot(s)
    && s.produced + s.dropped == s.completed
    && s.consumed == s.recordsOk + s.recordsFail + Sum(s.exporting)
  }

  /** Neither 64-bit counter has wrapped. */
  predicate Unwrapped(s: Counters) {
    s.produced < U64 && s.consumed < U64
  }

  lemma FullMeans(max: nat, prod: nat, cons: nat)
    requires prod < U64
    ensures Full(max, prod, cons) <==> prod >= cons + Capacity(max)
  {
  }

  lemma {:induction false} SumAppend(ns: seq<nat>, n: nat)
    ensures Sum(ns + [n]) == Sum(ns) + n
  {
    if |ns| > 0 {
      assert (ns + [n])[1..] == ns[1..] + [n];
      SumAppend(ns[1..], n);
    }
  }

  lemma {:induction false} SumRemove(ns: seq<nat>, i: nat)
    requires i < |ns|
    ensures Sum(ns[..i] + ns[i + 1..]) == Sum(ns) - ns[i]
  {
    if i == 0 {
      assert ns[..0] + ns[1..] == ns[1..];
    } else {
      assert (ns[..i] + ns[i + 1..])[1..] == ns[1..][..i - 1] + ns[1..][i..];
      SumRemove(ns[1..], i - 1);
    }
  }

  lemma LoadKeepsOvershoot(s: Counters, a: Step)
    requires Inv(s) && Unwrapped(s) && Enabled(s, a) && (a.LoadProduced? || a.LoadConsumed?)
    ensures Overshoot(Apply(s, a))
  {
    var s' := Apply(s, a);
    forall b {:trigger Below(s'.calls, b)} | s.consumed + Capacity(s.max) <= b <= s.produced
      ensures Below(s'.calls, b) + (s.produced - b) <= |s.calls| - 1
    {
      BelowUpdate(s.calls, a.t, s'.calls[a.t], b);
    }
  }

  lemma CountKeepsOvershoot(s: Counters, t: nat)
    requires Inv(s) && Unwrapped(s) && Enabled(s, Count(t))
    ensures Overshoot(Apply(s, Count(t)))
  {
    var s' := Apply(s, Count(t));
    FullMeans(s.max, s.calls[t].prod, s.calls[t].cons);
    forall b {:trigger Below(s'.calls, b)} | s.consumed + Capacity(s.max) <= b <= s'.produced
      ensures Below(s'.calls, b) + (s'.produced - b) <= |s.calls| - 1
    {
      BelowUpdate(s.calls, t, Idle, b);
      if b == s.produced + 1 {
        BelowMissesOne(s'.calls, t, b);
      } else {
        assert Below(s.calls, b) + (s.produced - b) <= |s.calls| - 1;
      }
    }
  }

  lemma StepKeepsInv(s: Counters, a: Step)
    requires Inv(s) && Unwrapped(s)
    ensures Inv(Apply(s, a))
  {
    if Enabled(s, a) {
      match a
      case LoadProduced(t) => LoadKeepsOvershoot(s, a);
      case LoadConsumed(t) => LoadKeepsOvershoot(s, a);
      case Count(t) => CountKeepsOvershoot(s, t);
      case ExportBegin(n) => SumAppend(s.exporting, n);
      case ExportEnd(i, _) => SumRemove(s.exporting, i);
    }
  }

  lemma StartHasInv(max: nat, threads: nat)
    requires 0 < threads
    ensures Inv(Start(max, threads))
  {
    var s := Start(max, threads);
    forall b {:trigger Below(s.calls, b)} | s.consumed + Capacity(max) <= b <= s.produced
      ensures Below(s.calls, b) + (s.produced - b) <= threads - 1
    {
      BelowMissesOne(s.calls, 0, b);
    }
  }

  lemma {:induction false} RunKeepsInv(max: nat, threads: nat, sched: seq<Step>)
    requires 0 < threads && Unwrapped(Exec(Start(max, threads), sched))
    ensures Inv(Exec(Start(max, threads), sched))
    ensures |Exec(Start(max, threads), sched).calls| == threads && Exec(Start(max, threads), sched).max == max
  {
    if |sched| == 0 {
      StartHasInv(max, threads);
    } else {
      var prefix := sched[..|sched| - 1];
      RunKeepsInv(max, threads, prefix);
      StepKeepsInv(Exec(Start(max, threads), prefix), sched[|sched| - 1]);
    }
  }

  /** With T calls in flight the counted depth passes the capacity by at most T - 1, in every
      interleaving; every completed call is in exactly one of the two counts, and every record the
      exporter was handed is exported, failed or still being exported. */
  lemma OvershootBound(max: nat, threads: nat, sched: seq<Step>)
    requires 0 < threads && Unwrapped(Exec(Start(max, threads), sched))
    ensures var s := Exec(Start(max, threads), sched);
            && s.produced - s.consumed <= Capacity(max) + threads - 1
            && s.produced + s.dropped == s.completed
            && s.consumed == s.recordsOk + s.recordsFail + Sum(s.exporting)
  {
    RunKeepsInv(max, threads, sched);
    var s := Exec(Start(max, threads), sched);
    var b := s.consumed + Capacity(max);
    if b <= s.produced {
      assert Below(s.calls, b) + (s.produced - b) <= threads - 1;
    }
  }

  // ---------- the bound is reached ----------

  function Fill(k: nat): seq<Step> {
    if k == 0 then [] else Fill(k - 1) + [LoadProduced(0), LoadConsumed(0), Count(0)]
  }

  function LoadAll(k: nat): seq<Step> {
    if k == 0 then [] else LoadAll(k - 1) + [LoadProduced(k - 1), LoadConsumed(k - 1)]
  }

  function CountAll(k: nat): seq<Step> {
    if k == 0 then [] else CountAll(k - 1) + [Count(k - 1)]
  }

  lemma ExecTwo(s: Counters, a: Step, b: Step)
    ensures Exec(s, [a, b]) == Apply(Apply(s, a), b)
  {
    assert [a, b][..1] == [a] && [a][..0] == [];
    assert Exec(s, [a]) == Apply(s, a);
  }

  lemma ExecThree(s: Counters, a: Step, b: Step, c: Step)
    ensures Exec(s, [a, b, c]) == Apply(Apply(Apply(s, a), b), c)
  {
    assert [a, b, c][..2] == [a, b];
    ExecTwo(s, a, b);
  }

  lemma CountOne(max: nat, threads: nat, p: nat)
    requires 0 < threads && p + 1 < Capacity(max) <= U64
    ensures var s := Start(max, threads).(produced := p, completed := p);
            Exec(s, [LoadProduced(0), LoadConsumed(0), Count(0)]) == s.(produced := p + 1, completed := p + 1)
  {
    var s := Start(max, threads).(produced := p, completed := p);
    ExecThree(s, LoadProduced(0), LoadConsumed(0), Count(0));
    LowWord(p);
    LowWord(0);
    FullMeans(max, p, 0);
    assert s.calls[0 := ProducedLoaded(p)][0 := BothLoaded(p, 0)][0 := Idle] == s.calls;
  }

  lemma {:induction false} FillRuns(max: nat, threads: nat, k: nat)
    requires 0 < threads && k < Capacity(max) <= U64
    ensures Exec(Start(max, threads), Fill(k)) == Start(max, threads).(produced := k, completed := k)
  {
    var s := Start(max, threads);
    if k > 0 {
      FillRuns(max, threads, k - 1);
      ExecAppend(s, Fill(k - 1), [LoadProduced(0), LoadConsumed(0), Count(0)]);
      CountOne(max, threads, k - 1);
    }
  }

  function Loaded(threads: nat, k: nat, p: nat): seq<Call>
    requires k <= threads
  {
    seq(threads, i => if i < k then BothLoaded(p, 0) else Idle)
  }

  lemma LoadOne(s: Counters, k: nat, p: nat)
    requires 0 < k <= |s.calls| && s.calls == Loaded(|s.calls|, k - 1, p) && s.produced == p < U64 && s.consumed == 0
    ensures Exec(s, [LoadProduced(k - 1), LoadConsumed(k - 1)]) == s.(calls := Loaded(|s.calls|, k, p))
  {
    ExecTwo(s, LoadProduced(k - 1), LoadConsumed(k - 1));
    LowWord(p);
    assert s.calls[k - 1 := ProducedLoaded(p)][k - 1 := BothLoaded(p, 0)] == Loaded(|s.calls|, k, p);
  }

  lemma {:induction false} LoadAllRuns(s: Counters, k: nat)
    requires k <= |s.calls| && s.calls == Loaded(|s.calls|, 0, 0) && s.consumed == 0 && s.produced < U64
    ensures Exec(s, LoadAll(k)) == s.(calls := Loaded(|s.calls|, k, s.produced))
  {
    if k == 0 {
      assert Loaded(|s.calls|, 0, 0) == Loaded(|s.calls|, 0, s.produced);
    } else {
      LoadAllRuns(s, k - 1);
      var s1 := s.(calls := Loaded(|s.calls|, k - 1, s.produced));
      ExecAppend(s, LoadAll(k - 1), [LoadProduced(k - 1), LoadConsumed(k - 1)]);
      LoadOne(s1, k, s.produced);
    }
  }

  lemma {:induction false} CountAllRuns(s: Counters, k: nat)
    requires k <= |s.calls| && s.max <= U64
    requires exists p :: 0 <= p < Capacity(s.max) && p < U64 && s.calls == Loaded(|s.calls|, |s.calls|, p)
    ensures var s' := Exec(s, CountAll(k));
            && s'.produced == s.produced + k && s'.consumed == s.consumed && s'.max == s.max
            && |s'.calls| == |s.calls| && forall i | k <= i < |s.calls| :: s'.calls[i] == s.calls[i]
  {
    if k > 0 {
      CountAllRuns(s, k - 1);
      var s1 := Exec(s, CountAll(k - 1));
      ExecAppend(s, CountAll(k - 1), [Count(k - 1)]);
      assert [Count(k - 1)][..0] == [];
      assert s1.calls[k - 1] == s.calls[k - 1];
      FullMeans(s.max, s.calls[k - 1].prod, 0);
    }
  }

  /** The overshoot bound is tight for every capacity and every number of calls in flight. */
  lemma OvershootReached(max: nat, threads: nat)
    requires 0 < threads && Capacity(max) <= U64
    ensures exists sched :: var s := Exec(Start(max, threads), sched);
                            s.consumed == 0 && s.produced == Capacity(max) + threads - 1
  {
    var p := Capacity(max) - 1;
    var s0 := Start(max, threads);
    FillRuns(max, threads, p);
    var s1 := Exec(s0, Fill(p));
    assert s1.calls == Loaded(threads, 0, 0);
    LoadAllRuns(s1, threads);
    var s2 := Exec(s1, LoadAll(threads));
    CountAllRuns(s2, threads);
    ExecAppend(s0, Fill(p), LoadAll(threads));
    ExecAppend(s0, Fill(p) + LoadAll(threads), CountAll(threads));
    var sched := Fill(p) + LoadAll(threads) + CountAll(threads);
    assert Exec(s0, sched).produced == Capacity(max) + threads - 1;
  }

  // ---------- what a drop and a reported depth mean ----------

  predicate Touches(a: Step, t: nat) {
    (a.LoadProduced? || a.LoadConsumed? || a.Count?) && a.t == t
  }

  /** Steps of the other calls and of the exporter leave the locals of call t alone, and the
      counters only rise. */
  lemma {:induction false} OthersKeepCall(s: Counters, sched: seq<Step>, t: nat)
    requires t < |s.calls| && forall a | a in sched :: !Touches(a, t)
    ensures var s' := Exec(s, sched);
            && |s'.calls| == |s.calls| && s'.calls[t] == s.calls[t] && s'.max == s.max
            && s.produced <= s'.produced && s.consumed <= s'.consumed
  {
    if |sched| > 0 {
      OthersKeepCall(s, sched[..|sched| - 1], t);
      assert sched[|sched| - 1] in sched;
    }
  }

  /** Whatever the other calls and the exporter do in between, a call counts a drop exactly when the
      produced value of its first load exceeds the consumed value of its second load by the capacity;
      the counted depth was then at least the capacity when the call began. */
  lemma DropIsExact(s: Counters, t: nat, between1: seq<Step>, between2: seq<Step>)
    requires t < |s.calls| && s.calls[t].Idle?
    requires forall a | a in between1 + between2 :: !Touches(a, t)
    requires Unwrapped(Exec(Apply(s, LoadProduced(t)), between1))
    ensures var s1 := Exec(Apply(s, LoadProduced(t)), between1);
            var s2 := Exec(Apply(s1, LoadConsumed(t)), between2);
            var s3 := Apply(s2, Count(t));
            var drop := s.produced >= s1.consumed + Capacity(s.max);
            && s3.dropped == s2.dropped + (if drop then 1 else 0)
            && s3.produced == s2.produced + (if drop then 0 else 1)
            && s3.calls[t].Idle? && s3.completed == s2.completed + 1
            && (drop ==> s.produced - s.consumed >= Capacity(s.max))
  {
    var s0 := Apply(s, LoadProduced(t));
    forall a | a in between1 ensures !Touches(a, t) { assert a in between1 + between2; }
    OthersKeepCall(s0, between1, t);
    var s1 := Exec(s0, between1);
    LowWord(s.produced);
    LowWord(s1.consumed);
    forall a | a in between2 ensures !Touches(a, t) { assert a in between1 + between2; }
    OthersKeepCall(Apply(s1, LoadConsumed(t)), between2, t);
    FullMeans(s.max, s.produced, s1.consumed);
  }

  // ---------- what the exports book ----------

  /** What one step hands to the exporter, and what it books as exported or as failed. */
  function Handed(a: Step): nat { if a.ExportBegin? then a.n else 0 }

  function Booked(s: Counters, a: Step, success: bool): nat {
    if a.ExportEnd? && a.success == success && a.i < |s.exporting| then s.exporting[a.i] else 0
  }

  function Ended(s: Counters, a: Step): nat {
    if a.Count? && a.t < |s.calls| && s.calls[a.t].BothLoaded? then 1 else 0
  }

  /** The same over a run. */
  function HandedIn(sched: seq<Step>): nat {
    if |sched| == 0 then 0 else HandedIn(sched[..|sched| - 1]) + Handed(sched[|sched| - 1])
  }

  function BookedIn(s: Counters, sched: seq<Step>, success: bool): nat {
    if |sched| == 0 then 0
    else
      var init := sched[..|sched| - 1];
      BookedIn(s, init, success) + Booked(Exec(s, init), sched[|sched| - 1], success)
  }

  function EndedIn(s: Counters, sched: seq<Step>): nat {
    if |sched| == 0 then 0
    else
      var init := sched[..|sched| - 1];
      EndedIn(s, init) + Ended(Exec(s, init), sched[|sched| - 1])
  }

  /** Over every run, whether or not counters wrap: consumed rises by the records handed to the exporter,
      whatever becomes of them; the exported records are those of the batches whose export succeeded,
      the failed ones those of the others; and each finished call adds one to produced or to dropped. */
  lemma {:induction false} ExportsAreBooked(s: Counters, sched: seq<Step>)
    ensures var s' := Exec(s, sched);
            && s'.consumed == s.consumed + HandedIn(sched)
            && s'.recordsOk == s.recordsOk + BookedIn(s, sched, true)
            && s'.recordsFail == s.recordsFail + BookedIn(s, sched, false)
            && s'.produced + s'.dropped == s.produced + s.dropped + EndedIn(s, sched)
  {
    if |sched| > 0 { ExportsAreBooked(s, sched[..|sched| - 1]); }
  }

  /** queue_depth, from its two loads. */
  function QueueDepth(prod: nat, cons: nat): int {
    if prod > cons then ToInt64(USub(prod, cons)) else 0
  }

  lemma QueueDepthMeans(prod: nat, cons: nat)
    requires prod < U64 && cons < U64 && prod - cons < I63
    ensures QueueDepth(prod % U64, cons % U64) == if prod > cons then prod - cons else 0
  {
    LowWord(prod);
    LowWord(cons);
    if prod > cons { LowWord(prod - cons); }
  }

  lemma {:induction false} CountersRise(s: Counters, sched: seq<Step>)
    ensures s.produced <= Exec(s, sched).produced && s.consumed <= Exec(s, sched).consumed
  {
    if |sched| > 0 { CountersRise(s, sched[..|sched| - 1]); }
  }

  /** A depth read while calls and exports go on in between its two loads is the difference of what the
      loads saw, or zero where that is negative; it never wraps, never exceeds the true depth at either
      load, and so keeps the overshoot bound. */
  lemma ReportedDepth(max: nat, threads: nat, before: seq<Step>, between: seq<Step>)
    requires 0 < threads && Capacity(max) + threads <= I63
    requires Unwrapped(Exec(Start(max, threads), before + between))
    ensures var s1 := Exec(Start(max, threads), before);
            var s2 := Exec(Start(max, threads), before + between);
            var d := QueueDepth(s1.produced % U64, s2.consumed % U64);
            && 0 <= d <= Capacity(max) + threads - 1
            && (d > 0 ==> d <= s1.produced - s1.consumed && d <= s2.produced - s2.consumed)
            && d == (if s1.produced > s2.consumed then s1.produced - s2.consumed else 0)
  {
    var s1 := Exec(Start(max, threads), before);
    ExecAppend(Start(max, threads), before, between);
    CountersRise(s1, between);
    CountersRise(Start(max, threads), before);
    OvershootBound(max, threads, before);
    QueueDepthMeans(s1.produced, Exec(s1, between).consumed);
  }

  // ---------- the processor as an object ----------

  /** One counting processor with its counting exporter.  `calls` holds the locals of the calls in
      flight, one slot a thread; each method is one atomic action of the source. */
  class CountingProcessor {
    const max: nat
    var produced: nat
    var consumed: nat
    var dropped: nat
    var completed: nat
    var calls: seq<Call>
    var exporting: seq<nat>
    var recordsOk: nat
    var recordsFail: nat

    constructor (max: nat, threads: nat)
      ensures View() == Start(max, threads)
    {
      this.max := max;
      produced, consumed, dropped, completed := 0, 0, 0, 0;
      calls := seq(threads, _ => Idle);
      exporting, recordsOk, recordsFail := [], 0, 0;
    }

    ghost function View(): Counters
      reads this
    {
      Counters(max, produced, consumed, dropped, completed, calls, exporting, recordsOk, recordsFail)
    }

    method OnEndLoadProduced(t: nat)
      requires t < |calls| && calls[t].Idle?
      modifies this
      ensures View() == Apply(old(View()), LoadProduced(t))
    {
      calls := calls[t := ProducedLoaded(produced % U64)];
    }

    method OnEndLoadConsumed(t: nat)
      requires t < |calls| && calls[t].ProducedLoaded?
      modifies this
      ensures View() == Apply(old(View()), LoadConsumed(t))
    {
      calls := calls[t := BothLoaded(calls[t].prod, consumed % U64)];
    }

    method OnEndCount(t: nat)
      requires t < |calls| && calls[t].BothLoaded?
      modifies this
      ensures View() == Apply(old(View()), Count(t))
    {
      var prod, cons := calls[t].prod, calls[t].cons;
      if prod > cons && USub(prod, cons) >= max {
        dropped := dropped + 1;
      } else {
        produced := produced + 1;
      }
      completed := completed + 1;
      calls := calls[t := Idle];
    }

    method ExportAnnounce(n: nat)
      modifies this
      ensures View() == Apply(old(View()), ExportBegin(n))
    {
      consumed := consumed + n;
      exporting := exporting + [n];
    }

    method ExportResult(i: nat, success: bool)
      requires i < |exporting|
      modifies this
      ensures View() == Apply(old(View()), ExportEnd(i, success))
    {
      if success {
        recordsOk := recordsOk + exporting[i];
      } else {
        recordsFail := recordsFail + exporting[i];
      }
      exporting := exporting[..i] + exporting[i + 1..];
    }
  }

  // ---------- the instance the status readers use ----------

  datatype Lifetime = Created(id: nat) | Destroyed(id: nat)

  datatype Registry = Registry(instance: int, live: set<nat>)

  const NONE: int := -1

  /** A constructor stores itself; a destructor clears the pointer only if it still is its own. */
  function Register(r: Registry, e: Lifetime): Registry {
    match e
    case Created(id) => if id in r.live then r else Registry(id, r.live + {id})
    case Destroyed(id) =>
      if id !in r.live then r else Registry(if r.instance == id then NONE else r.instance, r.live - {id})
  }

  function RegisterAll(es: seq<Lifetime>): Registry {
    if |es| == 0 then Registry(NONE, {}) else Register(RegisterAll(es[..|es| - 1]), es[|es| - 1])
  }

  /** The last event of the processor is its creation. */
  predicate Lives(es: seq<Lifetime>, id: nat) {
    |es| > 0 && (if es[|es| - 1].id == id then es[|es| - 1].Created? else Lives(es[..|es| - 1], id))
  }

  /** The event k creates a processor that did not live before. */
  predicate Creates(es: seq<Lifetime>, k: int) {
    0 <= k < |es| && es[k].Created? && !Lives(es[..k], es[k].id)
  }

  /** The processor created last, if any: no later event creates one. */
  predicate Newest(es: seq<Lifetime>, k: int) {
    Creates(es, k) && forall j | k < j < |es| :: !Creates(es, j)
  }

  lemma {:induction false} LivesAreLive(es: seq<Lifetime>, id: nat)
    ensures id in RegisterAll(es).live <==> Lives(es, id)
  {
    if |es| > 0 {
      LivesAreLive(es[..|es| - 1], id);
      LivesAreLive(es[..|es| - 1], es[|es| - 1].id);
    }
  }

  lemma CreatesBefore(es: seq<Lifetime>, k: int)
    requires 0 <= k < |es| - 1
    ensures Creates(es, k) <==> Creates(es[..|es| - 1], k)
  {
    assert es[..|es| - 1][..k] == es[..k];
  }

  lemma NewestBefore(es: seq<Lifetime>, k: int)
    requires |es| > 0 && Newest(es, k)
    ensures k < |es| - 1 ==> Newest(es[..|es| - 1], k) && !Creates(es, |es| - 1)
  {
    var init := es[..|es| - 1];
    if k < |es| - 1 {
      CreatesBefore(es, k);
      forall j | k < j < |init| ensures !Creates(init, j) { CreatesBefore(es, j); }
    }
  }

  /** Over every sequence of creations and destructions the status readers see the processor created
      last while it lives, and none afterwards; the pointer never refers to a destroyed processor. */
  lemma {:induction false} InstanceIsNewest(es: seq<Lifetime>, k: int)
    requires Newest(es, k)
    ensures RegisterAll(es).instance == if Lives(es, es[k].id) then es[k].id else NONE
  {
    var init, last := es[..|es| - 1], es[|es| - 1];
    LivesAreLive(init, last.id);
    NewestBefore(es, k);
    if k == |es| - 1 {
      assert es[..k] == init;
    } else {
      InstanceIsNewest(init, k);
      assert last.Created? ==> Lives(init, last.id) by { assert es[..|es| - 1] == init; }
    }
  }

  /** Without any creation there is none. */
  lemma {:induction false} NoInstanceBefore(es: seq<Lifetime>)
    requires forall k :: !Creates(es, k)
    ensures RegisterAll(es).instance == NONE && RegisterAll(es).live == {}
  {
    if |es| > 0 {
      var init, last := es[..|es| - 1], es[|es| - 1];
      forall k ensures !Creates(init, k) {
        if 0 <= k < |init| { CreatesBefore(es, k); }
      }
      NoInstanceBefore(init);
      LivesAreLive(init, last.id);
      assert !Creates(es, |es| - 1);
    }
  }

  /** And whatever it shows is a processor that lives. */
  lemma {:induction false} InstanceNeverDangles(es: seq<Lifetime>)
    ensures var i := RegisterAll(es).instance; i != NONE ==> i >= 0 && Lives(es, i)
  {
    if |es| > 0 {
      InstanceNeverDangles(es[..|es| - 1]);
      LivesAreLive(es[..|es| - 1], es[|es| - 1].id);
    }
  }
}
