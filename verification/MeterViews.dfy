// The views of a meter (src/meter.cpp): recorded once per folded name, and registered with every
// provider that a start installs.
//
// add_view is split at its locks and at each point where it can fail, and a start registers the
// recorded views with its new provider one by one before it installs the provider.  Any number of
// callers take these steps in any order; a step that is not enabled leaves the state alone.

module MeterViews {
  import opened Text
  import Collections

  const ERROR: int := -1
  const FREE: int := -1

  datatype View = View(name: string, spec: nat)

  /** What the SDK provider has been given; AddView on it only ever adds. */
  datatype Provider = NoProvider | Provider(registered: multiset<View>)

  datatype Caller =
    | Idle
    | Probing(view: View)       // about to scan under the shared view lock
    | Missed(view: View)        // scan missed, about to take the creation mutex
    | Rechecking(view: View)    // holds the creation mutex, about to scan again
    | Ready(view: View)         // second scan missed, about to take the exclusive view lock
    | Locked(view: View)        // holds it, about to record the view
    | Recorded(view: View)      // about to register it with the installed provider
    | Starting                  // holds the creation mutex, building a pipeline
    | Replaying(left: set<int>, given: multiset<View>) // views still to be registered, and those that are

  datatype Returned = Returned(name: string, id: int)

  /** `creator` holds the creation mutex, `writer` the exclusive view lock. */
  datatype Views = Views(
    recorded: map<int, View>, id: int, installed: Provider,
    callers: seq<Caller>, creator: int, writer: int, returned: seq<Returned>)

  datatype Step =
    | Begin(t: nat, view: View)
    | Probe(t: nat, found: int)
    | Acquire(t: nat)
    | Recheck(t: nat, found: int)
    | Lock(t: nat, ok: bool)      // there may be no scope name or no provider
    | Record(t: nat, ok: bool)    // no memory for the record, or the insertion throws
    | Enroll(t: nat, ok: bool)    // the registration with the SDK provider may fail
    | StartBegin(t: nat)
    | StartBuild(t: nat, ok: bool)
    | Replay(t: nat, i: int, ok: bool)
    | Install(t: nat, ok: bool)   // the files of the new exporters may not open

  function Start(threads: nat): Views {
    Views(map[], 0, NoProvider, seq(threads, _ => Idle), FREE, FREE, [])
  }

  predicate Matches(recorded: map<int, View>, i: int, name: string) {
    i in recorded && Fold(recorded[i].name) == Fold(name)
  }

  /** What the linear scan may return: it visits the views in no particular order. */
  predicate ScanResult(recorded: map<int, View>, name: string, found: int) {
    if found == ERROR then forall i | i in recorded :: i >= 0 ==> !Matches(recorded, i, name)
    else found >= 0 && Matches(recorded, found, name)
  }

  function Leave(v: Views, t: nat): Views
    requires t < |v.callers|
  {
    v.(callers := v.callers[t := Idle], creator := FREE, writer := FREE)
  }

  function Found(v: Views, name: string, id: int): Views {
    v.(returned := v.returned + [Returned(name, id)])
  }

  predicate Enabled(v: Views, a: Step) {
    && a.t < |v.callers|
    && var c := v.callers[a.t];
       match a
       case Begin(_, _) => c.Idle?
       case Probe(_, found) => c.Probing? && v.writer == FREE && ScanResult(v.recorded, c.view.name, found)
       case Acquire(_) => c.Missed? && v.creator == FREE
       case Recheck(_, found) => c.Rechecking? && v.writer == FREE && ScanResult(v.recorded, c.view.name, found)
       case Lock(_, _) => c.Ready? && v.writer == FREE
       case Record(_, _) => c.Locked?
       case Enroll(_, _) => c.Recorded? && v.installed.Provider?
       case StartBegin(_) => c.Idle? && v.creator == FREE
       case StartBuild(_, _) => c.Starting? && v.writer == FREE
       case Replay(_, i, _) => c.Replaying? && i in c.left && i in v.recorded
       case Install(_, _) => c.Replaying? && c.left == {}
  }

  function Apply(v: Views, a: Step): Views {
    if !Enabled(v, a) then v else
    var t := a.t;
    var c := v.callers[t];
    match a
    case Begin(_, view) => v.(callers := v.callers[t := Probing(view)])
    case Probe(_, found) =>
      if found != ERROR then Found(v, c.view.name, found).(callers := v.callers[t := Idle])
      else v.(callers := v.callers[t := Missed(c.view)])
    case Acquire(_) => v.(callers := v.callers[t := Rechecking(c.view)], creator := t)
    case Recheck(_, found) =>
      if found != ERROR then Leave(Found(v, c.view.name, found), t)
      else v.(callers := v.callers[t := Ready(c.view)])
    case Lock(_, ok) =>
      if !ok || v.installed.NoProvider? then Leave(v, t)
      else v.(callers := v.callers[t := Locked(c.view)], writer := t)
    case Record(_, ok) =>
      if !ok || v.id in v.recorded then Leave(v, t)
      else v.(recorded := v.recorded[v.id := c.view], callers := v.callers[t := Recorded(c.view)])
    case Enroll(_, ok) =>
      if !ok then Leave(v, t).(recorded := v.recorded - {v.id})
      else Leave(Found(v, c.view.name, v.id), t).(
             installed := Provider(v.installed.registered + multiset{c.view}), id := v.id + 1)
    case StartBegin(_) => v.(callers := v.callers[t := Starting], creator := t)
    case StartBuild(_, ok) =>
      if !ok then Leave(v, t) else v.(callers := v.callers[t := Replaying(v.recorded.Keys, multiset{})])
    case Replay(_, i, ok) =>
      if !ok then Leave(v, t)
      else v.(callers := v.callers[t := Replaying(c.left - {i}, c.given + multiset{v.recorded[i]})])
    case Install(_, ok) => if !ok then Leave(v, t) else Leave(v, t).(installed := Provider(c.given))
  }

  function Exec(v: Views, sched: seq<Step>): Views
    decreases |sched|
  {
    if |sched| == 0 then v else Exec(Apply(v, sched[0]), sched[1..])
  }

  // ---------- the invariant ----------

  ghost predicate DistinctNames(recorded: map<int, View>) {
    forall i, j | i in recorded && j in recorded && i != j :: Fold(recorded[i].name) != Fold(recorded[j].name)
  }

  predicate Mutexed(c: Caller) { !c.Idle? && !c.Probing? && !c.Missed? }
  predicate Writing(c: Caller) { c.Locked? || c.Recorded? }
  predicate Absent(c: Caller) { c.Ready? || c.Locked? || c.Recorded? }

  predicate Unfinished(v: Views) {
    0 <= v.writer < |v.callers| && v.callers[v.writer].Recorded?
  }

  /** The views without the one of an unfinished add_view. */
  function Settled(v: Views): map<int, View> {
    if Unfinished(v) then v.recorded - {v.id} else v.recorded
  }

  /** The values under the keys that are not in `left`. */
  function ValuesBut<V>(m: map<int, V>, left: set<int>): set<V> {
    set i | i in m.Keys - left :: m[i]
  }

  ghost predicate CallerOk(v: Views, t: int)
    requires 0 <= t < |v.callers|
  {
    var c := v.callers[t];
    && (Mutexed(c) <==> v.creator == t)
    && (Writing(c) <==> v.writer == t)
    && (Absent(c) ==> forall i | i in Settled(v) :: !Matches(Settled(v), i, c.view.name))
    && (Writing(c) ==> v.installed.Provider?)
    && (c.Recorded? ==> v.id in v.recorded && v.recorded[v.id] == c.view)
    && (c.Replaying? ==> c.left <= Settled(v).Keys && c.given == multiset(ValuesBut(Settled(v), c.left)))
  }

  ghost predicate LocksMatch(v: Views) {
    && (forall t | 0 <= t < |v.callers| :: CallerOk(v, t))
    && (v.creator == FREE || 0 <= v.creator < |v.callers|)
    && (v.writer == FREE || 0 <= v.writer < |v.callers|)
  }

  /** The views are numbered without gaps, their folded names differ, and the installed provider has
      each of them once. */
  ghost predicate ViewsMatch(recorded: map<int, View>, id: int, installed: Provider) {
    && 0 <= id
    && (forall i :: i in recorded <==> 0 <= i < id)
    && DistinctNames(recorded)
    && (installed.Provider? ==> installed.registered == multiset(recorded.Values))
  }

  ghost predicate ReturnsMatch(v: Views) {
    forall x | x in v.returned :: Matches(Settled(v), x.id, x.name)
  }

  ghost predicate Inv(v: Views) {
    ViewsMatch(Settled(v), v.id, v.installed) && LocksMatch(v) && ReturnsMatch(v)
  }

  predicate Commits(v: Views, a: Step) { a.Enroll? && a.ok && Enabled(v, a) }
  predicate Installs(v: Views, a: Step) { a.Install? && a.ok && Enabled(v, a) }

  /** Only an add_view that succeeds changes the settled views and the next ID; only it and an install
      change the provider. */
  lemma StepSettles(v: Views, a: Step)
    requires Inv(v)
    ensures var v' := Apply(v, a);
            if Commits(v, a) then
              && v'.id == v.id + 1 && Settled(v') == Settled(v)[v.id := v.callers[a.t].view]
              && v.installed.Provider?
              && v'.installed == Provider(v.installed.registered + multiset{v.callers[a.t].view})
              && v'.returned == v.returned + [Returned(v.callers[a.t].view.name, v.id)]
            else
              && v'.id == v.id && Settled(v') == Settled(v)
              && (!Installs(v, a) ==> v'.installed == v.installed)
  {
    if Enabled(v, a) {
      assert CallerOk(v, a.t);
      if 0 <= v.writer < |v.callers| { assert CallerOk(v, v.writer); }
    }
  }

  lemma CommitKeepsViews(m: map<int, View>, id: int, installed: Provider, view: View)
    requires ViewsMatch(m, id, installed) && installed.Provider?
    requires forall i | i in m :: !Matches(m, i, view.name)
    ensures ViewsMatch(m[id := view], id + 1, Provider(installed.registered + multiset{view}))
  {
    if view in m.Values {
      var i := Collections.SomeKey(m, view);
      assert Matches(m, i, view.name);
    }
    Collections.AddedValue(m, id, view);
    DistinctAdd(m, id, view);
    assert multiset(m.Values + {view}) == multiset(m.Values) + multiset{view};
  }

  lemma DistinctAdd(m: map<int, View>, id: int, view: View)
    requires DistinctNames(m) && id !in m && forall i | i in m :: !Matches(m, i, view.name)
    ensures DistinctNames(m[id := view])
  {
    var m' := m[id := view];
    forall i, j | i in m' && j in m' && i != j ensures Fold(m'[i].name) != Fold(m'[j].name) {
      if i == id {
        assert !Matches(m, j, view.name);
      } else if j == id {
        assert !Matches(m, i, view.name);
      }
    }
  }

  lemma AllValues<V>(m: map<int, V>)
    ensures ValuesBut(m, {}) == m.Values
  {
    forall w | w in m.Values ensures w in ValuesBut(m, {}) {
      var i := Collections.SomeKey(m, w);
      assert i in m.Keys - {};
    }
  }

  lemma OneMoreValue(m: map<int, View>, left: set<int>, i: int)
    requires DistinctNames(m) && left <= m.Keys && i in left
    ensures multiset(ValuesBut(m, left - {i})) == multiset(ValuesBut(m, left)) + multiset{m[i]}
  {
    assert m.Keys - (left - {i}) == (m.Keys - left) + {i};
    assert ValuesBut(m, left - {i}) == ValuesBut(m, left) + {m[i]};
  }

  lemma StepKeepsViews(v: Views, a: Step)
    requires Inv(v)
    ensures ViewsMatch(Settled(Apply(v, a)), Apply(v, a).id, Apply(v, a).installed)
  {
    StepSettles(v, a);
    if Enabled(v, a) { assert CallerOk(v, a.t); }
    if Commits(v, a) {
      CommitKeepsViews(Settled(v), v.id, v.installed, v.callers[a.t].view);
    } else if Installs(v, a) {
      AllValues(Settled(v));
    }
  }

  lemma StepKeepsCaller(v: Views, a: Step, t: nat)
    requires Inv(v) && t < |v.callers|
    ensures CallerOk(Apply(v, a), t)
  {
    StepSettles(v, a);
    assert CallerOk(v, t);
    if Enabled(v, a) {
      assert CallerOk(v, a.t);
      if a.t == t && a.Replay? && a.ok { OneMoreValue(Settled(v), v.callers[t].left, a.i); }
    }
  }

  lemma StepKeepsHolders(v: Views, a: Step)
    requires Inv(v)
    ensures var v' := Apply(v, a);
            && |v'.callers| == |v.callers|
            && (v'.creator == FREE || 0 <= v'.creator < |v.callers|)
            && (v'.writer == FREE || 0 <= v'.writer < |v.callers|)
  {
  }

  lemma StepKeepsReturns(v: Views, a: Step)
    requires Inv(v)
    ensures ReturnsMatch(Apply(v, a))
  {
    StepSettles(v, a);
    var v' := Apply(v, a);
    forall x | x in v'.returned ensures Matches(Settled(v'), x.id, x.name) {
      if x in v.returned { assert Matches(Settled(v), x.id, x.name); }
    }
  }

  lemma StepKeepsInv(v: Views, a: Step)
    requires Inv(v)
    ensures Inv(Apply(v, a))
  {
    StepKeepsViews(v, a);
    StepKeepsReturns(v, a);
    StepKeepsHolders(v, a);
    forall t | 0 <= t < |v.callers| ensures CallerOk(Apply(v, a), t) { StepKeepsCaller(v, a, t); }
  }

  lemma {:induction false} ExecKeepsInv(v: Views, sched: seq<Step>)
    requires Inv(v)
    ensures Inv(Exec(v, sched))
    decreases |sched|
  {
    if |sched| > 0 {
      StepKeepsInv(v, sched[0]);
      ExecKeepsInv(Apply(v, sched[0]), sched[1..]);
    }
  }

  lemma StartHasInv(threads: nat)
    ensures Inv(Start(threads))
  {
    forall t | 0 <= t < threads ensures CallerOk(Start(threads), t) {}
  }

  // ---------- the main results ----------

  /** After any interleaving of added views and of starts, with every failure, whenever no add_view is
      inside its exclusive section: the installed provider has exactly the recorded views, each
      once, their folded names differ, and their IDs are 0..id-1. */
  lemma ProviderHasRecordedViews(threads: nat, sched: seq<Step>)
    requires Exec(Start(threads), sched).writer == FREE
    ensures var v := Exec(Start(threads), sched);
            && DistinctNames(v.recorded)
            && (forall i :: i in v.recorded <==> 0 <= i < v.id)
            && (v.installed.Provider? ==> forall w ::
                  v.installed.registered[w] == if exists i :: i in v.recorded && v.recorded[i] == w then 1 else 0)
  {
    StartHasInv(threads);
    ExecKeepsInv(Start(threads), sched);
  }

  /** Any two successful add_view calls got the same ID exactly when their names fold alike. */
  lemma SameIdExactlyForSameName(threads: nat, sched: seq<Step>, x: Returned, y: Returned)
    requires x in Exec(Start(threads), sched).returned && y in Exec(Start(threads), sched).returned
    ensures x.id == y.id <==> Fold(x.name) == Fold(y.name)
  {
    StartHasInv(threads);
    ExecKeepsInv(Start(threads), sched);
    var v := Exec(Start(threads), sched);
    assert Matches(Settled(v), x.id, x.name) && Matches(Settled(v), y.id, y.name);
  }

  // ---------- one call ----------

  /** Inside an add_view. */
  predicate Adding(c: Caller) { !c.Idle? && !c.Starting? && !c.Replaying? }

  /** Thread t is inside an add_view in every state of the run. */
  predicate StaysAdding(v: Views, sched: seq<Step>, t: nat)
    decreases |sched|
  {
    && t < |v.callers| && Adding(v.callers[t])
    && (|sched| == 0 || StaysAdding(Apply(v, sched[0]), sched[1..], t))
  }

  predicate AddsView(v: Views, t: nat, view: View) {
    t < |v.callers| && Adding(v.callers[t]) && v.callers[t].view == view
  }

  predicate IsIdle(v: Views, t: nat) { t < |v.callers| && v.callers[t].Idle? }

  /** A step at which a call fails. */
  predicate Fails(v: Views, a: Step) {
    || ((a.Lock? || a.Record? || a.Enroll? || a.StartBuild? || a.Replay? || a.Install?) && !a.ok)
    || (a.Lock? && v.installed.NoProvider?)
  }

  lemma {:induction false} ArgumentsRun(v: Views, sched: seq<Step>, t: nat, view: View)
    requires StaysAdding(v, sched, t) && AddsView(v, t, view)
    ensures AddsView(Exec(v, sched), t, view)
    decreases |sched|
  {
    if |sched| > 0 {
      assert AddsView(Apply(v, sched[0]), t, view);
      ArgumentsRun(Apply(v, sched[0]), sched[1..], t, view);
    }
  }

  /** The call returns the ID of a recorded view of that folded name. */
  ghost predicate ReturnsFor(v: Views, v': Views, name: string) {
    exists id :: v'.returned == v.returned + [Returned(name, id)] && Matches(Settled(v'), id, name)
  }

  lemma LastStep(v: Views, a: Step, t: nat, view: View)
    requires Inv(v) && AddsView(v, t, view) && IsIdle(Apply(v, a), t)
    ensures a.t == t && Enabled(v, a)
    ensures if Fails(v, a) then Apply(v, a).returned == v.returned else ReturnsFor(v, Apply(v, a), view.name)
  {
    var v' := Apply(v, a);
    assert CallerOk(v, t);
    if !Fails(v, a) {
      StepKeepsInv(v, a);
      var x := v'.returned[|v'.returned| - 1];
      assert v'.returned == v.returned + [Returned(view.name, x.id)];
      assert x in v'.returned;
    }
  }

  /** An add_view, whatever the others do until it ends, fails and returns nothing when its last step
      fails, and otherwise returns the ID of a recorded view with the folded name of its own. */
  lemma AddAnswersItsView(v: Views, t: nat, view: View, during: seq<Step>, last: Step)
    requires Inv(v) && Enabled(v, Begin(t, view)) && StaysAdding(Apply(v, Begin(t, view)), during, t)
    requires IsIdle(Apply(Exec(Apply(v, Begin(t, view)), during), last), t)
    ensures var s := Exec(Apply(v, Begin(t, view)), during);
            if Fails(s, last) then Apply(s, last).returned == s.returned
            else ReturnsFor(s, Apply(s, last), view.name)
  {
    var v1 := Apply(v, Begin(t, view));
    StepKeepsInv(v, Begin(t, view));
    ArgumentsRun(v1, during, t, view);
    ExecKeepsInv(v1, during);
    LastStep(Exec(v1, during), last, t, view);
  }

  predicate Quiet(v: Views, t: nat) { IsIdle(v, t) && v.creator == FREE && v.writer == FREE }

  /** With nobody else around and nothing failing, an add_view of a new name records that view under the
      next ID, registers it with the installed provider and returns the ID. */
  lemma AddAlone(v: Views, t: nat, view: View)
    requires Quiet(v, t) && v.installed.Provider? && v.id !in v.recorded
    requires forall i | i in v.recorded :: !Matches(v.recorded, i, view.name)
    ensures var locked := Apply(Apply(Locks(v, t, view), Recheck(t, ERROR)), Lock(t, true));
            Apply(Apply(locked, Record(t, true)), Enroll(t, true))
            == v.(recorded := v.recorded[v.id := view], id := v.id + 1,
                  installed := Provider(v.installed.registered + multiset{view}),
                  returned := v.returned + [Returned(view.name, v.id)])
  {
    var v1 := v.(callers := v.callers[t := Rechecking(view)], creator := t);
    var v2 := v.(callers := v.callers[t := Locked(view)], creator := t, writer := t);
    LocksAlone(v, t, view);
    LockAlone(v, v1, t, view);
    var v3 := v2.(recorded := v.recorded[v.id := view], callers := v2.callers[t := Recorded(view)]);
    assert Apply(v2, Record(t, true)) == v3;
    assert v3.callers[t := Idle] == v.callers;
  }

  /** An add_view up to the creation mutex. */
  function Locks(v: Views, t: nat, view: View): Views {
    Apply(Apply(Apply(v, Begin(t, view)), Probe(t, ERROR)), Acquire(t))
  }

  lemma LocksAlone(v: Views, t: nat, view: View)
    requires Quiet(v, t) && forall i | i in v.recorded :: !Matches(v.recorded, i, view.name)
    ensures Locks(v, t, view) == v.(callers := v.callers[t := Rechecking(view)], creator := t)
  {
    var v1 := v.(callers := v.callers[t := Probing(view)]);
    var v2 := v.(callers := v.callers[t := Missed(view)]);
    assert Apply(v, Begin(t, view)) == v1;
    assert v1.callers[t := Missed(view)] == v2.callers;
    assert Apply(v1, Probe(t, ERROR)) == v2;
    assert v2.callers[t := Rechecking(view)] == v.callers[t := Rechecking(view)];
  }

  lemma LockAlone(v: Views, v1: Views, t: nat, view: View)
    requires Quiet(v, t) && v.installed.Provider?
    requires v1 == v.(callers := v.callers[t := Rechecking(view)], creator := t)
    requires forall i | i in v.recorded :: !Matches(v.recorded, i, view.name)
    ensures Apply(Apply(v1, Recheck(t, ERROR)), Lock(t, true))
         == v.(callers := v.callers[t := Locked(view)], creator := t, writer := t)
  {
    var v2 := v1.(callers := v.callers[t := Ready(view)]);
    assert v1.callers[t := Ready(view)] == v2.callers;
    assert Apply(v1, Recheck(t, ERROR)) == v2;
    assert v2.callers[t := Locked(view)] == v.callers[t := Locked(view)];
  }

  /** An add_view of a name that is recorded returns what the scan finds and changes nothing else. */
  lemma FindAlone(v: Views, t: nat, view: View, found: int)
    requires Quiet(v, t) && found != ERROR && ScanResult(v.recorded, view.name, found)
    ensures Apply(Apply(v, Begin(t, view)), Probe(t, found))
         == v.(returned := v.returned + [Returned(view.name, found)])
  {
    var v1 := v.(callers := v.callers[t := Probing(view)]);
    assert Apply(v, Begin(t, view)) == v1;
    assert v1.callers[t := Idle] == v.callers;
  }

  /** A start that succeeds, in whatever state it is, leaves a provider with exactly the recorded views,
      and changes neither them nor their IDs. */
  lemma StartLeavesProvider(v: Views, a: Step)
    requires Inv(v) && Enabled(v, a) && a.Install? && a.ok
    ensures var v' := Apply(v, a);
            && v'.installed == Provider(multiset(v'.recorded.Values))
            && v'.recorded == v.recorded && v'.id == v.id && v'.returned == v.returned && IsIdle(v', a.t)
  {
    assert CallerOk(v, a.t);
    if 0 <= v.writer < |v.callers| { assert CallerOk(v, v.writer); }
    AllValues(Settled(v));
  }

  lemma {:induction false} ReplayAll(v: Views, t: nat) returns (sched: seq<Step>)
    requires Inv(v) && v.writer == FREE && t < |v.callers| && v.callers[t].Replaying?
    ensures var v' := Exec(v, sched);
            && v' == v.(callers := v'.callers) && |v'.callers| == |v.callers| && v'.callers[t].Replaying?
            && v'.callers[t].left == {} && forall u | 0 <= u < |v.callers| && u != t :: v'.callers[u] == v.callers[u]
    decreases |v.callers[t].left|
  {
    var left := v.callers[t].left;
    assert CallerOk(v, t);
    if left == {} {
      sched := [];
    } else {
      var i := Collections.SomeElement(left);
      var a := Replay(t, i, true);
      StepKeepsInv(v, a);
      assert |left - {i}| < |left|;
      sched := ReplayAll(Apply(v, a), t);
      assert ([a] + sched)[1..] == sched;
      sched := [a] + sched;
    }
  }

  lemma ExecCons(v: Views, a: Step, rest: seq<Step>)
    ensures Exec(v, [a] + rest) == Exec(Apply(v, a), rest)
  {
    assert ([a] + rest)[1..] == rest;
  }

  lemma {:induction false} ExecSnoc(v: Views, sched: seq<Step>, a: Step)
    ensures Exec(v, sched + [a]) == Apply(Exec(v, sched), a)
    decreases |sched|
  {
    if |sched| == 0 {
      assert ([] + [a])[1..] == [];
    } else {
      assert (sched + [a])[1..] == sched[1..] + [a];
      ExecSnoc(Apply(v, sched[0]), sched[1..], a);
    }
  }

  /** With nobody else around a start can always go through, however many views are recorded; all it
      changes is the provider, which then has exactly these views. */
  lemma StartAlone(v: Views, t: nat) returns (sched: seq<Step>)
    requires Inv(v) && Quiet(v, t)
    ensures Exec(v, sched) == v.(installed := Provider(multiset(v.recorded.Values)))
  {
    var v1 := Apply(v, StartBegin(t));
    StepKeepsInv(v, StartBegin(t));
    var v2 := Apply(v1, StartBuild(t, true));
    StepKeepsInv(v1, StartBuild(t, true));
    var replays := ReplayAll(v2, t);
    var v3 := Exec(v2, replays);
    ExecKeepsInv(v2, replays);
    StartLeavesProvider(v3, Install(t, true));
    ExecSnoc(v2, replays, Install(t, true));
    sched := [StartBegin(t)] + ([StartBuild(t, true)] + (replays + [Install(t, true)]));
    ExecCons(v, StartBegin(t), [StartBuild(t, true)] + (replays + [Install(t, true)]));
    ExecCons(v1, StartBuild(t, true), replays + [Install(t, true)]);
    assert v3.callers[t := Idle] == v.callers;
  }

  /** How far a call is from its end: the stage, and within the replay the views that are left. */
  function Stage(c: Caller): nat {
    match c
    case Idle => 0
    case Probing(_) => 6
    case Missed(_) => 5
    case Rechecking(_) => 4
    case Ready(_) => 3
    case Locked(_) => 2
    case Recorded(_) => 1
    case Starting => 2
    case Replaying(_, _) => 1
  }

  predicate Nearer(c: Caller, d: Caller) {
    Stage(d) < Stage(c) || (c.Replaying? && d.Replaying? && d.left < c.left)
  }

  /** Every call comes to its end: no step of another thread sets it back, each step of its own brings
      it nearer, and a step that fails ends it, without its locks. */
  lemma CallsComeToAnEnd(v: Views, a: Step, t: nat)
    requires Inv(v) && Enabled(v, a) && t < |v.callers|
    ensures var v' := Apply(v, a);
            && (t != a.t ==> v'.callers[t] == v.callers[t])
            && (!a.Begin? && !a.StartBegin? ==> Nearer(v.callers[a.t], v'.callers[a.t]))
            && (Fails(v, a) ==> v'.callers[a.t].Idle? && v'.creator != a.t && v'.writer != a.t)
  {
    assert CallerOk(v, a.t);
  }

  lemma SomeScanResult(recorded: map<int, View>, name: string) returns (found: int)
    ensures ScanResult(recorded, name, found)
  {
    if i :| i in recorded && i >= 0 && Matches(recorded, i, name) {
      found := i;
    } else {
      found := ERROR;
    }
  }

  /** And none waits for ever: as long as some call is under way, one of them can go on. */
  lemma SomeCallGoesOn(threads: nat, sched: seq<Step>, busy: nat) returns (a: Step)
    requires busy < threads == |Exec(Start(threads), sched).callers|
    requires !Exec(Start(threads), sched).callers[busy].Idle?
    ensures !a.Begin? && !a.StartBegin? && Enabled(Exec(Start(threads), sched), a)
  {
    StartHasInv(threads);
    ExecKeepsInv(Start(threads), sched);
    a := NextOf(Exec(Start(threads), sched), busy);
  }

  lemma NextOf(v: Views, busy: nat) returns (a: Step)
    requires Inv(v) && busy < |v.callers| && !v.callers[busy].Idle?
    ensures !a.Begin? && !a.StartBegin? && Enabled(v, a)
  {
    var t := if v.writer != FREE then v.writer else if v.creator != FREE then v.creator else busy;
    assert CallerOk(v, t);
    var c := v.callers[t];
    if Adding(c) {
      var found := SomeScanResult(v.recorded, c.view.name);
      a := if c.Probing? then Probe(t, found) else if c.Missed? then Acquire(t)
           else if c.Rechecking? then Recheck(t, found) else if c.Ready? then Lock(t, true)
           else if c.Locked? then Record(t, true) else Enroll(t, true);
    } else if c.Starting? {
      a := StartBuild(t, true);
    } else if c.left == {} {
      a := Install(t, true);
    } else {
      var i := Collections.SomeElement(c.left);
      a := Replay(t, i, true);
    }
  }

  // ---------- the views of a meter as an object ----------

  class OtelMeterViews {
    var recorded: map<int, View>
    var id: int
    var installed: Provider
    var callers: seq<Caller>
    var creator: int
    var writer: int
    ghost var returned: seq<Returned>

    constructor (threads: nat)
      ensures Abs() == Start(threads)
    {
      recorded, id, installed := map[], 0, NoProvider;
      callers := seq(threads, _ => Idle);
      creator, writer, returned := FREE, FREE, [];
    }

    ghost function Abs(): Views
      reads this
    {
      Views(recorded, id, installed, callers, creator, writer, returned)
    }

    /** otel_meter_get_view_id: the linear scan, in whatever order the map yields its entries. */
    method GetViewId(name: string) returns (r: int)
      ensures ScanResult(recorded, name, r)
    {
      var left := recorded.Keys;
      while left != {}
        invariant left <= recorded.Keys
        invariant forall i | i in recorded && i !in left && i >= 0 :: !Matches(recorded, i, name)
        decreases left
      {
        ghost var any := Collections.SomeElement(left);
        var i :| i in left;
        if i >= 0 && Fold(recorded[i].name) == Fold(name) {
          return i;
        }
        left := left - {i};
      }
      return ERROR;
    }

    method AddBegin(t: nat, view: View)
      requires t < |callers| && callers[t].Idle?
      modifies this
      ensures Abs() == Apply(old(Abs()), Begin(t, view))
    {
      callers := callers[t := Probing(view)];
    }

    method AddProbe(t: nat) returns (r: int)
      requires t < |callers| && callers[t].Probing? && writer == FREE
      modifies this
      ensures Abs() == Apply(old(Abs()), Probe(t, r)) && ScanResult(old(recorded), old(callers)[t].view.name, r)
    {
      var view := callers[t].view;
      r := GetViewId(view.name);
      if r != ERROR {
        returned := returned + [Returned(view.name, r)];
        callers := callers[t := Idle];
      } else {
        callers := callers[t := Missed(view)];
      }
    }

    method AddAcquire(t: nat)
      requires t < |callers| && callers[t].Missed? && creator == FREE
      modifies this
      ensures Abs() == Apply(old(Abs()), Acquire(t))
    {
      creator := t;
      callers := callers[t := Rechecking(callers[t].view)];
    }

    method Release(t: nat)
      requires t < |callers|
      modifies this`callers, this`creator, this`writer
      ensures Abs() == Leave(old(Abs()), t)
    {
      callers := callers[t := Idle];
      creator, writer := FREE, FREE;
    }

    method AddRecheck(t: nat) returns (r: int)
      requires t < |callers| && callers[t].Rechecking? && writer == FREE
      modifies this
      ensures Abs() == Apply(old(Abs()), Recheck(t, r)) && ScanResult(old(recorded), old(callers)[t].view.name, r)
    {
      var view := callers[t].view;
      r := GetViewId(view.name);
      if r != ERROR {
        returned := returned + [Returned(view.name, r)];
        Release(t);
      } else {
        callers := callers[t := Ready(view)];
      }
    }

    method AddLock(t: nat, ok: bool)
      requires t < |callers| && callers[t].Ready? && writer == FREE
      modifies this
      ensures Abs() == Apply(old(Abs()), Lock(t, ok))
    {
      if !ok || installed.NoProvider? {
        Release(t);
        return;
      }
      writer := t;
      callers := callers[t := Locked(callers[t].view)];
    }

    method AddRecord(t: nat, ok: bool)
      requires t < |callers| && callers[t].Locked?
      modifies this
      ensures Abs() == Apply(old(Abs()), Record(t, ok))
    {
      if !ok || id in recorded {
        Release(t);
        return;
      }
      recorded := recorded[id := callers[t].view];
      callers := callers[t := Recorded(callers[t].view)];
    }

    /** A view the SDK does not take is taken out of the record again. */
    method AddEnroll(t: nat, ok: bool) returns (r: int)
      requires t < |callers| && callers[t].Recorded? && installed.Provider?
      modifies this
      ensures Abs() == Apply(old(Abs()), Enroll(t, ok))
      ensures r == if ok then old(id) else ERROR
    {
      var view := callers[t].view;
      Release(t);
      if !ok {
        recorded := recorded - {id};
        return ERROR;
      }
      installed := Provider(installed.registered + multiset{view});
      returned := returned + [Returned(view.name, id)];
      r := id;
      id := id + 1;
    }

    method BeginStart(t: nat)
      requires t < |callers| && callers[t].Idle? && creator == FREE
      modifies this
      ensures Abs() == Apply(old(Abs()), StartBegin(t))
    {
      creator := t;
      callers := callers[t := Starting];
    }

    /** The provider is built, and the view lock taken shared. */
    method BuildProvider(t: nat, ok: bool)
      requires t < |callers| && callers[t].Starting? && writer == FREE
      modifies this
      ensures Abs() == Apply(old(Abs()), StartBuild(t, ok))
    {
      if !ok {
        Release(t);
        return;
      }
      callers := callers[t := Replaying(recorded.Keys, multiset{})];
    }

    /** One turn of the loop over the recorded views. */
    method ReplayView(t: nat, i: int, ok: bool)
      requires Enabled(Abs(), Replay(t, i, ok))
      modifies this
      ensures Abs() == Apply(old(Abs()), Replay(t, i, ok))
    {
      if !ok {
        Release(t);
        return;
      }
      var Replaying(left, given) := callers[t];
      callers := callers[t := Replaying(left - {i}, given + multiset{recorded[i]})];
    }

    method InstallProvider(t: nat, ok: bool)
      requires Enabled(Abs(), Install(t, ok))
      modifies this
      ensures Abs() == Apply(old(Abs()), Install(t, ok))
    {
      if ok {
        installed := Provider(callers[t].given);
      }
      Release(t);
    }
  }
}
