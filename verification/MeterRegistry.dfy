// The instrument registry of a meter (src/meter.cpp): double-checked creation under the creation
// mutex and the map lock, an index keyed by the folded name, and rollback on failure.
//
// Every caller of create_instrument runs its critical sections as separate steps, and the section
// under the exclusive map lock is itself split at each point where it can fail, so `Exec` over an
// arbitrary sequence of steps covers every race and every failure.  A step that is not enabled leaves
// the state alone.

module MeterRegistry {
  import opened Text

  const ERROR: int := -1

  datatype Instrument = Instrument(name: string, kind: int)

  /** Where a create_instrument call stands. */
  datatype Caller =
    | Idle
    | Probing(name: string, kind: int)    // about to probe under the shared map lock
    | Missed(name: string, kind: int)     // probe missed, about to take the creation mutex
    | Rechecking(name: string, kind: int) // holds the creation mutex, about to probe again
    | Creating(name: string, kind: int)   // second probe missed, about to make the SDK instrument
    | Locked(name: string, kind: int)     // holds the map lock too, about to insert
    | Inserted(name: string, kind: int)   // in the map, about to register the callback
    | Hooked(name: string, kind: int)     // about to enter the index

  datatype Returned = Returned(name: string, kind: int, id: int)

  /** `creator` holds the creation mutex, `writer` the exclusive map lock. */
  datatype Registry = Registry(
    instruments: map<int, Instrument>, index: map<string, int>, id: int,
    callers: seq<Caller>, creator: int, writer: int, returned: seq<Returned>)

  datatype Step =
    | Begin(t: nat, name: string, kind: int)
    | Reject(t: nat)             // no memory for the key, or the arguments of a new instrument are invalid
    | Probe(t: nat)
    | Acquire(t: nat)
    | Recheck(t: nat)
    | Make(t: nat, ok: bool)     // the SDK instrument, and then the exclusive map lock
    | Insert(t: nat, ok: bool)   // the insertion into the map may throw
    | Hook(t: nat, ok: bool)     // the callback registration may fail
    | Register(t: nat, ok: bool) // the insertion into the index may throw; otherwise the ID is returned

  const FREE: int := -1

  function Start(threads: nat): Registry {
    Registry(map[], map[], 0, seq(threads, _ => Idle), FREE, FREE, [])
  }

  /** The index key: the folded name, a slash and the decimal type. */
  function Key(name: string, kind: int): string {
    Fold(name) + "/" + DecimalInt(kind)
  }

  function Find(r: Registry, key: string): int {
    if key in r.index then r.index[key] else ERROR
  }

  /** The call returns an existing instrument. */
  function ReturnFound(r: Registry, t: nat): Registry
    requires t < |r.callers| && !r.callers[t].Idle?
  {
    var c := r.callers[t];
    r.(callers := r.callers[t := Idle],
       returned := r.returned + [Returned(c.name, c.kind, Find(r, Key(c.name, c.kind)))])
  }

  /** The call ends and lets go of its locks. */
  function Leave(r: Registry, t: nat): Registry
    requires t < |r.callers|
  {
    r.(callers := r.callers[t := Idle], creator := FREE, writer := FREE)
  }

  predicate Enabled(r: Registry, a: Step) {
    && a.t < |r.callers|
    && var c := r.callers[a.t];
       match a
       case Begin(_, _, _) => c.Idle?
       case Reject(_) => c.Probing? || c.Missed?
       case Probe(_) => c.Probing? && r.writer == FREE
       case Acquire(_) => c.Missed? && r.creator == FREE
       case Recheck(_) => c.Rechecking? && r.writer == FREE
       case Make(_, ok) => c.Creating? && (ok ==> r.writer == FREE)
       case Insert(_, _) => c.Locked?
       case Hook(_, _) => c.Inserted?
       case Register(_, _) => c.Hooked?
  }

  function Apply(r: Registry, a: Step): Registry {
    if !Enabled(r, a) then r else
    var t := a.t;
    var c := r.callers[t];
    match a
    case Begin(_, name, kind) => r.(callers := r.callers[t := Probing(name, kind)])
    case Reject(_) => r.(callers := r.callers[t := Idle])
    case Probe(_) =>
      if Find(r, Key(c.name, c.kind)) != ERROR then ReturnFound(r, t)
      else r.(callers := r.callers[t := Missed(c.name, c.kind)])
    case Acquire(_) => r.(callers := r.callers[t := Rechecking(c.name, c.kind)], creator := t)
    case Recheck(_) =>
      if Find(r, Key(c.name, c.kind)) != ERROR then ReturnFound(r, t).(creator := FREE)
      else r.(callers := r.callers[t := Creating(c.name, c.kind)])
    case Make(_, ok) =>
      if !ok then r.(callers := r.callers[t := Idle], creator := FREE)
      else r.(callers := r.callers[t := Locked(c.name, c.kind)], writer := t)
    case Insert(_, ok) =>
      if !ok || r.id in r.instruments then Leave(r, t)
      else r.(instruments := r.instruments[r.id := Instrument(c.name, c.kind)],
              callers := r.callers[t := Inserted(c.name, c.kind)])
    case Hook(_, ok) =>
      if !ok then Leave(r, t).(instruments := r.instruments - {r.id})
      else r.(callers := r.callers[t := Hooked(c.name, c.kind)])
    case Register(_, ok) =>
      if !ok then Leave(r, t).(instruments := r.instruments - {r.id})
      else
        var key := Key(c.name, c.kind);
        Leave(r, t).(index := if key in r.index then r.index else r.index[key := r.id], id := r.id + 1,
                     returned := r.returned + [Returned(c.name, c.kind, r.id)])
  }

  function Exec(r: Registry, sched: seq<Step>): Registry
    decreases |sched|
  {
    if |sched| == 0 then r else Exec(Apply(r, sched[0]), sched[1..])
  }

  // ---------- the key ----------

  lemma DecimalHasNoSlash(i: int)
    ensures '/' !in DecimalInt(i)
  {
    assert forall k | 0 <= k < |DecimalInt(i)| :: DecimalInt(i)[k] != '/';
  }

  lemma SlashAfter(f1: string, d1: string, f2: string, d2: string)
    requires f1 + "/" + d1 == f2 + "/" + d2 && '/' !in d1
    ensures |f2| <= |f1|
  {
    var s := f1 + "/" + d1;
    assert s[|f2|] == '/';
    assert forall k | 0 <= k < |d1| :: s[|f1| + 1 + k] == d1[k] != '/';
  }

  /** The key is injective up to folding even when names contain slashes: the type after the last
      slash is free of them. */
  lemma KeyInjective(n1: string, k1: int, n2: string, k2: int)
    ensures Key(n1, k1) == Key(n2, k2) <==> Fold(n1) == Fold(n2) && k1 == k2
  {
    var f1, d1, f2, d2 := Fold(n1), DecimalInt(k1), Fold(n2), DecimalInt(k2);
    if f1 + "/" + d1 == f2 + "/" + d2 {
      DecimalHasNoSlash(k1);
      DecimalHasNoSlash(k2);
      var s := f1 + "/" + d1;
      SlashAfter(f1, d1, f2, d2);
      SlashAfter(f2, d2, f1, d1);
      assert s[..|f1|] == f1 && s[..|f2|] == f2;
      assert s[|f1| + 1..] == d1 && s[|f2| + 1..] == d2;
      DecimalIntInjective(k1, k2);
    }
  }

  // ---------- the invariant ----------

  function KeyOf(i: Instrument): string { Key(i.name, i.kind) }

  predicate Mutexed(c: Caller) { c.Rechecking? || c.Creating? || c.Locked? || c.Inserted? || c.Hooked? }
  predicate Writing(c: Caller) { c.Locked? || c.Inserted? || c.Hooked? }
  predicate HalfDone(c: Caller) { c.Inserted? || c.Hooked? }

  /** A creation has put its instrument into the map and is not finished. */
  predicate Unfinished(r: Registry) {
    0 <= r.writer < |r.callers| && HalfDone(r.callers[r.writer])
  }

  /** The map without the instrument of an unfinished creation. */
  function SettledMap(r: Registry): map<int, Instrument> {
    if Unfinished(r) then r.instruments - {r.id} else r.instruments
  }

  ghost predicate IndexMatches(instruments: map<int, Instrument>, index: map<string, int>, id: int) {
    && (forall i :: i in instruments <==> 0 <= i < id)
    && (forall k | k in index :: index[k] in instruments && KeyOf(instruments[index[k]]) == k)
    && (forall i | i in instruments :: KeyOf(instruments[i]) in index && index[KeyOf(instruments[i])] == i)
  }

  predicate CallerOk(r: Registry, t: int)
    requires 0 <= t < |r.callers|
  {
    var c := r.callers[t];
    && (Mutexed(c) <==> r.creator == t)
    && (Writing(c) <==> r.writer == t)
    && (Mutexed(c) && !c.Rechecking? ==> Key(c.name, c.kind) !in r.index)
    && (HalfDone(c) ==> r.id in r.instruments && r.instruments[r.id] == Instrument(c.name, c.kind))
  }

  ghost predicate LocksMatch(r: Registry) {
    && (forall t | 0 <= t < |r.callers| :: CallerOk(r, t))
    && (r.creator == FREE || 0 <= r.creator < |r.callers|)
    && (r.writer == FREE || 0 <= r.writer < |r.callers|)
  }

  ghost predicate ReturnsMatch(r: Registry) {
    forall x | x in r.returned :: x.id in SettledMap(r) && KeyOf(SettledMap(r)[x.id]) == Key(x.name, x.kind)
  }

  ghost predicate Inv(r: Registry) {
    0 <= r.id && IndexMatches(SettledMap(r), r.index, r.id) && LocksMatch(r) && ReturnsMatch(r)
  }

  predicate Commits(r: Registry, a: Step) { a.Register? && a.ok && Enabled(r, a) }

  lemma StepKeepsLocks(r: Registry, a: Step)
    requires Inv(r)
    ensures LocksMatch(Apply(r, a))
  {
    StepKeepsHolders(r, a);
    forall t | 0 <= t < |r.callers| ensures CallerOk(Apply(r, a), t) { StepKeepsCaller(r, a, t); }
  }

  lemma StepKeepsHolders(r: Registry, a: Step)
    requires Inv(r)
    ensures var r' := Apply(r, a);
            && |r'.callers| == |r.callers|
            && (r'.creator == FREE || 0 <= r'.creator < |r.callers|)
            && (r'.writer == FREE || 0 <= r'.writer < |r.callers|)
  {
  }

  lemma StepKeepsCaller(r: Registry, a: Step, t: nat)
    requires Inv(r) && t < |r.callers|
    ensures |Apply(r, a).callers| == |r.callers| && CallerOk(Apply(r, a), t)
  {
    assert CallerOk(r, t);
    if Enabled(r, a) { assert CallerOk(r, a.t); }
  }

  /** Only a creation that succeeds changes the settled map, the index or the next ID: it adds the
      instrument under the next ID. */
  lemma StepSettles(r: Registry, a: Step)
    requires Inv(r)
    ensures var r' := Apply(r, a);
            if Commits(r, a) then
              var c := r.callers[a.t];
              && r'.id == r.id + 1 && SettledMap(r') == SettledMap(r)[r.id := Instrument(c.name, c.kind)]
              && Key(c.name, c.kind) !in r.index && r'.index == r.index[Key(c.name, c.kind) := r.id]
              && r'.returned == r.returned + [Returned(c.name, c.kind, r.id)]
            else r'.id == r.id && SettledMap(r') == SettledMap(r) && r'.index == r.index
  {
    if Enabled(r, a) {
      assert CallerOk(r, a.t);
      if 0 <= r.writer < |r.callers| { assert CallerOk(r, r.writer); }
    }
  }

  lemma CommitKeepsIndex(m: map<int, Instrument>, index: map<string, int>, id: int, i: Instrument)
    requires 0 <= id && IndexMatches(m, index, id) && KeyOf(i) !in index
    ensures IndexMatches(m[id := i], index[KeyOf(i) := id], id + 1)
  {
    var m', index' := m[id := i], index[KeyOf(i) := id];
    forall j | j in m' ensures KeyOf(m'[j]) in index' && index'[KeyOf(m'[j])] == j {
      if j != id { assert KeyOf(m[j]) in index; }
    }
    forall k | k in index' ensures index'[k] in m' && KeyOf(m'[index'[k]]) == k {
      if k in index { assert index[k] in m; }
    }
  }

  /** What an answered probe returns fits. */
  lemma FoundFits(r: Registry, a: Step, x: Returned)
    requires Inv(r) && !Commits(r, a) && x in Apply(r, a).returned
    ensures x.id in SettledMap(r) && KeyOf(SettledMap(r)[x.id]) == Key(x.name, x.kind)
  {
    if x !in r.returned {
      assert r.writer == FREE && (a.Probe? || a.Recheck?);
    }
  }

  lemma StepKeepsReturns(r: Registry, a: Step)
    requires Inv(r)
    ensures ReturnsMatch(Apply(r, a))
  {
    var r' := Apply(r, a);
    StepSettles(r, a);
    forall x | x in r'.returned
      ensures x.id in SettledMap(r') && KeyOf(SettledMap(r')[x.id]) == Key(x.name, x.kind)
    {
      if Commits(r, a) {
        if x in r.returned { assert x.id in SettledMap(r); }
      } else {
        FoundFits(r, a, x);
      }
    }
  }

  lemma StepKeepsInv(r: Registry, a: Step)
    requires Inv(r)
    ensures Inv(Apply(r, a))
  {
    StepKeepsLocks(r, a);
    StepSettles(r, a);
    StepKeepsReturns(r, a);
    if Commits(r, a) {
      var c := r.callers[a.t];
      CommitKeepsIndex(SettledMap(r), r.index, r.id, Instrument(c.name, c.kind));
    }
  }

  lemma {:induction false} ExecKeepsInv(r: Registry, sched: seq<Step>)
    requires Inv(r)
    ensures Inv(Exec(r, sched))
    decreases |sched|
  {
    if |sched| > 0 {
      StepKeepsInv(r, sched[0]);
      ExecKeepsInv(Apply(r, sched[0]), sched[1..]);
    }
  }

  lemma StartHasInv(threads: nat)
    ensures Inv(Start(threads))
  {
    forall t | 0 <= t < threads ensures CallerOk(Start(threads), t) {}
  }

  // ---------- the main results ----------

  /** In every race and with every failure: whenever no creation is inside its exclusive section the
      IDs are exactly 0..id-1, and at no time do two instruments share a folded name and a type. */
  lemma OneInstrumentPerNameAndType(threads: nat, sched: seq<Step>)
    ensures var r := Exec(Start(threads), sched);
            && (r.writer == FREE ==> forall i :: i in r.instruments <==> 0 <= i < r.id)
            && (forall i, j | i in r.instruments && j in r.instruments &&
                  Fold(r.instruments[i].name) == Fold(r.instruments[j].name) &&
                  r.instruments[i].kind == r.instruments[j].kind :: i == j)
  {
    StartHasInv(threads);
    ExecKeepsInv(Start(threads), sched);
    var r := Exec(Start(threads), sched);
    forall i, j | i in r.instruments && j in r.instruments &&
                  Fold(r.instruments[i].name) == Fold(r.instruments[j].name) &&
                  r.instruments[i].kind == r.instruments[j].kind
      ensures i == j
    {
      NoTwins(r, i, j);
    }
  }

  lemma NoTwins(r: Registry, i: int, j: int)
    requires Inv(r) && i in r.instruments && j in r.instruments && KeyOf(r.instruments[i]) == KeyOf(r.instruments[j])
    ensures i == j
  {
    if Unfinished(r) { assert CallerOk(r, r.writer); }
    if i in SettledMap(r) { assert r.index[KeyOf(r.instruments[i])] == i; }
    if j in SettledMap(r) { assert r.index[KeyOf(r.instruments[j])] == j; }
  }

  /** Any two successful calls of a run, however far apart, got the same ID exactly when their names
      fold alike and their types are equal. */
  lemma SameIdExactlyForSamePair(threads: nat, sched: seq<Step>, x: Returned, y: Returned)
    requires x in Exec(Start(threads), sched).returned && y in Exec(Start(threads), sched).returned
    ensures 0 <= x.id < Exec(Start(threads), sched).id
    ensures x.id == y.id <==> Fold(x.name) == Fold(y.name) && x.kind == y.kind
  {
    StartHasInv(threads);
    ExecKeepsInv(Start(threads), sched);
    var r := Exec(Start(threads), sched);
    KeyInjective(x.name, x.kind, y.name, y.kind);
    assert KeyOf(SettledMap(r)[x.id]) == Key(x.name, x.kind);
    assert KeyOf(SettledMap(r)[y.id]) == Key(y.name, y.kind);
  }

  /** What the linear case-insensitive scan looks for. */
  predicate ScanMatches(r: Registry, i: int, name: string, kind: int) {
    && i in r.instruments
    && r.instruments[i].kind == kind
    && |r.instruments[i].name| == |name|
    && forall j | 0 <= j < |name| :: FoldChar(r.instruments[i].name[j]) == FoldChar(name[j])
  }

  /** Whenever no creation is inside its exclusive section, as the shared lock of a lookup makes sure,
      the index answers exactly what the scan over the instruments would. */
  lemma IndexAgreesWithScan(threads: nat, sched: seq<Step>, name: string, kind: int)
    requires Exec(Start(threads), sched).writer == FREE
    ensures var r := Exec(Start(threads), sched);
            && (forall i :: i >= 0 ==> (Find(r, Key(name, kind)) == i <==> ScanMatches(r, i, name, kind)))
            && (Find(r, Key(name, kind)) == ERROR <==> forall i :: !ScanMatches(r, i, name, kind))
  {
    StartHasInv(threads);
    ExecKeepsInv(Start(threads), sched);
    var r := Exec(Start(threads), sched);
    forall i
      ensures ScanMatches(r, i, name, kind) <==> i in r.instruments && KeyOf(r.instruments[i]) == Key(name, kind)
    {
      if i in r.instruments { ScanFolds(r, i, name, kind); }
    }
    if Find(r, Key(name, kind)) != ERROR {
      assert ScanMatches(r, Find(r, Key(name, kind)), name, kind);
    }
  }

  lemma ScanFolds(r: Registry, i: int, name: string, kind: int)
    requires i in r.instruments
    ensures ScanMatches(r, i, name, kind) <==> KeyOf(r.instruments[i]) == Key(name, kind)
  {
    var n := r.instruments[i].name;
    KeyInjective(n, r.instruments[i].kind, name, kind);
    assert ScanMatches(r, i, name, kind) ==> Fold(n) == Fold(name);
    if Fold(n) == Fold(name) {
      assert forall j | 0 <= j < |name| :: Fold(n)[j] == Fold(name)[j];
    }
  }

  /** How many creations of a run succeed. */
  function Successes(r: Registry, sched: seq<Step>): nat
    decreases |sched|
  {
    if |sched| == 0 then 0
    else (if Commits(r, sched[0]) then 1 else 0) + Successes(Apply(r, sched[0]), sched[1..])
  }

  lemma {:induction false} RunSettles(r: Registry, sched: seq<Step>)
    requires Inv(r)
    ensures Inv(Exec(r, sched)) && Exec(r, sched).id == r.id + Successes(r, sched)
    ensures Successes(r, sched) == 0 ==>
              SettledMap(Exec(r, sched)) == SettledMap(r) && Exec(r, sched).index == r.index
    ensures forall i | i in SettledMap(r) ::
              i in SettledMap(Exec(r, sched)) && SettledMap(Exec(r, sched))[i] == SettledMap(r)[i]
    decreases |sched|
  {
    if |sched| > 0 {
      StepKeepsInv(r, sched[0]);
      StepSettles(r, sched[0]);
      RunSettles(Apply(r, sched[0]), sched[1..]);
    }
  }

  /** Creations that fail, wherever they fail and however they interleave, leave no trace: between two
      moments at which the map lock is free the next ID grows by the number of successes, a run of
      failures alone leaves map, index and next ID as they were, and no instrument ever goes away. */
  lemma FailedCreationsLeaveNoTrace(threads: nat, before: seq<Step>, sched: seq<Step>)
    requires Exec(Start(threads), before).writer == FREE
    requires Exec(Exec(Start(threads), before), sched).writer == FREE
    ensures var r := Exec(Start(threads), before);
            var r' := Exec(r, sched);
            && r'.id == r.id + Successes(r, sched)
            && (Successes(r, sched) == 0 ==> r'.instruments == r.instruments && r'.index == r.index)
            && (forall i | i in r.instruments :: i in r'.instruments && r'.instruments[i] == r.instruments[i])
  {
    StartHasInv(threads);
    ExecKeepsInv(Start(threads), before);
    RunSettles(Exec(Start(threads), before), sched);
  }

  // ---------- one call ----------

  /** Thread t is inside a call in every state of the run. */
  predicate StaysBusy(r: Registry, sched: seq<Step>, t: nat)
    decreases |sched|
  {
    && t < |r.callers| && !r.callers[t].Idle?
    && (|sched| == 0 || StaysBusy(Apply(r, sched[0]), sched[1..], t))
  }

  predicate CallsFor(r: Registry, t: nat, name: string, kind: int) {
    t < |r.callers| && !r.callers[t].Idle? && r.callers[t].name == name && r.callers[t].kind == kind
  }

  predicate IsIdle(r: Registry, t: nat) { t < |r.callers| && r.callers[t].Idle? }

  /** A step at which a call fails. */
  predicate Fails(a: Step) {
    a.Reject? || ((a.Make? || a.Insert? || a.Hook? || a.Register?) && !a.ok)
  }

  lemma {:induction false} ArgumentsRun(r: Registry, sched: seq<Step>, t: nat, name: string, kind: int)
    requires StaysBusy(r, sched, t) && CallsFor(r, t, name, kind)
    ensures CallsFor(Exec(r, sched), t, name, kind)
    decreases |sched|
  {
    if |sched| > 0 {
      assert CallsFor(Apply(r, sched[0]), t, name, kind);
      ArgumentsRun(Apply(r, sched[0]), sched[1..], t, name, kind);
    }
  }

  /** The call returns an ID for the pair: that of an instrument with the folded name and the type. */
  ghost predicate ReturnsFor(r: Registry, r': Registry, name: string, kind: int) {
    exists id :: r'.returned == r.returned + [Returned(name, kind, id)] && id in SettledMap(r') &&
                 Fold(SettledMap(r')[id].name) == Fold(name) && SettledMap(r')[id].kind == kind
  }

  lemma LastStep(r: Registry, a: Step, t: nat, name: string, kind: int)
    requires Inv(r) && CallsFor(r, t, name, kind) && IsIdle(Apply(r, a), t)
    ensures a.t == t && Enabled(r, a)
    ensures if Fails(a) then Apply(r, a).returned == r.returned else ReturnsFor(r, Apply(r, a), name, kind)
  {
    var r' := Apply(r, a);
    assert CallerOk(r, t);
    if !Fails(a) {
      StepKeepsInv(r, a);
      var x := r'.returned[|r'.returned| - 1];
      assert r'.returned == r.returned + [Returned(name, kind, x.id)];
      assert x in r'.returned;
      KeyInjective(SettledMap(r')[x.id].name, SettledMap(r')[x.id].kind, name, kind);
    }
  }

  /** A call that begins with a name and a type, whatever the others do until it ends, fails and returns
      nothing when its last step fails, and otherwise returns the ID of an instrument with just that
      folded name and that type. */
  lemma CallAnswersItsArguments(r: Registry, t: nat, name: string, kind: int, during: seq<Step>, last: Step)
    requires Inv(r) && Enabled(r, Begin(t, name, kind))
    requires StaysBusy(Apply(r, Begin(t, name, kind)), during, t)
    requires IsIdle(Apply(Exec(Apply(r, Begin(t, name, kind)), during), last), t)
    ensures var s := Exec(Apply(r, Begin(t, name, kind)), during);
            if Fails(last) then Apply(s, last).returned == s.returned else ReturnsFor(s, Apply(s, last), name, kind)
  {
    var r1 := Apply(r, Begin(t, name, kind));
    StepKeepsInv(r, Begin(t, name, kind));
    ArgumentsRun(r1, during, t, name, kind);
    ExecKeepsInv(r1, during);
    LastStep(Exec(r1, during), last, t, name, kind);
  }

  /** The steps of a call that makes an instrument. */
  function WholeCreate(t: nat, name: string, kind: int): seq<Step> {
    [Begin(t, name, kind), Probe(t), Acquire(t)] +
      ([Recheck(t), Make(t, true)] + ([Insert(t, true), Hook(t, true), Register(t, true)] + []))
  }

  lemma ExecCons(r: Registry, a: Step, rest: seq<Step>)
    ensures Exec(r, [a] + rest) == Exec(Apply(r, a), rest)
  {
    assert ([a] + rest)[1..] == rest;
  }

  predicate Quiet(r: Registry, t: nat) {
    IsIdle(r, t) && r.creator == FREE && r.writer == FREE
  }

  /** With nobody else around and nothing failing, a create of a new pair adds the instrument under the
      next ID and returns that ID; everything else is as before. */
  lemma CreateAlone(r: Registry, t: nat, name: string, kind: int)
    requires Quiet(r, t) && Key(name, kind) !in r.index && r.id !in r.instruments
    ensures Exec(r, WholeCreate(t, name, kind))
         == r.(instruments := r.instruments[r.id := Instrument(name, kind)], id := r.id + 1,
               index := r.index[Key(name, kind) := r.id], returned := r.returned + [Returned(name, kind, r.id)])
  {
    var rest := [Insert(t, true), Hook(t, true), Register(t, true)];
    var r2 := LockedAlone(r, t, name, kind, rest + []);
    ExecThree(r2, Insert(t, true), Hook(t, true), Register(t, true), []);
    CommitAlone(r2, t, name, kind);
    assert r2.callers[t := Idle] == r.callers;
  }

  lemma LockedAlone(r: Registry, t: nat, name: string, kind: int, rest: seq<Step>) returns (s: Registry)
    requires Quiet(r, t) && Key(name, kind) !in r.index
    ensures Exec(s, rest)
         == Exec(r, [Begin(t, name, kind), Probe(t), Acquire(t)] + ([Recheck(t), Make(t, true)] + rest))
    ensures s == r.(callers := r.callers[t := Locked(name, kind)], creator := t, writer := t)
  {
    var r1 := r.(callers := r.callers[t := Rechecking(name, kind)], creator := t);
    s := r.(callers := r.callers[t := Locked(name, kind)], creator := t, writer := t);
    ExecThree(r, Begin(t, name, kind), Probe(t), Acquire(t), [Recheck(t), Make(t, true)] + rest);
    ProbeAlone(r, t, name, kind);
    ExecTwo(r1, Recheck(t), Make(t, true), rest);
    MakeAlone(r1, t, name, kind);
    assert r1.callers[t := Locked(name, kind)] == s.callers;
  }

  lemma ExecTwo(r: Registry, a: Step, b: Step, rest: seq<Step>)
    ensures Exec(r, [a, b] + rest) == Exec(Apply(Apply(r, a), b), rest)
  {
    assert [a, b] + rest == [a] + ([b] + rest);
    ExecCons(r, a, [b] + rest);
    ExecCons(Apply(r, a), b, rest);
  }

  lemma ExecThree(r: Registry, a: Step, b: Step, c: Step, rest: seq<Step>)
    ensures Exec(r, [a, b, c] + rest) == Exec(Apply(Apply(Apply(r, a), b), c), rest)
  {
    assert [a, b, c] + rest == [a, b] + ([c] + rest);
    ExecTwo(r, a, b, [c] + rest);
    ExecCons(Apply(Apply(r, a), b), c, rest);
  }

  lemma ProbeAlone(r: Registry, t: nat, name: string, kind: int)
    requires Quiet(r, t) && Key(name, kind) !in r.index
    ensures Apply(Apply(Apply(r, Begin(t, name, kind)), Probe(t)), Acquire(t))
         == r.(callers := r.callers[t := Rechecking(name, kind)], creator := t)
  {
    var r1 := r.(callers := r.callers[t := Probing(name, kind)]);
    var r2 := r.(callers := r.callers[t := Missed(name, kind)]);
    assert Apply(r, Begin(t, name, kind)) == r1;
    assert Apply(r1, Probe(t)) == r2;
  }

  lemma MakeAlone(r: Registry, t: nat, name: string, kind: int)
    requires t < |r.callers| && r.callers[t] == Rechecking(name, kind) && r.writer == FREE
    requires Key(name, kind) !in r.index
    ensures Apply(Apply(r, Recheck(t)), Make(t, true))
         == r.(callers := r.callers[t := Locked(name, kind)], writer := t)
  {
    var r1 := r.(callers := r.callers[t := Creating(name, kind)]);
    assert Apply(r, Recheck(t)) == r1;
  }

  lemma CommitAlone(r: Registry, t: nat, name: string, kind: int)
    requires t < |r.callers| && r.callers[t] == Locked(name, kind)
    requires Key(name, kind) !in r.index && r.id !in r.instruments
    ensures Apply(Apply(Apply(r, Insert(t, true)), Hook(t, true)), Register(t, true))
         == r.(instruments := r.instruments[r.id := Instrument(name, kind)], id := r.id + 1,
               index := r.index[Key(name, kind) := r.id], returned := r.returned + [Returned(name, kind, r.id)],
               callers := r.callers[t := Idle], creator := FREE, writer := FREE)
  {
    var r1 := r.(instruments := r.instruments[r.id := Instrument(name, kind)],
                 callers := r.callers[t := Inserted(name, kind)]);
    var r2 := r1.(callers := r.callers[t := Hooked(name, kind)]);
    assert Apply(r, Insert(t, true)) == r1;
    assert Apply(r1, Hook(t, true)) == r2;
  }

  /** A create of a pair that exists returns its ID at the first probe and changes nothing else. */
  lemma FindAlone(r: Registry, t: nat, name: string, kind: int)
    requires Quiet(r, t) && Key(name, kind) in r.index && r.index[Key(name, kind)] != ERROR
    ensures Apply(Apply(r, Begin(t, name, kind)), Probe(t))
         == r.(returned := r.returned + [Returned(name, kind, r.index[Key(name, kind)])])
  {
    var r1 := r.(callers := r.callers[t := Probing(name, kind)]);
    assert Apply(r, Begin(t, name, kind)) == r1;
    assert r1.callers[t := Idle] == r.callers;
  }

  /** How many steps of its own a call has in front of it. */
  function Rank(c: Caller): nat {
    match c
    case Idle => 0
    case Probing(_, _) => 7
    case Missed(_, _) => 6
    case Rechecking(_, _) => 5
    case Creating(_, _) => 4
    case Locked(_, _) => 3
    case Inserted(_, _) => 2
    case Hooked(_, _) => 1
  }

  /** Every call comes to its end: no step of another thread sets it back, each step of its own brings
      it nearer, and a step that fails ends it, without its locks. */
  lemma CallsComeToAnEnd(r: Registry, a: Step, t: nat)
    requires Inv(r) && Enabled(r, a) && t < |r.callers|
    ensures var r' := Apply(r, a);
            && (t != a.t ==> r'.callers[t] == r.callers[t])
            && (!a.Begin? ==> Rank(r'.callers[a.t]) < Rank(r.callers[a.t]))
            && (Fails(a) ==> r'.callers[a.t].Idle? && r'.creator != a.t && r'.writer != a.t)
  {
    assert CallerOk(r, a.t);
  }

  /** And none waits for ever: as long as some call is under way, one of them can go on.  The creation
      mutex, the map lock held shared and the map lock held alone never make a deadlock. */
  lemma SomeCallGoesOn(threads: nat, sched: seq<Step>, busy: nat) returns (a: Step)
    requires busy < threads == |Exec(Start(threads), sched).callers|
    requires !Exec(Start(threads), sched).callers[busy].Idle?
    ensures !a.Begin? && Enabled(Exec(Start(threads), sched), a)
  {
    StartHasInv(threads);
    ExecKeepsInv(Start(threads), sched);
    var r := Exec(Start(threads), sched);
    var t := if r.writer != FREE then r.writer else if r.creator != FREE then r.creator else busy;
    assert CallerOk(r, t);
    var c := r.callers[t];
    a := if c.Probing? then Probe(t) else if c.Missed? then Acquire(t)
         else if c.Rechecking? then Recheck(t) else if c.Creating? then Make(t, true)
         else if c.Locked? then Insert(t, true) else if c.Inserted? then Hook(t, true) else Register(t, true);
  }

  // ---------- the meter as an object ----------

  class OtelMeter {
    var instruments: map<int, Instrument>
    var index: map<string, int>
    var id: int
    var callers: seq<Caller>
    var creator: int
    var writer: int
    ghost var returned: seq<Returned>

    constructor (threads: nat)
      ensures View() == Start(threads)
    {
      instruments, index, id := map[], map[], 0;
      callers := seq(threads, _ => Idle);
      creator, writer, returned := FREE, FREE, [];
    }

    ghost function View(): Registry
      reads this
    {
      Registry(instruments, index, id, callers, creator, writer, returned)
    }

    /** otel_meter_instrument_key: the folding loop. */
    static method InstrumentKey(name: string, kind: int) returns (key: string)
      ensures key == Key(name, kind)
    {
      key := "";
      for i := 0 to |name|
        invariant key == Fold(name)[..i]
      {
        var c := name[i];
        key := key + [if 'A' <= c <= 'Z' then (c as int + 32) as char else c];
      }
      assert key == Fold(name);
      key := key + ['/'];
      key := key + DecimalInt(kind);
    }

    method GetInstrument(name: string, kind: int) returns (r: int)
      ensures r == Find(View(), Key(name, kind))
    {
      var key := InstrumentKey(name, kind);
      r := if key in index then index[key] else ERROR;
    }

    method CreateBegin(t: nat, name: string, kind: int)
      requires t < |callers| && callers[t].Idle?
      modifies this
      ensures View() == Apply(old(View()), Begin(t, name, kind))
    {
      callers := callers[t := Probing(name, kind)];
    }

    method CreateReject(t: nat)
      requires t < |callers| && (callers[t].Probing? || callers[t].Missed?)
      modifies this
      ensures View() == Apply(old(View()), Reject(t))
    {
      callers := callers[t := Idle];
    }

    method CreateProbe(t: nat) returns (r: int)
      requires t < |callers| && callers[t].Probing? && writer == FREE
      modifies this
      ensures View() == Apply(old(View()), Probe(t))
      ensures r == Find(old(View()), Key(old(callers)[t].name, old(callers)[t].kind))
    {
      var c := callers[t];
      r := GetInstrument(c.name, c.kind);
      if r != ERROR {
        returned := returned + [Returned(c.name, c.kind, r)];
        callers := callers[t := Idle];
      } else {
        callers := callers[t := Missed(c.name, c.kind)];
      }
    }

    method CreateAcquire(t: nat)
      requires t < |callers| && callers[t].Missed? && creator == FREE
      modifies this
      ensures View() == Apply(old(View()), Acquire(t))
    {
      creator := t;
      callers := callers[t := Rechecking(callers[t].name, callers[t].kind)];
    }

    method CreateRecheck(t: nat) returns (r: int)
      requires t < |callers| && callers[t].Rechecking? && writer == FREE
      modifies this
      ensures View() == Apply(old(View()), Recheck(t))
      ensures r == Find(old(View()), Key(old(callers)[t].name, old(callers)[t].kind))
    {
      var c := callers[t];
      r := GetInstrument(c.name, c.kind);
      if r != ERROR {
        returned := returned + [Returned(c.name, c.kind, r)];
        callers := callers[t := Idle];
        creator := FREE;
      } else {
        callers := callers[t := Creating(c.name, c.kind)];
      }
    }

    /** The SDK instrument is made, and the exclusive map lock taken. */
    method CreateMake(t: nat, ok: bool)
      requires t < |callers| && callers[t].Creating? && writer == FREE
      modifies this
      ensures View() == Apply(old(View()), Make(t, ok))
    {
      if !ok {
        callers := callers[t := Idle];
        creator := FREE;
        return;
      }
      callers := callers[t := Locked(callers[t].name, callers[t].kind)];
      writer := t;
    }

    method Release(t: nat)
      requires t < |callers|
      modifies this`callers, this`creator, this`writer
      ensures View() == Leave(old(View()), t)
    {
      callers := callers[t := Idle];
      creator, writer := FREE, FREE;
    }

    method CreateInsert(t: nat, ok: bool) returns (inserted: bool)
      requires t < |callers| && callers[t].Locked?
      modifies this
      ensures View() == Apply(old(View()), Insert(t, ok))
      ensures inserted == (ok && old(id) !in old(instruments))
    {
      inserted := ok && id !in instruments;
      if !inserted {
        Release(t);
        return;
      }
      var c := callers[t];
      instruments := instruments[id := Instrument(c.name, c.kind)];
      callers := callers[t := Inserted(c.name, c.kind)];
    }

    /** A callback that cannot be registered takes the instrument out again. */
    method CreateHook(t: nat, ok: bool)
      requires t < |callers| && callers[t].Inserted?
      modifies this
      ensures View() == Apply(old(View()), Hook(t, ok))
    {
      if !ok {
        instruments := instruments - {id};
        Release(t);
        return;
      }
      callers := callers[t := Hooked(callers[t].name, callers[t].kind)];
    }

    /** The index entry comes last: if it throws, the map entry is taken out. */
    method CreateRegister(t: nat, ok: bool) returns (r: int)
      requires t < |callers| && callers[t].Hooked?
      modifies this
      ensures View() == Apply(old(View()), Register(t, ok))
      ensures r == if ok then old(id) else ERROR
    {
      var c := callers[t];
      Release(t);
      if !ok {
        instruments := instruments - {id};
        return ERROR;
      }
      var key := InstrumentKey(c.name, c.kind);
      if key !in index {
        index := index[key := id];
      }
      returned := returned + [Returned(c.name, c.kind, id)];
      r := id;
      id := id + 1;
    }
  }
}
