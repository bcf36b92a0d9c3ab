// The sharded handle map (include/util.h, otel_handle): power-of-two masking, the operations under
// the shard mutexes, the two walks that lock one shard after the other, and the lock-free
// high-water mark.
//
// What one thread does while it holds a shard mutex is one step, except that an insertion keeps the
// mutex over the compare-exchange loop that updates the mark.  A step that cannot be taken leaves
// the state alone, so every sequence of actions is an interleaving.

module HandleMap {
  import opened Bits
  import Collections

  predicate ShardCount(n: nat) { 0 < n < TWO64 && And(n, n - 1) == 0 }

  /** get_shard_index: a key belongs to one shard, the one of its remainder. */
  function ShardIndex(key: int, n: nat): (i: nat)
    requires ShardCount(n)
    ensures i == key % n && i < n
  {
    MaskIsMod(key, n);
    And(key % TWO64, n - 1)
  }

  datatype Pc =
    | Idle
    | Inserted(shard: nat)                // holds the shard mutex, about to load the mark
    | Exchanging(shard: nat, loaded: nat) // holds the shard mutex, inside the compare-exchange loop
    | Sizing(next: nat, sum: nat)         // total_map_size, about to visit shard `next`
    | Sweeping(next: nat)                 // for_each_locked, about to visit shard `next`

  datatype Table<V> = Table(shards: seq<map<int, V>>, peak: nat, pc: seq<Pc>)

  datatype Op<V> =
    | Emplace(key: int, value: V, memory: bool)
    | Erase(gone: int)
    | LoadPeak
    | ExchangePeak(spurious: bool)
    | BeginSize
    | BeginSweep
    | VisitShard
    | Return

  datatype Action<V> = Action(t: nat, op: Op<V>)

  predicate Updating(p: Pc) { p.Inserted? || p.Exchanging? }
  predicate Walking(p: Pc) { p.Sizing? || p.Sweeping? }

  predicate Held<V>(s: Table<V>, i: nat) {
    exists t | 0 <= t < |s.pc| :: Updating(s.pc[t]) && s.pc[t].shard == i
  }

  predicate WellFormed<V>(s: Table<V>) { ShardCount(|s.shards|) }

  function Home<V>(s: Table<V>, key: int): (i: nat)
    requires WellFormed(s)
    ensures i == key % |s.shards| && i < |s.shards|
  {
    ShardIndex(key, |s.shards|)
  }

  function Max(a: nat, b: nat): nat { if a < b then b else a }

  predicate Enabled<V>(s: Table<V>, a: Action<V>)
    requires WellFormed(s)
  {
    && a.t < |s.pc|
    && var p := s.pc[a.t];
       match a.op
       case Emplace(key, _, _) => p.Idle? && !Held(s, Home(s, key))
       case Erase(key) => p.Idle? && !Held(s, Home(s, key))
       case LoadPeak => p.Inserted?
       case ExchangePeak(_) => p.Exchanging? && p.shard < |s.shards|
       case BeginSize => p.Idle?
       case BeginSweep => p.Idle?
       case VisitShard => Walking(p) && p.next < |s.shards| && !Held(s, p.next)
       case Return => Walking(p) && p.next >= |s.shards|
  }

  function Apply<V>(s: Table<V>, a: Action<V>): (s': Table<V>)
    requires WellFormed(s)
    ensures |s'.shards| == |s.shards| && |s'.pc| == |s.pc|
  {
    if !Enabled(s, a) then s else
    var p := s.pc[a.t];
    match a.op
    case Emplace(key, value, memory) =>
      var i := Home(s, key);
      if !memory || key in s.shards[i] then s
      else s.(shards := s.shards[i := s.shards[i][key := value]], pc := s.pc[a.t := Inserted(i)])
    case Erase(key) =>
      var i := Home(s, key);
      s.(shards := s.shards[i := s.shards[i] - {key}])
    case LoadPeak => s.(pc := s.pc[a.t := Exchanging(p.shard, s.peak)])
    case ExchangePeak(spurious) =>
      if p.loaded == s.peak && !spurious
      then s.(peak := Max(p.loaded, |s.shards[p.shard]|), pc := s.pc[a.t := Idle])
      else s.(pc := s.pc[a.t := Exchanging(p.shard, s.peak)])
    case BeginSize => s.(pc := s.pc[a.t := Sizing(0, 0)])
    case BeginSweep => s.(pc := s.pc[a.t := Sweeping(0)])
    case VisitShard =>
      if p.Sizing? then s.(pc := s.pc[a.t := Sizing(p.next + 1, p.sum + |s.shards[p.next]|)])
      else s.(shards := s.shards[p.next := map[]], pc := s.pc[a.t := Sweeping(p.next + 1)])
    case Return => s.(pc := s.pc[a.t := Idle])
  }

  function Exec<V>(s: Table<V>, sched: seq<Action<V>>): (s': Table<V>)
    requires WellFormed(s)
    ensures |s'.shards| == |s.shards| && |s'.pc| == |s.pc|
    decreases |sched|
  {
    if |sched| == 0 then s else Exec(Apply(s, sched[0]), sched[1..])
  }

  function Start<V>(n: nat, threads: nat): Table<V> {
    Table(seq(n, _ => map[]), 0, seq(threads, _ => Idle))
  }

  // ---------- one flat map ----------

  /** The flat map that the shards hold together. */
  function Flat<V>(shards: seq<map<int, V>>): map<int, V> {
    if |shards| == 0 then map[] else Flat(shards[..|shards| - 1]) + shards[|shards| - 1]
  }

  /** The sum that total_map_size adds up over the shards from k on. */
  function SizeFrom<V>(shards: seq<map<int, V>>, k: nat): nat
    requires k <= |shards|
    decreases |shards| - k
  {
    if k == |shards| then 0 else |shards[k]| + SizeFrom(shards, k + 1)
  }

  ghost predicate Placed<V>(shards: seq<map<int, V>>, n: nat)
    requires n > 0
  {
    forall i, k | 0 <= i < |shards| && k in shards[i] :: k % n == i
  }

  lemma {:induction false} FlatKeys<V>(shards: seq<map<int, V>>, n: nat, key: int)
    requires n > 0 && Placed(shards, n)
    ensures key in Flat(shards) <==> key % n < |shards| && key in shards[key % n]
    ensures key in Flat(shards) ==> Flat(shards)[key] == shards[key % n][key]
  {
    if |shards| > 0 {
      FlatKeys(shards[..|shards| - 1], n, key);
    }
  }

  lemma {:induction false} SizeUpdate<V>(shards: seq<map<int, V>>, k: nat, i: nat, m: map<int, V>)
    requires k <= |shards| && i < |shards|
    ensures SizeFrom(shards[i := m], k) == SizeFrom(shards, k) + if i >= k then |m| - |shards[i]| else 0
    decreases |shards| - k
  {
    if k < |shards| { SizeUpdate(shards, k + 1, i, m); }
  }

  lemma {:induction false} SizePrefix<V>(shards: seq<map<int, V>>, k: nat)
    requires k < |shards|
    ensures SizeFrom(shards, k) == SizeFrom(shards[..|shards| - 1], k) + |shards[|shards| - 1]|
    decreases |shards| - k
  {
    if k + 1 < |shards| { SizePrefix(shards, k + 1); }
  }

  lemma DisjointSize<V>(a: map<int, V>, b: map<int, V>)
    requires a.Keys !! b.Keys
    ensures |a + b| == |a| + |b|
  {
    assert (a + b).Keys == a.Keys + b.Keys;
    assert |(a + b).Keys| == |a + b| && |a.Keys| == |a| && |b.Keys| == |b|;
  }

  /** The sizes of the shards add up to the size of the flat map. */
  lemma {:induction false} FlatSize<V>(shards: seq<map<int, V>>, n: nat)
    requires n > 0 && Placed(shards, n)
    ensures SizeFrom(shards, 0) == |Flat(shards)|
  {
    if |shards| > 0 {
      var init, last := shards[..|shards| - 1], shards[|shards| - 1];
      FlatSize(init, n);
      SizePrefix(shards, 0);
      forall k | k in last ensures k !in Flat(init) { FlatKeys(init, n, k); }
      DisjointSize(Flat(init), last);
    }
  }

  ghost predicate Sound<V>(s: Table<V>) {
    WellFormed(s) && Placed(s.shards, |s.shards|)
  }

  lemma StepKeepsSound<V>(s: Table<V>, a: Action<V>)
    requires Sound(s)
    ensures Sound(Apply(s, a))
  {
  }

  /** A step on the flat map: what Emplace and Erase mean without shards, and what a sweep step takes. */
  function FlatStep<V>(m: map<int, V>, n: nat, a: Action<V>, swept: set<nat>): map<int, V>
    requires n > 0
  {
    match a.op
    case Emplace(key, value, memory) => if memory && key !in m then m[key := value] else m
    case Erase(key) => m - {key}
    case VisitShard => map k | k in m && k % n !in swept :: m[k]
    case _ => m
  }

  /** The shard a sweep step empties. */
  function Swept<V>(s: Table<V>, a: Action<V>): set<nat>
    requires WellFormed(s)
  {
    if Enabled(s, a) && a.op.VisitShard? && s.pc[a.t].Sweeping? then {s.pc[a.t].next} else {}
  }

  /** The sharded map refines one flat map: every step that is taken does to the flat map what the
      operation means there, and a lookup in the home shard finds what the flat map holds. */
  lemma RefinesFlat<V>(s: Table<V>, a: Action<V>)
    requires Sound(s) && Enabled(s, a)
    ensures Flat(Apply(s, a).shards) == FlatStep(Flat(s.shards), |s.shards|, a, Swept(s, a))
  {
    var m' := Flat(Apply(s, a).shards);
    var f := FlatStep(Flat(s.shards), |s.shards|, a, Swept(s, a));
    forall k ensures k in m' <==> k in f ensures k in m' && k in f ==> m'[k] == f[k] {
      RefinesFlatAt(s, a, k);
    }
    assert m' == f;
  }

  lemma RefinesFlatAt<V>(s: Table<V>, a: Action<V>, k: int)
    requires Sound(s) && Enabled(s, a)
    ensures var m', f := Flat(Apply(s, a).shards), FlatStep(Flat(s.shards), |s.shards|, a, Swept(s, a));
            (k in m' <==> k in f) && (k in m' ==> m'[k] == f[k])
  {
    var n := |s.shards|;
    StepKeepsSound(s, a);
    FlatKeys(s.shards, n, k);
    FlatKeys(Apply(s, a).shards, n, k);
    if a.op.Emplace? { FlatKeys(s.shards, n, a.op.key); }
  }

  /** In every reachable state a key sits only in the shard of its remainder, a lookup there sees the
      flat map, and the sizes of the shards add up to its size. */
  lemma ShardsAreOneMap<V>(n: nat, threads: nat, sched: seq<Action<V>>, key: int)
    requires ShardCount(n)
    ensures var s := Exec(Start(n, threads), sched);
            && (key in Flat(s.shards) <==> key in s.shards[Home(s, key)])
            && (key in Flat(s.shards) ==> Flat(s.shards)[key] == s.shards[Home(s, key)][key])
            && (forall i | 0 <= i < n && key in s.shards[i] :: i == Home(s, key))
            && SizeFrom(s.shards, 0) == |Flat(s.shards)|
  {
    ExecKeepsSound(Start(n, threads), sched);
    var s := Exec(Start(n, threads), sched);
    FlatKeys(s.shards, n, key);
    FlatSize(s.shards, n);
  }

  lemma {:induction false} ExecKeepsSound<V>(s: Table<V>, sched: seq<Action<V>>)
    requires Sound(s)
    ensures Sound(Exec(s, sched))
    decreases |sched|
  {
    if |sched| > 0 {
      StepKeepsSound(s, sched[0]);
      ExecKeepsSound(Apply(s, sched[0]), sched[1..]);
    }
  }

  // ---------- walks over the shards under interference ----------

  function Num(b: bool): nat { if b then 1 else 0 }

  predicate Has<V>(s: Table<V>, key: int)
    requires WellFormed(s)
  {
    key in s.shards[Home(s, key)]
  }

  /** How often a run inserts the key. */
  function Born<V>(s: Table<V>, sched: seq<Action<V>>, key: int): nat
    requires WellFormed(s)
    decreases |sched|
  {
    if |sched| == 0 then 0
    else Num(!Has(s, key) && Has(Apply(s, sched[0]), key)) + Born(Apply(s, sched[0]), sched[1..], key)
  }

  /** How many entries a run inserts, and how many it takes out by erase or by sweeping. */
  function Added<V>(s: Table<V>, sched: seq<Action<V>>): nat
    requires WellFormed(s)
    decreases |sched|
  {
    if |sched| == 0 then 0
    else Growth(s, sched[0]) + Added(Apply(s, sched[0]), sched[1..])
  }

  function Removed<V>(s: Table<V>, sched: seq<Action<V>>): nat
    requires WellFormed(s)
    decreases |sched|
  {
    if |sched| == 0 then 0
    else Shrinkage(s, sched[0]) + Removed(Apply(s, sched[0]), sched[1..])
  }

  function Growth<V>(s: Table<V>, a: Action<V>): nat
    requires WellFormed(s)
  {
    var d := SizeFrom(Apply(s, a).shards, 0) - SizeFrom(s.shards, 0);
    if d > 0 then d else 0
  }

  function Shrinkage<V>(s: Table<V>, a: Action<V>): nat
    requires WellFormed(s)
  {
    var d := SizeFrom(s.shards, 0) - SizeFrom(Apply(s, a).shards, 0);
    if d > 0 then d else 0
  }

  /** Thread t is inside one walk in every state of the run. */
  predicate StaysWalking<V>(s: Table<V>, sched: seq<Action<V>>, t: nat)
    requires WellFormed(s)
    decreases |sched|
  {
    && t < |s.pc| && Walking(s.pc[t])
    && (|sched| == 0 || StaysWalking(Apply(s, sched[0]), sched[1..], t))
  }

  /** What thread t has added up plus what it still has in front of it. */
  function Expected<V>(s: Table<V>, t: nat): nat
    requires t < |s.pc| && s.pc[t].Sizing? && s.pc[t].next <= |s.shards|
  {
    s.pc[t].sum + SizeFrom(s.shards, s.pc[t].next)
  }

  /** A step changes one shard at most. */
  lemma OneShardChanges<V>(s: Table<V>, a: Action<V>) returns (i: nat)
    requires WellFormed(s)
    ensures i < |s.shards| && Apply(s, a).shards == s.shards[i := Apply(s, a).shards[i]]
  {
    i := if Enabled(s, a) && a.op.VisitShard? then s.pc[a.t].next
         else if a.op.Emplace? then Home(s, a.op.key)
         else if a.op.Erase? then Home(s, a.op.gone) else 0;
  }

  lemma WalkerStep<V>(s: Table<V>, a: Action<V>, t: nat)
    requires WellFormed(s) && t < |s.pc| && s.pc[t].Sizing? && Walking(Apply(s, a).pc[t])
    ensures var s' := Apply(s, a);
            || s'.pc[t] == s.pc[t]
            || (s.pc[t].next < |s.shards| && s'.shards == s.shards
                && s'.pc[t] == Sizing(s.pc[t].next + 1, s.pc[t].sum + |s.shards[s.pc[t].next]|))
  {
  }

  lemma SizingStep<V>(s: Table<V>, a: Action<V>, t: nat)
    requires WellFormed(s) && t < |s.pc| && s.pc[t].Sizing? && s.pc[t].next <= |s.shards|
    requires Walking(Apply(s, a).pc[t])
    ensures var s' := Apply(s, a);
            && s'.pc[t].Sizing? && s'.pc[t].next <= |s.shards|
            && Expected(s, t) - Shrinkage(s, a) <= Expected(s', t) <= Expected(s, t) + Growth(s, a)
  {
    var m := Apply(s, a).shards;
    WalkerStep(s, a, t);
    var i := OneShardChanges(s, a);
    SizeUpdate(s.shards, 0, i, m[i]);
    SizeUpdate(s.shards, s.pc[t].next, i, m[i]);
  }

  lemma {:induction false} SizingRun<V>(s: Table<V>, sched: seq<Action<V>>, t: nat)
    requires WellFormed(s) && StaysWalking(s, sched, t)
    requires s.pc[t].Sizing? && s.pc[t].next <= |s.shards|
    ensures var s' := Exec(s, sched);
            && s'.pc[t].Sizing? && s'.pc[t].next <= |s.shards|
            && Expected(s, t) - Removed(s, sched) <= Expected(s', t) <= Expected(s, t) + Added(s, sched)
    decreases |sched|
  {
    if |sched| > 0 {
      SizingStep(s, sched[0], t);
      SizingRun(Apply(s, sched[0]), sched[1..], t);
    }
  }

  /** The thread begins a walk, and is inside it in every state of the run. */
  predicate WalksFrom<V>(s: Table<V>, begin: Op<V>, sched: seq<Action<V>>, t: nat)
    requires WellFormed(s)
  {
    t < |s.pc| && s.pc[t].Idle? && StaysWalking(Apply(s, Action(t, begin)), sched, t)
  }

  /** total_map_size takes no snapshot: it locks one shard after the other while others insert and
      erase.  When it can return, its result is the size of the flat map when it began, give or take
      what was added and removed meanwhile; undisturbed it is exact. */
  lemma TotalSizeBounds<V>(s: Table<V>, sched: seq<Action<V>>, t: nat)
    requires Sound(s) && WalksFrom(s, BeginSize, sched, t)
    requires Enabled(Exec(Apply(s, Action(t, BeginSize)), sched), Action(t, Return))
    ensures var s1 := Apply(s, Action(t, BeginSize));
            var p := Exec(s1, sched).pc[t];
            p.Sizing? && |Flat(s.shards)| - Removed(s1, sched) <= p.sum <= |Flat(s.shards)| + Added(s1, sched)
  {
    SizingRun(Apply(s, Action(t, BeginSize)), sched, t);
    FlatSize(s.shards, |s.shards|);
  }

  lemma {:induction false} SweepRun<V>(s: Table<V>, sched: seq<Action<V>>, t: nat, key: int)
    requires WellFormed(s) && StaysWalking(s, sched, t) && s.pc[t].Sweeping?
    requires Home(s, key) < s.pc[t].next ==> !Has(s, key)
    ensures var s' := Exec(s, sched);
            && s'.pc[t].Sweeping?
            && (Home(s, key) < s'.pc[t].next && Has(s', key) ==> Born(s, sched, key) >= 1)
    decreases |sched|
  {
    if |sched| > 0 {
      var s1 := Apply(s, sched[0]);
      if Home(s, key) < s1.pc[t].next && Has(s1, key) {
        SweepKeepsKind(s1, sched[1..], t);
      } else {
        SweepRun(s1, sched[1..], t, key);
      }
    }
  }

  lemma {:induction false} SweepKeepsKind<V>(s: Table<V>, sched: seq<Action<V>>, t: nat)
    requires WellFormed(s) && StaysWalking(s, sched, t) && s.pc[t].Sweeping?
    ensures Exec(s, sched).pc[t].Sweeping?
    decreases |sched|
  {
    if |sched| > 0 { SweepKeepsKind(Apply(s, sched[0]), sched[1..], t); }
  }

  /** A sweep that can return leaves behind only entries inserted while it ran. */
  lemma SweepLeavesOnlyNewcomers<V>(s: Table<V>, sched: seq<Action<V>>, t: nat, key: int)
    requires WellFormed(s) && WalksFrom(s, BeginSweep, sched, t)
    requires Enabled(Exec(Apply(s, Action(t, BeginSweep)), sched), Action(t, Return))
    ensures var s1 := Apply(s, Action(t, BeginSweep)); Has(Exec(s1, sched), key) ==> Born(s1, sched, key) >= 1
  {
    SweepRun(Apply(s, Action(t, BeginSweep)), sched, t, key);
  }

  function Visits<V>(t: nat, n: nat): seq<Action<V>> { seq(n, _ => Action(t, VisitShard)) }

  lemma {:induction false} SizeVisits<V>(s: Table<V>, t: nat, n: nat)
    requires WellFormed(s) && Quiet(s) && t < |s.pc| && s.pc[t].Sizing? && s.pc[t].next + n == |s.shards|
    ensures Exec(s, Visits(t, n)) == s.(pc := s.pc[t := Sizing(|s.shards|, Expected(s, t))])
    decreases n
  {
    if n == 0 {
      assert s.pc[t := s.pc[t]] == s.pc;
    } else {
      assert Visits<V>(t, n)[1..] == Visits(t, n - 1);
      SizeVisits(Apply(s, Action(t, VisitShard)), t, n - 1);
    }
  }

  lemma {:induction false} SweepVisits<V>(s: Table<V>, t: nat, n: nat)
    requires WellFormed(s) && Quiet(s) && t < |s.pc| && s.pc[t].Sweeping? && s.pc[t].next + n == |s.shards|
    ensures var s' := Exec(s, Visits(t, n));
            && s' == s.(shards := s'.shards, pc := s.pc[t := Sweeping(|s.shards|)])
            && forall i | 0 <= i < |s.shards| :: s'.shards[i] == if i >= s.pc[t].next then map[] else s.shards[i]
    decreases n
  {
    if n == 0 {
      assert s.pc[t := s.pc[t]] == s.pc;
    } else {
      assert Visits<V>(t, n)[1..] == Visits(t, n - 1);
      SweepVisits(Apply(s, Action(t, VisitShard)), t, n - 1);
    }
  }

  lemma ExecFirst<V>(s: Table<V>, a: Action<V>, rest: seq<Action<V>>)
    requires WellFormed(s)
    ensures Exec(s, [a] + rest) == Exec(Apply(s, a), rest)
  {
    assert ([a] + rest)[1..] == rest;
  }

  /** With nobody else in the map total_map_size visits every shard, ends with the size of the flat map,
      and changes nothing. */
  lemma SizeAlone<V>(s: Table<V>, t: nat)
    requires Sound(s) && Quiet(s) && t < |s.pc| && s.pc[t].Idle?
    ensures var s' := Exec(s, [Action(t, BeginSize)] + Visits(t, |s.shards|));
            s'.pc[t] == Sizing(|s.shards|, |Flat(s.shards)|) && Apply(s', Action(t, Return)) == s
  {
    var n, s1 := |s.shards|, s.(pc := s.pc[t := Sizing(0, 0)]);
    ExecFirst(s, Action(t, BeginSize), Visits(t, n));
    assert Apply(s, Action(t, BeginSize)) == s1;
    FlatSize(s.shards, n);
    SizeVisits(s1, t, n);
    var s2 := s.(pc := s.pc[t := Sizing(n, |Flat(s.shards)|)]);
    assert s1.pc[t := Sizing(n, |Flat(s.shards)|)] == s2.pc && s2.pc[t := Idle] == s.pc;
    ReturnAlone(s2, t);
  }

  lemma ReturnAlone<V>(s: Table<V>, t: nat)
    requires WellFormed(s) && t < |s.pc| && Walking(s.pc[t]) && s.pc[t].next == |s.shards|
    ensures Apply(s, Action(t, Return)) == s.(pc := s.pc[t := Idle])
  {
  }

  lemma SweepAll<V>(s: Table<V>, t: nat)
    requires WellFormed(s) && Quiet(s) && t < |s.pc| && s.pc[t] == Sweeping(0)
    ensures Exec(s, Visits(t, |s.shards|))
         == s.(shards := seq(|s.shards|, _ => map[]), pc := s.pc[t := Sweeping(|s.shards|)])
  {
    SweepVisits(s, t, |s.shards|);
    assert Exec(s, Visits(t, |s.shards|)).shards == seq(|s.shards|, _ => map[]);
  }

  /** And for_each_locked empties every shard. */
  lemma SweepAlone<V>(s: Table<V>, t: nat)
    requires WellFormed(s) && Quiet(s) && t < |s.pc| && s.pc[t].Idle?
    ensures var s' := Exec(s, [Action(t, BeginSweep)] + Visits(t, |s.shards|));
            Apply(s', Action(t, Return)) == s.(shards := seq(|s.shards|, _ => map[]))
  {
    var n, s1 := |s.shards|, s.(pc := s.pc[t := Sweeping(0)]);
    var s2 := s.(shards := seq(n, _ => map[]), pc := s.pc[t := Sweeping(n)]);
    ExecFirst(s, Action(t, BeginSweep), Visits(t, n));
    assert Apply(s, Action(t, BeginSweep)) == s1;
    SweepAll(s1, t);
    assert s1.pc[t := Sweeping(n)] == s2.pc && s2.pc[t := Idle] == s.pc;
    ReturnAlone(s2, t);
  }

  /** An insertion of an absent key with nobody else in its shard puts it there, and raises the mark if
      the shard has become larger. */
  lemma EmplaceAlone<V>(s: Table<V>, t: nat, key: int, value: V)
    requires WellFormed(s) && t < |s.pc| && s.pc[t].Idle? && !Held(s, Home(s, key)) && !Has(s, key)
    ensures var i := Home(s, key);
            var shard := s.shards[i][key := value];
            var s1 := Apply(s, Action(t, Emplace(key, value, true)));
            Apply(Apply(s1, Action(t, LoadPeak)), Action(t, ExchangePeak(false)))
            == s.(shards := s.shards[i := shard], peak := if |shard| > s.peak then |shard| else s.peak)
  {
    var i := Home(s, key);
    var s1 := s.(shards := s.shards[i := s.shards[i][key := value]], pc := s.pc[t := Inserted(i)]);
    assert Apply(s, Action(t, Emplace(key, value, true))) == s1;
    assert s1.pc[t := Exchanging(i, s.peak)][t := Idle] == s.pc;
  }

  // ---------- the high-water mark ----------

  /** The size of the largest shard. */
  function Largest<V>(shards: seq<map<int, V>>): (m: nat)
    ensures forall i | 0 <= i < |shards| :: |shards[i]| <= m
    ensures m == 0 || exists i | 0 <= i < |shards| :: m == |shards[i]|
  {
    if |shards| == 0 then 0
    else Max(Largest(shards[..|shards| - 1]), |shards[|shards| - 1]|)
  }

  /** The largest size any shard has in any state of the run. */
  function HighWater<V>(s: Table<V>, sched: seq<Action<V>>): nat
    requires WellFormed(s)
    decreases |sched|
  {
    if |sched| == 0 then Largest(s.shards)
    else Max(Largest(s.shards), HighWater(Apply(s, sched[0]), sched[1..]))
  }

  predicate Quiet<V>(s: Table<V>) { forall t | 0 <= t < |s.pc| :: !Updating(s.pc[t]) }

  predicate Carries<V>(s: Table<V>, t: nat, high: nat) {
    && t < |s.pc| && Updating(s.pc[t]) && s.pc[t].shard < |s.shards|
    && |s.shards[s.pc[t].shard]| == high
  }

  /** `high` is the largest size so far: the mark has it, or a thread that still has to publish it
      holds the shard it was reached in. */
  ghost predicate MarkInv<V>(s: Table<V>, high: nat) {
    && (forall i | 0 <= i < |s.shards| :: |s.shards[i]| <= high)
    && (forall t | 0 <= t < |s.pc| && Updating(s.pc[t]) :: s.pc[t].shard < |s.shards|)
    && s.peak <= high
    && (s.peak == high || exists t :: Carries(s, t, high))
  }

  lemma MarkStep<V>(s: Table<V>, a: Action<V>, high: nat)
    requires WellFormed(s) && MarkInv(s, high)
    ensures MarkInv(Apply(s, a), Max(high, Largest(Apply(s, a).shards)))
    ensures s.peak <= Apply(s, a).peak
  {
    var s' := Apply(s, a);
    var high' := Max(high, Largest(s'.shards));
    MarkBounds(s, a, high);
    if high' > high {
      var i :| 0 <= i < |s'.shards| && |s'.shards[i]| == high';
      Grew(s, a, i);
      assert Carries(s', a.t, high');
    } else if s.peak != high {
      var t :| Carries(s, t, high);
      CarrierStep(s, a, t, high);
    }
  }

  lemma MarkBounds<V>(s: Table<V>, a: Action<V>, high: nat)
    requires WellFormed(s) && MarkInv(s, high)
    ensures var s' := Apply(s, a);
            && (forall t | 0 <= t < |s'.pc| && Updating(s'.pc[t]) :: s'.pc[t].shard < |s'.shards|)
            && s.peak <= s'.peak <= high
  {
  }

  lemma Grew<V>(s: Table<V>, a: Action<V>, i: nat)
    requires WellFormed(s) && i < |s.shards| && |Apply(s, a).shards[i]| > |s.shards[i]|
    ensures Apply(s, a).pc == s.pc[a.t := Inserted(i)] && a.t < |s.pc|
  {
    if Enabled(s, a) && a.op.Erase? { ErasedSize(s.shards[Home(s, a.op.gone)], a.op.gone); }
  }

  lemma ErasedSize<V>(m: map<int, V>, key: int)
    ensures |m - {key}| <= |m|
  {
    assert (m - {key}).Keys == m.Keys - {key};
    assert |(m - {key}).Keys| == |m - {key}| && |m.Keys| == |m|;
  }

  lemma CarrierStep<V>(s: Table<V>, a: Action<V>, t: nat, high: nat)
    requires WellFormed(s) && Carries(s, t, high) && s.peak <= high
    ensures Apply(s, a).peak == high || Carries(Apply(s, a), t, high)
  {
    assert Held(s, s.pc[t].shard);
  }

  lemma {:induction false} MarkRun<V>(s: Table<V>, sched: seq<Action<V>>, high: nat)
    requires WellFormed(s) && MarkInv(s, high)
    ensures MarkInv(Exec(s, sched), Max(high, HighWater(s, sched)))
    ensures s.peak <= Exec(s, sched).peak
    decreases |sched|
  {
    if |sched| == 0 {
      assert Max(high, Largest(s.shards)) == high;
    } else {
      MarkStep(s, sched[0], high);
      var s1 := Apply(s, sched[0]);
      MarkRun(s1, sched[1..], Max(high, Largest(s1.shards)));
      assert Largest(s.shards) <= high;
      HighWaterStart(s1, sched[1..]);
    }
  }

  lemma HighWaterStart<V>(s: Table<V>, sched: seq<Action<V>>)
    requires WellFormed(s)
    ensures Largest(s.shards) <= HighWater(s, sched)
  {
  }

  /** The mark is right and nobody is about to publish a size. */
  predicate Settled<V>(s: Table<V>) {
    Quiet(s) && s.peak == Largest(s.shards)
  }

  lemma StartSettled<V>(n: nat, threads: nat)
    ensures Settled(Start<V>(n, threads))
  {
    var s: Table<V> := Start(n, threads);
    assert forall i | 0 <= i < |s.shards| :: |s.shards[i]| == 0;
  }

  /** No update is lost: from a new map, or any other settled state, the mark is exactly the largest
      size any shard has had since, whenever no insertion is under way, and never above that. */
  lemma PeakIsHighWater<V>(s: Table<V>, sched: seq<Action<V>>)
    requires WellFormed(s) && Settled(s)
    ensures Exec(s, sched).peak <= HighWater(s, sched)
    ensures Quiet(Exec(s, sched)) ==> Exec(s, sched).peak == HighWater(s, sched)
  {
    MarkRun(s, sched, Largest(s.shards));
    HighWaterStart(s, sched);
  }

  /** The mark never goes down. */
  lemma PeakNeverFalls<V>(s: Table<V>, before: seq<Action<V>>, after: seq<Action<V>>)
    requires WellFormed(s) && Settled(s)
    ensures Exec(s, before).peak <= Exec(Exec(s, before), after).peak
  {
    MarkRun(s, before, Largest(s.shards));
    MarkRun(Exec(s, before), after, Max(Largest(s.shards), HighWater(s, before)));
  }

  // ---------- the map as an object ----------

  /** The handle map with the program counters of its callers.  Every method is what one thread does in
      one step, except for TotalMapSize and ForEachLocked, which are undisturbed walks. */
  class OtelHandle<V(==,!new)> {
    const shards: array<map<int, V>>
    var peak: nat
    var pc: seq<Pc>

    /** The constructor behind the power-of-two test. */
    constructor (n: nat, threads: nat)
      requires ShardCount(n)
      ensures View() == Start(n, threads) && fresh(shards)
    {
      shards := new map<int, V>[n](_ => map[]);
      peak := 0;
      pc := seq(threads, _ => Idle);
      new;
      assert shards[..] == seq(n, _ => map[]);
    }

    /** The constructor of the source: any shard count, null where it throws invalid_argument. */
    static method Create(n: nat, threads: nat) returns (h: OtelHandle?<V>)
      requires n < TWO64
      ensures h == null <==> n == 0 || !PowerOfTwo(n)
      ensures h != null ==> fresh(h) && fresh(h.shards) && h.View() == Start(n, threads)
    {
      if n == 0 {
        return null;
      }
      MaskTest(n);
      if And(n, n - 1) != 0 {
        return null;
      }
      h := new OtelHandle(n, threads);
    }

    ghost function View(): Table<V>
      reads this, shards
    {
      Table(shards[..], peak, pc)
    }

    /** The insertion of OTEL_HANDLE_EMPLACE, up to the update of the mark; the caller holds the mutex
        of the shard from here to the end of the update. */
    method EmplaceHandle(t: nat, key: int, value: V, memory: bool) returns (ok: bool)
      requires WellFormed(View()) && Enabled(View(), Action(t, Emplace(key, value, memory)))
      modifies this, shards
      ensures View() == Apply(old(View()), Action(t, Emplace(key, value, memory)))
      ensures ok == (memory && !Has(old(View()), key))
    {
      var i := ShardIndex(key, shards.Length);
      ok := memory && key !in shards[i];
      if ok {
        shards[i] := shards[i][key := value];
        pc := pc[t := Inserted(i)];
      }
    }

    method Find(key: int) returns (present: bool, value: seq<V>)
      requires Sound(View())
      ensures present == (key in Flat(View().shards))
      ensures value == if present then [Flat(View().shards)[key]] else []
    {
      FlatKeys(shards[..], shards.Length, key);
      var i := ShardIndex(key, shards.Length);
      present := key in shards[i];
      value := if present then [shards[i][key]] else [];
    }

    method EraseHandle(t: nat, key: int)
      requires WellFormed(View()) && Enabled(View(), Action(t, Erase(key)))
      modifies shards
      ensures View() == Apply(old(View()), Action(t, Erase(key)))
    {
      var i := ShardIndex(key, shards.Length);
      shards[i] := shards[i] - {key};
    }

    method PeakLoad(t: nat)
      requires WellFormed(View()) && Enabled(View(), Action(t, LoadPeak))
      modifies this
      ensures View() == Apply(old(View()), Action(t, LoadPeak))
    {
      pc := pc[t := Exchanging(pc[t].shard, peak)];
    }

    /** compare_exchange_weak: it may fail spuriously, and reloads the mark when it fails. */
    method PeakExchange(t: nat, spurious: bool) returns (done: bool)
      requires WellFormed(View()) && Enabled(View(), Action(t, ExchangePeak(spurious)))
      modifies this
      ensures View() == Apply(old(View()), Action(t, ExchangePeak(spurious)))
      ensures done == pc[t].Idle?
    {
      var Exchanging(i, loaded) := pc[t];
      done := loaded == peak && !spurious;
      if done {
        peak := Max(loaded, |shards[i]|);
        pc := pc[t := Idle];
      } else {
        pc := pc[t := Exchanging(i, peak)];
      }
    }

    /** total_map_size and for_each_locked begin. */
    method BeginWalk(t: nat, sweep: bool)
      requires t < |pc| && pc[t].Idle?
      requires WellFormed(View())
      modifies this`pc
      ensures View() == Apply(old(View()), Action(t, if sweep then BeginSweep else BeginSize))
    {
      pc := pc[t := if sweep then Sweeping(0) else Sizing(0, 0)];
    }

    /** One turn of either walk, under the mutex of one shard: the size is added, or the callback sees
        every entry of the shard, once and with its value, and the shard is cleared. */
    method WalkShard(t: nat) returns (seen: seq<(int, V)>)
      requires WellFormed(View()) && Enabled(View(), Action(t, VisitShard))
      modifies this`pc, shards
      ensures View() == Apply(old(View()), Action(t, VisitShard))
      ensures old(pc)[t].Sizing? ==> seen == []
      ensures old(pc)[t].Sweeping? ==> forall k, v ::
                (k, v) in seen <==> k in old(shards[pc[t].next]) && old(shards[pc[t].next])[k] == v
      ensures forall i, j | 0 <= i < j < |seen| :: seen[i].0 != seen[j].0
    {
      var i := pc[t].next;
      if pc[t].Sizing? {
        pc := pc[t := Sizing(i + 1, pc[t].sum + |shards[i]|)];
        return [];
      }
      seen := Entries(shards[i]);
      shards[i] := map[];
      pc := pc[t := Sweeping(i + 1)];
    }

    /** The walk returns; a total_map_size returns its sum. */
    method EndWalk(t: nat) returns (total: nat)
      requires WellFormed(View()) && Enabled(View(), Action(t, Return))
      modifies this`pc
      ensures View() == Apply(old(View()), Action(t, Return))
      ensures total == if old(pc)[t].Sizing? then old(pc)[t].sum else 0
    {
      total := if pc[t].Sizing? then pc[t].sum else 0;
      pc := pc[t := Idle];
    }

    method TotalMapSize() returns (total: nat)
      requires Sound(View())
      ensures total == |Flat(View().shards)|
    {
      total := 0;
      for i := 0 to shards.Length
        invariant total + SizeFrom(shards[..], i) == SizeFrom(shards[..], 0)
      {
        total := total + |shards[i]|;
      }
      FlatSize(shards[..], shards.Length);
    }

    /** for_each_locked, in whatever order a shard yields its entries: the callback sees every entry
        of the flat map exactly once, with its value, and no entry is left. */
    method ForEachLocked() returns (seen: seq<(int, V)>)
      requires Sound(View())
      modifies shards
      ensures forall k, v :: (k, v) in seen <==> k in old(Flat(View().shards)) && old(Flat(View().shards))[k] == v
      ensures forall i, j | 0 <= i < j < |seen| :: seen[i].0 != seen[j].0
      ensures forall i | 0 <= i < shards.Length :: shards[i] == map[]
      ensures Flat(View().shards) == map[]
    {
      ghost var was := shards[..];
      ghost var n := shards.Length;
      seen := [];
      for i := 0 to shards.Length
        invariant forall j | 0 <= j < i :: shards[j] == map[]
        invariant forall j | i <= j < n :: shards[j] == was[j]
        invariant Listed(seen, was, n, i)
      {
        var batch := Entries(shards[i]);
        AppendBatch(seen, was, n, i, batch);
        seen := seen + batch;
        shards[i] := map[];
      }
      forall k ensures k in Flat(was) <==> k in was[k % n]
      ensures k in Flat(was) ==> Flat(was)[k] == was[k % n][k]
      {
        FlatKeys(was, n, k);
      }
      forall k ensures k !in Flat(shards[..]) { FlatKeys(shards[..], n, k); }
    }

    static method Entries(m: map<int, V>) returns (batch: seq<(int, V)>)
      ensures forall k, v :: (k, v) in batch <==> k in m && m[k] == v
      ensures forall i, j | 0 <= i < j < |batch| :: batch[i].0 != batch[j].0
    {
      batch := [];
      var left := m.Keys;
      while left != {}
        invariant left <= m.Keys
        invariant forall k, v :: (k, v) in batch <==> k in m && k !in left && m[k] == v
        invariant forall i, j | 0 <= i < j < |batch| :: batch[i].0 != batch[j].0
        decreases left
      {
        ghost var any := Collections.SomeElement(left);
        var k :| k in left;
        assert forall i | 0 <= i < |batch| :: batch[i].0 != k by {
          forall i | 0 <= i < |batch| ensures batch[i].0 != k { assert (batch[i].0, batch[i].1) in batch; }
        }
        batch := batch + [(k, m[k])];
        left := left - {k};
      }
    }
  }

  /** `seen` lists exactly the entries of the first i shards, each once. */
  ghost predicate Listed<V(!new)>(seen: seq<(int, V)>, was: seq<map<int, V>>, n: nat, i: nat)
    requires n == |was| > 0
  {
    && (forall k, v :: (k, v) in seen <==> k % n < i && k in was[k % n] && was[k % n][k] == v)
    && (forall p, q | 0 <= p < q < |seen| :: seen[p].0 != seen[q].0)
  }

  lemma AppendBatch<V(!new)>(seen: seq<(int, V)>, was: seq<map<int, V>>, n: nat, i: nat, batch: seq<(int, V)>)
    requires n == |was| && i < n && Placed(was, n) && Listed(seen, was, n, i)
    requires forall k, v :: (k, v) in batch <==> k in was[i] && was[i][k] == v
    requires forall p, q | 0 <= p < q < |batch| :: batch[p].0 != batch[q].0
    ensures Listed(seen + batch, was, n, i + 1)
  {
    forall p, q | 0 <= p < |seen| && 0 <= q < |batch| ensures seen[p].0 != batch[q].0 {
      assert (seen[p].0, seen[p].1) in seen;
      assert (batch[q].0, batch[q].1) in batch;
    }
    forall k, v
      ensures (k, v) in seen + batch <==> k % n < i + 1 && k in was[k % n] && was[k % n][k] == v
    {
      assert (k, v) in seen + batch <==> (k, v) in seen || (k, v) in batch;
    }
  }
}
