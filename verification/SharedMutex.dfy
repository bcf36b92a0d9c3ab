// The writer-preferring shared mutex (include/util.h, otel_shared_mutex): a reader-preferring
// rwlock plus a counter of registered writers.
//
// A thread's next action is determined by where it stands; `Action(t, write)` lets thread t take
// it, and `write` picks lock() or lock_shared() for an idle thread.  An action that cannot be taken
// leaves the state alone, so every sequence of actions is an interleaving.  The flag `fifo` says
// whether the rwlock admits exclusive waiters in arrival order; std::shared_mutex does not promise it.

module SharedMutex {

  datatype Pc =
    | Idle
    | Registered     // fetch_add done, mutex_.lock() not yet called
    | Queued         // blocked in mutex_.lock()
    | Writing
    | Released       // mutex_.unlock() done, fetch_sub not yet
    | Checking       // about to read writers_pending_
    | Passed         // read zero, about to take the lock shared
    | Reading
    | Diverted       // read non-zero, about to call mutex_.lock()
    | DivertQueued   // blocked in mutex_.lock()
    | DivertHolding  // about to call mutex_.unlock() and check again

  datatype Lock = Lock(pending: int, readers: int, writer: bool, queue: seq<nat>, pc: seq<Pc>)

  datatype Action = Action(t: nat, write: bool)

  function Start(threads: nat): Lock {
    Lock(0, 0, false, [], seq(threads, _ => Idle))
  }

  function Remove(q: seq<nat>, t: nat): seq<nat> {
    if |q| == 0 then [] else if q[0] == t then q[1..] else [q[0]] + Remove(q[1..], t)
  }

  predicate Waiting(p: Pc) { p.Queued? || p.DivertQueued? }
  predicate Exclusive(p: Pc) { p.Writing? || p.DivertHolding? }
  predicate WriterSection(p: Pc) { p.Registered? || p.Queued? || p.Writing? || p.Released? }

  predicate Enabled(fifo: bool, s: Lock, a: Action) {
    && a.t < |s.pc|
    && (Waiting(s.pc[a.t]) ==>
          a.t in s.queue && !s.writer && s.readers == 0 && (fifo ==> s.queue[0] == a.t))
    && (s.pc[a.t].Passed? ==> !s.writer)
  }

  function Apply(fifo: bool, s: Lock, a: Action): (s': Lock)
    ensures |s'.pc| == |s.pc|
  {
    if !Enabled(fifo, s, a) then s else
    var t := a.t;
    match s.pc[t]
    case Idle =>
      if a.write then s.(pending := s.pending + 1, pc := s.pc[t := Registered])
      else s.(pc := s.pc[t := Checking])
    case Registered => s.(queue := s.queue + [t], pc := s.pc[t := Queued])
    case Queued => s.(queue := Remove(s.queue, t), writer := true, pc := s.pc[t := Writing])
    case Writing => s.(writer := false, pc := s.pc[t := Released])
    case Released => s.(pending := s.pending - 1, pc := s.pc[t := Idle])
    case Checking => s.(pc := s.pc[t := if s.pending == 0 then Passed else Diverted])
    case Passed => s.(readers := s.readers + 1, pc := s.pc[t := Reading])
    case Reading => s.(readers := s.readers - 1, pc := s.pc[t := Idle])
    case Diverted => s.(queue := s.queue + [t], pc := s.pc[t := DivertQueued])
    case DivertQueued => s.(queue := Remove(s.queue, t), writer := true, pc := s.pc[t := DivertHolding])
    case DivertHolding => s.(writer := false, pc := s.pc[t := Checking])
  }

  function Exec(fifo: bool, s: Lock, sched: seq<Action>): (s': Lock)
    ensures |s'.pc| == |s.pc|
    decreases |sched|
  {
    if |sched| == 0 then s else Exec(fifo, Apply(fifo, s, sched[0]), sched[1..])
  }

  // ---------- counting threads ----------

  datatype Group = InWriterSection | InReading | InExclusive | InWaiting | InPassed | InPastCheck

  predicate In(p: Pc, g: Group) {
    match g
    case InWriterSection => WriterSection(p)
    case InReading => p.Reading?
    case InExclusive => Exclusive(p)
    case InWaiting => Waiting(p)
    case InPassed => p.Passed?
    case InPastCheck => p.Passed? || p.Reading?
  }

  function Num(b: bool): nat { if b then 1 else 0 }

  function Count(pc: seq<Pc>, g: Group): nat {
    if |pc| == 0 then 0 else Num(In(pc[0], g)) + Count(pc[1..], g)
  }

  lemma {:induction false} CountUpdate(pc: seq<Pc>, t: nat, p: Pc, g: Group)
    requires t < |pc|
    ensures Count(pc[t := p], g) == Count(pc, g) - Num(In(pc[t], g)) + Num(In(p, g))
  {
    if t == 0 {
      assert pc[0 := p][1..] == pc[1..];
    } else {
      assert pc[t := p][1..] == pc[1..][t - 1 := p];
      CountUpdate(pc[1..], t - 1, p, g);
    }
  }

  lemma {:induction false} CountHas(pc: seq<Pc>, t: nat, g: Group)
    requires t < |pc| && In(pc[t], g)
    ensures Count(pc, g) >= 1
  {
    if t > 0 { CountHas(pc[1..], t - 1, g); }
  }

  lemma {:induction false} CountHasTwo(pc: seq<Pc>, t: nat, u: nat, g: Group)
    requires t < u < |pc| && In(pc[t], g) && In(pc[u], g)
    ensures Count(pc, g) >= 2
  {
    if t > 0 { CountHasTwo(pc[1..], t - 1, u - 1, g); } else { CountHas(pc[1..], u - 1, g); }
  }

  lemma {:induction false} CountWitness(pc: seq<Pc>, g: Group) returns (t: nat)
    requires Count(pc, g) >= 1
    ensures t < |pc| && In(pc[t], g)
  {
    if In(pc[0], g) {
      t := 0;
    } else {
      t := CountWitness(pc[1..], g);
      t := t + 1;
    }
  }

  lemma {:induction false} CountZero(pc: seq<Pc>, g: Group)
    requires forall t | 0 <= t < |pc| :: !In(pc[t], g)
    ensures Count(pc, g) == 0
  {
    if |pc| > 0 { CountZero(pc[1..], g); }
  }

  lemma {:induction false} WaitingAndPassed(pc: seq<Pc>)
    ensures Count(pc, InWaiting) + Count(pc, InPassed) <= |pc|
  {
    if |pc| > 0 { WaitingAndPassed(pc[1..]); }
  }

  // ---------- the exclusive queue ----------

  predicate Distinct(q: seq<nat>) {
    |q| == 0 || (q[0] !in q[1..] && Distinct(q[1..]))
  }

  lemma {:induction false} DistinctAppend(q: seq<nat>, t: nat)
    requires Distinct(q) && t !in q
    ensures Distinct(q + [t])
  {
    if |q| == 0 {
      assert (q + [t])[1..] == [];
    } else {
      assert (q + [t])[1..] == q[1..] + [t];
      DistinctAppend(q[1..], t);
    }
  }

  lemma {:induction false} RemoveKeeps(q: seq<nat>, t: nat)
    requires t in q && Distinct(q)
    ensures |Remove(q, t)| == |q| - 1 && Distinct(Remove(q, t))
    ensures forall u :: u in Remove(q, t) <==> u in q && u != t
  {
    assert q == [q[0]] + q[1..];
    if q[0] != t {
      RemoveKeeps(q[1..], t);
      assert Remove(q, t)[1..] == Remove(q[1..], t);
    }
  }

  // ---------- safety ----------

  ghost predicate QueueMatches(pc: seq<Pc>, queue: seq<nat>) {
    && Distinct(queue)
    && |queue| == Count(pc, InWaiting)
    && forall u: nat :: u in queue <==> u < |pc| && Waiting(pc[u])
  }

  ghost predicate Inv(s: Lock) {
    && s.pending == Count(s.pc, InWriterSection)
    && s.readers == Count(s.pc, InReading)
    && Num(s.writer) == Count(s.pc, InExclusive)
    && (s.writer ==> s.readers == 0)
    && QueueMatches(s.pc, s.queue)
  }

  lemma DequeueKeepsQueue(pc: seq<Pc>, queue: seq<nat>, t: nat, p: Pc)
    requires QueueMatches(pc, queue) && t < |pc| && Waiting(pc[t]) && !Waiting(p)
    ensures QueueMatches(pc[t := p], Remove(queue, t))
  {
    CountUpdate(pc, t, p, InWaiting);
    RemoveKeeps(queue, t);
  }

  lemma EnqueueKeepsQueue(pc: seq<Pc>, queue: seq<nat>, t: nat, p: Pc)
    requires QueueMatches(pc, queue) && t < |pc| && !Waiting(pc[t]) && Waiting(p)
    ensures QueueMatches(pc[t := p], queue + [t])
  {
    CountUpdate(pc, t, p, InWaiting);
    DistinctAppend(queue, t);
  }

  lemma MoveKeepsQueue(pc: seq<Pc>, queue: seq<nat>, t: nat, p: Pc)
    requires QueueMatches(pc, queue) && t < |pc| && !Waiting(pc[t]) && !Waiting(p)
    ensures QueueMatches(pc[t := p], queue)
  {
    CountUpdate(pc, t, p, InWaiting);
  }

  lemma StepKeepsQueue(fifo: bool, s: Lock, a: Action)
    requires QueueMatches(s.pc, s.queue)
    ensures QueueMatches(Apply(fifo, s, a).pc, Apply(fifo, s, a).queue)
  {
    if Enabled(fifo, s, a) {
      var p := Apply(fifo, s, a).pc[a.t];
      if Waiting(s.pc[a.t]) {
        DequeueKeepsQueue(s.pc, s.queue, a.t, p);
      } else if s.pc[a.t].Registered? || s.pc[a.t].Diverted? {
        EnqueueKeepsQueue(s.pc, s.queue, a.t, p);
      } else {
        MoveKeepsQueue(s.pc, s.queue, a.t, p);
      }
    }
  }

  lemma CountStep(fifo: bool, s: Lock, a: Action, g: Group)
    requires Enabled(fifo, s, a)
    ensures Count(Apply(fifo, s, a).pc, g)
         == Count(s.pc, g) - Num(In(s.pc[a.t], g)) + Num(In(Apply(fifo, s, a).pc[a.t], g))
  {
    CountUpdate(s.pc, a.t, Apply(fifo, s, a).pc[a.t], g);
  }

  lemma StepKeepsCounters(fifo: bool, s: Lock, a: Action)
    requires s.pending == Count(s.pc, InWriterSection) && s.readers == Count(s.pc, InReading)
    ensures var s' := Apply(fifo, s, a);
            s'.pending == Count(s'.pc, InWriterSection) && s'.readers == Count(s'.pc, InReading)
  {
    if Enabled(fifo, s, a) {
      CountStep(fifo, s, a, InWriterSection);
      CountStep(fifo, s, a, InReading);
    }
  }

  lemma StepKeepsWriter(fifo: bool, s: Lock, a: Action)
    requires Inv(s)
    ensures var s' := Apply(fifo, s, a);
            Num(s'.writer) == Count(s'.pc, InExclusive) && (s'.writer ==> s'.readers == 0)
  {
    if Enabled(fifo, s, a) {
      CountStep(fifo, s, a, InExclusive);
      if Exclusive(s.pc[a.t]) { CountHas(s.pc, a.t, InExclusive); }
      if s.pc[a.t].Reading? { CountHas(s.pc, a.t, InReading); }
    }
  }

  lemma StepKeepsInv(fifo: bool, s: Lock, a: Action)
    requires Inv(s)
    ensures Inv(Apply(fifo, s, a))
  {
    StepKeepsQueue(fifo, s, a);
    StepKeepsCounters(fifo, s, a);
    StepKeepsWriter(fifo, s, a);
  }

  lemma StartHasInv(threads: nat)
    ensures Inv(Start(threads))
  {
    forall g ensures Count(Start(threads).pc, g) == 0 { CountZero(Start(threads).pc, g); }
  }

  lemma {:induction false} ExecKeepsInv(fifo: bool, s: Lock, sched: seq<Action>)
    requires Inv(s)
    ensures Inv(Exec(fifo, s, sched))
    decreases |sched|
  {
    if |sched| > 0 {
      StepKeepsInv(fifo, s, sched[0]);
      ExecKeepsInv(fifo, Apply(fifo, s, sched[0]), sched[1..]);
    }
  }

  /** In every interleaving the holder of the exclusive lock, be it a writer or a diverted reader, is
      alone, and writers_pending_ is the number of threads between fetch_add and fetch_sub. */
  lemma Exclusion(fifo: bool, threads: nat, sched: seq<Action>)
    ensures var s := Exec(fifo, Start(threads), sched);
            && (forall t, u | 0 <= t < |s.pc| && 0 <= u < |s.pc| && t != u && Exclusive(s.pc[t]) ::
                  !Exclusive(s.pc[u]) && !s.pc[u].Reading?)
            && s.pending == Count(s.pc, InWriterSection)
  {
    StartHasInv(threads);
    ExecKeepsInv(fifo, Start(threads), sched);
    var s := Exec(fifo, Start(threads), sched);
    forall t, u | 0 <= t < |s.pc| && 0 <= u < |s.pc| && t != u && Exclusive(s.pc[t])
      ensures !Exclusive(s.pc[u]) && !s.pc[u].Reading?
    {
      CountHas(s.pc, t, InExclusive);
      if Exclusive(s.pc[u]) { CountHasTwo(s.pc, if t < u then t else u, if t < u then u else t, InExclusive); }
      if s.pc[u].Reading? { CountHas(s.pc, u, InReading); }
    }
  }

  // ---------- who has the lock ----------

  /** Inside a call of lock(), or of lock_shared(), that has not returned. */
  predicate InLock(p: Pc) { p.Registered? || p.Queued? }
  predicate InLockShared(p: Pc) {
    p.Checking? || p.Passed? || p.Diverted? || p.DivertQueued? || p.DivertHolding?
  }

  /** The thread has what it asked for: the lock for itself, or together with other readers. */
  predicate Has(s: Lock, t: nat, write: bool)
    requires t < |s.pc|
  {
    if write then s.pc[t].Writing? && s.writer && s.readers == 0 && s.pending >= 1
    else s.pc[t].Reading? && s.readers >= 1 && !s.writer
  }

  lemma HoldersHave(s: Lock, t: nat)
    requires Inv(s) && t < |s.pc|
    ensures s.pc[t].Writing? ==> Has(s, t, true)
    ensures s.pc[t].Reading? ==> Has(s, t, false)
  {
    if s.pc[t].Writing? {
      CountHas(s.pc, t, InExclusive);
      CountHas(s.pc, t, InWriterSection);
    }
    if s.pc[t].Reading? { CountHas(s.pc, t, InReading); }
  }

  /** A call of lock() or lock_shared() goes on, or returns to a thread that has the lock. */
  lemma CallStep(fifo: bool, s: Lock, a: Action, t: nat, write: bool)
    requires Inv(s) && t < |s.pc| && (if write then InLock(s.pc[t]) else InLockShared(s.pc[t]))
    ensures var s' := Apply(fifo, s, a);
            Has(s', t, write) || (if write then InLock(s'.pc[t]) else InLockShared(s'.pc[t]))
  {
    StepKeepsInv(fifo, s, a);
    HoldersHave(Apply(fifo, s, a), t);
  }

  /** Whatever the others do, a thread whose call of lock() or lock_shared() is over has held the lock
      in the mode it asked for since. */
  lemma {:induction false} LockReturnsWithLock(fifo: bool, s: Lock, sched: seq<Action>, t: nat, write: bool)
      returns (k: nat)
    requires Inv(s) && t < |s.pc| && (if write then InLock(s.pc[t]) else InLockShared(s.pc[t]))
    requires var p := Exec(fifo, s, sched).pc[t]; if write then !InLock(p) else !InLockShared(p)
    ensures k <= |sched| && Has(Exec(fifo, s, sched[..k]), t, write)
    decreases |sched|
  {
    var s1 := Apply(fifo, s, sched[0]);
    StepKeepsInv(fifo, s, sched[0]);
    CallStep(fifo, s, sched[0], t, write);
    if Has(s1, t, write) {
      k := 1;
      assert sched[..1][1..] == [];
      assert Exec(fifo, s, sched[..1]) == Exec(fifo, s1, []);
    } else {
      k := LockReturnsWithLock(fifo, s1, sched[1..], t, write);
      assert sched[..k + 1][1..] == sched[1..][..k];
      k := k + 1;
    }
  }

  /** Nobody takes the lock away: whatever the others do, a holder has it until its own unlock. */
  lemma {:induction false} HeldUntilUnlock(fifo: bool, s: Lock, sched: seq<Action>, t: nat, write: bool)
    requires Inv(s) && t < |s.pc| && Has(s, t, write)
    requires forall i | 0 <= i < |sched| :: sched[i].t != t
    ensures Has(Exec(fifo, s, sched), t, write)
    decreases |sched|
  {
    if |sched| > 0 {
      StepKeepsInv(fifo, s, sched[0]);
      HoldersHave(Apply(fifo, s, sched[0]), t);
      HeldUntilUnlock(fifo, Apply(fifo, s, sched[0]), sched[1..], t, write);
    }
  }

  predicate Free(s: Lock) { !s.writer && s.readers == 0 && s.queue == [] }

  /** lock() and unlock() with nobody else around: every stage, and back to where it began. */
  lemma LoneWriter(fifo: bool, s: Lock, t: nat)
    requires Free(s) && t < |s.pc| && s.pc[t].Idle?
    ensures var a, n := Action(t, false), s.pending + 1;
            var s1 := Apply(fifo, s, Action(t, true));
            var s2 := Apply(fifo, s1, a);
            var s3 := Apply(fifo, s2, a);
            var s4 := Apply(fifo, s3, a);
            && s1 == s.(pending := n, pc := s.pc[t := Registered])
            && s2 == s.(pending := n, queue := [t], pc := s.pc[t := Queued])
            && s3 == s.(pending := n, writer := true, pc := s.pc[t := Writing])
            && s4 == s.(pending := n, pc := s.pc[t := Released])
            && Apply(fifo, s4, a) == s
  {
    assert [t][1..] == [] && [] + [t] == [t];
    assert s.pc[t := Idle] == s.pc;
    var a, n := Action(t, false), s.pending + 1;
    var s1 := s.(pending := n, pc := s.pc[t := Registered]);
    var s2 := s.(pending := n, queue := [t], pc := s.pc[t := Queued]);
    var s3 := s.(pending := n, writer := true, pc := s.pc[t := Writing]);
    var s4 := s.(pending := n, pc := s.pc[t := Released]);
    assert Apply(fifo, s1, a) == s2;
    assert Apply(fifo, s2, a) == s3;
    assert Apply(fifo, s3, a) == s4;
  }

  /** lock_shared() and unlock_shared() likewise when no writer is registered. */
  lemma LoneReader(fifo: bool, s: Lock, t: nat)
    requires s.pending == 0 && !s.writer && t < |s.pc| && s.pc[t].Idle?
    ensures var a := Action(t, false);
            var s1 := Apply(fifo, s, a);
            var s2 := Apply(fifo, s1, a);
            var s3 := Apply(fifo, s2, a);
            && s1 == s.(pc := s.pc[t := Checking])
            && s2 == s.(pc := s.pc[t := Passed])
            && s3 == s.(readers := s.readers + 1, pc := s.pc[t := Reading])
            && Apply(fifo, s3, a) == s
  {
    assert s.pc[t := Idle] == s.pc;
  }

  /** A reader that meets a registered writer takes the lock for itself, gives it back, and checks
      again. */
  lemma DivertedReader(fifo: bool, s: Lock, t: nat)
    requires s.pending > 0 && Free(s) && t < |s.pc| && s.pc[t].Checking?
    ensures var a := Action(t, false);
            var s1 := Apply(fifo, s, a);
            var s2 := Apply(fifo, s1, a);
            var s3 := Apply(fifo, s2, a);
            && s1 == s.(pc := s.pc[t := Diverted])
            && s2 == s.(queue := [t], pc := s.pc[t := DivertQueued])
            && s3 == s.(writer := true, pc := s.pc[t := DivertHolding])
            && Apply(fifo, s3, a) == s
  {
    assert [t][1..] == [] && [] + [t] == [t];
    assert s.pc[t := Checking] == s.pc;
  }

  // ---------- progress ----------

  /** A thread that is inside some lock operation or section and whose next action can be taken. */
  predicate CanMove(fifo: bool, s: Lock, t: nat) {
    t < |s.pc| && !s.pc[t].Idle? && Enabled(fifo, s, Action(t, false))
  }

  /** No reachable state is deadlocked: unless every thread is idle, some busy thread can move. */
  lemma DeadlockFree(fifo: bool, threads: nat, sched: seq<Action>, busy: nat)
    requires busy < threads && !Exec(fifo, Start(threads), sched).pc[busy].Idle?
    ensures exists t :: CanMove(fifo, Exec(fifo, Start(threads), sched), t)
  {
    StartHasInv(threads);
    ExecKeepsInv(fifo, Start(threads), sched);
    var s := Exec(fifo, Start(threads), sched);
    if s.writer {
      var t := CountWitness(s.pc, InExclusive);
      assert CanMove(fifo, s, t);
    } else if s.readers > 0 {
      var t := CountWitness(s.pc, InReading);
      assert CanMove(fifo, s, t);
    } else if Waiting(s.pc[busy]) {
      assert busy in s.queue;
      assert s.queue[0] in s.queue;
      assert CanMove(fifo, s, s.queue[0]);
    } else {
      assert CanMove(fifo, s, busy);
    }
  }

  /** The fast path does not serialize: any number of readers can hold the lock together. */
  lemma ReadersShare(fifo: bool, threads: nat)
    ensures exists sched :: forall t | 0 <= t < threads ::
              Exec(fifo, Start(threads), sched).pc[t].Reading?
  {
    var sched := AdmitReaders(fifo, threads, threads);
    assert forall t | 0 <= t < threads :: Exec(fifo, Start(threads), sched).pc[t].Reading?;
  }

  lemma {:induction false} AdmitReaders(fifo: bool, threads: nat, k: nat) returns (sched: seq<Action>)
    requires k <= threads
    ensures Exec(fifo, Start(threads), sched)
         == Lock(0, k, false, [], seq(threads, i => if 0 <= i < k then Reading else Idle))
  {
    if k == 0 {
      sched := [];
      assert Start(threads).pc == seq(threads, i => if 0 <= i < 0 then Reading else Idle);
    } else {
      var before := AdmitReaders(fifo, threads, k - 1);
      var a := Action(k - 1, false);
      sched := before + [a, a, a];
      ExecAppend(fifo, Start(threads), before, [a, a, a]);
      var s := Exec(fifo, Start(threads), before);
      ExecThree(fifo, s, a, a, a);
      assert s.pc[k - 1 := Checking][k - 1 := Passed][k - 1 := Reading]
          == seq(threads, i => if 0 <= i < k then Reading else Idle);
    }
  }

  lemma {:induction false} ExecAppend(fifo: bool, s: Lock, a: seq<Action>, b: seq<Action>)
    ensures Exec(fifo, s, a + b) == Exec(fifo, Exec(fifo, s, a), b)
    decreases |a|
  {
    if |a| == 0 {
      assert a + b == b;
    } else {
      assert (a + b)[1..] == a[1..] + b;
      ExecAppend(fifo, Apply(fifo, s, a[0]), a[1..], b);
    }
  }

  lemma ExecThree(fifo: bool, s: Lock, a: Action, b: Action, c: Action)
    ensures Exec(fifo, s, [a, b, c]) == Apply(fifo, Apply(fifo, Apply(fifo, s, a), b), c)
  {
    assert [a, b, c][1..] == [b, c] && [b, c][1..] == [c] && [c][1..] == [];
    assert Exec(fifo, Apply(fifo, s, a), [b, c]) == Exec(fifo, Apply(fifo, Apply(fifo, s, a), b), [c]);
  }

  // ---------- bounded bypass ----------

  predicate SharedGrant(fifo: bool, s: Lock, a: Action) {
    Enabled(fifo, s, a) && s.pc[a.t].Passed?
  }

  predicate Grant(fifo: bool, s: Lock, a: Action) {
    Enabled(fifo, s, a) && (s.pc[a.t].Passed? || Waiting(s.pc[a.t]))
  }

  /** How many times a schedule grants the lock shared. */
  function SharedGrants(fifo: bool, s: Lock, sched: seq<Action>): nat
    decreases |sched|
  {
    if |sched| == 0 then 0
    else Num(SharedGrant(fifo, s, sched[0])) + SharedGrants(fifo, Apply(fifo, s, sched[0]), sched[1..])
  }

  /** How many times a schedule grants the lock in either mode. */
  function Grants(fifo: bool, s: Lock, sched: seq<Action>): nat
    decreases |sched|
  {
    if |sched| == 0 then 0
    else Num(Grant(fifo, s, sched[0])) + Grants(fifo, Apply(fifo, s, sched[0]), sched[1..])
  }

  /** Writer w is between its fetch_add and its fetch_sub in every state of the run. */
  predicate StaysRegistered(fifo: bool, s: Lock, sched: seq<Action>, w: nat)
    decreases |sched|
  {
    && w < |s.pc| && WriterSection(s.pc[w])
    && (|sched| == 0 || StaysRegistered(fifo, Apply(fifo, s, sched[0]), sched[1..], w))
  }

  /** Writer w is blocked on the exclusive lock in every state of the run. */
  predicate StaysQueued(fifo: bool, s: Lock, sched: seq<Action>, w: nat)
    decreases |sched|
  {
    && w < |s.pc| && s.pc[w].Queued?
    && (|sched| == 0 || StaysQueued(fifo, Apply(fifo, s, sched[0]), sched[1..], w))
  }

  lemma NobodyPasses(fifo: bool, s: Lock, a: Action)
    requires s.pending > 0
    ensures forall t | 0 <= t < |s.pc| :: In(Apply(fifo, s, a).pc[t], InPastCheck) ==> In(s.pc[t], InPastCheck)
    ensures Enabled(fifo, s, a) ==> !Apply(fifo, s, a).pc[a.t].Passed?
  {
  }

  lemma RegisteredStep(fifo: bool, s: Lock, a: Action, w: nat)
    requires Inv(s) && w < |s.pc| && WriterSection(s.pc[w])
    ensures forall t | 0 <= t < |s.pc| :: In(Apply(fifo, s, a).pc[t], InPastCheck) ==> In(s.pc[t], InPastCheck)
    ensures Count(Apply(fifo, s, a).pc, InPassed) + Num(SharedGrant(fifo, s, a)) == Count(s.pc, InPassed)
  {
    CountHas(s.pc, w, InWriterSection);
    NobodyPasses(fifo, s, a);
    if Enabled(fifo, s, a) { CountStep(fifo, s, a, InPassed); }
  }

  /** While a writer is registered no thread newly takes the fast path: the threads holding the lock
      shared or past the check only become fewer, and the lock is granted shared at most once for
      each thread that was already past the check. */
  lemma {:induction false} ReadersPastCheckShrink(fifo: bool, s: Lock, sched: seq<Action>, w: nat)
    requires Inv(s) && StaysRegistered(fifo, s, sched, w)
    ensures var s' := Exec(fifo, s, sched);
            && (forall t | 0 <= t < |s.pc| :: In(s'.pc[t], InPastCheck) ==> In(s.pc[t], InPastCheck))
            && SharedGrants(fifo, s, sched) + Count(s'.pc, InPassed) == Count(s.pc, InPassed)
    decreases |sched|
  {
    if |sched| > 0 {
      var s1 := Apply(fifo, s, sched[0]);
      RegisteredStep(fifo, s, sched[0], w);
      StepKeepsInv(fifo, s, sched[0]);
      ReadersPastCheckShrink(fifo, s1, sched[1..], w);
    }
  }

  function Position(q: seq<nat>, w: nat): nat
    requires w in q
  {
    if q[0] == w then 0 else 1 + Position(q[1..], w)
  }

  lemma {:induction false} PositionBound(q: seq<nat>, w: nat)
    requires w in q
    ensures Position(q, w) < |q|
  {
    if q[0] != w { PositionBound(q[1..], w); }
  }

  lemma {:induction false} PositionAppend(q: seq<nat>, w: nat, t: nat)
    requires w in q
    ensures Position(q + [t], w) == Position(q, w)
  {
    if q[0] != w {
      assert (q + [t])[1..] == q[1..] + [t];
      PositionAppend(q[1..], w, t);
    }
  }

  /** What can still be granted ahead of a queued writer. */
  function Ahead(s: Lock, w: nat): nat
    requires w in s.queue
  {
    Position(s.queue, w) + Count(s.pc, InPassed)
  }

  lemma QueuedStep(s: Lock, a: Action, w: nat)
    requires Inv(s) && w < |s.pc| && s.pc[w].Queued?
    requires Apply(true, s, a).pc[w].Queued?
    ensures w in s.queue && w in Apply(true, s, a).queue
    ensures Ahead(Apply(true, s, a), w) + Num(Grant(true, s, a)) == Ahead(s, w)
  {
    RegisteredStep(true, s, a, w);
    StepKeepsInv(true, s, a);
    if Enabled(true, s, a) {
      if Waiting(s.pc[a.t]) {
        assert Remove(s.queue, a.t) == s.queue[1..];
      } else if s.pc[a.t].Registered? || s.pc[a.t].Diverted? {
        PositionAppend(s.queue, w, a.t);
      }
    }
  }

  /** When the rwlock serves exclusive waiters in arrival order, a queued writer is passed by at most
      the waiters ahead of it and the readers already past the check, hence by fewer grants than
      there are threads. */
  lemma {:induction false} BypassBoundedWithFifo(s: Lock, sched: seq<Action>, w: nat)
    requires Inv(s) && StaysQueued(true, s, sched, w)
    ensures w in s.queue && Grants(true, s, sched) <= Ahead(s, w) < |s.pc|
    decreases |sched|
  {
    PositionBound(s.queue, w);
    WaitingAndPassed(s.pc);
    if |sched| > 0 {
      QueuedStep(s, sched[0], w);
      StepKeepsInv(true, s, sched[0]);
      BypassBoundedWithFifo(Apply(true, s, sched[0]), sched[1..], w);
    }
  }

  // Thread 0 is a writer waiting for the lock and thread 1 a reader diverted to the exclusive path.
  const CONTENDED: Lock := Lock(1, 0, false, [0, 1], [Queued, DivertQueued])

  function Rounds(n: nat): seq<Action> {
    if n == 0 then [] else [Action(1, false), Action(1, false), Action(1, false), Action(1, false)] + Rounds(n - 1)
  }

  lemma {:induction false} OneRound(rest: seq<Action>)
    requires StaysQueued(false, CONTENDED, rest, 0)
    ensures var a := Action(1, false);
            && StaysQueued(false, CONTENDED, [a, a, a, a] + rest, 0)
            && Grants(false, CONTENDED, [a, a, a, a] + rest) == 1 + Grants(false, CONTENDED, rest)
  {
    var a := Action(1, false);
    var s1 := Lock(1, 0, true, [0], [Queued, DivertHolding]);
    var s2 := Lock(1, 0, false, [0], [Queued, Checking]);
    var s3 := Lock(1, 0, false, [0], [Queued, Diverted]);
    var four := [a, a, a, a] + rest;
    assert [0, 1][1..] == [1] && [1][1..] == [] && Remove([1], 1) == [];
    assert Apply(false, CONTENDED, a) == s1;
    assert Apply(false, s1, a) == s2;
    assert Apply(false, s2, a) == s3;
    assert Apply(false, s3, a) == CONTENDED;
    var three := [a, a, a] + rest;
    var two := [a, a] + rest;
    var one := [a] + rest;
    assert four[1..] == three && three[1..] == two && two[1..] == one && one[1..] == rest;
    assert StaysQueued(false, s3, one, 0) && Grants(false, s3, one) == Grants(false, CONTENDED, rest);
    assert StaysQueued(false, s2, two, 0) && Grants(false, s2, two) == Grants(false, s3, one);
    assert StaysQueued(false, s1, three, 0) && Grants(false, s1, three) == Grants(false, s2, two);
  }

  /** Without that order the wait is not bounded by the readers in flight, as the comment of the
      class has it: a diverted reader that keeps coming back can take the exclusive lock any number
      of times while the writer stays queued. */
  lemma {:induction false} BypassUnboundedWithoutFifo(n: nat)
    ensures StaysQueued(false, CONTENDED, Rounds(n), 0) && Grants(false, CONTENDED, Rounds(n)) == n
  {
    if n > 0 {
      BypassUnboundedWithoutFifo(n - 1);
      OneRound(Rounds(n - 1));
    }
  }

  /** The contended state is reachable. */
  lemma ContendedReachable(fifo: bool)
    ensures exists sched :: Exec(fifo, Start(2), sched) == CONTENDED
  {
    var w, r := Action(0, true), Action(1, false);
    var s := Start(2);
    var mid := Lock(1, 0, false, [0], [Queued, Checking]);
    ExecThree(fifo, s, w, w, r);
    assert s.pc == [Idle, Idle];
    assert Exec(fifo, s, [w, w, r]) == mid;
    assert [r, r][1..] == [r] && [r][1..] == [];
    assert Exec(fifo, Apply(fifo, mid, r), [r]) == CONTENDED;
    ExecAppend(fifo, s, [w, w, r], [r, r]);
  }

  // ---------- the mutex as an object ----------

  /** The mutex with the program counters of its callers; each method is one atomic action. */
  class OtelSharedMutex {
    var pending: int
    var readers: int
    var writer: bool
    var queue: seq<nat>
    var pc: seq<Pc>

    constructor (threads: nat)
      ensures View() == Start(threads)
    {
      pending, readers, writer, queue := 0, 0, false, [];
      pc := seq(threads, _ => Idle);
    }

    ghost function View(): Lock
      reads this
    {
      Lock(pending, readers, writer, queue, pc)
    }

    /** lock(): register, then block on the rwlock. */
    method LockRegister(t: nat)
      requires t < |pc| && pc[t].Idle?
      modifies this
      ensures View() == Apply(false, old(View()), Action(t, true))
    {
      pending := pending + 1;
      pc := pc[t := Registered];
    }

    method LockRequest(t: nat)
      requires t < |pc| && (pc[t].Registered? || pc[t].Diverted?)
      modifies this
      ensures View() == Apply(false, old(View()), Action(t, false))
    {
      queue := queue + [t];
      pc := pc[t := if pc[t].Registered? then Queued else DivertQueued];
    }

    /** The rwlock admits an exclusive waiter; without a reader or writer inside. */
    method LockGranted(t: nat)
      requires t < |pc| && Waiting(pc[t]) && t in queue && !writer && readers == 0
      modifies this
      ensures View() == Apply(false, old(View()), Action(t, false))
      ensures old(queue)[0] == t ==> View() == Apply(true, old(View()), Action(t, false))
    {
      writer := true;
      queue := Remove(queue, t);
      pc := pc[t := if pc[t].Queued? then Writing else DivertHolding];
    }

    /** unlock(): the rwlock first, the counter afterwards. */
    method UnlockMutex(t: nat)
      requires t < |pc| && Exclusive(pc[t])
      modifies this
      ensures View() == Apply(false, old(View()), Action(t, false))
    {
      writer := false;
      pc := pc[t := if pc[t].Writing? then Released else Checking];
    }

    method UnlockUnregister(t: nat)
      requires t < |pc| && pc[t].Released?
      modifies this
      ensures View() == Apply(false, old(View()), Action(t, false))
    {
      pending := pending - 1;
      pc := pc[t := Idle];
    }

    /** lock_shared(): enter the loop. */
    method LockSharedEnter(t: nat)
      requires t < |pc| && pc[t].Idle?
      modifies this
      ensures View() == Apply(false, old(View()), Action(t, false))
    {
      pc := pc[t := Checking];
    }

    method LockSharedCheck(t: nat)
      requires t < |pc| && pc[t].Checking?
      modifies this
      ensures View() == Apply(false, old(View()), Action(t, false))
    {
      if pending == 0 {
        pc := pc[t := Passed];
      } else {
        pc := pc[t := Diverted];
      }
    }

    method LockSharedGranted(t: nat)
      requires t < |pc| && pc[t].Passed? && !writer
      modifies this
      ensures View() == Apply(false, old(View()), Action(t, false))
    {
      readers := readers + 1;
      pc := pc[t := Reading];
    }

    method UnlockShared(t: nat)
      requires t < |pc| && pc[t].Reading?
      modifies this
      ensures View() == Apply(false, old(View()), Action(t, false))
    {
      readers := readers - 1;
      pc := pc[t := Idle];
    }
  }
}
