// One handle map over all its generations, with the calls that use it (src/tracer.cpp, src/span.cpp,
// the default shared-handle build).
//
// The map is reached through a plain global pointer.  A call first tests the pointer, then locks the
// shard of its identifier, and then works under that lock; the teardown sweeps one shard after the
// other, saves the numbering, deletes the map and clears the pointer, and takes no notice of the
// calls except for the shard locks.  Each of these is a step of its own.  A step that cannot be taken
// leaves the state alone.
//
// A ticket is the position of an identifier among all identifiers issued so far.  Tickets tell the C
// structures apart even if an identifier should be issued twice.

module HandleLifetime {
  import Collections

  datatype Pointer = Null | Live | Freed

  /** How far the teardown is. */
  datatype Phase = Standing | Sweeping(next: nat) | Saved | Deleted

  datatype Purpose = Look | Destroy | End

  const NOBODY: int := -1

  /** Where a call stands.  `owner` is the tracer that makes the call, or NOBODY. */
  datatype Call =
    | Checked(ticket: nat, purpose: Purpose)            // saw a map, about to lock
    | Inside(ticket: nat, purpose: Purpose, gen: nat)   // holds the shard lock
    | Skipping(ticket: nat)                             // saw no map, about to free its structure
    | Creating(owner: int)                              // about to take an identifier
    | Reserved(ticket: nat, owner: int)                 // has its identifier, about to lock
    | Publishing(ticket: nat, owner: int, gen: nat)     // holds the shard lock

  datatype Outcome = Published | HandleFails | EmplaceThrows

  /** What happened to the handle of each ticket. */
  datatype Log = Log(
    inserted: multiset<nat>, erased: multiset<nat>, swept: multiset<nat>, dropped: multiset<nat>,
    ended: multiset<nat>, deleted: multiset<nat>)

  /** `entries` is the map of the current generation, from identifier to the ticket of the handle;
      `structs` holds the tickets of the C structures in the hands of callers.  `faults` counts uses
      of a missing or deleted map, `races` uses of a map without its shard lock.  `ends` tells whether
      the sweep ends the handles, as it does for spans. */
  datatype Store = Store(
    ends: bool, pointer: Pointer, phase: Phase, gen: nat, shards: nat, id: int, base: int,
    entries: map<int, nat>, issued: seq<int>, calls: map<nat, Call>, structs: set<nat>,
    log: Log, faults: nat, races: nat)

  const EMPTY_LOG: Log :=
    Log(multiset{}, multiset{}, multiset{}, multiset{}, multiset{}, multiset{})

  function Empty(ends: bool): Store {
    Store(ends, Null, Standing, 0, 1, 0, 0, map[], [], map[], {}, EMPTY_LOG, 0, 0)
  }

  datatype Op =
    | Allocate(shards: nat)
    | BeginTeardown
    | SweepShard
    | SaveBase
    | DeleteMap
    | ClearPointer
    | Enter(c: nat, ticket: nat, purpose: Purpose)
    | Create(c: nat, owner: int)
    | Resume(c: nat, outcome: Outcome)

  function IdOf(s: Store, ticket: nat): int {
    if ticket < |s.issued| then s.issued[ticket] else -1
  }

  function Home(s: Store, idx: int): int {
    if s.shards == 0 then 0 else idx % s.shards
  }

  predicate Holds(s: Store, call: Call, shard: int) {
    (call.Inside? || call.Publishing?) && call.gen == s.gen && Home(s, IdOf(s, call.ticket)) == shard
  }

  predicate Held(s: Store, shard: int) {
    exists c | c in s.calls :: Holds(s, s.calls[c], shard)
  }

  /** The handle of the ticket is in the map, under the ticket's identifier. */
  predicate Present(s: Store, ticket: nat) {
    ticket < |s.issued| && s.issued[ticket] in s.entries && s.entries[s.issued[ticket]] == ticket
  }

  // ---------- what the steps do ----------

  function Fault(s: Store, c: nat): Store {
    s.(calls := s.calls - {c}, faults := s.faults + 1)
  }

  function Gone(s: Store, c: nat): Store {
    s.(calls := s.calls - {c})
  }

  /** Looks up the handle, ends it when asked to, deletes and erases it. */
  function Dispose(s: Store, ticket: nat, purpose: Purpose): (r: Store)
    ensures r == s.(entries := r.entries, log := r.log) && r.entries.Keys <= s.entries.Keys
    ensures s.log.deleted <= r.log.deleted && r.log.dropped == s.log.dropped
  {
    var idx := IdOf(s, ticket);
    if purpose.Look? || idx !in s.entries then s else
    var h := s.entries[idx];
    s.(entries := s.entries - {idx},
       log := s.log.(erased := s.log.erased + multiset{h}, deleted := s.log.deleted + multiset{h},
                     ended := if purpose.End? then s.log.ended + multiset{h} else s.log.ended))
  }

  /** A create ends by entering the map, or by releasing its structure again. */
  function Publish(s: Store, ticket: nat, outcome: Outcome): (r: Store)
    ensures r == s.(entries := r.entries, structs := r.structs, log := r.log)
    ensures s.log.deleted <= r.log.deleted && r.log.dropped == s.log.dropped
  {
    var idx := IdOf(s, ticket);
    match outcome
    case HandleFails => Dispose(s, ticket, Destroy)
    case EmplaceThrows => s
    case Published =>
      if idx in s.entries then s
      else s.(entries := s.entries[idx := ticket], structs := s.structs + {ticket},
              log := s.log.(inserted := s.log.inserted + multiset{ticket}))
  }

  function TakeId(s: Store, c: nat, owner: int): Store {
    s.(id := s.id + 1, issued := s.issued + [s.id], calls := s.calls[c := Reserved(|s.issued|, owner)])
  }

  /** What a call that goes on can become. */
  predicate Follows(s: Store, call: Call, next: Call) {
    || next == call
    || (call.Checked? && next == Inside(call.ticket, call.purpose, s.gen))
    || (call.Creating? && next == Reserved(|s.issued|, call.owner))
    || (call.Reserved? && next == Publishing(call.ticket, call.owner, s.gen))
  }

  /** The next action of a call.  The pointer is read again at each use of the map; a lock taken in an
      earlier generation belongs to a deleted map. */
  function Resumed(s: Store, c: nat, outcome: Outcome): (r: Store)
    requires c in s.calls
    ensures r == s.(id := r.id, issued := r.issued, entries := r.entries, calls := r.calls, structs := r.structs,
                    log := r.log, faults := r.faults, races := r.races)
    ensures if s.calls[c].Creating? && s.pointer.Live? then r == TakeId(s, c, s.calls[c].owner)
            else r.id == s.id && r.issued == s.issued
    ensures s.faults <= r.faults && s.log.deleted <= r.log.deleted && r.log.dropped == s.log.dropped
    ensures !s.calls[c].Publishing? ==> r.entries.Keys <= s.entries.Keys
    ensures forall d | d in r.calls && d != c :: d in s.calls && r.calls[d] == s.calls[d]
    ensures c in r.calls ==> Follows(s, s.calls[c], r.calls[c])
  {
    match s.calls[c]
    case Checked(ticket, purpose) =>
      if !s.pointer.Live? then Fault(s, c)
      else if Held(s, Home(s, IdOf(s, ticket))) then s
      else s.(calls := s.calls[c := Inside(ticket, purpose, s.gen)])
    case Inside(ticket, purpose, gen) =>
      if !s.pointer.Live? || gen != s.gen then Fault(s, c)
      else Dispose(Gone(s, c), ticket, purpose)
    case Skipping(ticket) =>
      if s.pointer.Freed? then Fault(s, c)
      else if s.pointer.Null? then Gone(s, c)
      else Dispose(Gone(s, c).(races := s.races + 1), ticket, Destroy)
    case Creating(owner) =>
      if !s.pointer.Live? then Fault(s, c) else TakeId(s, c, owner)
    case Reserved(ticket, owner) =>
      if !s.pointer.Live? then Fault(s, c)
      else if Held(s, Home(s, IdOf(s, ticket))) then s
      else s.(calls := s.calls[c := Publishing(ticket, owner, s.gen)])
    case Publishing(ticket, _, gen) =>
      if !s.pointer.Live? || gen != s.gen then Fault(s, c)
      else Publish(Gone(s, c), ticket, outcome)
  }

  /** A call comes in.  Without a map a lookup returns at once, and an end or destroy goes on to free
      its structure. */
  function Entered(s: Store, c: nat, ticket: nat, purpose: Purpose): Store {
    var s' := if purpose.Look? then s else s.(structs := s.structs - {ticket});
    if !s.pointer.Null? then s'.(calls := s.calls[c := Checked(ticket, purpose)])
    else if purpose.Look? then s
    else s'.(calls := s.calls[c := Skipping(ticket)])
  }

  function InShard(s: Store, shard: nat): set<int> {
    IdsOfShard(s.entries, s.shards, shard)
  }

  function IdsOfShard(entries: map<int, nat>, shards: nat, shard: nat): set<int> {
    set idx | idx in entries && (if shards == 0 then 0 else idx % shards) == shard
  }

  function Tickets(s: Store, ids: set<int>): set<nat> {
    TicketsOf(s.entries, ids)
  }

  function TicketsOf(entries: map<int, nat>, ids: set<int>): set<nat> {
    set idx | idx in ids && idx in entries :: entries[idx]
  }

  function SweptShard(s: Store, shard: nat): Store {
    var ids := InShard(s, shard);
    var gone := multiset(Tickets(s, ids));
    s.(entries := s.entries - ids, phase := Sweeping(shard + 1),
       log := SweptLog(s.log, gone, if s.ends then gone else multiset{}))
  }

  function SweptLog(log: Log, gone: multiset<nat>, ended: multiset<nat>): Log {
    log.(swept := log.swept + gone, deleted := log.deleted + gone, ended := log.ended + ended)
  }

  /** The destructor of the map deletes what is still in it. */
  function DeletedMap(s: Store): Store {
    var gone := multiset(Tickets(s, s.entries.Keys));
    s.(pointer := Freed, phase := Deleted, entries := map[],
       log := s.log.(dropped := s.log.dropped + gone, deleted := s.log.deleted + gone))
  }

  predicate OpEnabled(s: Store, op: Op) {
    match op
    case Allocate(n) => s.pointer.Null? && s.phase.Standing? && n > 0
    case BeginTeardown => s.pointer.Live? && s.phase.Standing?
    case SweepShard => s.phase.Sweeping? && s.phase.next < s.shards && !Held(s, s.phase.next)
    case SaveBase => s.phase == Sweeping(s.shards)
    case DeleteMap => s.phase.Saved?
    case ClearPointer => s.phase.Deleted?
    case Enter(c, ticket, _) => c !in s.calls && ticket in s.structs
    case Create(c, _) => c !in s.calls
    case Resume(c, _) => c in s.calls
  }

  function ApplyOp(s: Store, op: Op): Store {
    if !OpEnabled(s, op) then s else
    match op
    case Allocate(n) => s.(pointer := Live, gen := s.gen + 1, shards := n, id := s.base, entries := map[])
    case BeginTeardown => s.(phase := Sweeping(0))
    case SweepShard => SweptShard(s, s.phase.next)
    case SaveBase => s.(phase := Saved, base := s.id)
    case DeleteMap => DeletedMap(s)
    case ClearPointer => s.(pointer := Null, phase := Standing)
    case Enter(c, ticket, purpose) => Entered(s, c, ticket, purpose)
    case Create(c, owner) => if s.pointer.Null? then s else s.(calls := s.calls[c := Creating(owner)])
    case Resume(c, outcome) => Resumed(s, c, outcome)
  }

  // ---------- what every step keeps ----------

  function Num(b: bool): nat { if b then 1 else 0 }

  /** The ledger of the handle of one ticket: inserted at most once; then erased, swept, dropped or
      still in the map; deleted exactly when it left the map; ended at most once, and always when a
      sweep that ends handles took it. */
  predicate Balanced(s: Store, p: nat) {
    && s.log.inserted[p] <= 1
    && (s.log.inserted[p] > 0 ==> p < |s.issued|)
    && s.log.inserted[p] == s.log.erased[p] + s.log.swept[p] + s.log.dropped[p] + Num(Present(s, p))
    && s.log.deleted[p] == s.log.erased[p] + s.log.swept[p] + s.log.dropped[p]
    && s.log.ended[p] <= s.log.erased[p] + s.log.swept[p]
    && (s.ends ==> s.log.swept[p] <= s.log.ended[p])
  }

  predicate EntryOk(s: Store, idx: int) {
    idx in s.entries ==> s.entries[idx] < |s.issued| && s.issued[s.entries[idx]] == idx
  }

  predicate MakesTicket(call: Call, p: nat) {
    (call.Reserved? || call.Publishing?) && call.ticket == p
  }

  predicate CallOk(s: Store, call: Call) {
    match call
    case Checked(p, _) => p < |s.issued|
    case Inside(p, _, _) => p < |s.issued|
    case Skipping(p) => s.log.inserted[p] == 1 && !Present(s, p)
    case Creating(_) => true
    case Reserved(p, _) => p < |s.issued| && s.log.inserted[p] == 0
    case Publishing(p, _, _) => p < |s.issued| && s.log.inserted[p] == 0
  }

  ghost predicate CallsOk(s: Store) {
    && (forall c | c in s.calls :: CallOk(s, s.calls[c]))
    && (forall c, d, p: nat | c in s.calls && d in s.calls && c != d ::
          !(MakesTicket(s.calls[c], p) && MakesTicket(s.calls[d], p)))
    && (forall p | p in s.structs :: s.log.inserted[p] == 1)
  }

  predicate Shape(s: Store) {
    && (s.phase.Sweeping? || s.phase.Saved? ==> s.pointer.Live?)
    && (s.pointer.Freed? <==> s.phase.Deleted?)
    && (!s.pointer.Live? ==> s.entries == map[])
    && s.shards > 0
    && (s.phase.Sweeping? ==> s.phase.next <= s.shards)
  }

  ghost predicate StoreInv(s: Store) {
    && Shape(s)
    && (forall p: nat :: Balanced(s, p))
    && (forall idx :: EntryOk(s, idx))
    && CallsOk(s)
  }

  /** Only calls and structures change, and no call becomes the maker of a ticket. */
  lemma CallChange(s: Store, s': Store)
    requires StoreInv(s) && s' == s.(calls := s'.calls, structs := s'.structs, faults := s'.faults, races := s'.races)
    requires s'.structs <= s.structs
    requires forall c | c in s'.calls :: CallOk(s, s'.calls[c])
    requires forall c, p: nat | c in s'.calls && MakesTicket(s'.calls[c], p) ::
               c in s.calls && MakesTicket(s.calls[c], p)
    ensures StoreInv(s')
  {
    forall p: nat ensures Balanced(s', p) { assert Balanced(s, p); }
    forall idx ensures EntryOk(s', idx) { assert EntryOk(s, idx); }
  }

  lemma DisposeKeeps(s: Store, ticket: nat, purpose: Purpose)
    requires StoreInv(s) && s.pointer.Live?
    ensures StoreInv(Dispose(s, ticket, purpose))
  {
    var idx, s' := IdOf(s, ticket), Dispose(s, ticket, purpose);
    assert EntryOk(s, idx);
    forall p: nat ensures Balanced(s', p) { assert Balanced(s, p); }
    forall i ensures EntryOk(s', i) { assert EntryOk(s, i); }
    forall c | c in s'.calls ensures CallOk(s', s'.calls[c]) { assert CallOk(s, s.calls[c]); }
  }

  lemma PublishKeeps(s: Store, ticket: nat, outcome: Outcome)
    requires StoreInv(s) && s.pointer.Live? && ticket < |s.issued| && s.log.inserted[ticket] == 0
    requires forall c | c in s.calls :: !MakesTicket(s.calls[c], ticket)
    ensures StoreInv(Publish(s, ticket, outcome))
  {
    var idx, s' := IdOf(s, ticket), Publish(s, ticket, outcome);
    if outcome.HandleFails? {
      DisposeKeeps(s, ticket, Destroy);
    } else if outcome.Published? && idx !in s.entries {
      forall p: nat ensures Balanced(s', p) { assert Balanced(s, p); }
      forall i ensures EntryOk(s', i) { assert EntryOk(s, i); }
      forall c | c in s'.calls ensures CallOk(s', s'.calls[c]) { assert CallOk(s, s.calls[c]); }
    }
  }

  lemma TakeIdKeeps(s: Store, c: nat, owner: int)
    requires StoreInv(s) && s.pointer.Live? && c in s.calls
    ensures StoreInv(TakeId(s, c, owner))
  {
    var s' := TakeId(s, c, owner);
    assert Balanced(s, |s.issued|);
    forall p: nat ensures Balanced(s', p) {
      assert Balanced(s, p);
      if p == |s.issued| && s.id in s.entries { assert EntryOk(s, s.id); }
    }
    forall i ensures EntryOk(s', i) { assert EntryOk(s, i); }
    forall d | d in s'.calls ensures CallOk(s', s'.calls[d]) {
      if d != c {
        assert CallOk(s, s.calls[d]);
        if s.calls[d].Skipping? { assert Balanced(s, s.calls[d].ticket); }
      }
    }
  }

  lemma StayKeeps(s: Store, c: nat, outcome: Outcome)
    requires StoreInv(s) && c in s.calls && (s.calls[c].Checked? || s.calls[c].Reserved?)
    ensures StoreInv(Resumed(s, c, outcome))
  {
    assert CallOk(s, s.calls[c]);
    CallChange(s, Resumed(s, c, outcome));
  }

  lemma GoneKeeps(s: Store, c: nat)
    requires StoreInv(s) && c in s.calls
    ensures StoreInv(Gone(s, c)) && StoreInv(Fault(s, c)) && StoreInv(Gone(s, c).(races := s.races + 1))
  {
    CallChange(s, Gone(s, c));
    CallChange(s, Fault(s, c));
    CallChange(s, Gone(s, c).(races := s.races + 1));
  }

  lemma ResumeKeeps(s: Store, c: nat, outcome: Outcome)
    requires StoreInv(s) && c in s.calls
    ensures StoreInv(Resumed(s, c, outcome))
  {
    var call := s.calls[c];
    GoneKeeps(s, c);
    if call.Checked? || call.Reserved? {
      StayKeeps(s, c, outcome);
    } else if s.pointer.Live? {
      assert CallOk(s, call);
      if call.Creating? {
        TakeIdKeeps(s, c, call.owner);
      } else if call.Inside? {
        DisposeKeeps(Gone(s, c), call.ticket, call.purpose);
      } else if call.Skipping? {
        DisposeKeeps(Gone(s, c).(races := s.races + 1), call.ticket, Destroy);
      } else {
        PublishKeeps(Gone(s, c), call.ticket, outcome);
      }
    }
  }

  lemma HasTicket(s: Store, ids: set<int>, idx: int)
    requires idx in ids && idx in s.entries
    ensures s.entries[idx] in Tickets(s, ids)
  {
  }

  lemma TicketsMean(s: Store, ids: set<int>, p: nat)
    requires StoreInv(s) && ids <= s.entries.Keys
    ensures p in Tickets(s, ids) <==> Present(s, p) && s.issued[p] in ids
  {
    if p in Tickets(s, ids) {
      var idx :| idx in ids && idx in s.entries && s.entries[idx] == p;
      assert EntryOk(s, idx);
    }
    if Present(s, p) && s.issued[p] in ids { HasTicket(s, ids, s.issued[p]); }
  }

  lemma SweepKeeps(s: Store, shard: nat)
    requires StoreInv(s) && s.pointer.Live? && s.phase == Sweeping(shard) && shard < s.shards
    ensures StoreInv(SweptShard(s, shard))
  {
    var s' := SweptShard(s, shard);
    forall p: nat ensures Balanced(s', p) {
      assert Balanced(s, p);
      TicketsMean(s, InShard(s, shard), p);
    }
    forall i ensures EntryOk(s', i) { assert EntryOk(s, i); }
    forall c | c in s'.calls ensures CallOk(s', s'.calls[c]) { assert CallOk(s, s.calls[c]); }
  }

  lemma DeleteKeeps(s: Store)
    requires StoreInv(s) && s.phase.Saved?
    ensures StoreInv(DeletedMap(s))
  {
    var s' := DeletedMap(s);
    forall p: nat ensures Balanced(s', p) {
      assert Balanced(s, p);
      TicketsMean(s, s.entries.Keys, p);
    }
    forall c | c in s'.calls ensures CallOk(s', s'.calls[c]) { assert CallOk(s, s.calls[c]); }
  }

  lemma EnterKeeps(s: Store, c: nat, ticket: nat, purpose: Purpose)
    requires StoreInv(s) && c !in s.calls && ticket in s.structs
    ensures StoreInv(Entered(s, c, ticket, purpose))
  {
    assert s.log.inserted[ticket] == 1 && Balanced(s, ticket);
    CallChange(s, Entered(s, c, ticket, purpose));
  }

  lemma PointerKeeps(s: Store, op: Op)
    requires StoreInv(s) && OpEnabled(s, op)
    requires op.Allocate? || op.BeginTeardown? || op.SaveBase? || op.ClearPointer?
    ensures StoreInv(ApplyOp(s, op))
  {
    var s' := ApplyOp(s, op);
    forall p: nat ensures Balanced(s', p) { assert Balanced(s, p); }
    forall i ensures EntryOk(s', i) { assert EntryOk(s, i); }
    forall c | c in s'.calls ensures CallOk(s', s'.calls[c]) { assert CallOk(s, s.calls[c]); }
  }

  lemma OpKeepsInv(s: Store, op: Op)
    requires StoreInv(s)
    ensures StoreInv(ApplyOp(s, op))
  {
    if OpEnabled(s, op) {
      match op
      case SweepShard => SweepKeeps(s, s.phase.next);
      case DeleteMap => DeleteKeeps(s);
      case Enter(c, ticket, purpose) => EnterKeeps(s, c, ticket, purpose);
      case Create(c, owner) => CallChange(s, ApplyOp(s, op));
      case Resume(c, outcome) => ResumeKeeps(s, c, outcome);
      case _ => PointerKeeps(s, op);
    }
  }

  lemma EmptyHasInv(ends: bool)
    ensures StoreInv(Empty(ends)) && Exclusive(Empty(ends))
  {
    forall p: nat ensures Balanced(Empty(ends), p) {}
  }

  // ---------- what happens to a handle ----------

  datatype Cause = ByCreate | ByEnd | ByDestroy | BySweep | ByDelete

  /** The identifier of the ticket leads to the handle h. */
  predicate Finds(s: Store, ticket: nat, h: nat) {
    IdOf(s, ticket) in s.entries && s.entries[IdOf(s, ticket)] == h
  }

  /** A call goes on and has its shard lock in the map that is there. */
  predicate UnderLock(s: Store, op: Op) {
    && op.Resume? && op.c in s.calls && s.pointer.Live?
    && (s.calls[op.c].Inside? || s.calls[op.c].Publishing?) && s.calls[op.c].gen == s.gen
  }

  /** A call that saw no map goes on, and there is one again. */
  predicate WithoutLock(s: Store, op: Op) {
    op.Resume? && op.c in s.calls && s.pointer.Live? && s.calls[op.c].Skipping?
  }

  /** The step puts the handle into the map, or takes it out, for this cause. */
  predicate Does(s: Store, op: Op, cause: Cause, h: nat) {
    match cause
    case ByCreate =>
      && UnderLock(s, op) && s.calls[op.c].Publishing? && s.calls[op.c].ticket == h
      && op.outcome.Published? && IdOf(s, h) !in s.entries
    case ByEnd =>
      && UnderLock(s, op) && s.calls[op.c].Inside? && s.calls[op.c].purpose.End?
      && Finds(s, s.calls[op.c].ticket, h)
    case ByDestroy =>
      && (UnderLock(s, op) || WithoutLock(s, op)) && Finds(s, s.calls[op.c].ticket, h)
      && (s.calls[op.c].Inside? ==> s.calls[op.c].purpose.Destroy?)
      && (s.calls[op.c].Publishing? ==> op.outcome.HandleFails?)
    case BySweep =>
      op.SweepShard? && OpEnabled(s, op) && Present(s, h) && Home(s, s.issued[h]) == s.phase.next
    case ByDelete =>
      op.DeleteMap? && OpEnabled(s, op) && Present(s, h)
  }

  predicate Leaves(s: Store, op: Op, h: nat) {
    Does(s, op, ByEnd, h) || Does(s, op, ByDestroy, h) || Does(s, op, BySweep, h) || Does(s, op, ByDelete, h)
  }

  function Times(s: Store, op: Op, cause: Cause, h: nat): nat { Num(Does(s, op, cause, h)) }

  /** What a step writes about the handle of one ticket.  An end ends the handle that it takes out, and
      so does a sweep that ends handles; a destroy and the delete of the map do not. */
  ghost predicate Recorded(s: Store, s': Store, op: Op, h: nat) {
    && s'.log.inserted[h] == s.log.inserted[h] + Times(s, op, ByCreate, h)
    && s'.log.erased[h] == s.log.erased[h] + Times(s, op, ByEnd, h) + Times(s, op, ByDestroy, h)
    && s'.log.swept[h] == s.log.swept[h] + Times(s, op, BySweep, h)
    && s'.log.dropped[h] == s.log.dropped[h] + Times(s, op, ByDelete, h)
    && s'.log.ended[h] == s.log.ended[h] + Times(s, op, ByEnd, h) + (if s.ends then Times(s, op, BySweep, h) else 0)
    && s'.log.deleted[h] == s.log.deleted[h] + Num(Leaves(s, op, h))
    && (Present(s', h) <==> Does(s, op, ByCreate, h) || (Present(s, h) && !Leaves(s, op, h)))
  }

  /** What the lookup, end, delete and erase of one handle write about the handle h. */
  lemma DisposeWrites(s: Store, ticket: nat, purpose: Purpose, h: nat)
    requires forall idx :: EntryOk(s, idx)
    ensures var r, gone := Dispose(s, ticket, purpose), !purpose.Look? && Finds(s, ticket, h);
            && r.log.inserted == s.log.inserted && r.log.swept == s.log.swept && r.log.dropped == s.log.dropped
            && r.log.erased[h] == s.log.erased[h] + Num(gone) && r.log.deleted[h] == s.log.deleted[h] + Num(gone)
            && r.log.ended[h] == s.log.ended[h] + Num(gone && purpose.End?)
            && (Present(r, h) <==> Present(s, h) && !gone)
  {
    assert EntryOk(s, IdOf(s, ticket));
  }

  lemma InsideRecorded(s: Store, op: Op, h: nat)
    requires StoreInv(s) && UnderLock(s, op) && s.calls[op.c].Inside?
    ensures Recorded(s, ApplyOp(s, op), op, h)
  {
    var call, s' := s.calls[op.c], Gone(s, op.c);
    assert ApplyOp(s, op) == Dispose(s', call.ticket, call.purpose);
    forall idx ensures EntryOk(s', idx) { assert EntryOk(s, idx); }
    DisposeWrites(s', call.ticket, call.purpose, h);
    assert Finds(s', call.ticket, h) == Finds(s, call.ticket, h) && Present(s', h) == Present(s, h);
  }

  lemma SkippedRecorded(s: Store, op: Op, h: nat)
    requires StoreInv(s) && WithoutLock(s, op)
    ensures Recorded(s, ApplyOp(s, op), op, h)
  {
    var call, s' := s.calls[op.c], Gone(s, op.c).(races := s.races + 1);
    assert ApplyOp(s, op) == Dispose(s', call.ticket, Destroy);
    forall idx ensures EntryOk(s', idx) { assert EntryOk(s, idx); }
    DisposeWrites(s', call.ticket, Destroy, h);
    assert Finds(s', call.ticket, h) == Finds(s, call.ticket, h) && Present(s', h) == Present(s, h);
  }

  lemma FailureRecorded(s: Store, op: Op, h: nat)
    requires StoreInv(s) && UnderLock(s, op) && s.calls[op.c].Publishing? && op.outcome.HandleFails?
    ensures Recorded(s, ApplyOp(s, op), op, h)
  {
    var call, s' := s.calls[op.c], Gone(s, op.c);
    assert ApplyOp(s, op) == Dispose(s', call.ticket, Destroy);
    forall idx ensures EntryOk(s', idx) { assert EntryOk(s, idx); }
    DisposeWrites(s', call.ticket, Destroy, h);
    assert Finds(s', call.ticket, h) == Finds(s, call.ticket, h) && Present(s', h) == Present(s, h);
  }

  lemma PublishRecorded(s: Store, op: Op, h: nat)
    requires StoreInv(s) && UnderLock(s, op) && s.calls[op.c].Publishing? && !op.outcome.HandleFails?
    ensures Recorded(s, ApplyOp(s, op), op, h)
  {
    var s', ticket := Gone(s, op.c), s.calls[op.c].ticket;
    assert ApplyOp(s, op) == Publish(s', ticket, op.outcome);
    assert CallOk(s, s.calls[op.c]);
    PublishWrites(s', ticket, op.outcome, h);
    assert Present(s', h) == Present(s, h);
  }

  lemma PublishWrites(s: Store, ticket: nat, outcome: Outcome, h: nat)
    requires !outcome.HandleFails? && ticket < |s.issued|
    ensures var r, enters := Publish(s, ticket, outcome), outcome.Published? && IdOf(s, ticket) !in s.entries;
            && r.log == s.log.(inserted := r.log.inserted)
            && r.log.inserted[h] == s.log.inserted[h] + Num(enters && h == ticket)
            && (Present(r, h) <==> Present(s, h) || (enters && h == ticket))
  {
  }

  lemma OtherRecorded(s: Store, op: Op, h: nat)
    requires StoreInv(s) && !UnderLock(s, op) && !WithoutLock(s, op) && !op.SweepShard? && !op.DeleteMap?
    ensures Recorded(s, ApplyOp(s, op), op, h)
  {
    SameLedger(s, op);
    assert Balanced(s, h);
    if s.id in s.entries { assert EntryOk(s, s.id); }
  }

  lemma SameLedger(s: Store, op: Op)
    requires Shape(s) && !UnderLock(s, op) && !WithoutLock(s, op) && !op.SweepShard? && !op.DeleteMap?
    ensures var s' := ApplyOp(s, op);
            && s'.log == s.log && s'.entries == s.entries
            && (s'.issued == s.issued || s'.issued == s.issued + [s.id])
  {
  }

  lemma SweepRecorded(s: Store, op: Op, h: nat)
    requires StoreInv(s) && OpEnabled(s, op) && (op.SweepShard? || op.DeleteMap?)
    ensures Recorded(s, ApplyOp(s, op), op, h)
  {
    TicketsMean(s, if op.SweepShard? then InShard(s, s.phase.next) else s.entries.Keys, h);
  }

  /** Every step treats the handle of every ticket as its cause demands: it is in the map exactly from
      the create to the end, destroy, sweep or delete that takes it out. */
  lemma StepRecorded(s: Store, op: Op, h: nat)
    requires StoreInv(s)
    ensures Recorded(s, ApplyOp(s, op), op, h)
  {
    if op.SweepShard? || op.DeleteMap? {
      if OpEnabled(s, op) { SweepRecorded(s, op, h); }
    } else if !UnderLock(s, op) && !WithoutLock(s, op) {
      OtherRecorded(s, op, h);
    } else if s.calls[op.c].Publishing? {
      if op.outcome.HandleFails? { FailureRecorded(s, op, h); } else { PublishRecorded(s, op, h); }
    } else if s.calls[op.c].Inside? {
      InsideRecorded(s, op, h);
    } else {
      SkippedRecorded(s, op, h);
    }
  }

  // ---------- shard locks ----------

  /** The call holds the lock of a shard of the map that is there. */
  predicate Locks(s: Store, call: Call) {
    (call.Inside? || call.Publishing?) && call.gen == s.gen
  }

  predicate GenOk(s: Store, call: Call) {
    call.Inside? || call.Publishing? ==> call.gen <= s.gen
  }

  /** Two calls do not hold the lock of one shard. */
  predicate Apart(s: Store, c: nat, d: nat) {
    c in s.calls && d in s.calls && c != d && Locks(s, s.calls[c]) && Locks(s, s.calls[d]) ==>
      Home(s, IdOf(s, s.calls[c].ticket)) != Home(s, IdOf(s, s.calls[d].ticket))
  }

  ghost predicate Exclusive(s: Store) {
    && (forall c | c in s.calls :: GenOk(s, s.calls[c]))
    && (forall c: nat, d: nat :: Apart(s, c, d))
  }

  /** What a step does to a call: one that locks its shard found it free. */
  lemma CallStep(s: Store, op: Op, c: nat)
    requires StoreInv(s) && Exclusive(s) && c in ApplyOp(s, op).calls && Locks(ApplyOp(s, op), ApplyOp(s, op).calls[c])
    ensures var s' := ApplyOp(s, op);
            && c in s.calls && s'.gen == s.gen && s'.shards == s.shards && s'.calls[c].ticket < |s.issued|
            && IdOf(s', s'.calls[c].ticket) == IdOf(s, s'.calls[c].ticket)
            && ((s.calls[c] == s'.calls[c] && Locks(s, s.calls[c]))
                || (op.Resume? && op.c == c && !Held(s, Home(s, IdOf(s, s'.calls[c].ticket)))))
  {
    if c in s.calls { assert CallOk(s, s.calls[c]) && GenOk(s, s.calls[c]); }
  }

  lemma ExclusiveStep(s: Store, op: Op)
    requires StoreInv(s) && Exclusive(s)
    ensures Exclusive(ApplyOp(s, op))
  {
    var s' := ApplyOp(s, op);
    forall c | c in s'.calls ensures GenOk(s', s'.calls[c]) {
      if c in s.calls { assert GenOk(s, s.calls[c]); }
    }
    forall c: nat, d: nat ensures Apart(s', c, d) { ApartStep(s, op, c, d); }
  }

  lemma ApartStep(s: Store, op: Op, c: nat, d: nat)
    requires StoreInv(s) && Exclusive(s)
    ensures Apart(ApplyOp(s, op), c, d)
  {
    var s' := ApplyOp(s, op);
    if c in s'.calls && d in s'.calls && c != d && Locks(s', s'.calls[c]) && Locks(s', s'.calls[d]) {
      CallStep(s, op, c);
      CallStep(s, op, d);
      assert Apart(s, c, d);
      if s.calls[c] != s'.calls[c] {
        assert !Holds(s, s.calls[d], Home(s, IdOf(s, s'.calls[c].ticket)));
      } else if s.calls[d] != s'.calls[d] {
        assert !Holds(s, s.calls[c], Home(s, IdOf(s, s'.calls[d].ticket)));
      }
    }
  }

  /** The call holds the lock that the entry is under, and somebody else takes the step: not the
      delete of the map, which takes no locks, and not a call that saw no map. */
  predicate Guarded(s: Store, op: Op, c: nat, idx: int) {
    && s.pointer.Live? && c in s.calls && Locks(s, s.calls[c])
    && Home(s, IdOf(s, s.calls[c].ticket)) == Home(s, idx)
    && !(op.Resume? && op.c == c) && !op.DeleteMap? && !WithoutLock(s, op)
  }

  predicate SameEntry(s: Store, s': Store, idx: int) {
    (idx in s'.entries <==> idx in s.entries) && (idx in s.entries ==> s'.entries[idx] == s.entries[idx])
  }

  /** A shard lock protects: while a call holds it neither the sweep nor another call touches an entry
      of that shard. */
  lemma LockProtects(s: Store, op: Op, c: nat, idx: int)
    requires StoreInv(s) && Exclusive(s) && Guarded(s, op, c, idx)
    ensures var s' := ApplyOp(s, op);
            SameEntry(s, s', idx) && c in s'.calls && s'.calls[c] == s.calls[c] && Locks(s', s'.calls[c])
  {
    assert Holds(s, s.calls[c], Home(s, idx));
    if op.SweepShard? {
      SweepsOneShard(s, op, idx);
    } else if UnderLock(s, op) {
      assert Apart(s, op.c, c);
      WorksInShard(s, op, idx);
    } else {
      SameLedger(s, op);
    }
  }

  lemma SweepsOneShard(s: Store, op: Op, idx: int)
    requires op.SweepShard? && Held(s, Home(s, idx))
    ensures SameEntry(s, ApplyOp(s, op), idx) && ApplyOp(s, op).calls == s.calls && ApplyOp(s, op).gen == s.gen
  {
  }

  /** A call under its shard lock only touches the entry of its own identifier. */
  lemma WorksInShard(s: Store, op: Op, idx: int)
    requires UnderLock(s, op) && IdOf(s, s.calls[op.c].ticket) != idx
    ensures SameEntry(s, ApplyOp(s, op), idx) && ApplyOp(s, op).calls == s.calls - {op.c}
  {
  }

  // ---------- uses of a deleted map ----------

  /** The map is deleted, the pointer still shows it, and some call is under way. */
  predicate InDanger(s: Store) {
    s.pointer.Freed? && s.calls != map[]
  }

  /** Whatever call is resumed uses the map that is there, or none. */
  predicate CallSafe(s: Store, call: Call) {
    match s.pointer
    case Null => call.Skipping?
    case Live => call.Inside? || call.Publishing? ==> call.gen == s.gen
    case Freed => false
  }

  ghost predicate Safe(s: Store) {
    s.faults == 0 && forall c | c in s.calls :: CallSafe(s, s.calls[c])
  }

  lemma SafeResumed(s: Store, c: nat, outcome: Outcome, d: nat)
    requires Safe(s) && c in s.calls && d in Resumed(s, c, outcome).calls
    ensures Resumed(s, c, outcome).faults == 0 && Resumed(s, c, outcome).pointer == s.pointer
    ensures CallSafe(Resumed(s, c, outcome), Resumed(s, c, outcome).calls[d])
  {
    assert CallSafe(s, s.calls[c]);
    if d in s.calls { assert CallSafe(s, s.calls[d]); }
  }

  /** As long as no call is under way while the pointer dangles, every call stays safe. */
  lemma SafeStep(s: Store, op: Op)
    requires Shape(s) && Safe(s) && !InDanger(ApplyOp(s, op))
    ensures Safe(ApplyOp(s, op))
  {
    var s' := ApplyOp(s, op);
    if op.Resume? { SafeResume(s, op.c, op.outcome); }
    forall c | c in s'.calls ensures CallSafe(s', s'.calls[c]) {
      if OpEnabled(s, op) && op.Resume? {
        SafeResumed(s, op.c, op.outcome, c);
      } else if c in s.calls {
        assert CallSafe(s, s.calls[c]);
      }
    }
  }

  lemma SafeResume(s: Store, c: nat, outcome: Outcome)
    requires Safe(s)
    ensures ApplyOp(s, Resume(c, outcome)).faults == 0
  {
    if c in s.calls { assert CallSafe(s, s.calls[c]); }
  }

  /** A call under way while the pointer dangles uses the deleted map as soon as it goes on. */
  lemma DangerFaults(s: Store) returns (c: nat)
    requires InDanger(s)
    ensures c in s.calls
    ensures forall outcome :: ApplyOp(s, Resume(c, outcome)).faults == s.faults + 1
  {
    c := Collections.SomeElement(s.calls.Keys);
  }

  // ---------- identifiers ----------

  function NextId(s: Store): int {
    if s.pointer.Live? then s.id else s.base
  }

  /** Identifiers were issued in rising order, all below the next one. */
  predicate Rising(s: Store) {
    && (forall i | 0 <= i < |s.issued| :: s.issued[i] < NextId(s))
    && (forall i, j | 0 <= i < j < |s.issued| :: s.issued[i] < s.issued[j])
  }

  predicate Distinct(s: Store) {
    forall i, j | 0 <= i < j < |s.issued| :: s.issued[i] != s.issued[j]
  }

  /** An identifier was taken after the numbering was saved. */
  predicate Late(s: Store) {
    s.phase.Saved? && s.id != s.base
  }

  lemma RisingStep(s: Store, op: Op)
    requires Shape(s) && Rising(s) && !Late(s)
    ensures Rising(ApplyOp(s, op))
  {
  }

  /** The identifiers taken after the numbering was saved begin with the saved one. */
  predicate LateIds(s: Store) {
    s.phase.Saved? ==> s.base <= s.id && (s.base < s.id ==> s.base in s.issued)
  }

  lemma LateStep(s: Store, op: Op)
    requires LateIds(s)
    ensures LateIds(ApplyOp(s, op))
  {
    if OpEnabled(s, op) && op.Resume? && s.calls[op.c].Creating? && s.pointer.Live? {
      assert ApplyOp(s, op).issued[|s.issued|] == s.id;
    }
  }

  /** A step that takes an identifier. */
  predicate Takes(s: Store, op: Op) {
    OpEnabled(s, op) && op.Resume? && s.calls[op.c].Creating? && s.pointer.Live?
  }

  /** How far identifiers have gone wrong: not at all; one was taken after the numbering was saved, and
      the map is still there; the map is gone, and the saved numbering is behind. */
  datatype Numbering = Sound | TakenLate | Behind

  ghost predicate NumberingOk(s: Store, n: Numbering) {
    match n
    case Sound => Rising(s) && !Late(s)
    case TakenLate => Rising(s) && Late(s)
    case Behind => Distinct(s) && NextId(s) in s.issued
  }

  function NextNumbering(s: Store, op: Op, n: Numbering): Numbering {
    match n
    case Sound => if Takes(s, op) && s.phase.Saved? then TakenLate else Sound
    case TakenLate => if op.DeleteMap? then Behind else TakenLate
    case Behind => Behind
  }

  /** An identifier is issued a second time exactly when one is taken while the numbering is behind. */
  lemma NumberingStep(s: Store, op: Op, n: Numbering)
    requires Shape(s) && LateIds(s) && NumberingOk(s, n)
    ensures n.Behind? && Takes(s, op) ==> !Distinct(ApplyOp(s, op))
    ensures !(n.Behind? && Takes(s, op)) ==> NumberingOk(ApplyOp(s, op), NextNumbering(s, op, n))
  {
    if Takes(s, op) { TakeStep(s, op, n); } else { OtherStep(s, op, n); }
  }

  lemma TakeStep(s: Store, op: Op, n: Numbering)
    requires LateIds(s) && NumberingOk(s, n) && Takes(s, op)
    ensures n.Behind? ==> !Distinct(ApplyOp(s, op))
    ensures !n.Behind? ==> NumberingOk(ApplyOp(s, op), NextNumbering(s, op, n))
  {
    var s' := ApplyOp(s, op);
    assert s' == TakeId(s, op.c, s.calls[op.c].owner);
    if n.Behind? {
      var i :| 0 <= i < |s.issued| && s.issued[i] == s.id;
      assert s'.issued[i] == s'.issued[|s.issued|];
    }
  }

  lemma OtherStep(s: Store, op: Op, n: Numbering)
    requires Shape(s) && LateIds(s) && NumberingOk(s, n) && !Takes(s, op)
    ensures NumberingOk(ApplyOp(s, op), NextNumbering(s, op, n))
  {
    NextIdStays(s, op);
    IssuedStays(s, op);
  }

  lemma IssuedStays(s: Store, op: Op)
    requires !Takes(s, op)
    ensures ApplyOp(s, op).issued == s.issued
  {
  }

  /** Without an identifier taken the next one is the same, unless the map goes and the saved numbering
      counts. */
  lemma NextIdStays(s: Store, op: Op)
    requires Shape(s) && !Takes(s, op)
    ensures NextId(ApplyOp(s, op)) == if op.DeleteMap? && s.phase.Saved? then s.base else NextId(s)
    ensures s.phase.Saved? && !op.DeleteMap? ==>
              ApplyOp(s, op).phase.Saved? && ApplyOp(s, op).id == s.id && ApplyOp(s, op).base == s.base
    ensures !s.phase.Saved? && ApplyOp(s, op).phase.Saved? ==> !Late(ApplyOp(s, op))
  {
  }

  lemma RepeatStays(s: Store, op: Op)
    requires !Distinct(s)
    ensures !Distinct(ApplyOp(s, op))
  {
    OpKeepsHistory(s, op);
    var s' := ApplyOp(s, op);
    var i, j :| 0 <= i < j < |s.issued| && s.issued[i] == s.issued[j];
    assert s'.issued[i] == s'.issued[j];
  }

  // ---------- a call by itself ----------

  /** A create with nobody else around. */
  lemma CreateAlone(s: Store, c: nat)
    requires s.pointer.Live? && s.calls == map[c := Creating(NOBODY)] && s.id !in s.entries
    ensures var p, op := |s.issued|, Resume(c, Published);
            ApplyOp(ApplyOp(ApplyOp(s, op), op), op)
            == s.(id := s.id + 1, issued := s.issued + [s.id], calls := map[], structs := s.structs + {p},
                  entries := s.entries[s.id := p], log := s.log.(inserted := s.log.inserted + multiset{p}))
  {
    var p := |s.issued|;
    var s1 := s.(id := s.id + 1, issued := s.issued + [s.id], calls := map[c := Reserved(p, NOBODY)]);
    var s2 := s1.(calls := map[c := Publishing(p, NOBODY, s.gen)]);
    assert TakeId(s, c, NOBODY) == s1;
    LockAlone(s1, c);
    assert Gone(s2, c) == s1.(calls := map[]);
  }

  lemma LockAlone(s: Store, c: nat)
    requires s.pointer.Live? && c in s.calls && s.calls.Keys == {c}
    requires s.calls[c].Reserved? || s.calls[c].Checked?
    ensures Resumed(s, c, Published)
         == s.(calls := map[c := if s.calls[c].Reserved? then Publishing(s.calls[c].ticket, s.calls[c].owner, s.gen)
                                 else Inside(s.calls[c].ticket, s.calls[c].purpose, s.gen)])
  {
    assert !Held(s, Home(s, IdOf(s, s.calls[c].ticket)));
  }

  /** A create begins and takes its identifier while others are under way. */
  lemma CreateBeside(s: Store, c: nat)
    requires s.pointer.Live? && c !in s.calls
    ensures ApplyOp(ApplyOp(s, Create(c, NOBODY)), Resume(c, Published))
         == s.(id := s.id + 1, issued := s.issued + [s.id], calls := s.calls[c := Reserved(|s.issued|, NOBODY)])
  {
    var s1 := s.(calls := s.calls[c := Creating(NOBODY)]);
    assert ApplyOp(s, Create(c, NOBODY)) == s1;
    assert s1.calls[c := Reserved(|s.issued|, NOBODY)] == s.calls[c := Reserved(|s.issued|, NOBODY)];
  }

  /** A create that has its identifier is locked and published while another call waits outside. */
  lemma PublishBeside(s: Store, c: nat, other: nat, ticket: nat)
    requires s.pointer.Live? && c != other && c in s.calls && s.calls[c] == Reserved(ticket, NOBODY)
    requires s.calls.Keys == {c, other} && !s.calls[other].Inside? && !s.calls[other].Publishing?
    requires IdOf(s, ticket) !in s.entries
    ensures var op, s' := Resume(c, Published), ApplyOp(ApplyOp(s, Resume(c, Published)), Resume(c, Published));
            && s' == s.(calls := map[other := s.calls[other]], structs := s.structs + {ticket},
                        entries := s.entries[IdOf(s, ticket) := ticket], log := s'.log)
  {
    assert !Held(s, Home(s, IdOf(s, ticket)));
    var s1 := s.(calls := s.calls[c := Publishing(ticket, NOBODY, s.gen)]);
    assert ApplyOp(s, Resume(c, Published)) == s1;
    assert s1.calls - {c} == map[other := s.calls[other]];
  }

  /** A whole call with nobody else around: it comes in, locks, and works. */
  function Whole(s: Store, c: nat, ticket: nat, purpose: Purpose): Store {
    var op := Resume(c, Published);
    ApplyOp(ApplyOp(ApplyOp(s, Enter(c, ticket, purpose)), op), op)
  }

  /** An end or a destroy with nobody else around: the structure is gone, and if its identifier is in
      the map then so is that entry and no other; its handle is deleted once, and ended once by an end
      and not at all by a destroy.  A look changes nothing. */
  lemma UseAlone(s: Store, c: nat, ticket: nat, purpose: Purpose)
    requires s.pointer.Live? && s.calls == map[] && ticket in s.structs && ticket < |s.issued|
    ensures purpose.Look? ==> Whole(s, c, ticket, purpose) == s
    ensures var idx, log, s' := s.issued[ticket], s.log, Whole(s, c, ticket, purpose);
            !purpose.Look? ==>
              s' == if idx !in s.entries then s.(structs := s.structs - {ticket})
                    else s.(structs := s.structs - {ticket}, entries := s.entries - {idx},
                            log := log.(erased := log.erased + multiset{s.entries[idx]},
                                        deleted := log.deleted + multiset{s.entries[idx]},
                                        ended := if purpose.Destroy? then log.ended
                                                 else log.ended + multiset{s.entries[idx]}))
  {
    var s0 := if purpose.Look? then s else s.(structs := s.structs - {ticket});
    var s1 := s0.(calls := map[c := Checked(ticket, purpose)]);
    assert ApplyOp(s, Enter(c, ticket, purpose)) == s1;
    LockAlone(s1, c);
    var s2 := s1.(calls := map[c := Inside(ticket, purpose, s.gen)]);
    assert ApplyOp(s1, Resume(c, Published)) == s2;
    assert Gone(s2, c) == s0;
  }

  /** Without a map an end or destroy gives back its structure, and a look does nothing. */
  lemma UseWithoutMap(s: Store, c: nat, ticket: nat, purpose: Purpose)
    requires s.pointer.Null? && s.calls == map[] && ticket in s.structs
    ensures ApplyOp(ApplyOp(s, Enter(c, ticket, purpose)), Resume(c, Published))
         == if purpose.Look? then s else s.(structs := s.structs - {ticket})
  {
    var s0 := s.(structs := s.structs - {ticket});
    if !purpose.Look? {
      assert ApplyOp(s, Enter(c, ticket, purpose)) == s0.(calls := map[c := Skipping(ticket)]);
      assert Gone(s0.(calls := map[c := Skipping(ticket)]), c) == s0;
    }
  }

  // ---------- what a teardown leaves ----------

  /** Nothing is left in the shards the sweep has been through. */
  predicate SweptClean(s: Store) {
    && (s.phase.Sweeping? ==> forall idx | idx in s.entries :: Home(s, idx) >= s.phase.next)
    && (s.phase.Saved? ==> s.entries == map[] && s.id == s.base)
  }

  predicate Makes(call: Call) { call.Creating? || call.Reserved? || call.Publishing? }

  /** No create is under way during the teardown. */
  predicate Settled(s: Store) {
    !s.phase.Standing? ==> forall c | c in s.calls :: !Makes(s.calls[c])
  }

  lemma AllSwept(s: Store)
    requires s.shards > 0 && SweptClean(s) && s.phase == Sweeping(s.shards)
    ensures s.entries == map[]
  {
    forall idx ensures idx !in s.entries { HomeBelow(s, idx); }
  }

  lemma HomeBelow(s: Store, idx: int)
    requires s.shards > 0
    ensures 0 <= Home(s, idx) < s.shards
  {
  }

  lemma FewerEntries(s: Store, s': Store)
    requires SweptClean(s) && s'.entries.Keys <= s.entries.Keys
    requires s'.phase == s.phase && s'.shards == s.shards && s'.id == s.id && s'.base == s.base
    ensures SweptClean(s')
  {
  }

  lemma SweptResume(s: Store, c: nat, outcome: Outcome)
    requires SweptClean(s) && Settled(s) && c in s.calls
    ensures SweptClean(Resumed(s, c, outcome))
  {
    if !s.phase.Standing? { FewerEntries(s, Resumed(s, c, outcome)); }
  }

  lemma SweptStep(s: Store, op: Op)
    requires Shape(s) && SweptClean(s) && Settled(s)
    ensures SweptClean(ApplyOp(s, op))
    ensures ApplyOp(s, op).log.dropped == s.log.dropped
  {
    if OpEnabled(s, op) {
      if op.Resume? {
        SweptResume(s, op.c, op.outcome);
      } else if op.SaveBase? {
        AllSwept(s);
      } else if op.DeleteMap? {
        assert Tickets(s, s.entries.Keys) == {};
      }
    }
  }

  // ---------- leftover structures ----------

  /** With distinct identifiers a structure finds its own handle or none. */
  lemma FindsOwnHandle(s: Store, ticket: nat)
    requires StoreInv(s) && Distinct(s) && ticket < |s.issued| && IdOf(s, ticket) in s.entries
    ensures s.entries[IdOf(s, ticket)] == ticket
  {
    assert EntryOk(s, IdOf(s, ticket));
  }

  /** A handle that left the map never comes back, whatever the identifiers. */
  lemma GoneForGood(s: Store, ticket: nat)
    requires StoreInv(s) && s.log.deleted[ticket] > 0
    ensures !Present(s, ticket) && s.log.deleted[ticket] == 1
  {
    assert Balanced(s, ticket);
  }

  /** The lookup of a call that saw no map but runs when there is one, without the shard lock, finds
      nothing as long as identifiers are distinct. */
  lemma UnlockedFindsNothing(s: Store, c: nat)
    requires StoreInv(s) && Distinct(s) && c in s.calls && s.calls[c].Skipping?
    ensures IdOf(s, s.calls[c].ticket) !in s.entries
  {
    var p := s.calls[c].ticket;
    assert CallOk(s, s.calls[c]);
    assert Balanced(s, p);
    if IdOf(s, p) in s.entries { FindsOwnHandle(s, p); }
  }

  /** A call that saw no map, while there is one. */
  predicate Overtaken(s: Store) {
    s.pointer.Live? && exists c | c in s.calls :: s.calls[c].Skipping?
  }

  /** Only such a call looks into the map without its shard lock. */
  lemma OvertakenRaces(s: Store, op: Op)
    ensures s.races <= ApplyOp(s, op).races
    ensures !Overtaken(s) ==> ApplyOp(s, op).races == s.races
  {
  }

  lemma OvertakenCall(s: Store) returns (c: nat)
    requires Overtaken(s)
    ensures forall outcome :: ApplyOp(s, Resume(c, outcome)).races == s.races + 1
  {
    c :| c in s.calls && s.calls[c].Skipping?;
  }

  /** The "duplicate id" branch of a registration is not taken as long as identifiers are distinct. */
  lemma NoCollision(s: Store, c: nat)
    requires StoreInv(s) && Distinct(s) && c in s.calls && s.calls[c].Publishing?
    ensures IdOf(s, s.calls[c].ticket) !in s.entries
  {
    var p := s.calls[c].ticket;
    assert CallOk(s, s.calls[c]);
    assert Balanced(s, p);
    if IdOf(s, p) in s.entries { FindsOwnHandle(s, p); }
  }

  predicate HistoryGrows(s: Store, s': Store) {
    s.issued <= s'.issued && s.log.deleted <= s'.log.deleted && s.faults <= s'.faults
  }

  lemma OpKeepsHistory(s: Store, op: Op)
    ensures HistoryGrows(s, ApplyOp(s, op))
  {
    if OpEnabled(s, op) && op.Resume? {
      assert HistoryGrows(s, Resumed(s, op.c, op.outcome));
    }
  }

  /** The ledger over all handles. */
  ghost predicate LedgerHolds(s: Store) {
    && (forall p: nat :: s.log.inserted[p] == s.log.erased[p] + s.log.swept[p] + s.log.dropped[p] + Num(Present(s, p)))
    && s.log.deleted == s.log.erased + s.log.swept + s.log.dropped
    && (forall p: nat :: s.log.ended[p] <= s.log.deleted[p] <= 1)
    && (s.ends ==> forall p: nat | p in s.log.swept :: s.log.ended[p] == 1)
  }

  lemma LedgerAdds(s: Store)
    requires StoreInv(s)
    ensures LedgerHolds(s)
  {
    forall p: nat
      ensures s.log.inserted[p] == s.log.erased[p] + s.log.swept[p] + s.log.dropped[p] + Num(Present(s, p))
      ensures s.log.deleted[p] == (s.log.erased + s.log.swept + s.log.dropped)[p]
      ensures s.log.ended[p] <= s.log.deleted[p] <= 1
      ensures s.ends && p in s.log.swept ==> s.log.ended[p] == 1
    {
      assert Balanced(s, p);
    }
  }

  // ---------- the map as an object ----------

  /** Each identifier stands for one handle. */
  predicate OneHandleEach(m: map<int, nat>) {
    forall i, j | i in m && j in m && i != j :: m[i] != m[j]
  }

  lemma EntriesDiffer(s: Store)
    requires StoreInv(s)
    ensures OneHandleEach(s.entries)
  {
    forall i, j | i in s.entries && j in s.entries && i != j ensures s.entries[i] != s.entries[j] {
      assert EntryOk(s, i) && EntryOk(s, j);
    }
  }

  lemma OneMoreTicket(m: map<int, nat>, done: set<int>, idx: int)
    requires OneHandleEach(m) && done <= m.Keys && idx in m && idx !in done
    ensures multiset(TicketsOf(m, done + {idx})) == multiset(TicketsOf(m, done)) + multiset{m[idx]}
  {
    assert TicketsOf(m, done + {idx}) == TicketsOf(m, done) + {m[idx]};
  }

  /** The map with its identifier base and the calls that use it.  Each method is one step; the two
      that walk over handles are the sweep of one shard and the destructor of the map. */
  class SharedHandles {
    const ends: bool
    var pointer: Pointer
    var phase: Phase
    var gen: nat
    var shards: nat
    var id: int
    var base: int
    var entries: map<int, nat>
    var issued: seq<int>
    var calls: map<nat, Call>
    ghost var history: Store   // only its structs, log, faults and races are kept up to date

    constructor (ends: bool)
      ensures View() == Empty(ends) && this.ends == ends
    {
      this.ends := ends;
      pointer, phase, gen, shards, id, base := Null, Standing, 0, 1, 0, 0;
      entries, issued, calls := map[], [], map[];
      history := Empty(ends);
    }

    ghost function View(): Store
      reads this
    {
      history.(ends := ends, pointer := pointer, phase := phase, gen := gen, shards := shards, id := id,
               base := base, entries := entries, issued := issued, calls := calls)
    }

    /** One half of otel_tracer_handle_init. */
    method Init(memory: bool, n: nat) returns (ok: bool)
      requires Shape(View()) && phase.Standing? && n > 0
      modifies this
      ensures ok == (old(pointer).Live? || memory)
      ensures View() == if ok then ApplyOp(old(View()), Allocate(n)) else old(View())
    {
      if pointer.Null? {
        if !memory {
          return false;
        }
        pointer, gen, shards, id, entries := Live, gen + 1, n, base, map[];
      }
      return true;
    }

    /** A call tests the pointer. */
    method EnterCall(c: nat, ticket: nat, purpose: Purpose)
      requires OpEnabled(View(), Enter(c, ticket, purpose))
      modifies this
      ensures View() == ApplyOp(old(View()), Enter(c, ticket, purpose))
    {
      if !purpose.Look? {
        history := history.(structs := history.structs - {ticket});
      }
      if !pointer.Null? {
        calls := calls[c := Checked(ticket, purpose)];
      } else if !purpose.Look? {
        calls := calls[c := Skipping(ticket)];
      }
    }

    method EnterCreate(c: nat, owner: int) returns (ok: bool)
      requires c !in calls
      modifies this
      ensures View() == ApplyOp(old(View()), Create(c, owner)) && ok == !pointer.Null?
    {
      ok := !pointer.Null?;
      if ok {
        calls := calls[c := Creating(owner)];
      }
    }

    method TakeIdentifier(c: nat)
      requires c in calls && calls[c].Creating? && pointer.Live?
      modifies this
      ensures View() == ApplyOp(old(View()), Resume(c, Published))
    {
      calls := calls[c := Reserved(|issued|, calls[c].owner)];
      issued := issued + [id];
      id := id + 1;
    }

    /** The shard mutex is granted. */
    method LockShard(c: nat)
      requires c in calls && (calls[c].Checked? || calls[c].Reserved?) && pointer.Live?
      requires !Held(View(), Home(View(), IdOf(View(), calls[c].ticket)))
      modifies this`calls
      ensures View() == ApplyOp(old(View()), Resume(c, Published))
    {
      match calls[c] {
        case Checked(ticket, purpose) => calls := calls[c := Inside(ticket, purpose, gen)];
        case Reserved(ticket, owner) => calls := calls[c := Publishing(ticket, owner, gen)];
      }
    }

    /** The lookup, end, delete and erase of one handle. */
    method DisposeHandle(ticket: nat, purpose: Purpose)
      modifies this`entries, this`history
      ensures View() == Dispose(old(View()), ticket, purpose)
    {
      var idx := if ticket < |issued| then issued[ticket] else -1;
      if !purpose.Look? && idx in entries {
        var h := entries[idx];
        ghost var log := history.log;
        if purpose.End? {
          log := log.(ended := log.ended + multiset{h});
        }
        log := log.(erased := log.erased + multiset{h}, deleted := log.deleted + multiset{h});
        history := history.(log := log);
        entries := entries - {idx};
      }
    }

    /** The work under the shard lock. */
    method FinishUse(c: nat)
      requires c in calls && calls[c].Inside? && pointer.Live? && calls[c].gen == gen
      modifies this
      ensures View() == ApplyOp(old(View()), Resume(c, Published))
    {
      var Inside(ticket, purpose, _) := calls[c];
      calls := calls - {c};
      DisposeHandle(ticket, purpose);
    }

    /** The path of a call that saw no map: the pointer is tested again, no lock is taken. */
    method FinishSkipped(c: nat)
      requires c in calls && calls[c].Skipping? && !pointer.Freed?
      modifies this
      ensures View() == ApplyOp(old(View()), Resume(c, Published))
    {
      var ticket := calls[c].ticket;
      calls := calls - {c};
      if pointer.Null? {
        return;
      }
      history := history.(races := history.races + 1);
      DisposeHandle(ticket, Destroy);
    }

    method FinishCreate(c: nat, outcome: Outcome) returns (ok: bool)
      requires c in calls && calls[c].Publishing? && pointer.Live? && calls[c].gen == gen
      modifies this
      ensures View() == ApplyOp(old(View()), Resume(c, outcome))
      ensures ok == (outcome.Published? && IdOf(old(View()), old(calls)[c].ticket) !in old(entries))
    {
      var ticket := calls[c].ticket;
      calls := calls - {c};
      if outcome.HandleFails? {
        DisposeHandle(ticket, Destroy);
        return false;
      }
      if outcome.EmplaceThrows? {
        return false;
      }
      ok := InsertHandle(ticket);
    }

    method InsertHandle(ticket: nat) returns (ok: bool)
      modifies this`entries, this`history
      ensures View() == Publish(old(View()), ticket, Published)
      ensures ok == (IdOf(old(View()), ticket) !in old(entries))
    {
      var idx := if ticket < |issued| then issued[ticket] else -1;
      if idx in entries {
        return false;
      }
      entries := entries[idx := ticket];
      history := history.(structs := history.structs + {ticket},
                          log := history.log.(inserted := history.log.inserted + multiset{ticket}));
      return true;
    }

    /** Ends each handle when asked to, and deletes it, in whatever order the map yields them. */
    static method Visit(handles: map<int, nat>, ids: set<int>, end: bool)
        returns (ghost ended: multiset<nat>, ghost deleted: multiset<nat>, visits: nat)
      requires OneHandleEach(handles) && ids <= handles.Keys
      ensures deleted == multiset(TicketsOf(handles, ids))
      ensures ended == if end then deleted else multiset{}
      ensures visits == |ids|
    {
      ended, deleted, visits := multiset{}, multiset{}, 0;
      var left := ids;
      while left != {}
        invariant left <= ids
        invariant deleted == multiset(TicketsOf(handles, ids - left))
        invariant ended == if end then deleted else multiset{}
        invariant visits == |ids| - |left|
        decreases left
      {
        ghost var any := Collections.SomeElement(left);
        var idx :| idx in left;
        OneMoreTicket(handles, ids - left, idx);
        assert ids - (left - {idx}) == (ids - left) + {idx};
        if end {
          ended := ended + multiset{handles[idx]};
        }
        deleted := deleted + multiset{handles[idx]};
        visits := visits + 1;
        left := left - {idx};
      }
      assert ids - {} == ids;
    }

    method StartTeardown()
      requires pointer.Live? && phase.Standing?
      modifies this`phase
      ensures View() == ApplyOp(old(View()), BeginTeardown)
    {
      phase := Sweeping(0);
    }

    /** One turn of for_each_locked. */
    method SweepOne()
      requires OneHandleEach(entries) && OpEnabled(View(), SweepShard)
      modifies this
      ensures View() == ApplyOp(old(View()), SweepShard)
    {
      var shard := phase.next;
      var ids := IdsOfShard(entries, shards, shard);
      ghost var ended, deleted;
      var visits;
      ended, deleted, visits := Visit(entries, ids, ends);
      history := history.(log := SweptLog(history.log, deleted, ended));
      entries := entries - ids;
      phase := Sweeping(shard + 1);
    }

    method SaveNumbering()
      requires phase == Sweeping(shards)
      modifies this`phase, this`base
      ensures View() == ApplyOp(old(View()), SaveBase)
    {
      base := id;
      phase := Saved;
    }

    /** The delete of the map; its destructor deletes what is left in it. */
    method DeleteTheMap()
      requires OneHandleEach(entries) && phase.Saved?
      modifies this
      ensures View() == ApplyOp(old(View()), DeleteMap)
    {
      ghost var ended, deleted;
      var visits;
      ended, deleted, visits := Visit(entries, entries.Keys, false);
      ghost var log := history.log;
      history := history.(log := log.(dropped := log.dropped + deleted, deleted := log.deleted + deleted));
      entries, pointer, phase := map[], Freed, Deleted;
    }

    method ClearThePointer()
      requires phase.Deleted?
      modifies this`pointer, this`phase
      ensures View() == ApplyOp(old(View()), ClearPointer)
    {
      pointer, phase := Null, Standing;
    }
  }
}
