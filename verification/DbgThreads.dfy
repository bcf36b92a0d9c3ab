// The debug allocator under threads (src/dbg_malloc.cpp): the tracker mutex is released between the
// check of a call, its libc call and the update of its record, so the sections of different calls
// interleave.  Each section and each libc call is a step, and a call that is not finished is pending.
// A step that is not allowed leaves the state alone.
//
// Callers may free or reallocate any block that no pending call works on, overwrite the header of
// such a block so that its magic is destroyed, and pass a block again that was released, as long as
// the checks can tell; libc may write what it likes into memory it was given back.

module DbgThreads {
  import opened DbgMem

  /** What a pending call does next.  `rec` is the record its block had at the check. */
  datatype Pending =
    | Registering(base: int, size: nat)                    // libc malloc is done
    | Freeing(base: int)                                   // released; about to call libc free
    | Plain(base: int, size: nat, untracked: bool)         // no record; about to call libc realloc
    | Moving(base: int, size: nat, rec: int)               // checked; about to call libc realloc
    | Recording(base: int, size: nat, rec: int, from: int) // libc moved the block here from `from`

  /** The memory with the pending calls.  `busy` tells which call works on an address; `own` and `at`
      tell which record a tracked block has and which block a used record has, and `moving` which
      call still has to update a record; these three only serve the statements.  `doubts` holds the
      calls that were given a released block and have read its header once. */
  datatype Sys = Sys(m: Mem, calls: map<nat, Pending>, busy: map<int, nat>,
                     own: map<int, int>, at: map<int, int>, moving: map<int, nat>, doubts: map<nat, int>)

  datatype Act =
    | MallocLibc(t: nat, size: nat, ret: int)
    | Register(t: nat)
    | FreeCheck(t: nat, p: int)
    | FreeLibc(t: nat, left: Header)
    | ReallocCheck(t: nat, p: int, size: nat)
    | ReallocLibc(t: nat, ret: int, left: Header)
    | Update(t: nat)
    | Overwrite(base: int, h: Header)
    | Dirty(base: int, h: Header)
    | Elsewhere(ret: int)      // somebody else allocates
    | SecondRead(t: nat, p: int)                           // a released block is passed again
    | SecondCheck(t: nat, realloc: bool, left: Header)     // its header is read again under the mutex

  /** A pointer that a caller may pass: the payload of a block of this allocator, or a foreign block. */
  predicate Usable(s: Sys, p: int) {
    var base := p - HDR;
    || ((AliveAs(s.m, base, Tracked) || AliveAs(s.m, base, Untracked)) && base !in s.busy)
    || (AliveAs(s.m, p, Foreign) && p !in s.busy && !IsWrapper(HeaderAt(s.m, base)))
  }

  /** otelc_dbg_mem_release under the mutex: whether it rejects the block.  A header that is no wrapper
      header is reported but not rejected. */
  predicate Rejects(m: Mem, base: int) {
    var h := HeaderAt(m, base);
    && IsWrapper(h) && h.data != base
    && (!IsTableRecord(m.table, |m.recs|, h.data) || !UsedFor(m, RecordIndex(m.table, h.data), base))
  }

  /** otelc_dbg_mem_check under the mutex: whether it rejects the block. */
  predicate CheckRejects(m: Mem, base: int) {
    var h := HeaderAt(m, base);
    !IsTableRecord(m.table, |m.recs|, h.data) || !UsedFor(m, RecordIndex(m.table, h.data), base)
  }

  /** A pending reallocation has left this address, and what libc left in the header there still names
      the record that the reallocation has to update. */
  predicate InWindow(s: Sys, base: int) {
    var h := HeaderAt(s.m, base);
    IsTableRecord(s.m.table, |s.m.recs|, h.data) && InTransit(s, RecordIndex(s.m.table, h.data), base)
  }

  /** The record waits for the update after a reallocation from the address. */
  predicate InTransit(s: Sys, i: int, base: int) {
    && i in s.moving && s.moving[i] in s.calls
    && s.calls[s.moving[i]].Recording? && s.calls[s.moving[i]].from == base
  }

  /** A tracked block that was released, whether libc has it back already or not. */
  predicate WasReleased(s: Sys, base: int) {
    DeadTracked(s.m, base) || (AliveAs(s.m, base, Tracked) && base !in s.own)
  }

  /** A header of this allocator that does not claim to be of an untracked block. */
  predicate NamesRecord(m: Mem, base: int) {
    IsWrapper(HeaderAt(m, base)) && !IsSelf(base, HeaderAt(m, base))
  }

  predicate May(s: Sys, a: Act) {
    && |s.m.recs| > 0 && 0 <= s.m.reused
    && match a
       case MallocLibc(t, _, ret) => t !in s.calls && (ret == 0 || Fresh(s.m, ret))
       case Register(t) => t in s.calls && s.calls[t].Registering?
       case FreeCheck(t, p) => t !in s.calls && (p == 0 || Usable(s, p))
       case FreeLibc(t, _) => t in s.calls && s.calls[t].Freeing?
       case ReallocCheck(t, p, _) => t !in s.calls && p != 0 && Usable(s, p)
       case ReallocLibc(t, ret, _) =>
         && t in s.calls && (s.calls[t].Plain? || s.calls[t].Moving?)
         && (ret == 0 || ret == s.calls[t].base || Fresh(s.m, ret))
       case Update(t) => t in s.calls && s.calls[t].Recording?
       case Overwrite(base, h) => AliveAs(s.m, base, Tracked) && base !in s.busy && !IsWrapper(h)
       case Dirty(base, _) => !Alive(s.m, base)
       case Elsewhere(ret) => Fresh(s.m, ret)
       case SecondRead(t, p) =>
         && t !in s.doubts && WasReleased(s, p - HDR)
         && (NamesRecord(s.m, p - HDR) || (!IsWrapper(HeaderAt(s.m, p - HDR)) && Held(s.m, p - HDR)))
       case SecondCheck(t, realloc, _) =>
         && t in s.doubts && s.doubts[t] !in s.own && !InWindow(s, s.doubts[t])
         && (!realloc ==> NamesRecord(s.m, s.doubts[t]))
  }

  // ---------- what the steps do ----------

  function Served(m: Mem, ret: int): Mem {
    m.(blocks := m.blocks[ret := Block(true, Foreign)], lost := m.lost - {ret})
  }

  /** libc realloc, which takes the header along with the rest of the block. */
  function Carried(m: Mem, base: int, ret: int, left: Header): Mem {
    var m' := LibcRealloc(m, base, ret, left);
    m'.(hdr := m'.hdr[ret := HeaderAt(m, base)])
  }

  /** The update of the record that the header of a moved block names. */
  function Recorded(m: Mem, base: int, size: nat, from: int): Mem {
    var h := HeaderAt(m, base);
    var i := RecordIndex(m.table, h.data);
    if !IsWrapper(h) || h.data == base || !IsTableRecord(m.table, |m.recs|, h.data) then m
    else if !(0 <= i < |m.recs| && m.recs[i].used && m.recs[i].ptr == from) then m
    else m.(recs := m.recs[i := Record(base, size, true)], size := m.size - m.recs[i].size + size,
            reallocs := m.reallocs + 1, hdr := m.hdr[base := Header(RecordAddress(m.table, i), MAGIC)])
  }

  function Start(s: Sys, t: nat, c: Pending): Sys {
    s.(calls := s.calls[t := c], busy := s.busy[c.base := t])
  }

  function Finish(s: Sys, t: nat): Sys
    requires t in s.calls
  {
    s.(calls := s.calls - {t}, busy := s.busy - {s.calls[t].base})
  }

  function Registered(s: Sys, t: nat): Sys
    requires t in s.calls && s.calls[t].Registering? && |s.m.recs| > 0 && 0 <= s.m.reused
  {
    var Registering(b, size) := s.calls[t];
    var idx := FindSlot(s.m.recs, s.m.nextNew, s.m.reused).idx;
    var s' := Finish(s, t).(m := Alloc(s.m, b, size));
    if 0 <= idx < |s.m.recs| then s'.(own := s.own[b := idx], at := s.at[idx := b]) else s'
  }

  function CheckedFree(s: Sys, t: nat, p: int): Sys {
    var base := p - HDR;
    match Judge(s.m, p)
    case Refuse => s
    case PassForeign => Start(s, t, Freeing(p))
    case PassUntracked => Start(s, t, Freeing(base))
    case PassTracked(i) =>
      Start(s, t, Freeing(base)).(m := Released(s.m, i), own := s.own - {base}, at := s.at - {i})
  }

  function CheckedRealloc(s: Sys, t: nat, p: int, size: nat): (r: Sys)
    ensures r == s.(calls := r.calls, busy := r.busy)
    ensures r.calls == s.calls || (t in r.calls && r.calls == s.calls[t := r.calls[t]])
  {
    match Judge(s.m, p)
    case Refuse => s
    case PassForeign => Start(s, t, Plain(p, size, false))
    case PassUntracked => Start(s, t, Plain(p - HDR, size, true))
    case PassTracked(i) => Start(s, t, Moving(p - HDR, size, i))
  }

  function Reallocated(s: Sys, t: nat, ret: int, left: Header): Sys
    requires t in s.calls && (s.calls[t].Plain? || s.calls[t].Moving?)
  {
    var base := s.calls[t].base;
    if ret == 0 then Finish(s, t)
    else if s.calls[t].Plain? then PlainDone(s, t, base, ret, s.calls[t].untracked, left)
    else Transit(s, t, base, ret, s.calls[t].size, s.calls[t].rec, left)
  }

  /** A block without a record is done when libc is; an untracked one gets its header again. */
  function PlainDone(s: Sys, t: nat, base: int, ret: int, untracked: bool, left: Header): Sys
    requires t in s.calls
  {
    var m' := LibcRealloc(s.m, base, ret, left);
    Finish(s, t).(m := if untracked then m'.(hdr := m'.hdr[ret := Header(ret, MAGIC)]) else m')
  }

  /** A tracked block has moved, and its record has not been told. */
  function Transit(s: Sys, t: nat, base: int, ret: int, size: nat, i: int, left: Header): Sys {
    s.(m := Carried(s.m, base, ret, left), calls := s.calls[t := Recording(ret, size, i, base)],
       busy := (s.busy - {base})[ret := t], own := (s.own - {base})[ret := i], at := s.at[i := ret],
       moving := s.moving[i := t])
  }

  /** A free that the release did not reject. */
  function FreedAgain(m: Mem, base: int, left: Header): Mem {
    var i := RecordIndex(m.table, HeaderAt(m, base).data);
    LibcFree(if IsTableRecord(m.table, |m.recs|, HeaderAt(m, base).data) && UsedFor(m, i, base)
             then Released(m, i) else m, base, left)
  }

  function SecondChecked(m: Mem, base: int, realloc: bool, left: Header): Mem {
    if realloc then (if CheckRejects(m, base) then m else m.(corrupted := !Alive(m, base)))
    else if Rejects(m, base) then m else FreedAgain(m, base, left)
  }

  function Do(s: Sys, a: Act): Sys {
    if !May(s, a) then s else
    match a
    case MallocLibc(t, size, ret) =>
      if size > SIZE_MAX - HDR || ret == 0 then s
      else Start(s, t, Registering(ret, size)).(m := Served(s.m, ret))
    case Register(t) => Registered(s, t)
    case FreeCheck(t, p) => if p == 0 then s else CheckedFree(s, t, p)
    case FreeLibc(t, left) => Finish(s, t).(m := LibcFree(s.m, s.calls[t].base, left))
    case ReallocCheck(t, p, size) => if size > SIZE_MAX - HDR then s else CheckedRealloc(s, t, p, size)
    case ReallocLibc(t, ret, left) => Reallocated(s, t, ret, left)
    case Update(t) =>
      var Recording(b, size, i, from) := s.calls[t];
      Finish(s, t).(m := Recorded(s.m, b, size, from), moving := s.moving - {i})
    case Overwrite(base, h) => s.(m := s.m.(hdr := s.m.hdr[base := h], lost := s.m.lost + {base}))
    case Dirty(base, h) => s.(m := s.m.(hdr := s.m.hdr[base := h]))
    case Elsewhere(ret) => s.(m := Served(s.m, ret))
    case SecondRead(t, p) => if NamesRecord(s.m, p - HDR) then s.(doubts := s.doubts[t := p - HDR]) else s
    case SecondCheck(t, realloc, left) =>
      s.(m := SecondChecked(s.m, s.doubts[t], realloc, left), doubts := s.doubts - {t})
  }

  function Run(s: Sys, sched: seq<Act>): Sys
    decreases |sched|
  {
    if |sched| == 0 then s else Run(Do(s, sched[0]), sched[1..])
  }

  function Quiet(m: Mem): Sys {
    Sys(m, map[], map[], map[], map[], map[], map[])
  }

  // ---------- the invariant ----------

  predicate TableOk(m: Mem) {
    && TableFits(m.table, |m.recs|)
    && 0 <= m.nextNew <= |m.recs| && 0 <= m.reused <= |m.recs|
    && (forall i | m.nextNew <= i < |m.recs| :: !m.recs[i].used)
    && m.size == SumUsed(m.recs)
    && CountUsed(m.recs) + m.frees == m.allocs
    && !m.corrupted
  }

  /** A live block lies outside the table; an untracked one has its self-referencing header; a tracked
      one has a record unless a call is freeing it. */
  predicate LiveOk(s: Sys, b: int) {
    Alive(s.m, b) ==>
      && 0 < b && !(s.m.table <= b < s.m.table + |s.m.recs| * RECORD)
      && (s.m.blocks[b].kind.Untracked? ==> HeaderAt(s.m, b) == Header(b, MAGIC))
      && (s.m.blocks[b].kind.Tracked? && b !in s.own ==> b in s.busy)
  }

  predicate OwnOk(s: Sys, b: int) {
    b in s.own ==> AliveAs(s.m, b, Tracked) && s.own[b] in s.at && s.at[s.own[b]] == b
  }

  /** A used record has a block, which points back to it unless its header was overwritten, and it
      names that block unless a call still has to update it. */
  predicate RecOk(s: Sys, i: int) {
    && (i in s.at <==> 0 <= i < |s.m.recs| && s.m.recs[i].used)
    && (i in s.at ==>
          var b := s.at[i];
          && b in s.own && s.own[b] == i
          && (if b in s.m.lost then !IsWrapper(HeaderAt(s.m, b))
              else HeaderAt(s.m, b) == Header(RecordAddress(s.m.table, i), MAGIC))
          && (i !in s.moving ==> s.m.recs[i].ptr == b))
    && (i in s.moving ==> s.moving[i] in s.calls && s.calls[s.moving[i]].Recording? && s.calls[s.moving[i]].rec == i)
  }

  predicate CallOk(s: Sys, t: nat) {
    t in s.calls ==>
      var c := s.calls[t];
      && c.base in s.busy && s.busy[c.base] == t
      && match c
         case Registering(b, _) => AliveAs(s.m, b, Foreign)
         case Freeing(b) => Alive(s.m, b) && b !in s.own
         case Plain(b, _, untracked) => AliveAs(s.m, b, if untracked then Untracked else Foreign)
         case Moving(b, _, i) => b in s.own && s.own[b] == i && b !in s.m.lost && i !in s.moving
         case Recording(b, _, i, from) =>
           && b in s.own && s.own[b] == i && b !in s.m.lost
           && i in s.moving && s.moving[i] == t && 0 <= i < |s.m.recs| && s.m.recs[i].ptr == from
  }

  predicate BusyOk(s: Sys, b: int) {
    b in s.busy ==> s.busy[b] in s.calls && s.calls[s.busy[b]].base == b
  }

  ghost predicate SysInv(s: Sys) {
    && TableOk(s.m)
    && (forall b :: LiveOk(s, b) && OwnOk(s, b) && BusyOk(s, b))
    && (forall i :: RecOk(s, i))
    && (forall t: nat :: CallOk(s, t))
  }

  /** Calls work on live blocks. */
  lemma NotBusy(s: Sys, b: int)
    requires SysInv(s) && !Alive(s.m, b)
    ensures b !in s.busy && b !in s.own
  {
    assert BusyOk(s, b) && OwnOk(s, b);
    assert b in s.busy ==> CallOk(s, s.busy[b]);
  }

  /** The record of a block that no call works on is not in transit. */
  lemma NotMoving(s: Sys, base: int)
    requires SysInv(s) && base in s.own && base !in s.busy
    ensures s.own[base] !in s.moving
    ensures 0 <= s.own[base] < |s.m.recs| && UsedFor(s.m, s.own[base], base) && Held(s.m, base)
  {
    var i := s.own[base];
    assert OwnOk(s, base) && RecOk(s, i);
    assert forall t | t in s.calls :: CallOk(s, t) && OwnOk(s, s.calls[t].base);
    assert UsedFor(s.m, i, base);
  }

  lemma MallocKeeps(s: Sys, t: nat, size: nat, ret: int)
    requires SysInv(s) && t !in s.calls && Fresh(s.m, ret)
    ensures SysInv(Start(s, t, Registering(ret, size)).(m := Served(s.m, ret)))
  {
    var s' := Start(s, t, Registering(ret, size)).(m := Served(s.m, ret));
    assert OwnOk(s, ret) && BusyOk(s, ret);
    NotBusy(s, ret);
    forall b ensures LiveOk(s', b) && OwnOk(s', b) && BusyOk(s', b) {
      assert LiveOk(s, b) && OwnOk(s, b) && BusyOk(s, b);
    }
    forall i ensures RecOk(s', i) { assert RecOk(s, i); }
    forall u: nat ensures CallOk(s', u) { assert CallOk(s, u); }
  }

  lemma ElsewhereKeeps(s: Sys, ret: int)
    requires SysInv(s) && Fresh(s.m, ret)
    ensures SysInv(s.(m := Served(s.m, ret)))
  {
    var s' := s.(m := Served(s.m, ret));
    assert OwnOk(s, ret);
    forall b ensures LiveOk(s', b) && OwnOk(s', b) && BusyOk(s', b) {
      assert LiveOk(s, b) && OwnOk(s, b) && BusyOk(s, b);
    }
    forall i ensures RecOk(s', i) { assert RecOk(s, i); }
    forall u: nat ensures CallOk(s', u) { assert CallOk(s, u); }
  }

  lemma AllocTable(m: Mem, b: int, size: nat)
    requires TableOk(m)
    ensures TableOk(Alloc(m, b, size))
    ensures var idx := FindSlot(m.recs, m.nextNew, m.reused).idx;
            0 <= idx <= |m.recs| && (idx < |m.recs| ==> !m.recs[idx].used)
  {
    SlotSearchExact(m.recs, m.nextNew, m.reused);
    var idx := FindSlot(m.recs, m.nextNew, m.reused).idx;
    if idx < |m.recs| { UsedUpdate(m.recs, idx, Record(b, size, true)); }
  }

  lemma RegisterBlock(s: Sys, t: nat, idx: int, x: int)
    requires SysInv(s) && May(s, Register(t)) && 0 <= idx < |s.m.recs| && !s.m.recs[idx].used
    requires Alloc(s.m, s.calls[t].base, s.calls[t].size).recs
          == s.m.recs[idx := Record(s.calls[t].base, s.calls[t].size, true)]
    requires idx == FindSlot(s.m.recs, s.m.nextNew, s.m.reused).idx
    ensures var s' := Registered(s, t); LiveOk(s', x) && OwnOk(s', x) && BusyOk(s', x)
  {
    assert CallOk(s, t) && LiveOk(s, x) && OwnOk(s, x) && BusyOk(s, x) && RecOk(s, idx);
  }

  lemma RegisterRecord(s: Sys, t: nat, idx: int, i: int)
    requires SysInv(s) && May(s, Register(t)) && 0 <= idx < |s.m.recs| && !s.m.recs[idx].used
    requires Alloc(s.m, s.calls[t].base, s.calls[t].size).recs
          == s.m.recs[idx := Record(s.calls[t].base, s.calls[t].size, true)]
    requires idx == FindSlot(s.m.recs, s.m.nextNew, s.m.reused).idx
    ensures RecOk(Registered(s, t), i)
  {
    assert CallOk(s, t) && OwnOk(s, s.calls[t].base) && RecOk(s, i) && RecOk(s, idx);
  }

  lemma RegisterCall(s: Sys, t: nat, idx: int, u: nat)
    requires SysInv(s) && May(s, Register(t)) && 0 <= idx < |s.m.recs| && !s.m.recs[idx].used
    requires Alloc(s.m, s.calls[t].base, s.calls[t].size).recs
          == s.m.recs[idx := Record(s.calls[t].base, s.calls[t].size, true)]
    requires idx == FindSlot(s.m.recs, s.m.nextNew, s.m.reused).idx
    ensures CallOk(Registered(s, t), u)
  {
    assert CallOk(s, t) && CallOk(s, u) && RecOk(s, idx);
    if u in s.calls { assert OwnOk(s, s.calls[u].base); }
  }

  lemma RegisterTracked(s: Sys, t: nat, idx: int)
    requires SysInv(s) && May(s, Register(t)) && 0 <= idx < |s.m.recs| && !s.m.recs[idx].used
    requires Alloc(s.m, s.calls[t].base, s.calls[t].size).recs
          == s.m.recs[idx := Record(s.calls[t].base, s.calls[t].size, true)]
    requires idx == FindSlot(s.m.recs, s.m.nextNew, s.m.reused).idx
    ensures SysInv(Registered(s, t))
  {
    var s' := Registered(s, t);
    AllocTable(s.m, s.calls[t].base, s.calls[t].size);
    forall x ensures LiveOk(s', x) && OwnOk(s', x) && BusyOk(s', x) { RegisterBlock(s, t, idx, x); }
    forall i ensures RecOk(s', i) { RegisterRecord(s, t, idx, i); }
    forall u: nat ensures CallOk(s', u) { RegisterCall(s, t, idx, u); }
  }

  lemma RegisterFull(s: Sys, t: nat)
    requires SysInv(s) && May(s, Register(t)) && FindSlot(s.m.recs, s.m.nextNew, s.m.reused).idx == |s.m.recs|
    ensures SysInv(Registered(s, t))
  {
    var b := s.calls[t].base;
    var s' := Registered(s, t);
    AllocTable(s.m, b, s.calls[t].size);
    assert CallOk(s, t) && OwnOk(s, b) && LiveOk(s, b);
    forall x ensures LiveOk(s', x) && OwnOk(s', x) && BusyOk(s', x) {
      assert LiveOk(s, x) && OwnOk(s, x) && BusyOk(s, x);
    }
    forall i ensures RecOk(s', i) { assert RecOk(s, i); }
    forall u: nat ensures CallOk(s', u) { assert CallOk(s, u); }
  }

  lemma RegisterKeeps(s: Sys, t: nat)
    requires SysInv(s) && May(s, Register(t))
    ensures SysInv(Registered(s, t))
  {
    AllocTable(s.m, s.calls[t].base, s.calls[t].size);
    var idx := FindSlot(s.m.recs, s.m.nextNew, s.m.reused).idx;
    if idx < |s.m.recs| {
      RegisterTracked(s, t, idx);
    } else {
      RegisterFull(s, t);
    }
  }

  /** How a pointer that a caller may pass is judged. */
  lemma JudgeUsable(s: Sys, p: int)
    requires SysInv(s) && Usable(s, p)
    ensures match Judge(s.m, p)
            case Refuse => true
            case PassForeign => AliveAs(s.m, p, Foreign) && p !in s.busy && p !in s.own
            case PassUntracked => AliveAs(s.m, p - HDR, Untracked) && p - HDR !in s.busy && p - HDR !in s.own
            case PassTracked(i) =>
              && p - HDR in s.own && s.own[p - HDR] == i && p - HDR !in s.busy && p - HDR !in s.m.lost
              && i !in s.moving && s.m.recs[i].ptr == p - HDR
    ensures p - HDR in s.own && p - HDR !in s.m.lost ==> Judge(s.m, p) == PassTracked(s.own[p - HDR])
    ensures AliveAs(s.m, p - HDR, Untracked) ==> Judge(s.m, p) == PassUntracked
  {
    var base := p - HDR;
    assert LiveOk(s, base) && OwnOk(s, base) && OwnOk(s, p);
    if base in s.own {
      assert RecOk(s, s.own[base]);
      if base !in s.busy { NotMoving(s, base); }
      RecordAddressIndex(s.m.table, |s.m.recs|, s.own[base]);
    }
  }

  lemma ReleaseTable(m: Mem, i: int)
    requires TableOk(m) && 0 <= i < |m.recs| && m.recs[i].used
    ensures TableOk(Released(m, i))
  {
    UsedUpdate(m.recs, i, m.recs[i].(used := false));
  }

  lemma StartKeeps(s: Sys, t: nat, c: Pending)
    requires SysInv(s) && t !in s.calls && c.base !in s.busy
    requires CallOk(Start(s, t, c), t) && !c.Recording?
    ensures SysInv(Start(s, t, c))
  {
    var s' := Start(s, t, c);
    forall b ensures LiveOk(s', b) && OwnOk(s', b) && BusyOk(s', b) {
      assert LiveOk(s, b) && OwnOk(s, b) && BusyOk(s, b);
    }
    forall i ensures RecOk(s', i) { assert RecOk(s, i); }
    forall u: nat ensures CallOk(s', u) { assert CallOk(s, u); }
  }

  lemma ReleaseKeeps(s: Sys, t: nat, base: int, i: int)
    requires SysInv(s) && t !in s.calls && base !in s.busy && base in s.own && s.own[base] == i && i !in s.moving
    ensures 0 <= i < |s.m.recs|
    ensures SysInv(Start(s, t, Freeing(base)).(m := Released(s.m, i), own := s.own - {base}, at := s.at - {i}))
  {
    assert OwnOk(s, base) && RecOk(s, i) && LiveOk(s, base);
    var s' := Start(s, t, Freeing(base)).(m := Released(s.m, i), own := s.own - {base}, at := s.at - {i});
    ReleaseTable(s.m, i);
    forall b ensures LiveOk(s', b) && OwnOk(s', b) && BusyOk(s', b) {
      assert LiveOk(s, b) && OwnOk(s, b) && BusyOk(s, b);
    }
    forall j ensures RecOk(s', j) { assert RecOk(s, j); }
    forall u: nat ensures CallOk(s', u) {
      assert CallOk(s, u);
      if u in s.calls && s.calls[u].Recording? { assert RecOk(s, s.calls[u].rec); }
    }
  }

  lemma FreeCheckKeeps(s: Sys, t: nat, p: int)
    requires SysInv(s) && t !in s.calls && Usable(s, p)
    ensures SysInv(CheckedFree(s, t, p))
  {
    JudgeUsable(s, p);
    match Judge(s.m, p)
    case Refuse =>
    case PassForeign => StartKeeps(s, t, Freeing(p));
    case PassUntracked => StartKeeps(s, t, Freeing(p - HDR));
    case PassTracked(i) => ReleaseKeeps(s, t, p - HDR, i);
  }

  lemma ReallocCheckKeeps(s: Sys, t: nat, p: int, size: nat)
    requires SysInv(s) && t !in s.calls && Usable(s, p)
    ensures SysInv(CheckedRealloc(s, t, p, size))
  {
    JudgeUsable(s, p);
    match Judge(s.m, p)
    case Refuse =>
    case PassForeign => StartKeeps(s, t, Plain(p, size, false));
    case PassUntracked => StartKeeps(s, t, Plain(p - HDR, size, true));
    case PassTracked(i) => StartKeeps(s, t, Moving(p - HDR, size, i));
  }

  lemma FreeLibcKeeps(s: Sys, t: nat, left: Header)
    requires SysInv(s) && May(s, FreeLibc(t, left))
    ensures SysInv(Do(s, FreeLibc(t, left)))
  {
    var s' := Do(s, FreeLibc(t, left));
    var a := s.calls[t].base;
    assert CallOk(s, t);
    forall b ensures LiveOk(s', b) && OwnOk(s', b) && BusyOk(s', b) {
      assert LiveOk(s, b) && OwnOk(s, b) && BusyOk(s, b);
    }
    forall i ensures RecOk(s', i) { assert RecOk(s, i); }
    forall u: nat ensures CallOk(s', u) { assert CallOk(s, u); }
  }

  lemma GiveUpKeeps(s: Sys, t: nat)
    requires SysInv(s) && t in s.calls && (s.calls[t].Plain? || s.calls[t].Moving?)
    ensures SysInv(Finish(s, t))
  {
    var s' := Finish(s, t);
    assert CallOk(s, t);
    forall b ensures LiveOk(s', b) && OwnOk(s', b) && BusyOk(s', b) {
      assert LiveOk(s, b) && OwnOk(s, b) && BusyOk(s, b);
    }
    forall i ensures RecOk(s', i) { assert RecOk(s, i); }
    forall u: nat ensures CallOk(s', u) { assert CallOk(s, u); }
  }

  lemma ReallocBlock(s: Sys, t: nat, ret: int, left: Header, x: int)
    requires SysInv(s) && May(s, ReallocLibc(t, ret, left)) && ret != 0
    ensures OwnOk(Reallocated(s, t, ret, left), x) && BusyOk(Reallocated(s, t, ret, left), x)
  {
    var a := s.calls[t].base;
    assert CallOk(s, t) && OwnOk(s, a) && OwnOk(s, x) && BusyOk(s, x);
    if ret != a { NotBusy(s, ret); }
  }

  lemma ReallocLive(s: Sys, t: nat, ret: int, left: Header, x: int)
    requires SysInv(s) && May(s, ReallocLibc(t, ret, left)) && ret != 0
    ensures LiveOk(Reallocated(s, t, ret, left), x)
  {
    var a := s.calls[t].base;
    assert CallOk(s, t) && OwnOk(s, a) && LiveOk(s, a) && LiveOk(s, x);
    if ret != a { NotBusy(s, ret); }
  }

  lemma PlainRecord(s: Sys, t: nat, ret: int, left: Header, i: int)
    requires SysInv(s) && May(s, ReallocLibc(t, ret, left)) && ret != 0 && s.calls[t].Plain?
    ensures RecOk(PlainDone(s, t, s.calls[t].base, ret, s.calls[t].untracked, left), i)
  {
    var a := s.calls[t].base;
    assert CallOk(s, t) && OwnOk(s, a) && RecOk(s, i);
    if ret != a { NotBusy(s, ret); }
  }

  lemma PlainCall(s: Sys, t: nat, ret: int, left: Header, u: nat)
    requires SysInv(s) && May(s, ReallocLibc(t, ret, left)) && ret != 0 && s.calls[t].Plain?
    ensures CallOk(PlainDone(s, t, s.calls[t].base, ret, s.calls[t].untracked, left), u)
  {
    var a := s.calls[t].base;
    assert CallOk(s, t) && OwnOk(s, a) && CallOk(s, u);
    if u in s.calls { assert OwnOk(s, s.calls[u].base); }
    if ret != a { NotBusy(s, ret); }
  }

  lemma MovingRecord(s: Sys, t: nat, ret: int, left: Header, i: int)
    requires SysInv(s) && May(s, ReallocLibc(t, ret, left)) && ret != 0 && s.calls[t].Moving?
    ensures RecOk(Transit(s, t, s.calls[t].base, ret, s.calls[t].size, s.calls[t].rec, left), i)
  {
    var a := s.calls[t].base;
    assert CallOk(s, t) && OwnOk(s, a) && RecOk(s, i);
    if ret != a { NotBusy(s, ret); }
  }

  lemma MovingCall(s: Sys, t: nat, ret: int, left: Header, u: nat)
    requires SysInv(s) && May(s, ReallocLibc(t, ret, left)) && ret != 0 && s.calls[t].Moving?
    ensures CallOk(Transit(s, t, s.calls[t].base, ret, s.calls[t].size, s.calls[t].rec, left), u)
  {
    var a := s.calls[t].base;
    assert CallOk(s, t) && OwnOk(s, a) && CallOk(s, u) && RecOk(s, s.calls[t].rec);
    if u in s.calls { assert OwnOk(s, s.calls[u].base); }
    if ret != a { NotBusy(s, ret); }
  }

  lemma ReallocLibcKeeps(s: Sys, t: nat, ret: int, left: Header)
    requires SysInv(s) && May(s, ReallocLibc(t, ret, left)) && ret != 0
    ensures SysInv(Reallocated(s, t, ret, left))
  {
    var s' := Reallocated(s, t, ret, left);
    assert CallOk(s, t) && OwnOk(s, s.calls[t].base);
    forall x ensures LiveOk(s', x) && OwnOk(s', x) && BusyOk(s', x) {
      ReallocBlock(s, t, ret, left, x);
      ReallocLive(s, t, ret, left, x);
    }
    forall i ensures RecOk(s', i) {
      if s.calls[t].Plain? { PlainRecord(s, t, ret, left, i); } else { MovingRecord(s, t, ret, left, i); }
    }
    forall u: nat ensures CallOk(s', u) {
      if s.calls[t].Plain? { PlainCall(s, t, ret, left, u); } else { MovingCall(s, t, ret, left, u); }
    }
  }

  /** The update always finds the record of its block: no reallocation is lost. */
  lemma RecordFollowsMove(s: Sys, t: nat)
    requires SysInv(s) && May(s, Update(t))
    ensures var Recording(b, size, i, from) := s.calls[t];
            && 0 <= i < |s.m.recs| && s.m.recs[i].used
            && Recorded(s.m, b, size, from) ==
                 s.m.(recs := s.m.recs[i := Record(b, size, true)], size := s.m.size - s.m.recs[i].size + size,
                      reallocs := s.m.reallocs + 1, hdr := s.m.hdr[b := Header(RecordAddress(s.m.table, i), MAGIC)])
  {
    var b, i := s.calls[t].base, s.calls[t].rec;
    assert CallOk(s, t) && OwnOk(s, b) && RecOk(s, i) && LiveOk(s, b);
    RecordAddressIndex(s.m.table, |s.m.recs|, i);
    assert 0 <= i * RECORD < |s.m.recs| * RECORD;
  }

  lemma RecordKeeps(s: Sys, t: nat)
    requires SysInv(s) && May(s, Update(t))
    ensures SysInv(Do(s, Update(t)))
  {
    var s' := Do(s, Update(t));
    RecordFollowsMove(s, t);
    var Recording(b, size, i, from) := s.calls[t];
    assert CallOk(s, t) && OwnOk(s, b) && RecOk(s, i);
    UsedUpdate(s.m.recs, i, Record(b, size, true));
    forall x ensures LiveOk(s', x) && OwnOk(s', x) && BusyOk(s', x) {
      assert LiveOk(s, x) && OwnOk(s, x) && BusyOk(s, x);
    }
    forall j ensures RecOk(s', j) { assert RecOk(s, j); }
    forall u: nat ensures CallOk(s', u) { assert CallOk(s, u); }
  }

  lemma HeaderKeeps(s: Sys, a: Act)
    requires SysInv(s) && May(s, a) && (a.Overwrite? || a.Dirty?)
    ensures SysInv(Do(s, a))
  {
    var s' := Do(s, a);
    assert OwnOk(s, a.base) && LiveOk(s, a.base);
    forall b ensures LiveOk(s', b) && OwnOk(s', b) && BusyOk(s', b) {
      assert LiveOk(s, b) && OwnOk(s, b) && BusyOk(s, b);
    }
    forall i ensures RecOk(s', i) {
      assert RecOk(s, i);
      if i in s.at { assert OwnOk(s, s.at[i]); }
    }
    forall u: nat ensures CallOk(s', u) { assert CallOk(s, u); }
  }

  lemma DoubtsKeep(s: Sys, s': Sys)
    requires SysInv(s) && s' == s.(doubts := s'.doubts)
    ensures SysInv(s')
  {
    forall b ensures LiveOk(s', b) && OwnOk(s', b) && BusyOk(s', b) {
      assert LiveOk(s, b) && OwnOk(s, b) && BusyOk(s, b);
    }
    forall i ensures RecOk(s', i) { assert RecOk(s, i); }
    forall u: nat ensures CallOk(s', u) { assert CallOk(s, u); }
  }

  /** A live block whose record names it. */
  predicate Settled(s: Sys, base: int) {
    base in s.own && base !in s.m.lost && s.own[base] !in s.moving
  }

  /** A used record holds an address that is not the base of its own block exactly while the update
      after a reallocation from that address is pending. */
  lemma WhoHolds(s: Sys, i: int, base: int)
    requires SysInv(s)
    ensures UsedFor(s.m, i, base) <==>
              (base in s.own && s.own[base] == i && i !in s.moving)
              || InTransit(s, i, base)
  {
    assert RecOk(s, i) && OwnOk(s, base);
    if i in s.moving {
      assert CallOk(s, s.moving[i]) && OwnOk(s, s.calls[s.moving[i]].base);
    }
  }

  /** Whatever the address, the release rejects it exactly when its header, at the reading under the
      mutex, is a wrapper header that does not claim an untracked block, and neither is the address
      one that a pending reallocation has just left, nor that of a live block of its own record. */
  lemma ReleaseRejectsExactly(s: Sys, base: int)
    requires SysInv(s)
    ensures Rejects(s.m, base) <==> NamesRecord(s.m, base) && !InWindow(s, base) && !Settled(s, base)
  {
    var i := RecordIndex(s.m.table, HeaderAt(s.m, base).data);
    WhoHolds(s, i, base);
    assert RecOk(s, i);
    if base in s.own { OwnHeader(s, base); }
  }

  lemma OwnHeader(s: Sys, base: int)
    requires SysInv(s) && base in s.own
    ensures base in s.m.lost ==> !IsWrapper(HeaderAt(s.m, base))
    ensures base !in s.m.lost ==>
              && IsTableRecord(s.m.table, |s.m.recs|, HeaderAt(s.m, base).data)
              && RecordIndex(s.m.table, HeaderAt(s.m, base).data) == s.own[base]
  {
    assert OwnOk(s, base) && RecOk(s, s.own[base]);
    RecordAddressIndex(s.m.table, |s.m.recs|, s.own[base]);
  }

  /** The check before a reallocation reads only the record pointer again; of a released block it
      rejects every address but one that a pending reallocation has just left. */
  lemma ReallocRejectsExactly(s: Sys, base: int)
    requires SysInv(s) && base !in s.own
    ensures CheckRejects(s.m, base) <==> !InWindow(s, base)
  {
    var i := RecordIndex(s.m.table, HeaderAt(s.m, base).data);
    WhoHolds(s, i, base);
    assert RecOk(s, i);
  }

  lemma StepKeeps(s: Sys, a: Act)
    requires SysInv(s)
    ensures SysInv(Do(s, a))
  {
    if May(s, a) {
      match a
      case MallocLibc(t, size, ret) => if size <= SIZE_MAX - HDR && ret != 0 { MallocKeeps(s, t, size, ret); }
      case Register(t) => RegisterKeeps(s, t);
      case FreeCheck(t, p) => if p != 0 { FreeCheckKeeps(s, t, p); }
      case FreeLibc(t, left) => FreeLibcKeeps(s, t, left);
      case ReallocCheck(t, p, size) => ReallocCheckKeeps(s, t, p, size);
      case ReallocLibc(t, ret, left) =>
        if ret == 0 {
          GiveUpKeeps(s, t);
        } else {
          ReallocLibcKeeps(s, t, ret, left);
        }
      case Update(t) => RecordKeeps(s, t);
      case Overwrite(_, _) => HeaderKeeps(s, a);
      case Dirty(_, _) => HeaderKeeps(s, a);
      case Elsewhere(ret) => ElsewhereKeeps(s, ret);
      case SecondRead(_, _) => DoubtsKeep(s, Do(s, a));
      case SecondCheck(t, _, _) =>
        ReleaseRejectsExactly(s, s.doubts[t]);
        ReallocRejectsExactly(s, s.doubts[t]);
        DoubtsKeep(s, Do(s, a));
    }
  }

  lemma {:induction false} RunKeeps(s: Sys, sched: seq<Act>)
    requires SysInv(s)
    ensures SysInv(Run(s, sched))
    decreases |sched|
  {
    if |sched| > 0 {
      StepKeeps(s, sched[0]);
      RunKeeps(Do(s, sched[0]), sched[1..]);
    }
  }

  lemma QuietHasInv(m: Mem)
    requires Initial(m)
    ensures SysInv(Quiet(m))
  {
    NoneUsed(m.recs);
    var s := Quiet(m);
    forall b ensures LiveOk(s, b) && OwnOk(s, b) && BusyOk(s, b) { assert BlockOk(m, b); }
    forall i ensures RecOk(s, i) {}
  }

  // ---------- the main results ----------

  /** Over every interleaving of the sections of any number of calls, with moving, in-place and failing
      reallocations and overwritten headers: libc is only ever given live blocks; at every moment
      the recorded size is the sum over the used records, which number the allocations minus the
      frees; each used record has a live tracked block of its own, whose header points back unless
      it was overwritten; and whenever no call is pending the record names that block, so that used
      records hold distinct bases. */
  lemma AccountsHold(m: Mem, sched: seq<Act>, i: int, j: int)
    requires Initial(m)
    ensures var s := Run(Quiet(m), sched);
            && !s.m.corrupted
            && s.m.size == SumUsed(s.m.recs) && CountUsed(s.m.recs) + s.m.frees == s.m.allocs
            && (0 <= i < |s.m.recs| && s.m.recs[i].used ==>
                  && i in s.at && AliveAs(s.m, s.at[i], Tracked)
                  && (s.at[i] !in s.m.lost ==>
                        HeaderAt(s.m, s.at[i]) == Header(RecordAddress(s.m.table, i), MAGIC)))
            && (i in s.at && j in s.at && i != j ==> s.at[i] != s.at[j])
            && (s.calls == map[] && i in s.at ==> 0 <= i < |s.m.recs| && s.m.recs[i].ptr == s.at[i])
  {
    QuietHasInv(m);
    RunKeeps(Quiet(m), sched);
    var s := Run(Quiet(m), sched);
    assert RecOk(s, i) && RecOk(s, j);
    if i in s.at { assert OwnOk(s, s.at[i]); }
  }

  /** A live tracked block that no call works on is never refused while its header is intact, and the
      check finds its own record; one whose header was overwritten is refused. */
  lemma LiveBlocksFound(m: Mem, sched: seq<Act>, base: int)
    requires Initial(m)
    requires var s := Run(Quiet(m), sched); AliveAs(s.m, base, Tracked) && base !in s.busy
    ensures var s := Run(Quiet(m), sched);
            && base in s.own
            && Judge(s.m, base + HDR) == if base in s.m.lost then Refuse else PassTracked(s.own[base])
  {
    QuietHasInv(m);
    RunKeeps(Quiet(m), sched);
    var s := Run(Quiet(m), sched);
    assert LiveOk(s, base) && OwnOk(s, base);
    NotMoving(s, base);
    JudgeUsable(s, base + HDR);
    assert RecOk(s, s.own[base]);
  }

  /** Second frees and reallocations in a run: what the first reading and the search of the records
      refuse, and what the second reading rejects, changes nothing. */
  lemma SecondCallsRefused(m: Mem, sched: seq<Act>, t: nat, p: int, realloc: bool, left: Header)
    requires Initial(m)
    ensures var s := Run(Quiet(m), sched);
            && (May(s, SecondRead(t, p)) && !NamesRecord(s.m, p - HDR) ==> Judge(s.m, p) == Refuse)
            && (May(s, SecondCheck(t, realloc, left)) ==>
                  Do(s, SecondCheck(t, realloc, left)) == s.(doubts := s.doubts - {t}))
  {
    QuietHasInv(m);
    RunKeeps(Quiet(m), sched);
    var s := Run(Quiet(m), sched);
    if t in s.doubts && s.doubts[t] !in s.own {
      ReleaseRejectsExactly(s, s.doubts[t]);
      ReallocRejectsExactly(s, s.doubts[t]);
    }
  }

  /** A second free that is not rejected gives libc an address that is not a live block. */
  lemma SecondFreeHarms(s: Sys, base: int, left: Header)
    requires SysInv(s) && !Alive(s.m, base)
    ensures SecondChecked(s.m, base, false, left).corrupted <==>
              !NamesRecord(s.m, base) || InWindow(s, base)
    ensures SecondChecked(s.m, base, true, left).corrupted <==> InWindow(s, base)
  {
    NotBusy(s, base);
    ReleaseRejectsExactly(s, base);
    ReallocRejectsExactly(s, base);
  }

  // ---------- the sections of one call ----------

  /** Somebody's call is over: the others are as they were. */
  predicate SameCalls(s: Sys, s': Sys) { s'.calls == s.calls && s'.busy == s.busy }

  predicate TableReady(s: Sys) { |s.m.recs| > 0 && 0 <= s.m.reused }

  /** With nobody in between, the two sections of a malloc do what the whole call does. */
  lemma MallocSections(s: Sys, t: nat, size: nat, ret: int)
    requires SysInv(s) && t !in s.calls && Fresh(s.m, ret)
    ensures var s' := Do(Do(s, MallocLibc(t, size, ret)), Register(t));
            s'.m == Apply(s.m, Malloc(size, ret)) && SameCalls(s, s')
  {
    NotBusy(s, ret);
    if size <= SIZE_MAX - HDR { RegisterServed(s, t, size, ret); }
  }

  lemma RegisterServed(s: Sys, t: nat, size: nat, ret: int)
    requires TableReady(s) && t !in s.calls && Fresh(s.m, ret) && ret !in s.busy && size <= SIZE_MAX - HDR
    ensures var s' := Do(Do(s, MallocLibc(t, size, ret)), Register(t));
            s'.m == Alloc(s.m, ret, size) && SameCalls(s, s')
  {
    ServeFirst(s, t, size, ret);
    RegisterLast(s, Do(s, MallocLibc(t, size, ret)), t, size, ret);
  }

  lemma ServeFirst(s: Sys, t: nat, size: nat, ret: int)
    requires TableReady(s) && t !in s.calls && Fresh(s.m, ret) && size <= SIZE_MAX - HDR
    ensures Do(s, MallocLibc(t, size, ret)) == Start(s, t, Registering(ret, size)).(m := Served(s.m, ret))
  {
  }

  lemma RegisterLast(s: Sys, s1: Sys, t: nat, size: nat, ret: int)
    requires TableReady(s) && t !in s.calls && ret !in s.busy
    requires s1 == Start(s, t, Registering(ret, size)).(m := Served(s.m, ret))
    ensures Do(s1, Register(t)).m == Alloc(s.m, ret, size) && SameCalls(s, Do(s1, Register(t)))
  {
    assert s1.calls - {t} == s.calls && s1.busy - {ret} == s.busy;
    RegisterEnds(s1, t);
    AllocServed(s.m, ret, size);
  }

  lemma RegisterEnds(s: Sys, t: nat)
    requires TableReady(s) && t in s.calls && s.calls[t].Registering?
    ensures var s' := Do(s, Register(t));
            && s'.m == Alloc(s.m, s.calls[t].base, s.calls[t].size)
            && s'.calls == s.calls - {t} && s'.busy == s.busy - {s.calls[t].base}
  {
  }

  lemma AllocServed(m: Mem, ret: int, size: nat)
    requires |m.recs| > 0 && 0 <= m.reused
    ensures Alloc(Served(m, ret), ret, size) == Alloc(m, ret, size)
  {
    assert m.lost - {ret} - {ret} == m.lost - {ret};
    forall k ensures m.blocks[ret := Block(true, Foreign)][ret := Block(true, k)] == m.blocks[ret := Block(true, k)] {}
  }

  /** And so do the check and the libc call of a free. */
  lemma FreeSections(s: Sys, t: nat, p: int, left: Header)
    requires SysInv(s) && t !in s.calls && p != 0 && Usable(s, p)
    ensures var s' := Do(Do(s, FreeCheck(t, p)), FreeLibc(t, left));
            s'.m == Apply(s.m, Free(p, left)) && SameCalls(s, s')
  {
    JudgeUsable(s, p);
    match Judge(s.m, p)
    case Refuse => FreeRefused(s, t, p, left);
    case PassForeign => FreeAfter(s, t, p, p, s.m, left);
    case PassUntracked => FreeAfter(s, t, p, p - HDR, s.m, left);
    case PassTracked(i) => FreeAfter(s, t, p, p - HDR, Released(s.m, i), left);
  }

  lemma FreeRefused(s: Sys, t: nat, p: int, left: Header)
    requires t !in s.calls && p != 0 && Judge(s.m, p).Refuse?
    ensures Do(Do(s, FreeCheck(t, p)), FreeLibc(t, left)) == s
  {
    assert Do(s, FreeCheck(t, p)) == s;
  }

  lemma FreeAfter(s: Sys, t: nat, p: int, base: int, m: Mem, left: Header)
    requires TableReady(s) && t !in s.calls && p != 0 && Usable(s, p) && base !in s.busy
    requires CheckedFree(s, t, p) == Start(s, t, Freeing(base)).(
               m := m, own := CheckedFree(s, t, p).own, at := CheckedFree(s, t, p).at)
    requires |m.recs| > 0 && 0 <= m.reused
    ensures var s' := Do(Do(s, FreeCheck(t, p)), FreeLibc(t, left)); s'.m == LibcFree(m, base, left) && SameCalls(s, s')
  {
    var s1 := CheckedFree(s, t, p);
    assert Do(s, FreeCheck(t, p)) == s1;
    assert s1.calls - {t} == s.calls && s1.busy - {base} == s.busy;
    assert Do(s1, FreeLibc(t, left)) == Finish(s1, t).(m := LibcFree(m, base, left));
  }

  /** And so do the check, the libc call and the update of a reallocation. */
  lemma ReallocSections(s: Sys, t: nat, p: int, size: nat, ret: int, left: Header)
    requires SysInv(s) && t !in s.calls && p != 0 && Usable(s, p)
    requires ret == 0 || Fresh(s.m, ret) || ret == if Judge(s.m, p).PassForeign? then p else p - HDR
    ensures var s' := Do(Do(Do(s, ReallocCheck(t, p, size)), ReallocLibc(t, ret, left)), Update(t));
            s'.m == Apply(s.m, Realloc(p, size, ret, left)) && SameCalls(s, s')
  {
    JudgeUsable(s, p);
    var base := if Judge(s.m, p).PassForeign? then p else p - HDR;
    if ret != 0 && ret != base { NotBusy(s, ret); }
    if size > SIZE_MAX - HDR || Judge(s.m, p).Refuse? {
      ReallocRefused(s, t, p, size, ret, left);
    } else if Judge(s.m, p).PassTracked? {
      if ret == 0 {
        ReallocFails(s, t, p, size, base, left);
      } else {
        assert OwnOk(s, base) && RecOk(s, s.own[base]);
        ReallocTracked(s, t, p, size, ret, left);
      }
    } else if ret == 0 {
      ReallocFails(s, t, p, size, base, left);
    } else {
      ReallocPlain(s, t, p, size, base, ret, left);
    }
  }

  lemma ReallocRefused(s: Sys, t: nat, p: int, size: nat, ret: int, left: Header)
    requires t !in s.calls && (size > SIZE_MAX - HDR || Judge(s.m, p).Refuse?)
    ensures Do(Do(Do(s, ReallocCheck(t, p, size)), ReallocLibc(t, ret, left)), Update(t)) == s
  {
    assert Do(s, ReallocCheck(t, p, size)) == s;
    assert Do(s, ReallocLibc(t, ret, left)) == s;
  }

  lemma ReallocFails(s: Sys, t: nat, p: int, size: nat, base: int, left: Header)
    requires TableReady(s) && t !in s.calls && p != 0 && Usable(s, p) && size <= SIZE_MAX - HDR
    requires !Judge(s.m, p).Refuse? && base == (if Judge(s.m, p).PassForeign? then p else p - HDR) && base !in s.busy
    ensures var s' := Do(Do(Do(s, ReallocCheck(t, p, size)), ReallocLibc(t, 0, left)), Update(t));
            s'.m == s.m && SameCalls(s, s')
  {
    CheckFirst(s, t, p, size);
    LibcFails(s, Do(s, ReallocCheck(t, p, size)), t, base, left);
  }

  lemma CheckFirst(s: Sys, t: nat, p: int, size: nat)
    requires TableReady(s) && t !in s.calls && p != 0 && Usable(s, p) && size <= SIZE_MAX - HDR
    ensures Do(s, ReallocCheck(t, p, size)) == CheckedRealloc(s, t, p, size)
  {
  }

  lemma LibcFails(s: Sys, s1: Sys, t: nat, base: int, left: Header)
    requires TableReady(s) && t !in s.calls && base !in s.busy
    requires t in s1.calls && s1 == Start(s, t, s1.calls[t]) && s1.calls[t].base == base
    requires s1.calls[t].Plain? || s1.calls[t].Moving?
    ensures var s' := Do(Do(s1, ReallocLibc(t, 0, left)), Update(t)); s'.m == s.m && SameCalls(s, s')
  {
    assert s1.calls - {t} == s.calls && s1.busy - {base} == s.busy;
    assert Do(s1, ReallocLibc(t, 0, left)) == Finish(s1, t);
  }

  lemma ReallocPlain(s: Sys, t: nat, p: int, size: nat, base: int, ret: int, left: Header)
    requires TableReady(s) && t !in s.calls && p != 0 && Usable(s, p) && size <= SIZE_MAX - HDR
    requires Judge(s.m, p) == if base == p then PassForeign else PassUntracked
    requires (base == p || base == p - HDR) && base !in s.busy
    requires ret != 0 && (ret == base || Fresh(s.m, ret))
    ensures var s' := Do(Do(Do(s, ReallocCheck(t, p, size)), ReallocLibc(t, ret, left)), Update(t));
            s'.m == Apply(s.m, Realloc(p, size, ret, left)) && SameCalls(s, s')
  {
    var s1 := Start(s, t, Plain(base, size, base != p));
    CheckFirst(s, t, p, size);
    assert Do(s, ReallocCheck(t, p, size)) == s1;
    assert s1.calls - {t} == s.calls && s1.busy - {base} == s.busy;
    PlainNext(s1, t, ret, left);
  }

  lemma PlainNext(s: Sys, t: nat, ret: int, left: Header)
    requires TableReady(s) && t in s.calls && s.calls[t].Plain? && ret != 0
    requires ret == s.calls[t].base || Fresh(s.m, ret)
    ensures var s1 := Do(s, ReallocLibc(t, ret, left));
            && s1 == PlainDone(s, t, s.calls[t].base, ret, s.calls[t].untracked, left)
            && Do(s1, Update(t)) == s1
  {
  }

  lemma ReallocTracked(s: Sys, t: nat, p: int, size: nat, ret: int, left: Header)
    requires TableReady(s) && t !in s.calls && p != 0 && Usable(s, p) && size <= SIZE_MAX - HDR && p - HDR !in s.busy
    requires Judge(s.m, p).PassTracked? && Alive(s.m, p - HDR) && p - HDR !in s.m.lost
    requires TableFits(s.m.table, |s.m.recs|)
    requires HeaderAt(s.m, p - HDR) == Header(RecordAddress(s.m.table, Judge(s.m, p).i), MAGIC)
    requires ret != 0 && (ret == p - HDR || (Fresh(s.m, ret) && ret !in s.busy))
    ensures var s' := Do(Do(Do(s, ReallocCheck(t, p, size)), ReallocLibc(t, ret, left)), Update(t));
            s'.m == Apply(s.m, Realloc(p, size, ret, left)) && SameCalls(s, s')
  {
    var i, base := Judge(s.m, p).i, p - HDR;
    CheckFirst(s, t, p, size);
    var s1 := Do(s, ReallocCheck(t, p, size));
    TransitNext(s1, t, base, size, i, ret, left);
    CarriedRecorded(s.m, p, i, size, ret, left);
    UpdateLast(s, s1, t, base, size, i, ret, left);
  }

  lemma TransitNext(s1: Sys, t: nat, base: int, size: nat, i: int, ret: int, left: Header)
    requires TableReady(s1) && t in s1.calls && s1.calls[t] == Moving(base, size, i)
    requires ret != 0 && (ret == base || Fresh(s1.m, ret))
    ensures Do(s1, ReallocLibc(t, ret, left)) == Transit(s1, t, base, ret, size, i, left)
  {
  }

  lemma UpdateLast(s: Sys, s1: Sys, t: nat, base: int, size: nat, i: int, ret: int, left: Header)
    requires TableReady(s) && t !in s.calls && base !in s.busy && ret !in s.busy
    requires s1 == Start(s, t, Moving(base, size, i))
    ensures var s' := Do(Transit(s1, t, base, ret, size, i, left), Update(t));
            s'.m == Recorded(Carried(s.m, base, ret, left), ret, size, base) && SameCalls(s, s')
  {
    var s2 := Transit(s1, t, base, ret, size, i, left);
    assert s2.calls - {t} == s.calls && s2.busy - {ret} == s.busy;
    UpdateEnds(s2, t);
  }

  lemma UpdateEnds(s: Sys, t: nat)
    requires TableReady(s) && t in s.calls && s.calls[t].Recording?
    ensures var c, s' := s.calls[t], Do(s, Update(t));
            && s'.m == Recorded(s.m, c.base, c.size, c.from)
            && s'.calls == s.calls - {t} && s'.busy == s.busy - {c.base}
  {
  }

  /** The header that went along leads the update to the record that the check found. */
  lemma CarriedRecorded(m: Mem, p: int, i: int, size: nat, ret: int, left: Header)
    requires Judge(m, p) == PassTracked(i) && Alive(m, p - HDR) && p - HDR !in m.lost && TableFits(m.table, |m.recs|)
    requires HeaderAt(m, p - HDR) == Header(RecordAddress(m.table, i), MAGIC)
    requires ret == p - HDR || Fresh(m, ret)
    ensures Recorded(Carried(m, p - HDR, ret, left), ret, size, p - HDR) == Moved(m, i, size, ret, left)
  {
    var m', h := Carried(m, p - HDR, ret, left), Header(RecordAddress(m.table, i), MAGIC);
    RecordAddressIndex(m.table, |m.recs|, i);
    assert 0 <= i * RECORD < |m.recs| * RECORD;
    assert HeaderAt(m', ret) == h;
    assert m'.hdr[ret := h] == LibcRealloc(m, p - HDR, ret, left).hdr[ret := h];
    assert m'.lost == m'.lost - {ret};
  }

  // ---------- the sizes asked for ----------

  /** The size that each thread asked for last, and the size last asked for of each block. */
  datatype Requests = Requests(wanted: map<nat, nat>, sizes: map<int, nat>)

  function Noted(s: Sys, a: Act, q: Requests): Requests {
    if !May(s, a) then q else
    match a
    case MallocLibc(t, size, _) => q.(wanted := q.wanted[t := size])
    case ReallocCheck(t, _, size) => q.(wanted := q.wanted[t := size])
    case Register(t) => if t in q.wanted then q.(sizes := q.sizes[s.calls[t].base := q.wanted[t]]) else q
    case ReallocLibc(t, ret, _) => if ret != 0 && t in q.wanted then q.(sizes := q.sizes[ret := q.wanted[t]]) else q
    case _ => q
  }

  function NotedIn(s: Sys, sched: seq<Act>, q: Requests): Requests
    decreases |sched|
  {
    if |sched| == 0 then q else NotedIn(Do(s, sched[0]), sched[1..], Noted(s, sched[0], q))
  }

  predicate WantOk(s: Sys, q: Requests, t: nat) {
    t in s.calls && !s.calls[t].Freeing? ==> t in q.wanted && s.calls[t].size == q.wanted[t]
  }

  /** The record has the size last asked for of its block, or the update that is pending does. */
  predicate SizeNoted(s: Sys, q: Requests, i: int) {
    && (i in s.at ==>
          s.at[i] in q.sizes && (i !in s.moving && 0 <= i < |s.m.recs| ==> s.m.recs[i].size == q.sizes[s.at[i]]))
    && (i in s.moving && s.moving[i] in s.calls && s.calls[s.moving[i]].Recording? ==>
          var b := s.calls[s.moving[i]].base; b in q.sizes && s.calls[s.moving[i]].size == q.sizes[b])
  }

  ghost predicate RequestsOk(s: Sys, q: Requests) {
    (forall t: nat :: WantOk(s, q, t)) && (forall i :: SizeNoted(s, q, i))
  }

  /** Whether the step can change the call of thread t. */
  predicate Moves(a: Act, t: nat) {
    match a
    case MallocLibc(u, _, _) => u == t
    case Register(u) => u == t
    case FreeCheck(u, _) => u == t
    case FreeLibc(u, _) => u == t
    case ReallocCheck(u, _, _) => u == t
    case ReallocLibc(u, _, _) => u == t
    case Update(u) => u == t
    case _ => false
  }

  predicate SameCall(s: Sys, s': Sys, t: nat) {
    (t in s'.calls <==> t in s.calls) && (t in s.calls ==> s'.calls[t] == s.calls[t])
  }

  lemma OthersWaitAtLibc(s: Sys, a: Act, t: nat)
    requires !Moves(a, t) && (a.Register? || a.FreeLibc? || a.ReallocLibc? || a.Update?)
    ensures SameCall(s, Do(s, a), t)
  {
  }

  lemma OthersWaitAtCheck(s: Sys, a: Act, t: nat)
    requires !Moves(a, t) && (a.FreeCheck? || a.ReallocCheck?)
    ensures SameCall(s, Do(s, a), t)
  {
  }

  lemma OthersWait(s: Sys, a: Act, t: nat)
    requires !Moves(a, t)
    ensures SameCall(s, Do(s, a), t)
  {
    if a.Register? || a.FreeLibc? || a.ReallocLibc? || a.Update? {
      OthersWaitAtLibc(s, a, t);
    } else if a.FreeCheck? || a.ReallocCheck? {
      OthersWaitAtCheck(s, a, t);
    }
  }

  lemma WantsStay(s: Sys, a: Act, q: Requests, t: nat)
    requires !Moves(a, t)
    ensures t in Noted(s, a, q).wanted <==> t in q.wanted
    ensures t in q.wanted ==> Noted(s, a, q).wanted[t] == q.wanted[t]
  {
  }

  lemma WantBegins(s: Sys, a: Act, q: Requests, t: nat)
    requires Moves(a, t) && (a.MallocLibc? || a.ReallocCheck?) && WantOk(s, q, t)
    ensures WantOk(Do(s, a), Noted(s, a, q), t)
  {
  }

  lemma FreeWantsNothing(s: Sys, a: Act, q: Requests, t: nat)
    requires a.FreeCheck? && WantOk(s, q, t)
    ensures WantOk(Do(s, a), Noted(s, a, q), t)
  {
  }

  lemma WantGoesOn(s: Sys, a: Act, q: Requests, t: nat)
    requires Moves(a, t) && !a.MallocLibc? && !a.FreeCheck? && !a.ReallocCheck? && WantOk(s, q, t)
    ensures WantOk(Do(s, a), Noted(s, a, q), t)
  {
  }

  lemma WantStep(s: Sys, a: Act, q: Requests, t: nat)
    requires WantOk(s, q, t)
    ensures WantOk(Do(s, a), Noted(s, a, q), t)
  {
    if !Moves(a, t) {
      OthersWait(s, a, t);
      WantsStay(s, a, q, t);
    } else if a.FreeCheck? {
      FreeWantsNothing(s, a, q, t);
    } else if a.MallocLibc? || a.ReallocCheck? {
      WantBegins(s, a, q, t);
    } else {
      WantGoesOn(s, a, q, t);
    }
  }

  predicate LeavesRecords(a: Act) {
    a.MallocLibc? || a.ReallocCheck? || a.Overwrite? || a.Dirty? || a.Elsewhere? || a.SecondRead?
  }

  lemma RecordsStay(s: Sys, a: Act, q: Requests)
    requires LeavesRecords(a)
    ensures var s' := Do(s, a); s'.at == s.at && s'.moving == s.moving && s'.m.recs == s.m.recs
    ensures Noted(s, a, q).sizes == q.sizes
  {
  }

  lemma RunningCallsStay(s: Sys, a: Act, u: nat)
    requires LeavesRecords(a) && u in s.calls
    ensures SameCall(s, Do(s, a), u)
  {
    if Moves(a, u) { assert !May(s, a); } else { OthersWait(s, a, u); }
  }

  lemma SizesStay(s: Sys, a: Act, q: Requests, i: int)
    requires LeavesRecords(a) && SizeNoted(s, q, i)
    requires i in s.moving ==> s.moving[i] in s.calls
    ensures SizeNoted(Do(s, a), Noted(s, a, q), i)
  {
    RecordsStay(s, a, q);
    if i in s.moving { RunningCallsStay(s, a, s.moving[i]); }
  }

  lemma NotedStep(s: Sys, a: Act, q: Requests, i: int)
    requires SysInv(s) && RequestsOk(s, q)
    ensures SizeNoted(Do(s, a), Noted(s, a, q), i)
  {
    assert SizeNoted(s, q, i);
    if May(s, a) {
      match a
      case Register(t) => NotedAtRegister(s, t, q, i);
      case FreeCheck(t, p) => NotedAtFree(s, t, p, q, i);
      case FreeLibc(t, left) => NotedAtRelease(s, t, left, q, i);
      case ReallocLibc(t, ret, left) => NotedAtRealloc(s, t, ret, left, q, i);
      case Update(t) => NotedAtUpdate(s, t, q, i);
      case SecondCheck(t, realloc, left) => NotedAtSecond(s, t, realloc, left, q, i);
      case _ =>
        assert RecOk(s, i);
        SizesStay(s, a, q, i);
    }
  }

  lemma NotedAtFree(s: Sys, t: nat, p: int, q: Requests, i: int)
    requires SysInv(s) && RequestsOk(s, q) && May(s, FreeCheck(t, p))
    ensures SizeNoted(Do(s, FreeCheck(t, p)), Noted(s, FreeCheck(t, p), q), i)
  {
    assert SizeNoted(s, q, i) && RecOk(s, i);
    if i in s.at { assert OwnOk(s, s.at[i]); }
    if p != 0 { JudgeUsable(s, p); }
  }

  lemma NotedAtRelease(s: Sys, t: nat, left: Header, q: Requests, i: int)
    requires SysInv(s) && RequestsOk(s, q) && May(s, FreeLibc(t, left))
    ensures SizeNoted(Do(s, FreeLibc(t, left)), Noted(s, FreeLibc(t, left), q), i)
  {
    assert SizeNoted(s, q, i) && RecOk(s, i) && CallOk(s, t);
  }

  lemma NotedAtSecond(s: Sys, t: nat, realloc: bool, left: Header, q: Requests, i: int)
    requires SysInv(s) && RequestsOk(s, q) && May(s, SecondCheck(t, realloc, left))
    ensures SizeNoted(Do(s, SecondCheck(t, realloc, left)), Noted(s, SecondCheck(t, realloc, left), q), i)
  {
    assert SizeNoted(s, q, i) && RecOk(s, i);
    ReleaseRejectsExactly(s, s.doubts[t]);
    ReallocRejectsExactly(s, s.doubts[t]);
  }

  lemma NotedAtRegister(s: Sys, t: nat, q: Requests, i: int)
    requires SysInv(s) && RequestsOk(s, q) && May(s, Register(t))
    ensures SizeNoted(Do(s, Register(t)), Noted(s, Register(t), q), i)
  {
    var b := s.calls[t].base;
    AllocTable(s.m, b, s.calls[t].size);
    var idx := FindSlot(s.m.recs, s.m.nextNew, s.m.reused).idx;
    assert SizeNoted(s, q, i) && RecOk(s, i) && RecOk(s, idx) && CallOk(s, t) && WantOk(s, q, t) && OwnOk(s, b);
    if i in s.at { assert OwnOk(s, s.at[i]); }
    if i in s.moving { assert CallOk(s, s.moving[i]) && OwnOk(s, s.calls[s.moving[i]].base); }
  }

  lemma NotedAtRealloc(s: Sys, t: nat, ret: int, left: Header, q: Requests, i: int)
    requires SysInv(s) && RequestsOk(s, q) && May(s, ReallocLibc(t, ret, left))
    ensures SizeNoted(Do(s, ReallocLibc(t, ret, left)), Noted(s, ReallocLibc(t, ret, left), q), i)
  {
    var a := ReallocLibc(t, ret, left);
    assert Do(s, a) == Reallocated(s, t, ret, left);
    assert SizeNoted(s, q, i) && WantOk(s, q, t) && RecOk(s, i) && CallOk(s, t);
    if ret != 0 {
      var q' := q.(sizes := q.sizes[ret := q.wanted[t]]);
      assert Noted(s, a, q) == q';
      if s.calls[t].Plain? { NotedAtPlain(s, t, ret, left, q, i); } else { NotedAtMove(s, t, ret, left, q, i); }
    }
  }

  lemma NotedAtPlain(s: Sys, t: nat, ret: int, left: Header, q: Requests, i: int)
    requires SysInv(s) && RequestsOk(s, q) && May(s, ReallocLibc(t, ret, left)) && ret != 0 && s.calls[t].Plain?
    requires t in q.wanted
    ensures SizeNoted(PlainDone(s, t, s.calls[t].base, ret, s.calls[t].untracked, left),
                      q.(sizes := q.sizes[ret := q.wanted[t]]), i)
  {
    var b := s.calls[t].base;
    assert SizeNoted(s, q, i) && RecOk(s, i) && CallOk(s, t) && OwnOk(s, b);
    if i in s.moving { assert CallOk(s, s.moving[i]) && OwnOk(s, s.calls[s.moving[i]].base); }
    if ret != b { NotBusy(s, ret); }
  }

  lemma NotedAtMove(s: Sys, t: nat, ret: int, left: Header, q: Requests, i: int)
    requires SysInv(s) && RequestsOk(s, q) && May(s, ReallocLibc(t, ret, left)) && ret != 0 && s.calls[t].Moving?
    requires t in q.wanted && s.calls[t].size == q.wanted[t]
    ensures SizeNoted(Transit(s, t, s.calls[t].base, ret, s.calls[t].size, s.calls[t].rec, left),
                      q.(sizes := q.sizes[ret := q.wanted[t]]), i)
  {
    var b := s.calls[t].base;
    assert SizeNoted(s, q, i) && RecOk(s, i) && CallOk(s, t) && OwnOk(s, b);
    if i in s.moving { assert CallOk(s, s.moving[i]) && OwnOk(s, s.calls[s.moving[i]].base); }
    if ret != b { NotBusy(s, ret); }
  }

  lemma NotedAtUpdate(s: Sys, t: nat, q: Requests, i: int)
    requires SysInv(s) && RequestsOk(s, q) && May(s, Update(t))
    ensures SizeNoted(Do(s, Update(t)), Noted(s, Update(t), q), i)
  {
    RecordFollowsMove(s, t);
    assert SizeNoted(s, q, i) && RecOk(s, i) && CallOk(s, t) && OwnOk(s, s.calls[t].base);
    assert SizeNoted(s, q, s.calls[t].rec) && RecOk(s, s.calls[t].rec);
  }

  lemma {:induction false} NotedRun(s: Sys, sched: seq<Act>, q: Requests)
    requires SysInv(s) && RequestsOk(s, q)
    ensures RequestsOk(Run(s, sched), NotedIn(s, sched, q))
    decreases |sched|
  {
    if |sched| > 0 {
      var s1, q1 := Do(s, sched[0]), Noted(s, sched[0], q);
      StepKeeps(s, sched[0]);
      forall t: nat ensures WantOk(s1, q1, t) { WantStep(s, sched[0], q, t); }
      forall i ensures SizeNoted(s1, q1, i) { NotedStep(s, sched[0], q, i); }
      NotedRun(s1, sched[1..], q1);
    }
  }

  /** Over every interleaving: whenever no call is pending, the size in a used record is the one last
      asked for of the block it names. */
  lemma RecordedSizesAsAsked(m: Mem, sched: seq<Act>, i: int)
    requires Initial(m)
    requires Run(Quiet(m), sched).calls == map[]
    requires 0 <= i < |Run(Quiet(m), sched).m.recs| && Run(Quiet(m), sched).m.recs[i].used
    ensures var r, sizes := Run(Quiet(m), sched).m.recs[i], NotedIn(Quiet(m), sched, Requests(map[], map[])).sizes;
            r.ptr in sizes && r.size == sizes[r.ptr]
  {
    var q := Requests(map[], map[]);
    QuietHasInv(m);
    RunKeeps(Quiet(m), sched);
    forall t: nat ensures WantOk(Quiet(m), q, t) {}
    forall k ensures SizeNoted(Quiet(m), q, k) {}
    NotedRun(Quiet(m), sched, q);
    var s := Run(Quiet(m), sched);
    assert RecOk(s, i) && SizeNoted(s, NotedIn(Quiet(m), sched, q), i);
  }

  // ---------- one base in two records ----------

  /** While a reallocation is pending its record still names the address the block left; that address
      may be served again, and then a second used record names it. */
  lemma BaseHeldTwice(s: Sys, t: nat, u: nat, size: nat)
    requires SysInv(s) && t in s.calls && s.calls[t].Recording? && u !in s.calls && size <= SIZE_MAX - HDR
    requires Fresh(s.m, s.calls[t].from) && exists k :: 0 <= k < |s.m.recs| && !s.m.recs[k].used
    ensures var s' := Do(Do(s, MallocLibc(u, size, s.calls[t].from)), Register(u));
            exists i, j :: 0 <= i < |s'.m.recs| && 0 <= j < |s'.m.recs| && i != j
                           && s'.m.recs[i].used && s'.m.recs[j].used && s'.m.recs[i].ptr == s'.m.recs[j].ptr
  {
    var from, i := s.calls[t].from, s.calls[t].rec;
    assert CallOk(s, t) && RecOk(s, i) && OwnOk(s, s.calls[t].base);
    SlotSearchExact(s.m.recs, s.m.nextNew, s.m.reused);
    var j := FindSlot(s.m.recs, s.m.nextNew, s.m.reused).idx;
    var s1 := Do(s, MallocLibc(u, size, from));
    assert s1.m == Served(s.m, from) && s1.calls[u] == Registering(from, size);
    var s' := Do(s1, Register(u));
    assert s'.m == Alloc(s1.m, from, size);
    assert s'.m.recs == s.m.recs[j := Record(from, size, true)];
    assert s'.m.recs[i].used && s'.m.recs[i].ptr == from && s'.m.recs[j].used && s'.m.recs[j].ptr == from;
  }

  // ---------- both overlaps are reachable ----------

  /** Some schedule leads from the initialized tracker to the state. */
  ghost predicate Reaches(m: Mem, s: Sys) { exists sched :: Run(Quiet(m), sched) == s }

  lemma {:induction false} RunSnoc(s: Sys, sched: seq<Act>, a: Act)
    ensures Run(s, sched + [a]) == Do(Run(s, sched), a)
    decreases |sched|
  {
    if |sched| == 0 {
      assert (sched + [a])[1..] == [];
    } else {
      assert (sched + [a])[1..] == sched[1..] + [a];
      RunSnoc(Do(s, sched[0]), sched[1..], a);
    }
  }

  lemma QuietReached(m: Mem)
    ensures Reaches(m, Quiet(m))
  {
    assert Run(Quiet(m), []) == Quiet(m);
  }

  lemma Then(m: Mem, s: Sys, a: Act)
    requires Reaches(m, s)
    ensures Reaches(m, Do(s, a))
  {
    var sched :| Run(Quiet(m), sched) == s;
    RunSnoc(Quiet(m), sched, a);
  }

  lemma ReachesInv(m: Mem, s: Sys)
    requires Initial(m) && Reaches(m, s)
    ensures SysInv(s)
  {
    QuietHasInv(m);
    var sched :| Run(Quiet(m), sched) == s;
    RunKeeps(Quiet(m), sched);
  }

  /** One tracked block. */
  lemma OneBlock(m: Mem, b: int) returns (s: Sys)
    requires Initial(m) && Fresh(m, b)
    ensures Reaches(m, s) && s.calls == map[] && s.busy == map[] && s.moving == map[]
    ensures s.own == map[b := 0] && AliveAs(s.m, b, Tracked) && b !in s.m.lost
    ensures s.m.recs == m.recs[0 := Record(b, 8, true)] && s.m.table == m.table
    ensures s.m.nextNew == 1 && s.m.reused == 0
    ensures s.m.blocks == m.blocks[b := Block(true, Tracked)]
  {
    var s0 := Quiet(m);
    QuietReached(m);
    Then(m, s0, MallocLibc(0, 8, b));
    var s1 := Do(s0, MallocLibc(0, 8, b));
    assert s1.m == Served(m, b) && s1.calls == map[0 := Registering(b, 8)] && s1.busy == map[b := 0];
    Then(m, s1, Register(0));
    s := Do(s1, Register(0));
    assert s.m == Alloc(s1.m, b, 8);
    assert s.calls == map[] && s.busy == map[];
  }

  /** A reallocation has moved the block from b1 to b2 and has not updated the record; libc left `left`
      in the header at b1. */
  lemma Overlap(m: Mem, b1: int, b2: int, left: Header) returns (s: Sys)
    requires Initial(m) && Fresh(m, b1) && Fresh(m, b2) && b1 != b2
    ensures Reaches(m, s) && s.calls == map[0 := Recording(b2, 16, 0, b1)]
    ensures s.m.recs == m.recs[0 := Record(b1, 8, true)] && s.m.table == m.table
    ensures DeadTracked(s.m, b1) && AliveAs(s.m, b2, Tracked) && HeaderAt(s.m, b1) == left
    ensures s.moving == map[0 := 0]
  {
    var s1 := OneBlock(m, b1);
    ReachesInv(m, s1);
    JudgeUsable(s1, b1 + HDR);
    Then(m, s1, ReallocCheck(0, b1 + HDR, 16));
    var s2 := Do(s1, ReallocCheck(0, b1 + HDR, 16));
    CheckFirst(s1, 0, b1 + HDR, 16);
    assert s2 == Start(s1, 0, Moving(b1, 16, 0));
    Then(m, s2, ReallocLibc(0, b2, left));
    s := Do(s2, ReallocLibc(0, b2, left));
    TransitNext(s2, 0, b1, 16, 0, b2, left);
  }

  /** The window is reached: where libc leaves the header as it was, a second free of the old address
      passes both readings, takes the record from the moved block, which is live, and gives libc an
      address that is not a live block. */
  lemma SecondFreeInWindow(m: Mem, b1: int, b2: int, left: Header) returns (s: Sys)
    requires Initial(m) && Fresh(m, b1) && Fresh(m, b2) && b1 != b2
    ensures Reaches(m, s) && DeadTracked(s.m, b1) && InWindow(s, b1)
    ensures Judge(s.m, b1 + HDR) == PassTracked(0) && !Rejects(s.m, b1)
    ensures var m' := FreedAgain(s.m, b1, left);
            m'.corrupted && s.m.recs[0].used && !m'.recs[0].used && AliveAs(m', b2, Tracked)
  {
    var h := Header(RecordAddress(m.table, 0), MAGIC);
    s := Overlap(m, b1, b2, h);
    RecordAddressIndex(m.table, |m.recs|, 0);
    assert UsedFor(s.m, 0, b1);
    assert !(m.table <= b1 < m.table + |m.recs| * RECORD);
  }

  /** And so is a state in which two used records hold one base. */
  lemma BaseHeldTwiceReached(m: Mem, b1: int, b2: int) returns (s: Sys, j: int)
    requires Initial(m) && |m.recs| >= 2 && Fresh(m, b1) && Fresh(m, b2) && b1 != b2
    ensures Reaches(m, s) && 0 < j < |s.m.recs|
    ensures s.m.recs[0].used && s.m.recs[j].used && s.m.recs[0].ptr == s.m.recs[j].ptr == b1
  {
    var s1 := Overlap(m, b1, b2, Header(0, 0));
    ReachesInv(m, s1);
    assert Fresh(s1.m, b1);
    Then(m, s1, MallocLibc(1, 8, b1));
    var s2 := Do(s1, MallocLibc(1, 8, b1));
    ServeFirst(s1, 1, 8, b1);
    Then(m, s2, Register(1));
    s := Do(s2, Register(1));
    j := RegisterBeside(s2, 1, b1);
  }

  /** A record that is free is taken, and the first one is left alone. */
  lemma RegisterBeside(s: Sys, t: nat, b: int) returns (j: int)
    requires TableOk(s.m) && t in s.calls && s.calls[t] == Registering(b, 8)
    requires |s.m.recs| >= 2 && s.m.recs[0].used && !s.m.recs[1].used
    ensures 0 < j < |s.m.recs| && Do(s, Register(t)).m.recs == s.m.recs[j := Record(b, 8, true)]
  {
    assert Do(s, Register(t)).m == Alloc(s.m, b, 8);
    SlotSearchExact(s.m.recs, s.m.nextNew, s.m.reused);
    j := FindSlot(s.m.recs, s.m.nextNew, s.m.reused).idx;
  }
}
