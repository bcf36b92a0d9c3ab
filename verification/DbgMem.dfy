// The debug allocator (src/dbg_malloc.cpp): a fixed table of records, a header inside every block,
// and the rejection of double frees.
//
// What each call does when calls run one after another; DbgThreads.dfy interleaves their sections.
// `Mem` is one tracker lifetime together with the memory it works on: which libc blocks exist, what
// stands in the header below each payload, and the table.  libc chooses every returned address and
// what it leaves in the header of a released block; those choices are parameters of the steps.

module DbgMem {

  const U64: int := 0x1_0000_0000_0000_0000
  const SIZE_MAX: int := U64 - 1
  const MAGIC: int := 0x6442674d9bbd98b2
  const HDR: int := 16   // sizeof(struct otelc_dbg_mem_metadata)
  const RECORD: int := 80 // sizeof(struct otelc_dbg_mem_data), packed

  /** The header stored at the base of a block: a record address and the magic. */
  datatype Header = Header(data: int, magic: int)

  datatype Record = Record(ptr: int, size: int, used: bool)

  datatype Kind = Tracked | Untracked | Foreign

  /** The latest block that libc served at an address. */
  datatype Block = Block(live: bool, kind: Kind)

  /** `lost` holds live blocks whose header was overwritten; `corrupted` is set when libc is given an
      address that is not a live block. */
  datatype Mem = Mem(
    table: int, recs: seq<Record>, nextNew: int, reused: int, size: int,
    allocs: nat, reallocs: nat, frees: nat,
    hdr: map<int, Header>, blocks: map<int, Block>, lost: set<int>, corrupted: bool)

  datatype Step =
    | Malloc(size: nat, ret: int)
    | Realloc(p: int, size: nat, ret: int, left: Header)
    | Free(p: int, left: Header)
    | ForeignMalloc(ret: int)
    | Scribble(base: int, h: Header)

  function HeaderAt(m: Mem, base: int): Header {
    if base in m.hdr then m.hdr[base] else Header(0, 0)
  }

  predicate Alive(m: Mem, a: int) {
    a in m.blocks && m.blocks[a].live
  }

  predicate AliveAs(m: Mem, a: int, kind: Kind) {
    Alive(m, a) && m.blocks[a].kind == kind
  }

  predicate DeadTracked(m: Mem, a: int) {
    a in m.blocks && m.blocks[a] == Block(false, Tracked)
  }

  predicate IsWrapper(h: Header) {
    h.data != 0 && h.magic == MAGIC
  }

  predicate IsSelf(base: int, h: Header) {
    h.magic == MAGIC && h.data == base
  }

  // ---------- record addresses ----------

  function RecordAddress(table: int, i: int): int {
    table + i * RECORD
  }

  /** otelc_dbg_is_table_record, with its unsigned pointer difference. */
  predicate IsTableRecord(table: int, count: int, data: int) {
    var offset := (data - table) % U64;
    offset < count * RECORD && offset % RECORD == 0
  }

  function RecordIndex(table: int, data: int): int {
    (data - table) % U64 / RECORD
  }

  predicate TableFits(table: int, count: int) {
    0 < table && 0 < count && table + count * RECORD <= U64
  }

  lemma RecordAddressIndex(table: int, count: int, i: int)
    requires TableFits(table, count) && 0 <= i < count
    ensures IsTableRecord(table, count, RecordAddress(table, i)) && RecordIndex(table, RecordAddress(table, i)) == i
  {
    assert 0 <= i * RECORD < count * RECORD <= U64;
    assert (i * RECORD) % U64 == i * RECORD;
    assert (i * 80) % 80 == 0 && (i * 80) / 80 == i;
  }

  lemma UnsignedDifference(d: int)
    requires -U64 < d < U64
    ensures d % U64 == if d < 0 then d + U64 else d
  {
  }

  /** A pointer passes the range test exactly when it is the address of a record of the table. */
  lemma TableRecordExact(table: int, count: int, data: int)
    requires TableFits(table, count) && 0 <= data < U64
    ensures IsTableRecord(table, count, data) <==> exists i :: 0 <= i < count && data == RecordAddress(table, i)
  {
    if IsTableRecord(table, count, data) {
      var offset := (data - table) % U64;
      UnsignedDifference(data - table);
      assert offset == data - table;
      var i := offset / RECORD;
      assert offset == i * RECORD;
      assert data == RecordAddress(table, i);
    }
    if i :| 0 <= i < count && data == RecordAddress(table, i) {
      RecordAddressIndex(table, count, i);
    }
  }

  // ---------- the slot search ----------

  /** The reuse phase: probes one record after another from the cursor, around the table once. */
  function Probe(recs: seq<Record>, cursor: int, tries: int): (int, int)
    requires 0 <= cursor && 0 <= tries < |recs|
    decreases |recs| - tries
  {
    var c := if cursor >= |recs| then 0 else cursor;
    if !recs[c].used then (c, c + 1)
    else if tries + 1 < |recs| then Probe(recs, c + 1, tries + 1)
    else (|recs|, c + 1)
  }

  datatype Slot = Slot(idx: int, nextNew: int, reused: int)

  /** A record never used so far, otherwise the next free one from the cursor on. */
  function FindSlot(recs: seq<Record>, nextNew: int, reused: int): Slot
    requires |recs| > 0 && 0 <= reused
  {
    if nextNew < |recs| then Slot(nextNew, nextNew + 1, reused)
    else var (idx, cursor) := Probe(recs, reused, 0); Slot(idx, nextNew, cursor)
  }

  /** The k records before the cursor, counted around the table from start, are in use. */
  predicate Probed(recs: seq<Record>, start: int, cursor: int, k: int) {
    && 0 <= start < |recs| && 0 <= k <= |recs|
    && ((cursor == start + k <= |recs| && forall i | start <= i < cursor :: recs[i].used)
        || (cursor == start + k - |recs| && 0 <= cursor <= start
            && (forall i | start <= i < |recs| :: recs[i].used) && (forall i | 0 <= i < cursor :: recs[i].used)))
  }

  lemma {:induction false} ProbeExact(recs: seq<Record>, start: int, cursor: int, tries: int)
    requires 0 <= tries < |recs| && 0 <= cursor && Probed(recs, start, cursor, tries)
    ensures var (idx, c) := Probe(recs, cursor, tries);
            && 0 <= idx <= |recs| && 0 <= c <= |recs|
            && (idx < |recs| <==> exists i :: 0 <= i < |recs| && !recs[i].used)
            && (idx < |recs| ==> !recs[idx].used)
    decreases |recs| - tries
  {
    var c := if cursor >= |recs| then 0 else cursor;
    if recs[c].used {
      if tries + 1 < |recs| {
        ProbeExact(recs, start, c + 1, tries + 1);
      } else {
        assert Probed(recs, start, c + 1, |recs|);
        assert forall i | 0 <= i < |recs| :: recs[i].used;
      }
    }
  }

  /** Whatever the cursor position, the two-phase search finds a free record exactly when there is
      one, within one round of the table. */
  lemma SlotSearchExact(recs: seq<Record>, nextNew: int, reused: int)
    requires |recs| > 0 && 0 <= nextNew && 0 <= reused <= |recs|
    requires forall i | nextNew <= i < |recs| :: !recs[i].used
    ensures var s := FindSlot(recs, nextNew, reused);
            && (s.idx < |recs| <==> exists i :: 0 <= i < |recs| && !recs[i].used)
            && (s.idx < |recs| ==> 0 <= s.idx && !recs[s.idx].used)
            && 0 <= s.reused <= |recs| && nextNew <= s.nextNew && s.idx <= |recs|
  {
    if nextNew < |recs| {
      assert !recs[nextNew].used;
    } else {
      var start := if reused >= |recs| then 0 else reused;
      assert Probe(recs, reused, 0) == Probe(recs, start, 0);
      ProbeExact(recs, start, start, 0);
    }
  }

  /** How far it is from the cursor position to the record, going round the table. */
  function Distance(start: int, i: int, count: int): int {
    if i >= start then i - start else i - start + count
  }

  lemma {:induction false} ProbeNearest(recs: seq<Record>, start: int, cursor: int, tries: int)
    requires 0 <= tries < |recs| && 0 <= cursor && Probed(recs, start, cursor, tries)
    ensures var (idx, c) := Probe(recs, cursor, tries);
            0 <= idx < |recs| ==>
              c == idx + 1 && forall j | 0 <= j < |recs| && !recs[j].used ::
                Distance(start, idx, |recs|) <= Distance(start, j, |recs|)
    decreases |recs| - tries
  {
    var c := if cursor >= |recs| then 0 else cursor;
    if recs[c].used && tries + 1 < |recs| { ProbeNearest(recs, start, c + 1, tries + 1); }
  }

  /** A record never used so far is taken first, in the order of the table; after that the free record
      that comes next from the cursor, going round the table, and the cursor moves past it. */
  lemma SlotIsNext(recs: seq<Record>, nextNew: int, reused: int)
    requires |recs| > 0 && 0 <= nextNew && 0 <= reused <= |recs|
    ensures var s, start := FindSlot(recs, nextNew, reused), if reused == |recs| then 0 else reused;
            if nextNew < |recs| then s == Slot(nextNew, nextNew + 1, reused)
            else s.nextNew == nextNew && (0 <= s.idx < |recs| ==>
                   s.reused == s.idx + 1 && !recs[s.idx].used &&
                   forall j | 0 <= j < |recs| && !recs[j].used ::
                     Distance(start, s.idx, |recs|) <= Distance(start, j, |recs|))
  {
    if nextNew >= |recs| {
      var start := if reused == |recs| then 0 else reused;
      assert Probe(recs, reused, 0) == Probe(recs, start, 0);
      ProbeNearest(recs, start, start, 0);
      ProbeExact(recs, start, start, 0);
    }
  }

  // ---------- what the operations do ----------

  /** Some record assigned so far holds the base, whether it is in use or not. */
  predicate Held(m: Mem, base: int) {
    exists i :: 0 <= i < m.nextNew && i < |m.recs| && m.recs[i].ptr == base
  }

  datatype Verdict = Refuse | PassForeign | PassUntracked | PassTracked(i: int)

  /** How free and realloc classify a payload pointer from its header and the table. */
  function Judge(m: Mem, p: int): Verdict {
    var base := p - HDR;
    var h := HeaderAt(m, base);
    if !IsWrapper(h) then (if Held(m, base) then Refuse else PassForeign)
    else if h.data == base then PassUntracked
    else if !IsTableRecord(m.table, |m.recs|, h.data) then Refuse
    else
      var i := RecordIndex(m.table, h.data);
      if 0 <= i < |m.recs| && m.recs[i].used && m.recs[i].ptr == base then PassTracked(i) else Refuse
  }

  /** Registers the block that malloc returned. */
  function Alloc(m: Mem, b: int, size: int): Mem
    requires |m.recs| > 0 && 0 <= m.reused
  {
    var s := FindSlot(m.recs, m.nextNew, m.reused);
    var m' := m.(nextNew := s.nextNew, reused := s.reused, lost := m.lost - {b});
    if 0 <= s.idx < |m.recs| then
      m'.(recs := m.recs[s.idx := Record(b, size, true)], size := m.size + size, allocs := m.allocs + 1,
          hdr := m.hdr[b := Header(RecordAddress(m.table, s.idx), MAGIC)],
          blocks := m.blocks[b := Block(true, Tracked)])
    else
      m'.(hdr := m.hdr[b := Header(b, MAGIC)], blocks := m.blocks[b := Block(true, Untracked)])
  }

  /** The record of a block that is about to be freed. */
  function Released(m: Mem, i: int): Mem
    requires 0 <= i < |m.recs|
  {
    m.(recs := m.recs[i := m.recs[i].(used := false)], size := m.size - m.recs[i].size, frees := m.frees + 1)
  }

  /** libc free. */
  function LibcFree(m: Mem, a: int, left: Header): Mem {
    if !Alive(m, a) then m.(corrupted := true)
    else m.(blocks := m.blocks[a := Block(false, m.blocks[a].kind)], hdr := m.hdr[a := left])
  }

  /** libc realloc to ret, which is zero when it fails. */
  function LibcRealloc(m: Mem, a: int, ret: int, left: Header): Mem {
    if !Alive(m, a) then m.(corrupted := true)
    else if ret == 0 || ret == a then m
    else
      var m' := LibcFree(m, a, left);
      m'.(blocks := m'.blocks[ret := Block(true, m.blocks[a].kind)], lost := m.lost - {ret})
  }

  /** A tracked block after libc moved or resized it: the record follows the block. */
  function Moved(m: Mem, i: int, size: int, ret: int, left: Header): Mem
    requires 0 <= i < |m.recs|
  {
    var m' := LibcRealloc(m, m.recs[i].ptr, ret, left);
    m'.(recs := m.recs[i := Record(ret, size, true)], size := m.size - m.recs[i].size + size,
        reallocs := m.reallocs + 1, hdr := m'.hdr[ret := Header(RecordAddress(m.table, i), MAGIC)],
        lost := m'.lost - {ret})
  }

  function Apply(m: Mem, a: Step): Mem
    requires |m.recs| > 0 && 0 <= m.reused
  {
    match a
    case Malloc(size, ret) =>
      if size > SIZE_MAX - HDR || ret == 0 then m else Alloc(m, ret, size)
    case Free(p, left) =>
      if p == 0 then m else (
      match Judge(m, p)
      case Refuse => m
      case PassForeign => LibcFree(m, p, left)
      case PassUntracked => LibcFree(m, p - HDR, left)
      case PassTracked(i) =>
        LibcFree(Released(m, i), p - HDR, left))
    case Realloc(p, size, ret, left) =>
      if size > SIZE_MAX - HDR then m
      else if p == 0 then (if ret == 0 then m else Alloc(m, ret, size)) else (
      match Judge(m, p)
      case Refuse => m
      case PassForeign => LibcRealloc(m, p, ret, left)
      case PassUntracked =>
        var m' := LibcRealloc(m, p - HDR, ret, left);
        if ret == 0 then m' else m'.(hdr := m'.hdr[ret := Header(ret, MAGIC)])
      case PassTracked(i) =>
        if ret == 0 then LibcRealloc(m, p - HDR, ret, left) else Moved(m, i, size, ret, left))
    case ForeignMalloc(ret) => m.(blocks := m.blocks[ret := Block(true, Foreign)])
    case Scribble(base, h) => m.(hdr := m.hdr[base := h], lost := m.lost + {base})
  }

  // ---------- what libc and the callers may do ----------

  /** An address that libc may return: not in use and not inside the table. */
  predicate Fresh(m: Mem, ret: int) {
    0 < ret && !Alive(m, ret) && !(m.table <= ret < m.table + |m.recs| * RECORD)
  }

  /** The pointers a run may free or reallocate: the payload of a live block of this allocator, a
      live foreign block, and, again, the payload of a released tracked block as long as its header
      still is one of a wrapper block or some record holds its base. */
  predicate Tolerable(m: Mem, p: int) {
    var base := p - HDR;
    || AliveAs(m, base, Tracked)
    || AliveAs(m, base, Untracked)
    || (DeadTracked(m, base) && (IsWrapper(HeaderAt(m, base)) || Held(m, base)))
    || (AliveAs(m, p, Foreign) && !IsSelf(base, HeaderAt(m, base)))
  }

  /** libc never writes a header that claims to be an untracked block into a tracked one. */
  predicate Leaves(m: Mem, p: int, left: Header) {
    AliveAs(m, p - HDR, Tracked) ==> !IsSelf(p - HDR, left)
  }

  predicate Allowed(m: Mem, a: Step) {
    match a
    case Malloc(_, ret) => ret == 0 || Fresh(m, ret)
    case Free(p, left) => p == 0 || (Tolerable(m, p) && Leaves(m, p, left))
    case Realloc(p, _, ret, left) =>
      && (ret == 0 || Fresh(m, ret) || (p != 0 && ret == (if Judge(m, p).PassForeign? then p else p - HDR)))
      && (p == 0 || (Tolerable(m, p) && Leaves(m, p, left)))
    case ForeignMalloc(ret) => Fresh(m, ret)
    case Scribble(base, h) => base in m.blocks && m.blocks[base].kind.Tracked? && !IsSelf(base, h)
  }

  function Exec(m: Mem, sched: seq<Step>): Mem
    requires Inv(m)
    decreases |sched|
  {
    if |sched| == 0 then m
    else if !Allowed(m, sched[0]) then Exec(m, sched[1..])
    else StepKeepsInv(m, sched[0]); Exec(Apply(m, sched[0]), sched[1..])
  }

  // ---------- the invariant ----------

  function SumUsed(recs: seq<Record>): int {
    if |recs| == 0 then 0 else (if recs[0].used then recs[0].size else 0) + SumUsed(recs[1..])
  }

  function CountUsed(recs: seq<Record>): nat {
    if |recs| == 0 then 0 else (if recs[0].used then 1 else 0) + CountUsed(recs[1..])
  }

  lemma {:induction false} UsedUpdate(recs: seq<Record>, i: int, r: Record)
    requires 0 <= i < |recs|
    ensures SumUsed(recs[i := r])
         == SumUsed(recs) - (if recs[i].used then recs[i].size else 0) + (if r.used then r.size else 0)
    ensures CountUsed(recs[i := r]) == CountUsed(recs) - (if recs[i].used then 1 else 0) + (if r.used then 1 else 0)
  {
    if i == 0 {
      assert recs[i := r][1..] == recs[1..];
    } else {
      assert recs[i := r][1..] == recs[1..][i - 1 := r];
      UsedUpdate(recs[1..], i - 1, r);
    }
  }

  ghost predicate TableInv(m: Mem) {
    && TableFits(m.table, |m.recs|)
    && 0 <= m.nextNew <= |m.recs| && 0 <= m.reused <= |m.recs|
    && (forall i | m.nextNew <= i < |m.recs| :: !m.recs[i].used)
    && (forall i, j | 0 <= i < j < |m.recs| && m.recs[i].used && m.recs[j].used :: m.recs[i].ptr != m.recs[j].ptr)
    && m.size == SumUsed(m.recs)
    && CountUsed(m.recs) + m.frees == m.allocs
  }

  predicate UsedFor(m: Mem, i: int, base: int) {
    0 <= i < |m.recs| && m.recs[i].used && m.recs[i].ptr == base
  }

  ghost predicate Owned(m: Mem, base: int) {
    exists i :: UsedFor(m, i, base)
  }

  /** Records not concerned by a step keep their blocks owned. */
  lemma OwnersStay(m: Mem, m': Mem, gone: int)
    requires |m.recs| == |m'.recs|
    requires forall i | 0 <= i < |m.recs| && m.recs[i].used && m.recs[i].ptr != gone :: m'.recs[i] == m.recs[i]
    ensures forall b | b != gone && Owned(m, b) :: Owned(m', b)
  {
    forall b | b != gone && Owned(m, b) ensures Owned(m', b) {
      var i :| UsedFor(m, i, b);
      assert UsedFor(m', i, b);
    }
  }

  /** A live block lies outside the table, a tracked one is owned by a record, and its header never
      passes for that of an untracked block; an untracked block has its self-referencing header. */
  ghost predicate BlockOk(m: Mem, b: int) {
    b in m.blocks ==>
      && (m.blocks[b].kind.Tracked? ==> !IsSelf(b, HeaderAt(m, b)))
      && (m.blocks[b].live ==>
            && 0 < b && !(m.table <= b < m.table + |m.recs| * RECORD)
            && (m.blocks[b].kind.Tracked? ==> Owned(m, b))
            && (m.blocks[b].kind.Untracked? ==> HeaderAt(m, b) == Header(b, MAGIC)))
  }

  /** The block of a used record is live, and its header points back unless it was overwritten. */
  predicate RecordOk(m: Mem, i: int) {
    0 <= i < |m.recs| && m.recs[i].used ==>
      && AliveAs(m, m.recs[i].ptr, Tracked)
      && (m.recs[i].ptr !in m.lost ==> HeaderAt(m, m.recs[i].ptr) == Header(RecordAddress(m.table, i), MAGIC))
  }

  ghost predicate Inv(m: Mem) {
    TableInv(m) && (forall b :: BlockOk(m, b)) && (forall i :: RecordOk(m, i)) && !m.corrupted
  }

  lemma AllocTableInv(m: Mem, b: int, size: int)
    requires Inv(m) && Fresh(m, b)
    ensures TableInv(Alloc(m, b, size)) && |Alloc(m, b, size).recs| == |m.recs|
    ensures var idx := FindSlot(m.recs, m.nextNew, m.reused).idx;
            0 <= idx <= |m.recs| && (idx < |m.recs| ==> !m.recs[idx].used)
  {
    SlotSearchExact(m.recs, m.nextNew, m.reused);
    var s := FindSlot(m.recs, m.nextNew, m.reused);
    forall i | 0 <= i < |m.recs| && m.recs[i].used ensures m.recs[i].ptr != b { assert RecordOk(m, i); }
    if s.idx < |m.recs| { UsedUpdate(m.recs, s.idx, Record(b, size, true)); }
  }

  lemma AllocKeeps(m: Mem, b: int, size: int)
    requires Inv(m) && Fresh(m, b)
    ensures Inv(Alloc(m, b, size))
  {
    AllocTableInv(m, b, size);
    var m' := Alloc(m, b, size);
    OwnersStay(m, m', 0);
    var idx := FindSlot(m.recs, m.nextNew, m.reused).idx;
    forall x ensures BlockOk(m', x) {
      assert BlockOk(m, x);
      if x == b && idx < |m.recs| { assert UsedFor(m', idx, b); }
    }
    forall i ensures RecordOk(m', i) { assert RecordOk(m, i); }
  }

  /** On a tolerable pointer the verdict fits the block. */
  lemma JudgeFits(m: Mem, p: int)
    requires Inv(m) && Tolerable(m, p)
    ensures match Judge(m, p)
            case Refuse => true
            case PassForeign => AliveAs(m, p, Foreign)
            case PassUntracked => AliveAs(m, p - HDR, Untracked)
            case PassTracked(i) => UsedFor(m, i, p - HDR) && AliveAs(m, p - HDR, Tracked)
  {
    var base := p - HDR;
    assert BlockOk(m, base);
    if Judge(m, p).PassTracked? { assert RecordOk(m, Judge(m, p).i); }
    if AliveAs(m, base, Tracked) {
      var i :| UsedFor(m, i, base);
      assert Held(m, base);
    }
  }

  lemma FreeTrackedKeeps(m: Mem, i: int, left: Header)
    requires Inv(m) && 0 <= i < |m.recs| && m.recs[i].used && !IsSelf(m.recs[i].ptr, left)
    ensures Inv(LibcFree(Released(m, i), m.recs[i].ptr, left))
  {
    var base := m.recs[i].ptr;
    var m' := LibcFree(Released(m, i), base, left);
    UsedUpdate(m.recs, i, m.recs[i].(used := false));
    assert RecordOk(m, i);
    OwnersStay(m, m', base);
    forall x ensures BlockOk(m', x) { assert BlockOk(m, x); }
    forall j ensures RecordOk(m', j) { assert RecordOk(m, j); }
  }

  lemma FreeOtherKeeps(m: Mem, a: int, left: Header)
    requires Inv(m) && Alive(m, a) && !m.blocks[a].kind.Tracked?
    ensures Inv(LibcFree(m, a, left))
  {
    var m' := LibcFree(m, a, left);
    OwnersStay(m, m', 0);
    forall x ensures BlockOk(m', x) { assert BlockOk(m, x); }
    forall j ensures RecordOk(m', j) { assert RecordOk(m, j); }
  }

  lemma ReallocForeignKeeps(m: Mem, a: int, ret: int, left: Header)
    requires Inv(m) && AliveAs(m, a, Foreign) && (ret == a || Fresh(m, ret))
    ensures Inv(LibcRealloc(m, a, ret, left))
  {
    var m' := LibcRealloc(m, a, ret, left);
    OwnersStay(m, m', 0);
    forall x ensures BlockOk(m', x) { assert BlockOk(m, x); }
    forall j ensures RecordOk(m', j) { assert RecordOk(m, j); }
  }

  lemma ReallocUntrackedKeeps(m: Mem, a: int, ret: int, left: Header)
    requires Inv(m) && AliveAs(m, a, Untracked) && (ret == a || Fresh(m, ret))
    ensures var m1 := LibcRealloc(m, a, ret, left);
            Inv(m1.(hdr := m1.hdr[ret := Header(ret, MAGIC)]))
  {
    var m1 := LibcRealloc(m, a, ret, left);
    var m' := m1.(hdr := m1.hdr[ret := Header(ret, MAGIC)]);
    OwnersStay(m, m', 0);
    assert BlockOk(m, a);
    forall x ensures BlockOk(m', x) { assert BlockOk(m, x); }
    forall j ensures RecordOk(m', j) { assert RecordOk(m, j); }
  }

  lemma MovedTableInv(m: Mem, i: int, size: nat, ret: int, left: Header)
    requires Inv(m) && 0 <= i < |m.recs| && m.recs[i].used && (ret == m.recs[i].ptr || Fresh(m, ret))
    ensures TableInv(Moved(m, i, size, ret, left))
  {
    UsedUpdate(m.recs, i, Record(ret, size, true));
    forall j | 0 <= j < |m.recs| && m.recs[j].used && j != i ensures m.recs[j].ptr != ret { assert RecordOk(m, j); }
  }

  lemma MovedKeeps(m: Mem, i: int, size: nat, ret: int, left: Header)
    requires Inv(m) && 0 <= i < |m.recs| && m.recs[i].used && !IsSelf(m.recs[i].ptr, left)
    requires ret == m.recs[i].ptr || Fresh(m, ret)
    ensures Inv(Moved(m, i, size, ret, left))
  {
    var base, m' := m.recs[i].ptr, Moved(m, i, size, ret, left);
    MovedTableInv(m, i, size, ret, left);
    assert RecordOk(m, i);
    assert BlockOk(m, base);
    OwnersStay(m, m', base);
    assert UsedFor(m', i, ret);
    assert 0 <= i * RECORD < |m.recs| * RECORD;
    forall x ensures BlockOk(m', x) { assert BlockOk(m, x); }
    forall j ensures RecordOk(m', j) { assert RecordOk(m, j); }
  }

  lemma FreeKeeps(m: Mem, p: int, left: Header)
    requires Inv(m) && Allowed(m, Free(p, left)) && p != 0
    ensures Inv(Apply(m, Free(p, left)))
  {
    JudgeFits(m, p);
    match Judge(m, p)
    case Refuse =>
    case PassForeign => FreeOtherKeeps(m, p, left);
    case PassUntracked => FreeOtherKeeps(m, p - HDR, left);
    case PassTracked(i) => FreeTrackedKeeps(m, i, left);
  }

  lemma ReallocKeeps(m: Mem, p: int, size: nat, ret: int, left: Header)
    requires Inv(m) && Allowed(m, Realloc(p, size, ret, left)) && p != 0 && ret != 0 && size <= SIZE_MAX - HDR
    ensures Inv(Apply(m, Realloc(p, size, ret, left)))
  {
    JudgeFits(m, p);
    match Judge(m, p)
    case Refuse =>
    case PassForeign => ReallocForeignKeeps(m, p, ret, left);
    case PassUntracked => ReallocUntrackedKeeps(m, p - HDR, ret, left);
    case PassTracked(i) => MovedKeeps(m, i, size, ret, left);
  }

  lemma StepKeepsInv(m: Mem, a: Step)
    requires Inv(m) && Allowed(m, a)
    ensures Inv(Apply(m, a))
  {
    match a
    case Malloc(size, ret) =>
      if ret != 0 && size <= SIZE_MAX - HDR { AllocKeeps(m, ret, size); }
    case Free(p, left) =>
      if p != 0 { FreeKeeps(m, p, left); }
    case Realloc(p, size, ret, left) =>
      if ret != 0 && size <= SIZE_MAX - HDR {
        if p == 0 { AllocKeeps(m, ret, size); } else { ReallocKeeps(m, p, size, ret, left); }
      } else if p != 0 {
        JudgeFits(m, p);
      }
    case ForeignMalloc(ret) => ForeignKeeps(m, ret);
    case Scribble(base, h) => ScribbleKeeps(m, base, h);
  }

  lemma ForeignKeeps(m: Mem, ret: int)
    requires Inv(m) && Fresh(m, ret)
    ensures Inv(Apply(m, ForeignMalloc(ret)))
  {
    var m' := Apply(m, ForeignMalloc(ret));
    OwnersStay(m, m', 0);
    forall x ensures BlockOk(m', x) { assert BlockOk(m, x); }
    forall j ensures RecordOk(m', j) { assert RecordOk(m, j); }
  }

  lemma ScribbleKeeps(m: Mem, base: int, h: Header)
    requires Inv(m) && Allowed(m, Scribble(base, h))
    ensures Inv(Apply(m, Scribble(base, h)))
  {
    var m' := Apply(m, Scribble(base, h));
    OwnersStay(m, m', 0);
    forall x ensures BlockOk(m', x) { assert BlockOk(m, x); }
    forall j ensures RecordOk(m', j) { assert RecordOk(m, j); }
  }

  lemma {:induction false} ExecKeepsInv(m: Mem, sched: seq<Step>)
    requires Inv(m)
    ensures Inv(Exec(m, sched))
    decreases |sched|
  {
    if |sched| > 0 {
      if Allowed(m, sched[0]) {
        StepKeepsInv(m, sched[0]);
        ExecKeepsInv(Apply(m, sched[0]), sched[1..]);
      } else {
        ExecKeepsInv(m, sched[1..]);
      }
    }
  }

  // ---------- the main results ----------

  /** A tracker just initialized; blocks allocated before are untracked or foreign. */
  ghost predicate Initial(m: Mem) {
    && TableFits(m.table, |m.recs|)
    && (forall i | 0 <= i < |m.recs| :: m.recs[i] == Record(0, 0, false))
    && m.nextNew == 0 && m.reused == 0 && m.size == 0 && m.allocs == 0 && m.reallocs == 0 && m.frees == 0
    && m.lost == {} && !m.corrupted
    && (forall b :: b in m.blocks ==> !m.blocks[b].kind.Tracked?)
    && (forall b :: BlockOk(m, b))
  }

  lemma {:induction false} NoneUsed(recs: seq<Record>)
    requires forall i | 0 <= i < |recs| :: !recs[i].used
    ensures SumUsed(recs) == 0 && CountUsed(recs) == 0
  {
    if |recs| > 0 { NoneUsed(recs[1..]); }
  }

  lemma InitialHasInv(m: Mem)
    requires Initial(m)
    ensures Inv(m)
  {
    NoneUsed(m.recs);
    forall i ensures RecordOk(m, i) {}
  }

  /** Over every run of malloc, realloc and free, with moving, in-place and failing reallocations,
      overwritten headers and repeated frees: libc is only ever given live blocks, the recorded size
      is the sum over the used records, which number the allocations minus the frees, used records
      hold distinct live bases, and each header not overwritten points at its own record. */
  lemma RunKeepsAccounts(m: Mem, sched: seq<Step>)
    requires Initial(m)
    ensures Inv(m) && var s := Exec(m, sched);
            && !s.corrupted
            && s.size == SumUsed(s.recs) && CountUsed(s.recs) + s.frees == s.allocs
            && (forall i, j | 0 <= i < j < |s.recs| && s.recs[i].used && s.recs[j].used ::
                  s.recs[i].ptr != s.recs[j].ptr)
            && (forall i | 0 <= i < |s.recs| && s.recs[i].used ::
                  && AliveAs(s, s.recs[i].ptr, Tracked)
                  && (s.recs[i].ptr !in s.lost ==>
                        HeaderAt(s, s.recs[i].ptr) == Header(RecordAddress(s.table, i), MAGIC)))
  {
    InitialHasInv(m);
    ExecKeepsInv(m, sched);
    var s := Exec(m, sched);
    forall i | 0 <= i < |s.recs| && s.recs[i].used
      ensures AliveAs(s, s.recs[i].ptr, Tracked)
           && (s.recs[i].ptr !in s.lost ==> HeaderAt(s, s.recs[i].ptr) == Header(RecordAddress(s.table, i), MAGIC))
    {
      assert RecordOk(s, i);
    }
  }

  lemma DeadHasNoRecord(m: Mem, base: int)
    requires Inv(m) && DeadTracked(m, base)
    ensures forall i :: !UsedFor(m, i, base)
  {
    forall i ensures !UsedFor(m, i, base) { assert RecordOk(m, i); }
  }

  lemma DeadRefused(m: Mem, base: int)
    requires Inv(m) && DeadTracked(m, base) && IsWrapper(HeaderAt(m, base))
    ensures Judge(m, base + HDR) == Refuse
  {
    assert BlockOk(m, base);
    DeadHasNoRecord(m, base);
    assert !UsedFor(m, RecordIndex(m.table, HeaderAt(m, base).data), base);
  }

  /** A released tracked block is refused by free and realloc, which then change nothing, exactly when
      its header still reads as a wrapper header or some record holds its base; otherwise its payload
      pointer is taken for a foreign block and reaches libc. */
  lemma DoubleFreeRefusedExactly(m: Mem, sched: seq<Step>, base: int, size: nat, ret: int, left: Header)
    requires Initial(m) && Inv(m) && DeadTracked(Exec(m, sched), base) && base + HDR != 0 && size <= SIZE_MAX - HDR
    ensures Inv(Exec(m, sched)) && var s := Exec(m, sched);
            && (Judge(s, base + HDR).Refuse? <==> IsWrapper(HeaderAt(s, base)) || Held(s, base))
            && (Judge(s, base + HDR).Refuse? ==>
                  Apply(s, Free(base + HDR, left)) == s && Apply(s, Realloc(base + HDR, size, ret, left)) == s)
            && (!Judge(s, base + HDR).Refuse? ==>
                  (Apply(s, Free(base + HDR, left)).corrupted <==> !Alive(s, base + HDR)))
  {
    ExecKeepsInv(m, sched);
    var s := Exec(m, sched);
    assert BlockOk(s, base);
    DeadHasNoRecord(s, base);
    if IsWrapper(HeaderAt(s, base)) { DeadRefused(s, base); }
  }

  /** A live tracked block with an intact header is never refused: free releases that very block and
      its record, and its size leaves the account.  One whose header was overwritten with anything but
      a wrapper header is refused and stays live; an untracked block is released.  A realloc that
      fails leaves either as it is. */
  lemma LiveBlocksServed(m: Mem, sched: seq<Step>, base: int, size: nat, left: Header)
    requires Initial(m) && Inv(m) && Alive(Exec(m, sched), base) && base + HDR != 0
    ensures Inv(Exec(m, sched)) && var s := Exec(m, sched);
            var s' := Apply(s, Free(base + HDR, left));
            && (AliveAs(s, base, Tracked) && base !in s.lost ==>
                  exists i :: UsedFor(s, i, base) && Judge(s, base + HDR) == PassTracked(i) &&
                              s'.recs == s.recs[i := Record(base, s.recs[i].size, false)] &&
                              s'.size == s.size - s.recs[i].size && s'.frees == s.frees + 1 &&
                              s'.allocs == s.allocs && s'.reallocs == s.reallocs &&
                              s'.blocks == s.blocks[base := Block(false, Tracked)])
            && (!s.blocks[base].kind.Foreign? ==> Apply(s, Realloc(base + HDR, size, 0, left)) == s)
            && (AliveAs(s, base, Tracked) && !IsWrapper(HeaderAt(s, base)) ==> s' == s)
            && (AliveAs(s, base, Untracked) ==>
                  s'.recs == s.recs && s'.blocks == s.blocks[base := Block(false, Untracked)])
  {
    ExecKeepsInv(m, sched);
    var s := Exec(m, sched);
    assert BlockOk(s, base);
    if AliveAs(s, base, Tracked) {
      if base !in s.lost { var i := OwnRecord(s, base); }
      if !IsWrapper(HeaderAt(s, base)) {
        var i :| UsedFor(s, i, base);
        assert Held(s, base);
      }
    }
  }

  /** A live block with an intact header leads to its own record. */
  lemma OwnRecord(s: Mem, base: int) returns (i: int)
    requires Inv(s) && AliveAs(s, base, Tracked) && base !in s.lost
    ensures UsedFor(s, i, base) && Judge(s, base + HDR) == PassTracked(i)
  {
    assert BlockOk(s, base);
    i :| UsedFor(s, i, base);
    assert RecordOk(s, i);
    RecordAddressIndex(s.table, |s.recs|, i);
    assert RecordAddress(s.table, i) != base by { assert 0 <= i * RECORD < |s.recs| * RECORD; }
  }

  /** The counts other than the reallocations. */
  predicate SameCounts(s: Mem, s': Mem) { s'.allocs == s.allocs && s'.frees == s.frees }

  /** What libc does with the blocks when it moves one or resizes it in place. */
  predicate Relocated(s: Mem, s': Mem, from: int, to: int)
    requires from in s.blocks
  {
    s'.blocks == if to == from then s.blocks
                 else s.blocks[from := Block(false, s.blocks[from].kind)][to := Block(true, s.blocks[from].kind)]
  }

  /** A reallocation of a live tracked block with an intact header succeeds whenever libc does: the
      record of the block holds the new address and the size asked for, no other record changes, the
      account grows by the difference, and the header at the new address points at that record.  An
      untracked block keeps its self-referencing header and no record changes. */
  lemma ReallocFollows(m: Mem, sched: seq<Step>, base: int, size: nat, ret: int, left: Header)
    requires Initial(m) && Inv(m) && Alive(Exec(m, sched), base) && base + HDR != 0 && size <= SIZE_MAX - HDR
    requires ret != 0 && (ret == base || Fresh(Exec(m, sched), ret))
    ensures Inv(Exec(m, sched)) && var s := Exec(m, sched);
            var s' := Apply(s, Realloc(base + HDR, size, ret, left));
            && (AliveAs(s, base, Tracked) && base !in s.lost ==>
                  && Relocated(s, s', base, ret) && SameCounts(s, s') && s'.reallocs == s.reallocs + 1
                  && exists i :: UsedFor(s, i, base) && s'.recs == s.recs[i := Record(ret, size, true)] &&
                                 s'.size == s.size - s.recs[i].size + size && ret !in s'.lost &&
                                 HeaderAt(s', ret) == Header(RecordAddress(s.table, i), MAGIC))
            && (AliveAs(s, base, Untracked) ==>
                  && Relocated(s, s', base, ret) && SameCounts(s, s') && s'.recs == s.recs && s'.size == s.size
                  && HeaderAt(s', ret) == Header(ret, MAGIC))
  {
    ExecKeepsInv(m, sched);
    var s := Exec(m, sched);
    assert BlockOk(s, base);
    if AliveAs(s, base, Tracked) && base !in s.lost { var i := OwnRecord(s, base); }
  }

  predicate SomeFree(s: Mem) { exists i :: 0 <= i < |s.recs| && !s.recs[i].used }

  /** A malloc, or a realloc of null, takes a free record exactly when there is one, and writes the block
      with the size asked for into it and into no other; otherwise the block is untracked. */
  lemma MallocRegisters(m: Mem, sched: seq<Step>, size: nat, ret: int, left: Header)
    requires Initial(m) && Inv(m) && Fresh(Exec(m, sched), ret) && size <= SIZE_MAX - HDR
    ensures Inv(Exec(m, sched)) && var s := Exec(m, sched);
            var s' := Apply(s, Malloc(size, ret));
            && s'.blocks == s.blocks[ret := Block(true, if SomeFree(s) then Tracked else Untracked)]
            && s'.reallocs == s.reallocs && s'.frees == s.frees && ret !in s'.lost
            && Apply(s, Realloc(0, size, ret, left)) == s'
            && (!SomeFree(s) ==>
                  && s'.recs == s.recs && s'.size == s.size && s'.allocs == s.allocs
                  && HeaderAt(s', ret) == Header(ret, MAGIC))
            && (SomeFree(s) ==>
                  && s'.size == s.size + size && s'.allocs == s.allocs + 1
                  && exists i :: 0 <= i < |s.recs| && !s.recs[i].used &&
                                 s'.recs == s.recs[i := Record(ret, size, true)] &&
                                 HeaderAt(s', ret) == Header(RecordAddress(s.table, i), MAGIC))
  {
    ExecKeepsInv(m, sched);
    var s := Exec(m, sched);
    SlotSearchExact(s.recs, s.nextNew, s.reused);
  }

  /** A request whose size with the header would overflow, one that libc cannot serve, and a free of
      null change nothing. */
  lemma EmptyCallsChangeNothing(m: Mem, sched: seq<Step>, p: int, size: nat, ret: int, left: Header)
    requires Initial(m) && Inv(m) && (size > SIZE_MAX - HDR || ret == 0)
    ensures Inv(Exec(m, sched)) && var s := Exec(m, sched);
            && Apply(s, Malloc(size, ret)) == s && Apply(s, Realloc(0, size, ret, left)) == s
            && Apply(s, Free(0, left)) == s && (size > SIZE_MAX - HDR ==> Apply(s, Realloc(p, size, ret, left)) == s)
  {
    ExecKeepsInv(m, sched);
  }

  /** A block of another allocator, whose bytes below do not read as a header and whose base no record
      holds, goes to libc as it came, and the tracker stays as it is. */
  lemma ForeignPasses(m: Mem, sched: seq<Step>, p: int, size: nat, ret: int, left: Header)
    requires Initial(m) && Inv(m) && AliveAs(Exec(m, sched), p, Foreign) && p != 0 && size <= SIZE_MAX - HDR
    requires !IsWrapper(HeaderAt(Exec(m, sched), p - HDR)) && !Held(Exec(m, sched), p - HDR)
    requires ret != 0
    ensures Inv(Exec(m, sched)) && var s := Exec(m, sched);
            var f, r := Apply(s, Free(p, left)), Apply(s, Realloc(p, size, ret, left));
            && f == s.(blocks := s.blocks[p := Block(false, Foreign)], hdr := s.hdr[p := left])
            && Relocated(s, r, p, ret) && SameCounts(s, r) && r.recs == s.recs && r.size == s.size
  {
    ExecKeepsInv(m, sched);
    assert Judge(Exec(m, sched), p) == PassForeign;
  }

  // ---------- the sizes asked for ----------

  /** The size last asked for of each block, after one more call: a malloc asks, and so does a
      reallocation of a block of this allocator that is not refused. */
  function Asked(m: Mem, a: Step, sizes: map<int, nat>): map<int, nat> {
    match a
    case Malloc(size, ret) => if size <= SIZE_MAX - HDR && ret != 0 then sizes[ret := size] else sizes
    case Realloc(p, size, ret, _) =>
      if size > SIZE_MAX - HDR || ret == 0 then sizes
      else if p == 0 || Judge(m, p).PassTracked? || Judge(m, p).PassUntracked? then sizes[ret := size]
      else sizes
    case _ => sizes
  }

  function AskedIn(m: Mem, sched: seq<Step>, sizes: map<int, nat>): map<int, nat>
    requires Inv(m)
    decreases |sched|
  {
    if |sched| == 0 then sizes
    else if !Allowed(m, sched[0]) then AskedIn(m, sched[1..], sizes)
    else StepKeepsInv(m, sched[0]); AskedIn(Apply(m, sched[0]), sched[1..], Asked(m, sched[0], sizes))
  }

  predicate SizeOk(m: Mem, sizes: map<int, nat>, i: int) {
    0 <= i < |m.recs| && m.recs[i].used ==> m.recs[i].ptr in sizes && m.recs[i].size == sizes[m.recs[i].ptr]
  }

  ghost predicate SizesOk(m: Mem, sizes: map<int, nat>) { forall i :: SizeOk(m, sizes, i) }

  lemma AskedByMalloc(m: Mem, size: nat, ret: int, sizes: map<int, nat>)
    requires Inv(m) && SizesOk(m, sizes) && Fresh(m, ret)
    ensures SizesOk(Alloc(m, ret, size), sizes[ret := size])
  {
    AllocTableInv(m, ret, size);
    var m', sizes' := Alloc(m, ret, size), sizes[ret := size];
    forall i ensures SizeOk(m', sizes', i) {
      assert SizeOk(m, sizes, i) && RecordOk(m, i);
    }
  }

  lemma AskedByRealloc(m: Mem, p: int, size: nat, ret: int, left: Header, sizes: map<int, nat>)
    requires Inv(m) && SizesOk(m, sizes) && Allowed(m, Realloc(p, size, ret, left))
    requires p != 0 && ret != 0 && size <= SIZE_MAX - HDR
    ensures SizesOk(Apply(m, Realloc(p, size, ret, left)), Asked(m, Realloc(p, size, ret, left), sizes))
  {
    var a := Realloc(p, size, ret, left);
    JudgeFits(m, p);
    forall i ensures SizeOk(Apply(m, a), Asked(m, a, sizes), i) {
      assert SizeOk(m, sizes, i) && RecordOk(m, i);
    }
  }

  lemma AskedByFree(m: Mem, p: int, left: Header, sizes: map<int, nat>)
    requires Inv(m) && SizesOk(m, sizes) && Allowed(m, Free(p, left))
    ensures SizesOk(Apply(m, Free(p, left)), sizes)
  {
    if p != 0 { JudgeFits(m, p); }
    forall i ensures SizeOk(Apply(m, Free(p, left)), sizes, i) { assert SizeOk(m, sizes, i); }
  }

  lemma AskedStep(m: Mem, a: Step, sizes: map<int, nat>)
    requires Inv(m) && SizesOk(m, sizes) && Allowed(m, a)
    ensures SizesOk(Apply(m, a), Asked(m, a, sizes))
  {
    match a
    case Malloc(size, ret) =>
      if size <= SIZE_MAX - HDR && ret != 0 { AskedByMalloc(m, size, ret, sizes); }
    case Realloc(p, size, ret, left) =>
      if size <= SIZE_MAX - HDR && ret != 0 {
        if p == 0 { AskedByMalloc(m, size, ret, sizes); } else { AskedByRealloc(m, p, size, ret, left, sizes); }
      } else if p != 0 {
        JudgeFits(m, p);
      }
    case Free(p, left) => AskedByFree(m, p, left, sizes);
    case _ => forall i ensures SizeOk(Apply(m, a), sizes, i) { assert SizeOk(m, sizes, i); }
  }

  lemma {:induction false} AskedRun(m: Mem, sched: seq<Step>, sizes: map<int, nat>)
    requires Inv(m) && SizesOk(m, sizes)
    ensures SizesOk(Exec(m, sched), AskedIn(m, sched, sizes))
    decreases |sched|
  {
    if |sched| > 0 {
      if Allowed(m, sched[0]) {
        StepKeepsInv(m, sched[0]);
        AskedStep(m, sched[0], sizes);
        AskedRun(Apply(m, sched[0]), sched[1..], Asked(m, sched[0], sizes));
      } else {
        AskedRun(m, sched[1..], sizes);
      }
    }
  }

  /** Over every run the size in a used record is the one last asked for of its block. */
  lemma RecordedSizeIsLastAsked(m: Mem, sched: seq<Step>, i: int)
    requires Initial(m) && Inv(m) && 0 <= i < |Exec(m, sched).recs| && Exec(m, sched).recs[i].used
    ensures var r, sizes := Exec(m, sched).recs[i], AskedIn(m, sched, map[]);
            r.ptr in sizes && r.size == sizes[r.ptr]
  {
    assert SizesOk(m, map[]) by {
      forall k ensures SizeOk(m, map[], k) {}
    }
    AskedRun(m, sched, map[]);
    assert SizeOk(Exec(m, sched), AskedIn(m, sched, map[]), i);
  }

  /** Allocating on a table of one free record that no search has passed yet. */
  lemma OneRecordAlloc(m: Mem, b: int)
    requires Inv(m) && |m.recs| == 1 && !m.recs[0].used && m.reused == 0 && Fresh(m, b)
    ensures var m' := Apply(m, Malloc(8, b));
            && Inv(m') && Allowed(m, Malloc(8, b))
            && m'.table == m.table && m'.recs == [Record(b, 8, true)] && m'.lost == m.lost - {b}
            && m'.hdr == m.hdr[b := Header(m.table, MAGIC)] && m'.blocks == m.blocks[b := Block(true, Tracked)]
            && (m.nextNew == 0 ==> m'.reused == 0)
  {
    AllocKeeps(m, b, 8);
    assert FindSlot(m.recs, m.nextNew, m.reused).idx == 0;
    assert m.recs[0 := Record(b, 8, true)] == [Record(b, 8, true)];
  }

  lemma OneRecordFree(m: Mem, b: int)
    requires Inv(m) && m.recs == [Record(b, 8, true)] && b !in m.lost && b + HDR != 0
    ensures var a := Free(b + HDR, Header(0, 0));
            var m' := Apply(m, a);
            && Inv(m') && Allowed(m, a)
            && m'.table == m.table && m'.recs == [Record(b, 8, false)] && m'.reused == m.reused
            && m'.hdr == m.hdr[b := Header(0, 0)] && m'.blocks == m.blocks[b := Block(false, Tracked)]
            && m'.lost == m.lost
  {
    assert RecordOk(m, 0);
    RecordAddressIndex(m.table, 1, 0);
    assert RecordAddress(m.table, 0) != b by { assert BlockOk(m, b); }
    assert Judge(m, b + HDR) == PassTracked(0);
    assert BlockOk(m, b);
    FreeKeeps(m, b + HDR, Header(0, 0));
    assert m.recs[0 := m.recs[0].(used := false)] == [Record(b, 8, false)];
  }

  lemma ExecThree(m: Mem, a: Step, b: Step, c: Step)
    requires Inv(m) && Allowed(m, a)
    requires Inv(Apply(m, a)) && Allowed(Apply(m, a), b)
    requires Inv(Apply(Apply(m, a), b)) && Allowed(Apply(Apply(m, a), b), c)
    ensures Exec(m, [a, b, c]) == Apply(Apply(Apply(m, a), b), c)
  {
    var m1, m2 := Apply(m, a), Apply(Apply(m, a), b);
    assert [c][1..] == [] && [b, c][1..] == [c] && [a, b, c][1..] == [b, c];
    StepKeepsInv(m2, c);
    assert Exec(m2, [c]) == Exec(Apply(m2, c), []);
    assert Exec(m1, [b, c]) == Exec(m2, [c]);
  }

  lemma ReuseRun(m: Mem, b1: int, b2: int) returns (sched: seq<Step>)
    requires Initial(m) && Inv(m) && |m.recs| == 1 && m.blocks == map[]
    requires Fresh(m, b1) && Fresh(m, b2) && b1 != b2
    ensures Inv(Exec(m, sched)) && Exec(m, sched).recs == [Record(b2, 8, true)]
    ensures HeaderAt(Exec(m, sched), b1) == Header(0, 0)
    ensures Exec(m, sched).blocks == map[b1 := Block(false, Tracked), b2 := Block(true, Tracked)]
  {
    var a, b, c := Malloc(8, b1), Free(b1 + HDR, Header(0, 0)), Malloc(8, b2);
    OneRecordAlloc(m, b1);
    var m1 := Apply(m, a);
    OneRecordFree(m1, b1);
    var m2 := Apply(m1, b);
    assert Fresh(m2, b2);
    OneRecordAlloc(m2, b2);
    ExecThree(m, a, b, c);
    sched := [a, b, c];
  }

  lemma NotHeldPasses(m: Mem, b1: int, b2: int)
    requires Inv(m) && m.recs == [Record(b2, 8, true)] && HeaderAt(m, b1) == Header(0, 0)
    requires b1 != b2 && b2 != b1 + HDR && b1 + HDR != 0
    requires m.blocks == map[b1 := Block(false, Tracked), b2 := Block(true, Tracked)]
    ensures Apply(m, Free(b1 + HDR, Header(0, 0))).corrupted
  {
    assert !Held(m, b1);
    assert Judge(m, b1 + HDR) == PassForeign;
  }

  /** The condition is needed: with a table of one record, after malloc, free and a malloc that reuses
      the record, freeing the first pointer again hands libc an address that is not a live block. */
  lemma ReusedRecordLosesTrack(m: Mem, b1: int, b2: int)
    requires Initial(m) && Inv(m) && |m.recs| == 1 && m.blocks == map[]
    requires Fresh(m, b1) && Fresh(m, b2) && b1 != b2 && b2 != b1 + HDR
    ensures exists sched :: Inv(Exec(m, sched)) && DeadTracked(Exec(m, sched), b1)
                            && Apply(Exec(m, sched), Free(b1 + HDR, Header(0, 0))).corrupted
  {
    var sched := ReuseRun(m, b1, b2);
    NotHeldPasses(Exec(m, sched), b1, b2);
    assert DeadTracked(Exec(m, sched), b1);
  }

  // ---------- the tracker as an object ----------

  /** The tracker and the memory below it.  `ret` and `left` are what libc returns and what it leaves
      in the header of a released block; blocks, lost and corrupted only serve the statements. */
  class Tracker {
    const table: int
    const data: array<Record>
    var nextNew: int
    var reused: int
    var size: int
    var allocs: nat
    var reallocs: nat
    var frees: nat
    var hdr: map<int, Header>
    ghost var blocks: map<int, Block>
    ghost var lost: set<int>
    ghost var corrupted: bool

    constructor (table: int, count: nat)
      requires TableFits(table, count)
      ensures fresh(data) && Initial(View()) && data.Length == count
    {
      this.table := table;
      data := new Record[count](_ => Record(0, 0, false));
      nextNew, reused, size, allocs, reallocs, frees := 0, 0, 0, 0, 0, 0;
      hdr, blocks, lost, corrupted := map[], map[], {}, false;
      new;
      forall b ensures BlockOk(View(), b) {}
    }

    ghost function View(): Mem
      reads this, data
    {
      Mem(table, data[..], nextNew, reused, size, allocs, reallocs, frees, hdr, blocks, lost, corrupted)
    }

    /** The slot search of otelc_dbg_mem_alloc; the loop counter doubles as the result. */
    method TakeSlot() returns (idx: int)
      requires data.Length > 0 && 0 <= nextNew && 0 <= reused
      modifies this`nextNew, this`reused
      ensures Slot(idx, nextNew, reused) == FindSlot(data[..], old(nextNew), old(reused))
    {
      idx := 0;
      if nextNew < data.Length {
        idx := nextNew;
        nextNew := nextNew + 1;
        return;
      }
      ghost var recs, start := data[..], reused;
      while true
        invariant 0 <= idx < data.Length && 0 <= reused && nextNew == old(nextNew) && data[..] == recs
        invariant Probe(recs, start, 0) == Probe(recs, reused, idx)
        decreases data.Length - idx
      {
        if reused >= data.Length {
          reused := 0;
        }
        if !data[reused].used {
          idx := reused;
          reused := reused + 1;
          return;
        }
        reused := reused + 1;
        idx := idx + 1;
        if idx >= data.Length {
          return;
        }
      }
    }

    ghost method LibcFrees(a: int, left: Header)
      modifies this`blocks, this`corrupted
      ensures corrupted == LibcFree(old(View()), a, left).corrupted
      ensures blocks == LibcFree(old(View()), a, left).blocks
    {
      if a in blocks && blocks[a].live {
        blocks := blocks[a := Block(false, blocks[a].kind)];
      } else {
        corrupted := true;
      }
    }

    /** otelc_dbg_mem_alloc once it has a free record. */
    method FillRecord(idx: int, n: nat, ret: int)
      requires 0 <= idx < data.Length
      modifies this, data
      ensures View() == old(View()).(
                recs := old(data[..])[idx := Record(ret, n, true)], size := old(size) + n, allocs := old(allocs) + 1,
                hdr := old(hdr)[ret := Header(RecordAddress(table, idx), MAGIC)],
                blocks := old(blocks)[ret := Block(true, Tracked)])
    {
      data[idx] := Record(ret, n, true);
      size := size + n;
      allocs := allocs + 1;
      hdr := hdr[ret := Header(RecordAddress(table, idx), MAGIC)];
      blocks := blocks[ret := Block(true, Tracked)];
    }

    /** otelc_dbg_malloc. */
    method MallocBlock(n: nat, ret: int) returns (p: int)
      requires Inv(View())
      modifies this, data
      ensures View() == Apply(old(View()), Malloc(n, ret))
      ensures p == if n > SIZE_MAX - HDR || ret == 0 then 0 else ret + HDR
    {
      if n > SIZE_MAX - HDR || ret == 0 {
        return 0;
      }
      RegisterBlock(n, ret);
      return ret + HDR;
    }

    /** otelc_dbg_mem_alloc of a new block, under the tracker mutex. */
    method RegisterBlock(n: nat, ret: int)
      requires data.Length > 0 && 0 <= nextNew && 0 <= reused <= data.Length
      requires forall i | nextNew <= i < data.Length :: !data[i].used
      modifies this, data
      ensures View() == Alloc(old(View()), ret, n)
    {
      hdr := hdr[ret := Header(ret, MAGIC)];
      var idx := TakeSlot();
      SlotSearchExact(data[..], old(nextNew), old(reused));
      lost := lost - {ret};
      blocks := blocks[ret := Block(true, Untracked)];
      if idx < data.Length {
        FillRecord(idx, n, ret);
        assert hdr == old(hdr)[ret := Header(RecordAddress(table, idx), MAGIC)];
        assert blocks == old(blocks)[ret := Block(true, Tracked)];
      }
    }

    /** otelc_dbg_mem_is_stale: the search of the assigned records. */
    method IsStale(base: int) returns (r: bool)
      requires 0 <= nextNew <= data.Length
      ensures r == Held(View(), base)
    {
      for i := 0 to nextNew
        invariant forall k | 0 <= k < i :: data[k].ptr != base
      {
        if data[i].ptr == base {
          return true;
        }
      }
      return false;
    }

    /** The classification that free and realloc share: the header probe, the stale search, and the
        record test of otelc_dbg_mem_release and otelc_dbg_mem_check. */
    method Classify(p: int) returns (v: Verdict)
      requires Inv(View())
      ensures v == Judge(View(), p)
    {
      var base := p - HDR;
      var h := if base in hdr then hdr[base] else Header(0, 0);
      if h.data == 0 || h.magic != MAGIC {
        var stale := IsStale(base);
        return if stale then Refuse else PassForeign;
      }
      if h.data == base {
        return PassUntracked;
      }
      if !IsTableRecord(table, data.Length, h.data) {
        return Refuse;
      }
      var i := RecordIndex(table, h.data);
      if 0 <= i < data.Length && data[i].used && data[i].ptr == base {
        return PassTracked(i);
      }
      return Refuse;
    }

    /** otelc_dbg_free. */
    method FreeBlock(p: int, left: Header)
      requires Inv(View()) && Allowed(View(), Free(p, left))
      modifies this, data
      ensures View() == Apply(old(View()), Free(p, left))
    {
      if p == 0 {
        return;
      }
      JudgeFits(View(), p);
      var v := Classify(p);
      if v.Refuse? {
        return;
      }
      if v.PassTracked? {
        ghost var recs := data[..];
        size := size - data[v.i].size;
        frees := frees + 1;
        data[v.i] := data[v.i].(used := false);
        assert data[..] == recs[v.i := recs[v.i].(used := false)];
      }
      var a := if v.PassForeign? then p else p - HDR;
      LibcFrees(a, left);
      hdr := hdr[a := left];
    }

    /** otelc_dbg_realloc; libc moves the block to ret, or fails with zero. */
    method ReallocBlock(p: int, n: nat, ret: int, left: Header) returns (q: int)
      requires Inv(View()) && Allowed(View(), Realloc(p, n, ret, left))
      modifies this, data
      ensures View() == Apply(old(View()), Realloc(p, n, ret, left))
      ensures q == if n > SIZE_MAX - HDR || ret == 0 || (p != 0 && Judge(old(View()), p).Refuse?) then 0
                   else if p != 0 && Judge(old(View()), p).PassForeign? then ret else ret + HDR
    {
      if n > SIZE_MAX - HDR {
        return 0;
      }
      if p == 0 {
        q := MallocBlock(n, ret);
      } else {
        q := ReallocPresent(p, n, ret, left);
      }
    }

    /** The branches for a block. */
    method ReallocPresent(p: int, n: nat, ret: int, left: Header) returns (q: int)
      requires Inv(View()) && p != 0 && n <= SIZE_MAX - HDR && Allowed(View(), Realloc(p, n, ret, left))
      modifies this, data
      ensures View() == Apply(old(View()), Realloc(p, n, ret, left))
      ensures q == if ret == 0 || Judge(old(View()), p).Refuse? then 0
                   else if Judge(old(View()), p).PassForeign? then ret else ret + HDR
    {
      JudgeFits(View(), p);
      var v := Classify(p);
      if v.Refuse? || ret == 0 {
        return 0;
      }
      LibcReallocs(if v.PassForeign? then p else p - HDR, ret, left);
      if v.PassForeign? {
        return ret;
      }
      if v.PassUntracked? {
        hdr := hdr[ret := Header(ret, MAGIC)];
      } else {
        FollowMove(v.i, n, ret);
      }
      return ret + HDR;
    }

    /** libc moves a live block, or resizes it in place. */
    method LibcReallocs(a: int, ret: int, left: Header)
      requires Alive(View(), a) && ret != 0
      modifies this`hdr, this`blocks, this`lost
      ensures View() == LibcRealloc(old(View()), a, ret, left)
    {
      if ret != a {
        hdr := hdr[a := left];
        ghost var kind := blocks[a].kind;
        blocks := blocks[a := Block(false, kind)][ret := Block(true, kind)];
        lost := lost - {ret};
      }
    }

    /** otelc_dbg_mem_alloc after a reallocation: the record follows the block. */
    method FollowMove(i: int, n: nat, ret: int)
      requires 0 <= i < data.Length
      modifies this, data
      ensures View() == old(View()).(
                recs := old(data[..])[i := Record(ret, n, true)], size := old(size) - old(data[i]).size + n,
                reallocs := old(reallocs) + 1, hdr := old(hdr)[ret := Header(RecordAddress(table, i), MAGIC)],
                lost := old(lost) - {ret})
    {
      size := size - data[i].size + n;
      data[i] := Record(ret, n, true);
      reallocs := reallocs + 1;
      hdr := hdr[ret := Header(RecordAddress(table, i), MAGIC)];
      lost := lost - {ret};
    }
  }
}
