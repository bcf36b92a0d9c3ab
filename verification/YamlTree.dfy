// The YAML tree, the path lookup, the path printer and the duplicate key scan (src/yaml.cpp, the
// rapidyaml backend).  A tree is an arena of nodes addressed by an index; index 0 is the root.

module YamlTree {
  import opened Text

  const SIZE_MAX: nat := 0xffff_ffff_ffff_ffff
  const NONE: int := -1

  datatype Kind = Map | Seq | Scalar

  datatype Node = Node(kind: Kind, parent: int, hasKey: bool, key: string, children: seq<nat>, depth: nat)

  datatype Tree = Tree(nodes: seq<Node>)

  predicate ValidId(t: Tree, id: int) {
    0 <= id < |t.nodes|
  }

  /** What the parser builds: parents and children agree, `depth` counts the levels, the children of
      a map and only they carry keys, and a scalar has no children. */
  ghost predicate WellFormed(t: Tree) {
    && |t.nodes| > 0
    && t.nodes[0].parent == NONE && !t.nodes[0].hasKey && t.nodes[0].depth == 0
    && (forall id | 0 < id < |t.nodes| :: ParentAgrees(t, id))
    && (forall id | 0 <= id < |t.nodes| :: ChildrenAgree(t, id))
  }

  ghost predicate ParentAgrees(t: Tree, id: int)
    requires 0 < id < |t.nodes|
  {
    var n := t.nodes[id];
    && ValidId(t, n.parent)
    && id in t.nodes[n.parent].children
    && n.depth == t.nodes[n.parent].depth + 1
    && (n.hasKey <==> t.nodes[n.parent].kind.Map?)
  }

  ghost predicate ChildrenAgree(t: Tree, id: int)
    requires ValidId(t, id)
  {
    var cs := t.nodes[id].children;
    && |cs| <= SIZE_MAX
    && (t.nodes[id].kind.Scalar? ==> cs == [])
    && (forall i | 0 <= i < |cs| :: ValidId(t, cs[i]) && t.nodes[cs[i]].parent == id && cs[i] != 0)
    && (forall i, j | 0 <= i < j < |cs| :: cs[i] != cs[j])
  }

  // ---------- what the operations compute ----------

  datatype Option<T> = None | Some(value: T)

  /** A part that addresses a sequence element: a non-empty digit string whose value fits size_t. */
  function PartIndex(part: string): Option<nat> {
    if |part| > 0 && AllDigits(part) && Value(part) <= SIZE_MAX then Some(Value(part)) else None
  }

  /** The first child whose key is the part. */
  function FindKey(t: Tree, children: seq<nat>, part: string): int {
    if |children| == 0 then NONE
    else if ValidId(t, children[0]) && t.nodes[children[0]].hasKey && t.nodes[children[0]].key == part then children[0]
    else FindKey(t, children[1..], part)
  }

  function Child(t: Tree, id: int, part: string): int
    requires ValidId(t, id)
  {
    var n := t.nodes[id];
    if n.kind.Seq? then
      var idx := PartIndex(part);
      if idx.Some? && idx.value < |n.children| then n.children[idx.value] else NONE
    else FindKey(t, n.children, part)
  }

  function Walk(t: Tree, id: int, parts: seq<string>): int
    decreases |parts|
  {
    if !ValidId(t, id) then NONE
    else if |parts| == 0 then id
    else Walk(t, Child(t, id, parts[0]), parts[1..])
  }

  function StripSlash(path: string): string {
    if |path| > 0 && path[0] == '/' then path[1..] else path
  }

  /** The node a path denotes, or NONE. */
  function Lookup(t: Tree, path: string): int {
    var p := StripSlash(path);
    if |p| == 0 then Walk(t, 0, []) else Walk(t, 0, Split(p))
  }

  function IndexIn(children: seq<nat>, id: nat): nat
    requires id in children
  {
    if children[0] == id then 0 else 1 + IndexIn(children[1..], id)
  }

  /** The name of a node below its parent: its key, or its position in a sequence. */
  function Segment(t: Tree, id: int): string
    requires WellFormed(t) && 0 < id < |t.nodes|
  {
    var n := t.nodes[id];
    assert ParentAgrees(t, id);
    if n.hasKey then n.key
    else if t.nodes[n.parent].kind.Seq? then Decimal(IndexIn(t.nodes[n.parent].children, id))
    else ""
  }

  function Segments(t: Tree, id: int): seq<string>
    requires WellFormed(t) && ValidId(t, id)
    decreases t.nodes[id].depth
  {
    if id == 0 then [] else
    assert ParentAgrees(t, id);
    Segments(t, t.nodes[id].parent) + [Segment(t, id)]
  }

  function PathOf(t: Tree, id: int): string
    requires WellFormed(t) && ValidId(t, id)
    decreases t.nodes[id].depth
  {
    if id == 0 then "" else
    assert ParentAgrees(t, id);
    PathOf(t, t.nodes[id].parent) + ("/" + Segment(t, id))
  }

  ghost predicate NoDuplicateKeys(t: Tree)
    requires WellFormed(t)
  {
    forall id | 0 <= id < |t.nodes| && t.nodes[id].kind.Map? :: DistinctKeys(t, id)
  }

  ghost predicate DistinctKeys(t: Tree, id: int)
    requires WellFormed(t) && ValidId(t, id)
  {
    assert ChildrenAgree(t, id);
    var cs := t.nodes[id].children;
    forall i, j | 0 <= i < j < |cs| ::
      t.nodes[cs[i]].hasKey && t.nodes[cs[j]].hasKey ==> t.nodes[cs[i]].key != t.nodes[cs[j]].key
  }

  ghost predicate SlashFreeKeys(t: Tree) {
    forall id | 0 <= id < |t.nodes| && t.nodes[id].hasKey :: '/' !in t.nodes[id].key
  }

  /** A child of the root with the empty key; its printed path is "/", which denotes the root. */
  predicate EmptyKeyBelowRoot(t: Tree, id: int) {
    0 < id < |t.nodes| && t.nodes[id].parent == 0 && t.nodes[id].hasKey && t.nodes[id].key == ""
  }

  ghost predicate RootHasEmptyKey(t: Tree) {
    exists id :: EmptyKeyBelowRoot(t, id)
  }

  /** On the way from the root to the node no name has a slash, and each name selects the node it was
      printed for, so that it is not the key of an earlier sibling. */
  ghost predicate Addressable(t: Tree, id: int)
    requires WellFormed(t) && ValidId(t, id)
    decreases t.nodes[id].depth
  {
    id == 0 ||
    (assert ParentAgrees(t, id);
     var p, seg := t.nodes[id].parent, Segment(t, id);
     '/' !in seg && Child(t, p, seg) == id && Addressable(t, p))
  }

  /** Some name on the way from the root to the node has a slash. */
  ghost predicate Slashed(t: Tree, id: int)
    requires WellFormed(t) && ValidId(t, id)
    decreases t.nodes[id].depth
  {
    id != 0 &&
    (assert ParentAgrees(t, id);
     '/' in Segment(t, id) || Slashed(t, t.nodes[id].parent))
  }

  // ---------- the round trip ----------

  lemma {:induction false} IndexInMeans(children: seq<nat>, id: nat)
    requires id in children
    ensures IndexIn(children, id) < |children| && children[IndexIn(children, id)] == id
  {
    if children[0] != id { IndexInMeans(children[1..], id); }
  }

  lemma {:induction false} FindKeyFirst(t: Tree, children: seq<nat>, k: nat, part: string)
    requires k < |children| && ValidId(t, children[k])
    requires t.nodes[children[k]].hasKey && t.nodes[children[k]].key == part
    requires forall i | 0 <= i < k ::
               ValidId(t, children[i]) && !(t.nodes[children[i]].hasKey && t.nodes[children[i]].key == part)
    ensures FindKey(t, children, part) == children[k]
  {
    if k > 0 { FindKeyFirst(t, children[1..], k - 1, part); }
  }

  predicate Bears(t: Tree, id: int, key: string) {
    ValidId(t, id) && t.nodes[id].hasKey && t.nodes[id].key == key
  }

  lemma {:induction false} FindKeyExactly(t: Tree, children: seq<nat>, k: nat, part: string)
    requires k < |children| && FindKey(t, children, part) == children[k]
    requires forall i, j | 0 <= i < j < |children| :: children[i] != children[j]
    ensures Bears(t, children[k], part) && forall i | 0 <= i < k :: !Bears(t, children[i], part)
  {
    if !Bears(t, children[0], part) {
      FindKeyMember(t, children[1..], part);
      if k > 0 { FindKeyExactly(t, children[1..], k - 1, part); }
    }
  }

  /** One part of a path selects the sequence element that its digits count, from zero and with or
      without leading zeros, or the first child with that key. */
  lemma PartSelects(t: Tree, id: int, part: string, k: nat)
    requires WellFormed(t) && ValidId(t, id) && k < |t.nodes[id].children|
    ensures var cs := t.nodes[id].children;
            Child(t, id, part) == cs[k] <==>
              if t.nodes[id].kind.Seq? then |part| > 0 && AllDigits(part) && Value(part) == k
              else Bears(t, cs[k], part) && forall i | 0 <= i < k :: !Bears(t, cs[i], part)
  {
    var cs := t.nodes[id].children;
    assert ChildrenAgree(t, id);
    if !t.nodes[id].kind.Seq? {
      if FindKey(t, cs, part) == cs[k] { FindKeyExactly(t, cs, k, part); }
      if Bears(t, cs[k], part) && forall i | 0 <= i < k :: !Bears(t, cs[i], part) { FindKeyFirst(t, cs, k, part); }
    }
  }

  lemma ChildName(t: Tree, id: int, k: nat)
    requires WellFormed(t) && ValidId(t, id) && k < |t.nodes[id].children|
    ensures var c := t.nodes[id].children[k];
            && 0 < c < |t.nodes| && t.nodes[c].parent == id
            && Segment(t, c) == if t.nodes[id].kind.Seq? then Decimal(k) else t.nodes[c].key
  {
    var cs := t.nodes[id].children;
    assert ChildrenAgree(t, id);
    assert ParentAgrees(t, cs[k]);
    IndexInMeans(cs, cs[k]);
  }

  /** The printed path of a child is that of its parent, a slash, and its key or, in a sequence, its
      position in decimal digits. */
  lemma PathNamesChild(t: Tree, id: int, k: nat)
    requires WellFormed(t) && ValidId(t, id) && k < |t.nodes[id].children|
    ensures ValidId(t, t.nodes[id].children[k])
    ensures var c := t.nodes[id].children[k];
            PathOf(t, c) == PathOf(t, id) + "/" + if t.nodes[id].kind.Seq? then Decimal(k) else t.nodes[c].key
  {
    ChildName(t, id, k);
    PathStep(t, t.nodes[id].children[k], "");
    var above, name := PathOf(t, id), Segment(t, t.nodes[id].children[k]);
    assert above + ("/" + name + "") == above + "/" + name;
    assert PathOf(t, t.nodes[id].children[k]) + "" == PathOf(t, t.nodes[id].children[k]);
  }

  lemma ChildBySegment(t: Tree, id: int)
    requires WellFormed(t) && NoDuplicateKeys(t) && 0 < id < |t.nodes|
    ensures ValidId(t, t.nodes[id].parent) && Child(t, t.nodes[id].parent, Segment(t, id)) == id
  {
    assert ParentAgrees(t, id);
    var p := t.nodes[id].parent;
    var cs := t.nodes[p].children;
    assert ChildrenAgree(t, p);
    IndexInMeans(cs, id);
    var k := IndexIn(cs, id);
    if t.nodes[p].kind.Seq? {
      ValueOfDecimal(k);
    } else {
      assert DistinctKeys(t, p);
      FindKeyFirst(t, cs, k, t.nodes[id].key);
    }
  }

  lemma {:induction false} WalkOneMore(t: Tree, id: int, parts: seq<string>, part: string)
    requires ValidId(t, Walk(t, id, parts))
    ensures Walk(t, id, parts + [part]) == Walk(t, Child(t, Walk(t, id, parts), part), [])
    decreases |parts|
  {
    if |parts| == 0 {
      assert (parts + [part])[1..] == [];
    } else {
      assert (parts + [part])[1..] == parts[1..] + [part];
      WalkOneMore(t, Child(t, id, parts[0]), parts[1..], part);
    }
  }

  lemma {:induction false} WalkSegments(t: Tree, id: int)
    requires WellFormed(t) && ValidId(t, id) && Addressable(t, id)
    ensures Walk(t, 0, Segments(t, id)) == id
    decreases t.nodes[id].depth
  {
    if id > 0 {
      assert ParentAgrees(t, id);
      WalkSegments(t, t.nodes[id].parent);
      WalkOneMore(t, 0, Segments(t, t.nodes[id].parent), Segment(t, id));
    }
  }

  lemma SegmentSlashFree(t: Tree, id: int)
    requires WellFormed(t) && SlashFreeKeys(t) && 0 < id < |t.nodes|
    ensures '/' !in Segment(t, id)
  {
    assert ParentAgrees(t, id);
  }

  lemma {:induction false} FindKeyMember(t: Tree, children: seq<nat>, part: string)
    requires FindKey(t, children, part) != NONE
    ensures FindKey(t, children, part) in children
  {
    if !(ValidId(t, children[0]) && t.nodes[children[0]].hasKey && t.nodes[children[0]].key == part) {
      FindKeyMember(t, children[1..], part);
    }
  }

  /** A step of the walk goes one level down. */
  lemma ChildBelow(t: Tree, id: int, part: string)
    requires WellFormed(t) && ValidId(t, id) && ValidId(t, Child(t, id, part))
    ensures var c := Child(t, id, part); c > 0 && t.nodes[c].parent == id && t.nodes[c].depth == t.nodes[id].depth + 1
  {
    assert ChildrenAgree(t, id);
    if !t.nodes[id].kind.Seq? { FindKeyMember(t, t.nodes[id].children, part); }
    assert ParentAgrees(t, Child(t, id, part));
  }

  /** A walk of k parts ends k levels further down. */
  lemma {:induction false} WalkDepth(t: Tree, id: int, parts: seq<string>)
    requires WellFormed(t) && ValidId(t, id) && ValidId(t, Walk(t, id, parts))
    ensures t.nodes[Walk(t, id, parts)].depth == t.nodes[id].depth + |parts|
    decreases |parts|
  {
    if |parts| > 0 {
      assert Walk(t, id, parts) == Walk(t, Child(t, id, parts[0]), parts[1..]);
      ChildBelow(t, id, parts[0]);
      WalkDepth(t, Child(t, id, parts[0]), parts[1..]);
    }
  }

  lemma {:induction false} WalkPrefix(t: Tree, id: int, parts: seq<string>, part: string)
    requires ValidId(t, Walk(t, id, parts + [part]))
    ensures ValidId(t, Walk(t, id, parts))
    decreases |parts|
  {
    if |parts| > 0 {
      assert (parts + [part])[1..] == parts[1..] + [part];
      WalkPrefix(t, Child(t, id, parts[0]), parts[1..], part);
    }
  }

  /** A walk along the names of a node that ends at the node goes through its ancestors. */
  lemma {:induction false} WalkAddresses(t: Tree, id: int)
    requires WellFormed(t) && ValidId(t, id) && !Slashed(t, id) && Walk(t, 0, Segments(t, id)) == id
    ensures Addressable(t, id)
    decreases t.nodes[id].depth
  {
    if id > 0 {
      assert ParentAgrees(t, id);
      var p, seg := t.nodes[id].parent, Segment(t, id);
      WalkPrefix(t, 0, Segments(t, p), seg);
      WalkOneMore(t, 0, Segments(t, p), seg);
      ChildBelow(t, Walk(t, 0, Segments(t, p)), seg);
      WalkAddresses(t, p);
    }
  }

  /** A printed path begins with a slash and has one part for each name, and more when a name has a
      slash itself. */
  lemma {:induction false} PathParts(t: Tree, id: int)
    requires WellFormed(t) && 0 < id < |t.nodes|
    ensures PathOf(t, id) == "/" + StripSlash(PathOf(t, id))
    ensures |Split(StripSlash(PathOf(t, id)))| >= t.nodes[id].depth
    ensures Slashed(t, id) ==>
              |Split(StripSlash(PathOf(t, id)))| > t.nodes[id].depth && |StripSlash(PathOf(t, id))| > 0
    decreases t.nodes[id].depth
  {
    assert ParentAgrees(t, id);
    var p, seg := t.nodes[id].parent, Segment(t, id);
    if '/' in seg { SplitMany(seg); }
    if p == 0 {
      assert PathOf(t, id) == "/" + seg;
      assert StripSlash(PathOf(t, id)) == seg;
      assert !Slashed(t, p);
    } else {
      PathParts(t, p);
      var r := StripSlash(PathOf(t, p));
      OneMorePart(r, seg);
      assert PathOf(t, id) == "/" + r + ("/" + seg);
    }
  }

  lemma OneMorePart(r: string, name: string)
    ensures "/" + r + ("/" + name) == "/" + (r + "/" + name)
    ensures StripSlash("/" + r + ("/" + name)) == r + "/" + name
    ensures |Split(r + "/" + name)| == |Split(r)| + |Split(name)|
  {
    SplitAtSlash(r, name);
  }

  lemma {:induction false} PathSplits(t: Tree, id: int)
    requires WellFormed(t) && 0 < id < |t.nodes| && !Slashed(t, id)
    ensures PathOf(t, id) == "/" + StripSlash(PathOf(t, id))
    ensures Split(StripSlash(PathOf(t, id))) == Segments(t, id)
    ensures |StripSlash(PathOf(t, id))| == 0 <==> t.nodes[id].parent == 0 && Segment(t, id) == ""
    decreases t.nodes[id].depth
  {
    assert ParentAgrees(t, id);
    var p, seg := t.nodes[id].parent, Segment(t, id);
    SplitOne(seg);
    if p == 0 {
      assert PathOf(t, id) == "/" + seg;
      assert Segments(t, id) == [seg];
    } else {
      PathSplits(t, p);
      var r := StripSlash(PathOf(t, p));
      assert PathOf(t, id) == "/" + (r + "/" + seg);
      assert StripSlash(PathOf(t, id)) == r + "/" + seg;
      SplitAtSlash(r, seg);
    }
  }

  /** A node with a slash in its key, or below such a node, is never what its printed path denotes. */
  lemma SlashedNeverFound(t: Tree, id: int)
    requires WellFormed(t) && ValidId(t, id) && Slashed(t, id)
    ensures Lookup(t, PathOf(t, id)) != id
  {
    PathParts(t, id);
    var parts := Split(StripSlash(PathOf(t, id)));
    if ValidId(t, Walk(t, 0, parts)) { WalkDepth(t, 0, parts); }
  }

  lemma EmptySegment(t: Tree, id: int)
    requires WellFormed(t) && 0 < id < |t.nodes|
    ensures t.nodes[id].parent == 0 && Segment(t, id) == "" <==> EmptyKeyBelowRoot(t, id)
  {
    assert ParentAgrees(t, id);
    assert ChildrenAgree(t, t.nodes[id].parent);
  }

  /** In any tree, a node is what its printed path denotes exactly when it is addressable and not a
      child of the root with the empty key. */
  lemma PathLookup(t: Tree, id: int)
    requires WellFormed(t) && ValidId(t, id)
    ensures Lookup(t, PathOf(t, id)) == id <==> Addressable(t, id) && !EmptyKeyBelowRoot(t, id)
  {
    if id > 0 {
      if Slashed(t, id) {
        SlashedNeverFound(t, id);
        SlashedNotAddressable(t, id);
      } else {
        PathSplits(t, id);
        EmptySegment(t, id);
        if Addressable(t, id) { WalkSegments(t, id); }
        if Walk(t, 0, Segments(t, id)) == id { WalkAddresses(t, id); }
      }
    }
  }

  lemma {:induction false} SlashedNotAddressable(t: Tree, id: int)
    requires WellFormed(t) && ValidId(t, id) && Slashed(t, id)
    ensures !Addressable(t, id)
    decreases t.nodes[id].depth
  {
    assert ParentAgrees(t, id);
    if '/' !in Segment(t, id) { SlashedNotAddressable(t, t.nodes[id].parent); }
  }

  ghost predicate RoundTrips(t: Tree)
    requires WellFormed(t)
  {
    forall id | 0 <= id < |t.nodes| :: Lookup(t, PathOf(t, id)) == id
  }

  lemma RoundTripNeedsDistinctKeys(t: Tree)
    requires WellFormed(t) && RoundTrips(t)
    ensures NoDuplicateKeys(t)
  {
    forall p | 0 <= p < |t.nodes| && t.nodes[p].kind.Map? ensures DistinctKeys(t, p) {
      var cs := t.nodes[p].children;
      assert ChildrenAgree(t, p);
      forall i, j | 0 <= i < j < |cs| && t.nodes[cs[i]].hasKey && t.nodes[cs[j]].hasKey
        ensures t.nodes[cs[i]].key != t.nodes[cs[j]].key
      {
        assert Lookup(t, PathOf(t, cs[i])) == cs[i] && Lookup(t, PathOf(t, cs[j])) == cs[j];
      }
    }
  }

  lemma RoundTripNeedsSlashFreeKeys(t: Tree)
    requires WellFormed(t) && RoundTrips(t)
    ensures SlashFreeKeys(t)
  {
    forall id | 0 <= id < |t.nodes| && t.nodes[id].hasKey ensures '/' !in t.nodes[id].key {
      assert Lookup(t, PathOf(t, id)) == id;
      if '/' in t.nodes[id].key { SlashedNeverFound(t, id); }
    }
  }

  lemma {:induction false} AllAddressable(t: Tree, id: int)
    requires WellFormed(t) && NoDuplicateKeys(t) && SlashFreeKeys(t) && ValidId(t, id)
    ensures Addressable(t, id)
    decreases t.nodes[id].depth
  {
    if id > 0 {
      assert ParentAgrees(t, id);
      SegmentSlashFree(t, id);
      ChildBySegment(t, id);
      AllAddressable(t, t.nodes[id].parent);
    }
  }

  /** Printing and looking up undo each other on the whole tree exactly when the duplicate key scan
      accepts the tree, no key has a slash, and the root has no empty key. */
  lemma RoundTripExactly(t: Tree)
    requires WellFormed(t)
    ensures RoundTrips(t) <==> NoDuplicateKeys(t) && SlashFreeKeys(t) && !RootHasEmptyKey(t)
  {
    if RoundTrips(t) {
      RoundTripNeedsDistinctKeys(t);
      RoundTripNeedsSlashFreeKeys(t);
      forall id ensures !EmptyKeyBelowRoot(t, id) {
        if ValidId(t, id) { PathLookup(t, id); }
      }
    }
    if NoDuplicateKeys(t) && SlashFreeKeys(t) && !RootHasEmptyKey(t) {
      forall id | 0 <= id < |t.nodes| ensures Lookup(t, PathOf(t, id)) == id {
        AllAddressable(t, id);
        PathLookup(t, id);
      }
    }
  }

  // ---------- the loops of the source ----------

  /** The digit loop with its overflow guard accepts exactly the digit strings that fit size_t. */
  method ParseIndex(part: string) returns (r: Option<nat>)
    ensures r == PartIndex(part)
  {
    if |part| == 0 {
      return None;
    }
    var idx, i := 0, 0;
    while i < |part| && IsDigit(part[i])
      invariant 0 <= i <= |part|
      invariant AllDigits(part[..i])
      invariant idx == Value(part[..i]) <= SIZE_MAX
    {
      var digit := DigitValue(part[i]);
      assert part[..i + 1][..i] == part[..i];
      if idx > (SIZE_MAX - digit) / 10 {
        assert Value(part[..i + 1]) > SIZE_MAX;
        if AllDigits(part) { PrefixValue(part, i + 1); }
        return None;
      }
      idx := idx * 10 + digit;
      i := i + 1;
    }
    if i < |part| {
      return None;
    }
    assert part[..i] == part;
    return Some(idx);
  }

  method FindChild(t: Tree, children: seq<nat>, part: string) returns (r: int)
    ensures r == FindKey(t, children, part)
  {
    var i := 0;
    while i < |children|
      invariant 0 <= i <= |children|
      invariant FindKey(t, children, part) == FindKey(t, children[i..], part)
    {
      if ValidId(t, children[i]) && t.nodes[children[i]].hasKey && t.nodes[children[i]].key == part {
        return children[i];
      }
      i := i + 1;
    }
    return NONE;
  }

  method GetNodeByPath(t: Tree, path: string) returns (node: int)
    requires ValidId(t, 0)
    ensures node == Lookup(t, path)
  {
    var p := if |path| > 0 && path[0] == '/' then path[1..] else path;
    node := 0;
    if |p| == 0 {
      return;
    }
    var parts := Split(p);
    var i := 0;
    while i < |parts|
      invariant 0 <= i <= |parts|
      invariant Walk(t, 0, parts) == Walk(t, node, parts[i..])
    {
      if !ValidId(t, node) {
        return NONE;
      }
      if t.nodes[node].kind.Seq? {
        var idx := ParseIndex(parts[i]);
        if idx.None? || idx.value >= |t.nodes[node].children| {
          return NONE;
        }
        node := t.nodes[node].children[idx.value];
      } else {
        var c := FindChild(t, t.nodes[node].children, parts[i]);
        if c == NONE {
          return NONE;
        }
        node := c;
      }
      i := i + 1;
    }
    if !ValidId(t, node) {
      node := NONE;
    }
  }

  lemma PathStep(t: Tree, id: int, path: string)
    requires WellFormed(t) && 0 < id < |t.nodes|
    ensures ValidId(t, t.nodes[id].parent) && t.nodes[t.nodes[id].parent].depth < t.nodes[id].depth
    ensures PathOf(t, id) + path == PathOf(t, t.nodes[id].parent) + ("/" + Segment(t, id) + path)
  {
    assert ParentAgrees(t, id);
  }

  method NodePath(t: Tree, start: int) returns (path: string)
    requires WellFormed(t) && (start == NONE || ValidId(t, start))
    ensures path == if start == NONE then "" else PathOf(t, start)
  {
    path := "";
    var id := start;
    while id != NONE && id != 0
      invariant id == NONE || ValidId(t, id)
      invariant id == NONE <==> start == NONE
      invariant start == NONE ==> path == ""
      invariant start != NONE ==> PathOf(t, start) == PathOf(t, id) + path
      decreases if id == NONE then 0 else t.nodes[id].depth
    {
      PathStep(t, id, path);
      var segment := "/";
      if t.nodes[id].hasKey {
        segment := segment + t.nodes[id].key;
      } else {
        var parent := t.nodes[id].parent;
        if parent != NONE && t.nodes[parent].kind.Seq? {
          assert ParentAgrees(t, id);
          segment := segment + Decimal(IndexIn(t.nodes[parent].children, id));
        }
      }
      assert segment == "/" + Segment(t, id);
      path := segment + path;
      id := t.nodes[id].parent;
    }
  }

  /** The scan accepts exactly the trees without duplicate keys; a rejection names a node that has a
      later sibling with the same key. */
  method FindDuplicateKeys(t: Tree) returns (ok: bool, report: string)
    requires WellFormed(t)
    ensures ok <==> NoDuplicateKeys(t)
    ensures !ok ==> exists p, i, j ::
              && ValidId(t, p) && ChildrenAgree(t, p) && 0 <= i < j < |t.nodes[p].children|
              && t.nodes[t.nodes[p].children[i]].key == t.nodes[t.nodes[p].children[j]].key
              && report == PathOf(t, t.nodes[p].children[i])
  {
    report := "";
    var id := 0;
    while id < |t.nodes|
      invariant 0 <= id <= |t.nodes|
      invariant forall k | 0 <= k < id && t.nodes[k].kind.Map? :: DistinctKeys(t, k)
    {
      if t.nodes[id].kind.Map? {
        var cs := t.nodes[id].children;
        assert ChildrenAgree(t, id);
        var a := 0;
        while a < |cs|
          invariant 0 <= a <= |cs|
          invariant forall i, j | 0 <= i < a && i < j < |cs| ::
                      t.nodes[cs[i]].hasKey && t.nodes[cs[j]].hasKey ==> t.nodes[cs[i]].key != t.nodes[cs[j]].key
        {
          if t.nodes[cs[a]].hasKey {
            var b := a + 1;
            while b < |cs|
              invariant a < b <= |cs|
              invariant forall j | a < j < b :: t.nodes[cs[j]].hasKey ==> t.nodes[cs[a]].key != t.nodes[cs[j]].key
            {
              if t.nodes[cs[b]].hasKey && t.nodes[cs[a]].key == t.nodes[cs[b]].key {
                report := NodePath(t, cs[a]);
                assert !DistinctKeys(t, id);
                return false, report;
              }
              b := b + 1;
            }
          }
          a := a + 1;
        }
        assert DistinctKeys(t, id);
      }
      id := id + 1;
    }
    return true, report;
  }
}
