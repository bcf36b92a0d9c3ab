// Context name resolution (src/yaml.cpp): the state probe that reports which entry will serve a
// context name, and the resolver that builds the prefix when a signal is created.

module YamlResolve {
  import opened Text
  import opened YamlTree

  const BUFSIZ_1: nat := 4095
  const DEFAULT_NAME: string := "default"
  const SCOPE_NAME: string := "scope_name"

  datatype NameState =
    | UnsetDefault | Found | Default | Flat | NotFound | UnsetFlat | UnsetNotFound | Absent

  datatype Prefix = Prefix(path: string) | Failed

  predicate Exists(t: Tree, path: string) {
    Lookup(t, path) != NONE
  }

  function Join(base: string, name: string): string {
    base + "/" + name
  }

  /** snprintf into the fixed buffer of the probe. */
  function Truncate(s: string): string {
    if |s| > BUFSIZ_1 then s[..BUFSIZ_1] else s
  }

  // ---------- the probe ----------

  function ProbeState(t: Tree, base: string, name: string, nameSet: bool): NameState {
    var usable := base != "";
    if usable && !Exists(t, base) then Absent else
    var hasName := usable && nameSet && name != "" && Exists(t, Truncate(Join(base, name)));
    var hasDefault := usable && Exists(t, Truncate(Join(base, DEFAULT_NAME)));
    var hasFlat := usable && Exists(t, Truncate(Join(base, SCOPE_NAME)));
    StateOf(nameSet, hasName, hasDefault, hasFlat)
  }

  function StateOf(nameSet: bool, hasName: bool, hasDefault: bool, hasFlat: bool): NameState {
    if nameSet then
      if hasName then Found else if hasDefault then Default else if hasFlat then Flat else NotFound
    else
      if hasDefault then UnsetDefault else if hasFlat then UnsetFlat else UnsetNotFound
  }

  method Probe(t: Tree, base: string, name: string, nameSet: bool) returns (r: NameState)
    requires ValidId(t, 0)
    ensures r == ProbeState(t, base, name, nameSet)
  {
    var hasName, hasDefault, hasFlat := false, false, false;
    if base != "" {
      var node := GetNodeByPath(t, base);
      if node == NONE {
        return Absent;
      }
      if nameSet && name != "" {
        node := GetNodeByPath(t, Truncate(Join(base, name)));
        hasName := node != NONE;
      }
      node := GetNodeByPath(t, Truncate(Join(base, DEFAULT_NAME)));
      hasDefault := node != NONE;
      node := GetNodeByPath(t, Truncate(Join(base, SCOPE_NAME)));
      hasFlat := node != NONE;
    }
    if nameSet {
      return if hasName then Found else if hasDefault then Default else if hasFlat then Flat else NotFound;
    }
    return if hasDefault then UnsetDefault else if hasFlat then UnsetFlat else UnsetNotFound;
  }

  // ---------- the resolver ----------

  /** The first candidate present: the named entry, the fallback entry, the flat layout. */
  function Resolution(t: Tree, base: string, name: string, fallback: string): Prefix {
    if base == "" || (name == "" && fallback == "") || '%' in name || '%' in fallback then Failed
    else
      FirstOf(base, name, fallback, name != "" && Exists(t, Join(base, name)),
              fallback != "" && Exists(t, Join(base, fallback)), Exists(t, Join(base, SCOPE_NAME)))
  }

  function FirstOf(base: string, name: string, fallback: string,
                   hasName: bool, hasFallback: bool, hasFlat: bool): Prefix {
    if hasName then Prefix(Join(base, name))
    else if hasFallback then Prefix(Join(base, fallback))
    else if hasFlat then Prefix(base)
    else Failed
  }

  /** The loop over the two contexts, with the duplicate probe left out when they are equal.  `memory`
      says for each allocation in turn whether it succeeds; only a failed allocation makes the
      result differ from the first candidate present. */
  method ResolvePrefix(t: Tree, base: string, name: string, fallback: string, memory: seq<bool>) returns (r: Prefix)
    requires ValidId(t, 0) && |memory| == 4
    ensures r == Resolution(t, base, name, fallback) || (r == Failed && false in memory)
  {
    if base == "" || (name == "" && fallback == "") || '%' in name || '%' in fallback {
      return Failed;
    }
    var contexts := [if name == fallback then "" else name, fallback];
    var i := 0;
    while i < 2
      invariant 0 <= i <= 2
      invariant contexts == [if name == fallback then "" else name, fallback]
      invariant i >= 1 && contexts[0] != "" ==> !Exists(t, Join(base, contexts[0]))
      invariant i == 2 && fallback != "" ==> !Exists(t, Join(base, fallback))
    {
      if contexts[i] != "" {
        if !memory[i] {
          return Failed;
        }
        var node := GetNodeByPath(t, Join(base, contexts[i]));
        if node != NONE {
          return Prefix(Join(base, contexts[i]));
        }
      }
      i := i + 1;
    }
    if !memory[2] {
      return Failed;
    }
    var node := GetNodeByPath(t, Join(base, SCOPE_NAME));
    if node != NONE {
      if !memory[3] {
        return Failed;
      }
      return Prefix(base);
    }
    return Failed;
  }

  /** What the resolver looks for, in order, each with the prefix it stands for. */
  function Candidates(base: string, name: string, fallback: string): seq<(string, string)> {
    (if name == "" then [] else [(Join(base, name), Join(base, name))]) +
    (if fallback == "" then [] else [(Join(base, fallback), Join(base, fallback))]) +
    [(Join(base, SCOPE_NAME), base)]
  }

  /** Nobody before the candidate k is present, and it is. */
  predicate FirstPresent(t: Tree, cs: seq<(string, string)>, k: int) {
    0 <= k < |cs| && Exists(t, cs[k].0) && forall j | 0 <= j < k :: !Exists(t, cs[j].0)
  }

  /** The resolver refuses an empty base, two empty names and a '%' in either; of the candidates that are
      left to it, it takes the first one present, and fails exactly when none is. */
  lemma FirstPresentWins(t: Tree, base: string, name: string, fallback: string, k: int)
    ensures var r, cs := Resolution(t, base, name, fallback), Candidates(base, name, fallback);
            if base == "" || name == fallback == "" || '%' in name + fallback then r == Failed
            else && (FirstPresent(t, cs, k) ==> r == Prefix(cs[k].1))
                 && (r == Failed <==> forall j | 0 <= j < |cs| :: !Exists(t, cs[j].0))
  {
    var cs := Candidates(base, name, fallback);
    if base != "" && !(name == fallback == "") && '%' !in name + fallback {
      var n := if name == "" then 0 else 1;
      assert name != "" ==> cs[0].0 == Join(base, name);
      assert fallback != "" ==> cs[n].0 == Join(base, fallback);
      assert cs[|cs| - 1].0 == Join(base, SCOPE_NAME);
    }
  }

  // ---------- the two agree ----------

  /** What a state promises: whether the caller set a name, whether the section is there, and which
      prefix a later signal create resolves. */
  predicate Agrees(st: NameState, nameSet: bool, section: bool, base: string, name: string, r: Prefix) {
    match st
    case Absent => !section && r == Failed
    case Found => section && nameSet && r == Prefix(Join(base, name))
    case Default => section && nameSet && r == Prefix(Join(base, DEFAULT_NAME))
    case Flat => section && nameSet && r == Prefix(base)
    case NotFound => section && nameSet && r == Failed
    case UnsetDefault => section && !nameSet && r == Prefix(Join(base, DEFAULT_NAME))
    case UnsetFlat => section && !nameSet && r == Prefix(base)
    case UnsetNotFound => section && !nameSet && r == Failed
  }

  /** An empty base is not looked up, so that no section is missing. */
  predicate Section(t: Tree, base: string) { base == "" || Exists(t, base) }

  lemma {:induction false} WalkMore(t: Tree, id: int, a: seq<string>, b: seq<string>)
    requires Walk(t, id, a) == NONE
    ensures Walk(t, id, a + b) == NONE
    decreases |a|
  {
    if ValidId(t, id) && |a| > 0 {
      assert (a + b)[1..] == a[1..] + b;
      WalkMore(t, Child(t, id, a[0]), a[1..], b);
    } else {
      assert !ValidId(t, id);
    }
  }

  /** A node below a base implies a node at the base. */
  lemma BaseExists(t: Tree, base: string, name: string)
    requires ValidId(t, 0) && base != "" && Exists(t, Join(base, name))
    ensures Exists(t, base)
  {
    var p := StripSlash(base);
    if |p| > 0 {
      assert StripSlash(Join(base, name)) == p + "/" + name;
      SplitAtSlash(p, name);
      if !Exists(t, base) {
        WalkMore(t, 0, Split(p), Split(name));
      }
    }
  }

  predicate Fits(base: string, name: string) {
    |Join(base, name)| <= BUFSIZ_1
  }

  predicate Failing(st: NameState) {
    st.NotFound? || st.UnsetNotFound? || st.Absent?
  }

  lemma NothingBelow(t: Tree, base: string, name: string)
    requires ValidId(t, 0) && base != "" && !Exists(t, base)
    ensures !Exists(t, Join(base, name))
  {
    if Exists(t, Join(base, name)) { BaseExists(t, base, name); }
  }

  /** Where the buffer cuts a path below a base that fits, it cuts the name. */
  lemma CutsName(base: string, name: string)
    requires |base| < BUFSIZ_1
    ensures var room := BUFSIZ_1 - |base| - 1;
            Truncate(Join(base, name)) == Join(base, if |name| > room then name[..room] else name)
  {
    var room := BUFSIZ_1 - |base| - 1;
    if |name| > room {
      assert Join(base, name)[..BUFSIZ_1] == Join(base, name[..room]);
    }
  }

  /** Without the section, or with it: whether the cut and the whole path denote nodes decides. */
  lemma AgreesAtBase(t: Tree, base: string, name: string, nameSet: bool)
    requires ValidId(t, 0) && base != "" && Exists(t, base) && (nameSet || name == DEFAULT_NAME)
    requires Fits(base, DEFAULT_NAME) && Fits(base, SCOPE_NAME) && '%' !in name
    ensures Agrees(ProbeState(t, base, name, nameSet), nameSet, true, base, name,
                   Resolution(t, base, name, DEFAULT_NAME)) <==>
              (Exists(t, Truncate(Join(base, name))) <==> Exists(t, Join(base, name)))
  {
    if name == DEFAULT_NAME || name == "" { CutsName(base, name); }
    ChoicesAgree(base, name, nameSet, Exists(t, Truncate(Join(base, name))), Exists(t, Join(base, name)),
                 Exists(t, Join(base, DEFAULT_NAME)), Exists(t, Join(base, SCOPE_NAME)));
  }

  /** The two choices agree exactly when they see the same of the name. */
  lemma ChoicesAgree(base: string, name: string, nameSet: bool, cut: bool, whole: bool, hasDefault: bool, hasFlat: bool)
    requires nameSet || name == DEFAULT_NAME
    requires name == "" || name == DEFAULT_NAME ==> cut == whole
    requires name == DEFAULT_NAME ==> whole == hasDefault
    ensures Agrees(StateOf(nameSet, nameSet && name != "" && cut, hasDefault, hasFlat), nameSet, true, base, name,
                   FirstOf(base, name, DEFAULT_NAME, name != "" && whole, hasDefault, hasFlat))
            <==> cut == whole
  {
    JoinTells(base, name, DEFAULT_NAME);
  }

  lemma JoinTells(base: string, a: string, b: string)
    ensures Join(base, a) == Join(base, b) <==> a == b
    ensures Join(base, a) != base && Join(base, b) != base
  {
    var n := |base| + 1;
    assert Join(base, a)[n..] == a && Join(base, b)[n..] == b;
    assert |Join(base, a)| > |base| && |Join(base, b)| > |base|;
  }

  lemma AgreesWithoutBase(t: Tree, base: string, name: string, nameSet: bool)
    requires ValidId(t, 0) && base != "" && !Exists(t, base)
    requires Fits(base, DEFAULT_NAME)
    ensures Agrees(ProbeState(t, base, name, nameSet), nameSet, false, base, name,
                   Resolution(t, base, name, DEFAULT_NAME))
    ensures !Exists(t, Truncate(Join(base, name))) && !Exists(t, Join(base, name))
  {
    CutsName(base, name);
    var room := BUFSIZ_1 - |base| - 1;
    NothingBelow(t, base, name);
    NothingBelow(t, base, if |name| > room then name[..room] else name);
    NothingBelow(t, base, DEFAULT_NAME);
    NothingBelow(t, base, SCOPE_NAME);
  }

  /** For a name the caller set, empty or not and of any length, or the substitute for one that was
      not: the recorded state tells whether a name was set, whether the section is there, and what the
      resolver will do, exactly when the cut path and the whole path both denote a node or neither
      does; with an empty base it always does.  For a name with '%', which the resolver refuses, it
      does exactly when nothing would serve it.  The base leaves room for the two fixed names, as the
      three signal bases do. */
  lemma ProbeAgreesWithResolver(t: Tree, base: string, name: string, nameSet: bool)
    requires ValidId(t, 0) && (nameSet || name == DEFAULT_NAME)
    requires Fits(base, DEFAULT_NAME) && Fits(base, SCOPE_NAME)
    ensures var st := ProbeState(t, base, name, nameSet);
            Agrees(st, nameSet, Section(t, base), base, name, Resolution(t, base, name, DEFAULT_NAME)) <==>
              if '%' in name then Failing(st)
              else base == "" || (Exists(t, Truncate(Join(base, name))) <==> Exists(t, Join(base, name)))
  {
    if '%' !in name && base != "" {
      if Exists(t, base) {
        AgreesAtBase(t, base, name, nameSet);
      } else {
        AgreesWithoutBase(t, base, name, nameSet);
      }
    }
  }

  /** In particular the two always agree on a name that is free of '%' and fits the buffer. */
  lemma ShortNamesAgree(t: Tree, base: string, name: string, nameSet: bool)
    requires ValidId(t, 0) && (nameSet || name == DEFAULT_NAME)
    requires Fits(base, name) && Fits(base, DEFAULT_NAME) && Fits(base, SCOPE_NAME) && '%' !in name
    ensures Agrees(ProbeState(t, base, name, nameSet), nameSet, Section(t, base), base, name,
                   Resolution(t, base, name, DEFAULT_NAME))
  {
    ProbeAgreesWithResolver(t, base, name, nameSet);
  }

  // ---------- where they disagree ----------

  const TRACES: string := "/signals/traces"

  // What the buffer leaves for a name below TRACES.
  const ROOM: nat := 4079

  /** A document with one entry in the traces section. */
  function OneEntry(key: string): Tree {
    Tree([Node(Map, NONE, false, "", [1], 0), Node(Map, 0, true, "signals", [2], 1),
          Node(Map, 1, true, "traces", [3], 2), Node(Scalar, 2, true, key, [], 3)])
  }

  lemma OneEntryWellFormed(key: string)
    ensures WellFormed(OneEntry(key))
  {
    var t := OneEntry(key);
    assert ChildrenAgree(t, 0) && ChildrenAgree(t, 1) && ChildrenAgree(t, 2) && ChildrenAgree(t, 3);
    assert ParentAgrees(t, 1) && ParentAgrees(t, 2) && ParentAgrees(t, 3);
  }

  lemma OnlyChild(t: Tree, child: nat, part: string)
    requires ValidId(t, child) && t.nodes[child].hasKey
    ensures FindKey(t, [child], part) == if t.nodes[child].key == part then child else NONE
  {
    assert [child][1..] == [];
  }

  lemma PathBelow(a: string, b: string, name: string)
    requires '/' !in a && '/' !in b && '/' !in name
    ensures Split(StripSlash(Join("/" + a + "/" + b, name))) == [a, b, name]
  {
    var rest := b + "/" + name;
    assert StripSlash(Join("/" + a + "/" + b, name)) == a + "/" + rest;
    SplitAtSlash(a, rest);
    SplitAtSlash(b, name);
    SplitOne(a);
    SplitOne(b);
    SplitOne(name);
  }

  lemma PathBelowTraces(name: string)
    requires '/' !in name
    ensures Split(StripSlash(Join(TRACES, name))) == ["signals", "traces", name]
  {
    assert TRACES == "/" + "signals" + "/" + "traces";
    PathBelow("signals", "traces", name);
  }

  lemma EntryExists(key: string, name: string)
    requires '/' !in name
    ensures Exists(OneEntry(key), Join(TRACES, name)) <==> name == key
  {
    var t := OneEntry(key);
    PathBelowTraces(name);
    OnlyChild(t, 1, "signals");
    OnlyChild(t, 2, "traces");
    OnlyChild(t, 3, name);
    assert ["signals", "traces", name][1..] == ["traces", name];
    assert ["traces", name][1..] == [name] && [name][1..] == [];
    assert Walk(t, 0, ["signals", "traces", name]) == Walk(t, 1, ["traces", name]) == Walk(t, 2, [name]);
    assert Walk(t, 2, [name]) == Walk(t, if name == key then 3 else NONE, []);
  }

  lemma SectionExists(key: string)
    requires '/' !in key
    ensures Exists(OneEntry(key), TRACES)
  {
    EntryExists(key, key);
    BaseExists(OneEntry(key), TRACES, key);
  }

  lemma OneEntryFacts(key: string, name: string)
    requires |key| >= ROOM && '/' !in key && '/' !in name
    ensures WellFormed(OneEntry(key)) && Exists(OneEntry(key), TRACES)
    ensures Exists(OneEntry(key), Join(TRACES, name)) <==> key == name
    ensures !Exists(OneEntry(key), Join(TRACES, DEFAULT_NAME)) && !Exists(OneEntry(key), Join(TRACES, SCOPE_NAME))
  {
    OneEntryWellFormed(key);
    SectionExists(key);
    EntryExists(key, name);
    EntryExists(key, DEFAULT_NAME);
    EntryExists(key, SCOPE_NAME);
  }

  /** Every name too long for the buffer has documents on which the two disagree, in both directions:
      one whose only entry is the cut name, reported but not resolved, and one whose only entry is the
      name itself, resolved but not reported. */
  lemma LongNamesDisagree(name: string)
    requires |name| > ROOM && '/' !in name && '%' !in name
    ensures var t := OneEntry(name[..ROOM]);
            && WellFormed(t) && ProbeState(t, TRACES, name, true) == Found
            && Resolution(t, TRACES, name, DEFAULT_NAME) == Failed
    ensures var t := OneEntry(name);
            && WellFormed(t) && ProbeState(t, TRACES, name, true) == NotFound
            && Resolution(t, TRACES, name, DEFAULT_NAME) == Prefix(Join(TRACES, name))
  {
    ReportedNotResolved(name);
    ResolvedNotReported(name);
  }

  lemma ReportedNotResolved(name: string)
    requires |name| > ROOM && '/' !in name && '%' !in name
    ensures var t := OneEntry(name[..ROOM]);
            && WellFormed(t) && ProbeState(t, TRACES, name, true) == Found
            && Resolution(t, TRACES, name, DEFAULT_NAME) == Failed
  {
    CutsName(TRACES, name);
    OneEntryFacts(name[..ROOM], name);
    OneEntryFacts(name[..ROOM], name[..ROOM]);
  }

  lemma ResolvedNotReported(name: string)
    requires |name| > ROOM && '/' !in name && '%' !in name
    ensures var t := OneEntry(name);
            && WellFormed(t) && ProbeState(t, TRACES, name, true) == NotFound
            && Resolution(t, TRACES, name, DEFAULT_NAME) == Prefix(Join(TRACES, name))
  {
    CutsName(TRACES, name);
    OneEntryFacts(name, name);
    OneEntryFacts(name, name[..ROOM]);
  }

  /** Called directly, the two disagree on a name with '%' that names an entry; the callers of the probe
      refuse such names before. */
  lemma PercentDisagrees(name: string)
    requires |name| <= ROOM && '/' !in name && '%' in name
    ensures var t := OneEntry(name);
            && WellFormed(t) && ProbeState(t, TRACES, name, true) == Found
            && Resolution(t, TRACES, name, DEFAULT_NAME) == Failed
  {
    OneEntryWellFormed(name);
    SectionExists(name);
    EntryExists(name, name);
    CutsName(TRACES, name);
  }
}
