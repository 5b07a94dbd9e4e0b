/** The community defaults table: a process-wide map from component name to
    option map, with `get`, `set`, `reset` and `list`.

    The inner option maps are mutable objects shared by reference, so they
    live in a heap indexed by `Ref`; the live table and the built-in
    snapshot map names to references. The live table starts as a SHALLOW
    copy of the snapshot and `reset` takes another shallow copy, so both
    tables point at the same inner option maps for the built-in names. */
module CommunityDefaults {
  import opened Values
  import Dicts

  /** A reference to an option-map object. Every reference is created for
      one component name in one allocation generation. */
  datatype Ref = Ref(gen: nat, name: string)

  datatype State = State(
    heap: map<Ref, OptionMap>,       // the option-map objects
    live: Dicts.Dict<Ref>,           // the active table
    snapshot: Dicts.Dict<Ref>,       // the built-in table
    next: nat                        // the next allocation generation
  )

  /** The built-in component names, in declaration order. */
  function BuiltinNames(): seq<string> {
    ["FlipCard", "TiltCard", "RevealCard", "DotsLoader", "RingLoader", "TypewriterLoader",
     "PolygonLoader", "ScrollReveal", "ParallaxSection", "SlideMenuNavbar", "MegaMenuNavbar"]
  }

  /** The built-in options of each built-in component. */
  function BuiltinTable(): map<string, OptionMap> {
    map["FlipCard" := map["height" := VStr("300px"), "width" := VStr("100%"), "duration" := VStr("0.6s")],
        "TiltCard" := map["max_tilt" := VStr("15deg"), "duration" := VStr("0.3s")],
        "RevealCard" := map["overlay_opacity" := VStr("0.9")],
        "DotsLoader" := map["variant" := VStr("primary")],
        "RingLoader" := map["variant" := VStr("primary"), "size" := VStr("3rem")],
        "TypewriterLoader" := map["variant" := VStr("primary")],
        "PolygonLoader" := map["variant" := VStr("primary"), "sides" := VInt(6)],
        "ScrollReveal" := map["direction" := VStr("up"), "delay" := VStr("0s"), "duration" := VStr("0.6s")],
        "ParallaxSection" := map["speed" := VStr("0.5")],
        "SlideMenuNavbar" := map["position" := VStr("left"), "width" := VStr("280px")],
        "MegaMenuNavbar" := map["columns" := VInt(3)]]
  }

  /** The built-in options of a component; empty for any other name. */
  function Builtin(name: string): OptionMap {
    if name in BuiltinTable() then BuiltinTable()[name] else map[]
  }

  /** The built-in table holds exactly the built-in names. */
  lemma BuiltinTableKeys()
    ensures forall n :: n in BuiltinTable() <==> n in BuiltinNames()
  {
  }

  /** The built-in table: each built-in name points at its generation-0 object. */
  function BuiltinSnapshot(): Dicts.Dict<Ref> {
    Dicts.Dict(BuiltinNames(), map n | n in BuiltinNames() :: Ref(0, n))
  }

  /** The table at import time: the live table is a shallow copy of the
      built-in one, so it shares the built-in option-map objects. */
  function Init(): State {
    State(BuiltinHeap(BuiltinNames()), BuiltinSnapshot(), BuiltinSnapshot(), 1)
  }

  /** The generation-0 objects of the given names, each holding its
      built-in options. */
  function BuiltinHeap(names: seq<string>): map<Ref, OptionMap> {
    map n | n in names :: Ref(0, n) := Builtin(n)
  }

  lemma BuiltinHeapAt(names: seq<string>, n: string)
    requires n in names
    ensures Ref(0, n) in BuiltinHeap(names) && BuiltinHeap(names)[Ref(0, n)] == Builtin(n)
  {
  }

  /** A name outside the built-in table has no built-in options. */
  lemma NotBuiltinIsEmpty(n: string)
    requires n !in BuiltinNames()
    ensures Builtin(n) == map[]
  {
    BuiltinTableKeys();
  }

  /** The contents of an option-map object (empty if dangling). */
  function Deref(st: State, r: Ref): OptionMap {
    if r in st.heap then st.heap[r] else map[]
  }

  /** What `reset` would make the live entry of `name`: the current contents
      of the built-in object it points at. */
  function SnapshotGet(st: State, name: string): OptionMap {
    if name in st.snapshot.entries then Deref(st, st.snapshot.entries[name]) else map[]
  }

  /** The invariant every reachable state keeps, whether or not the live
      table aliases the built-in objects. */
  ghost predicate Wf(st: State) {
    && Dicts.Valid(st.live)
    && st.snapshot == BuiltinSnapshot()
    && Fresh(st)
    && (forall n :: n in BuiltinNames() ==> Ref(0, n) in st.heap)
    && Named(st)
  }

  /** Every allocated object is older than the next generation. */
  ghost predicate Fresh(st: State) {
    st.next >= 1 && forall r :: r in st.heap ==> r.gen < st.next
  }

  /** Every live entry points at an allocated object made for its own name. */
  ghost predicate Named(st: State) {
    forall n :: n in st.live.entries ==> st.live.entries[n].name == n && st.live.entries[n] in st.heap
  }

  /** The as-written sharing: every built-in name's live entry IS the
      built-in object. */
  ghost predicate Aliased(st: State) {
    forall n :: n in BuiltinNames() ==> n in st.live.entries && st.live.entries[n] == Ref(0, n)
  }

  /** The intended isolation: the live table never points at a built-in
      object, and the built-in objects still hold the built-in options. */
  ghost predicate Isolated(st: State) {
    && (forall n :: n in st.live.entries ==> st.live.entries[n].gen >= 1)
    && Intact(st)
  }

  /** The built-in objects still hold the built-in options. */
  ghost predicate Intact(st: State) {
    forall n :: n in BuiltinNames() ==> Deref(st, Ref(0, n)) == Builtin(n)
  }

  lemma BuiltinNamesDistinct()
    ensures forall i, j :: 0 <= i < j < |BuiltinNames()| ==> BuiltinNames()[i] != BuiltinNames()[j]
  {
  }

  lemma InitWf()
    ensures Wf(Init()) && Aliased(Init())
  {
    var st := Init();
    BuiltinNamesDistinct();
    assert Dicts.Valid(st.live);
    assert forall r :: r in st.heap ==> r.gen < st.next;
    assert forall n :: n in st.live.entries ==> st.live.entries[n].name == n && st.live.entries[n] in st.heap;
  }

  lemma InitIntact()
    ensures Intact(Init())
    ensures forall n :: SnapshotGet(Init(), n) == Builtin(n)
  {
    forall n | n in BuiltinNames() ensures Deref(Init(), Ref(0, n)) == Builtin(n) {
      BuiltinHeapAt(BuiltinNames(), n);
    }
    forall n ensures SnapshotGet(Init(), n) == Builtin(n) {
      if n in BuiltinNames() {
        BuiltinHeapAt(BuiltinNames(), n);
        assert BuiltinSnapshot().entries[n] == Ref(0, n);
      } else {
        NotBuiltinIsEmpty(n);
      }
    }
  }

  /** `list_community_components`: the live names, in insertion order,
      each exactly once. */
  function List(st: State): (r: seq<string>)
    ensures Dicts.Valid(st.live) ==> forall n :: n in r <==> n in st.live.entries
    ensures Dicts.Valid(st.live) ==> forall i, j :: 0 <= i < j < |r| ==> r[i] != r[j]
  {
    st.live.keys
  }

  /** `get_community_defaults`: a copy of the live options of `name`, or the
      empty map for a name the table does not hold. */
  function Get(st: State, name: string): (r: OptionMap)
    ensures Dicts.Valid(st.live) && name !in List(st) ==> r == map[]
  {
    if name in st.live.entries then Deref(st, st.live.entries[name]) else map[]
  }

  /** `set_community_defaults`: creates an empty entry for a new name (at the
      end of the order), then updates the entry's object in place. */
  function Set(st: State, name: string, opts: OptionMap): (st': State)
    ensures Get(st', name) == Get(st, name) + opts
    ensures st'.snapshot == st.snapshot
  {
    if name in st.live.entries then
      var r := st.live.entries[name];
      st.(heap := st.heap[r := Deref(st, r) + opts])
    else
      var r := Ref(st.next, name);
      assert Wf(st) ==> r !in st.heap;
      st.(heap := st.heap[r := map[] + opts], live := Dicts.Put(st.live, name, r), next := st.next + 1)
  }

  /** `set` keeps the invariant. */
  lemma {:induction false} SetKeepsWf(st: State, name: string, opts: OptionMap)
    requires Wf(st)
    ensures Wf(Set(st, name, opts))
  {
    if name in st.live.entries {
      SetExistingKeepsWf(st, name, opts);
    } else {
      SetNewKeepsWf(st, name, opts);
    }
  }

  /** `set` on a listed name only updates that name's object. */
  lemma SetExistingKeepsWf(st: State, name: string, opts: OptionMap)
    requires Wf(st) && name in st.live.entries
    ensures Wf(Set(st, name, opts))
  {
    var st' := Set(st, name, opts);
    assert st'.live == st.live && st'.next == st.next;
    assert st'.heap.Keys == st.heap.Keys;
  }

  /** `set` on a new name allocates a fresh object and appends the name. */
  lemma SetNewKeepsWf(st: State, name: string, opts: OptionMap)
    requires Wf(st) && name !in st.live.entries
    ensures Wf(Set(st, name, opts))
  {
    var r := Ref(st.next, name);
    var st' := st.(heap := st.heap[r := map[] + opts], live := Dicts.Put(st.live, name, r), next := st.next + 1);
    assert Set(st, name, opts) == st';
    AllocKeepsFresh(st, r, map[] + opts);
    PutFreshKeepsNamed(st, name, opts);
  }

  /** Allocating an object of the next generation keeps every object older
      than the (bumped) next generation. */
  lemma AllocKeepsFresh(st: State, r: Ref, v: OptionMap)
    requires Fresh(st) && r.gen == st.next
    ensures Fresh(st.(heap := st.heap[r := v], next := st.next + 1))
  {
  }

  /** Pointing a new name at a freshly allocated object of its own name keeps
      every live entry named and allocated. */
  lemma PutFreshKeepsNamed(st: State, name: string, opts: OptionMap)
    requires Named(st)
    ensures var r := Ref(st.next, name);
      Named(st.(heap := st.heap[r := map[] + opts], live := Dicts.Put(st.live, name, r), next := st.next + 1))
  {
  }

  /** `set` appends a new name at the end of the order, and leaves every
      other name's options alone. */
  lemma {:induction false} SetKeepsOthers(st: State, name: string, opts: OptionMap)
    requires Dicts.Valid(st.live) && Fresh(st) && Named(st)
    ensures List(Set(st, name, opts)) == if name in List(st) then List(st) else List(st) + [name]
    ensures forall m :: m != name ==> Get(Set(st, name, opts), m) == Get(st, m)
  {
    var st' := Set(st, name, opts);
    if name !in st.live.entries {
      var r := Ref(st.next, name);
      assert r !in st.heap;
      assert forall m :: m in st.live.entries ==> st.live.entries[m] != r;
    }
  }

  /** `reset_community_defaults` as written: the live table becomes a
      shallow copy of the built-in table. */
  function Reset(st: State): (st': State)
    ensures List(st') == st.snapshot.keys
    ensures forall n :: Get(st', n) == SnapshotGet(st, n)
  {
    st.(live := st.snapshot)
  }

  /** `reset` as written keeps the invariant and restores the sharing:
      every built-in name points at its built-in object again. */
  lemma ResetKeepsWf(st: State)
    requires Wf(st)
    ensures Wf(Reset(st)) && Aliased(Reset(st))
    ensures List(Reset(st)) == BuiltinNames()
  {
    BuiltinNamesDistinct();
  }

  /** After `reset`, a name that is not built in reads as empty again. */
  lemma ResetDropsAddedNames(st: State, name: string)
    requires Wf(st)
    requires name !in BuiltinNames()
    ensures name !in List(Reset(st))
    ensures Get(Reset(st), name) == map[]
  {
  }

  /** The two properties of `set` callers rely on: every given option reads
      back, and every other option of the entry is kept. */
  lemma SetThenGet(st: State, name: string, opts: OptionMap)
    ensures forall k :: k in opts ==> k in Get(Set(st, name, opts), name) && Get(Set(st, name, opts), name)[k] == opts[k]
    ensures forall k :: k in Get(st, name) && k !in opts ==>
      k in Get(Set(st, name, opts), name) && Get(Set(st, name, opts), name)[k] == Get(st, name)[k]
  {
    assert Get(Set(st, name, opts), name) == Get(st, name) + opts;
  }

  /** A single option written by `set` reads back from the entry. */
  lemma SetReadsBack(st: State, name: string, key: string, v: Value)
    ensures key in Get(Set(st, name, map[key := v]), name)
    ensures Get(Set(st, name, map[key := v]), name)[key] == v
  {
    var m := Get(st, name) + map[key := v];
    assert Get(Set(st, name, map[key := v]), name) == m;
    assert key in m && m[key] == v;
  }

  /** `set` keeps the sharing: on a built-in name it writes through to the
      built-in object itself. */
  lemma {:induction false} SetKeepsAliased(st: State, name: string, opts: OptionMap)
    requires Wf(st) && Aliased(st)
    ensures Aliased(Set(st, name, opts))
    ensures name in BuiltinNames() ==> SnapshotGet(Set(st, name, opts), name) == Get(st, name) + opts
  {
    if name in BuiltinNames() {
      assert st.live.entries[name] == Ref(0, name);
    }
  }

  /** The defect: after `set` on a built-in name, `reset` brings back the
      value that `set` wrote, not the built-in one. */
  lemma {:induction false} ResetKeepsWrittenValue(st: State, name: string, opts: OptionMap)
    requires Wf(st) && Aliased(st)
    requires name in BuiltinNames()
    ensures Get(Reset(Set(st, name, opts)), name) == Get(st, name) + opts
  {
    SetKeepsAliased(st, name, opts);
  }

  /** The documented scenario on a fresh table: after setting FlipCard's
      height to 999px and resetting, the height is still 999px rather than
      the built-in 300px. */
  lemma ResetDoesNotRestoreFlipCard()
    ensures var before := Get(Init(), "FlipCard");
      "height" in before && before["height"] == VStr("300px")
    ensures var after := Get(Reset(Set(Init(), "FlipCard", map["height" := VStr("999px")])), "FlipCard");
      "height" in after && after["height"] == VStr("999px")
  {
    InitWf();
    InitGet();
    FlipCardBuiltin();
    ResetKeepsWrittenValue(Init(), "FlipCard", map["height" := VStr("999px")]);
  }

  /** On the import-time table every name reads as its built-in options. */
  lemma InitGet()
    ensures forall n :: Get(Init(), n) == Builtin(n)
  {
    InitIntact();
    forall n ensures Get(Init(), n) == Builtin(n) {
      if n in BuiltinNames() {
        assert Init().live.entries[n] == Ref(0, n);
      }
    }
  }

  /** The built-in FlipCard options. */
  lemma FlipCardBuiltin()
    ensures Builtin("FlipCard") == map["height" := VStr("300px"), "width" := VStr("100%"), "duration" := VStr("0.6s")]
  {
  }

  /** The corrected `reset`: the live table points at fresh copies of the
      built-in objects (a deep copy), so later writes cannot reach them. */
  function ResetDeep(st: State): (st': State)
    ensures List(st') == st.snapshot.keys
    ensures forall n :: Get(st', n) == SnapshotGet(st, n)
  {
    var g := st.next;
    var copies := map n | n in st.snapshot.entries :: Ref(g, n) := Deref(st, st.snapshot.entries[n]);
    var st' := st.(heap := st.heap + copies,
                   live := Dicts.Dict(st.snapshot.keys, map n | n in st.snapshot.entries :: Ref(g, n)),
                   next := g + 1);
    assert forall n :: n in st.snapshot.entries ==> Ref(g, n) in copies && copies[Ref(g, n)] == Deref(st, st.snapshot.entries[n]);
    st'
  }

  /** The corrected `reset` keeps the invariant. */
  lemma {:induction false} ResetDeepKeepsWf(st: State)
    requires Wf(st)
    ensures Wf(ResetDeep(st))
  {
    var st' := ResetDeep(st);
    BuiltinNamesDistinct();
    assert forall n :: n in st'.live.entries ==> st'.live.entries[n] == Ref(st.next, n);
  }

  /** The corrected `reset` makes the table isolated whenever the built-in
      objects are intact: it never points the live table at them. */
  lemma {:induction false} ResetDeepIsolates(st: State)
    requires Wf(st) && Intact(st)
    ensures Isolated(ResetDeep(st))
  {
    var st' := ResetDeep(st);
    assert forall n :: n in st'.live.entries ==> st'.live.entries[n] == Ref(st.next, n);
    assert forall n :: n in BuiltinNames() ==> Deref(st', Ref(0, n)) == Deref(st, Ref(0, n));
  }

  /** The corrected import-time table: a deep copy of the built-in table. */
  function InitDeep(): (st: State)
    ensures Wf(st) && Isolated(st)
    ensures List(st) == BuiltinNames()
    ensures forall n :: Get(st, n) == Builtin(n)
  {
    InitWf();
    InitIntact();
    ResetDeepKeepsWf(Init());
    ResetDeepIsolates(Init());
    ResetDeep(Init())
  }

  /** `set` keeps the isolation: it never touches a built-in object. */
  lemma {:induction false} SetKeepsIsolated(st: State, name: string, opts: OptionMap)
    requires Fresh(st) && Isolated(st)
    ensures Isolated(Set(st, name, opts))
  {
    if name in st.live.entries {
      var r := st.live.entries[name];
      assert Set(st, name, opts) == st.(heap := st.heap[r := Deref(st, r) + opts]);
      WriteKeepsIntact(st, r, Deref(st, r) + opts);
    } else {
      var r := Ref(st.next, name);
      var st' := st.(heap := st.heap[r := map[] + opts], live := Dicts.Put(st.live, name, r), next := st.next + 1);
      assert Set(st, name, opts) == st';
      WriteKeepsIntact(st, r, map[] + opts);
      assert Intact(st');
    }
  }

  /** Writing to an object that is not built in leaves the built-in objects
      intact. */
  lemma WriteKeepsIntact(st: State, r: Ref, v: OptionMap)
    requires Intact(st) && r.gen >= 1
    ensures Intact(st.(heap := st.heap[r := v]))
  {
  }

  /** The promise of `reset`, met by the corrected definition: whatever was
      set before, every name reads as its built-in options again, so names
      added by `set` read as empty. */
  lemma {:induction false} ResetDeepRestoresBuiltins(st: State)
    requires Wf(st) && Isolated(st)
    ensures forall n :: Get(ResetDeep(st), n) == Builtin(n)
    ensures List(ResetDeep(st)) == BuiltinNames()
  {
    forall n ensures Get(ResetDeep(st), n) == Builtin(n) {
      if n in BuiltinNames() {
        assert st.snapshot.entries[n] == Ref(0, n);
      } else {
        assert Builtin(n) == map[];
      }
    }
  }

  /** The documented scenario with the corrected definitions. */
  lemma ResetDeepRestoresFlipCard()
    ensures Get(ResetDeep(Set(InitDeep(), "FlipCard", map["height" := VStr("999px")])), "FlipCard") == Get(InitDeep(), "FlipCard")
  {
    SetKeepsWf(InitDeep(), "FlipCard", map["height" := VStr("999px")]);
    SetKeepsIsolated(InitDeep(), "FlipCard", map["height" := VStr("999px")]);
    ResetDeepRestoresBuiltins(Set(InitDeep(), "FlipCard", map["height" := VStr("999px")]));
  }
}
