/**
 Patch application. Three parts of dalec apply the same `patches` section:

 - `PatchSources` folds the patches over an in-memory map of source states, in sorted order;
 - the RPM `%prep` section (module PrepPatches) runs `patch` commands one after another in
   one build directory that every source shares and every command changes;
 - the Debian patch script (module DebPatches) ranges over a Go map, and reads its patch
   files from copies taken from the unpatched sources.

 A source tree is any type `T` and a patch file any type `F`. What `patch` does to a tree
 stays uninterpreted. Each part is proved to compute the reference `Plan.Patched` for every
 interpretation, under a condition on the spec where one is needed. Module PatchTerms has
 an interpretation in which the conditions are also necessary.
 */
module Patches {
  import opened Values
  import opened Order
  import Paths

  /** `strip` is a number here because FillDefaults gives every patch one. */
  datatype PatchSpec = PatchSpec(source: string, path: string, strip: int)

  /** The cleaned components of the patch file's path below the directory of all sources:
      `filepath.Join(patch.Source, patch.Path)`. */
  function PatchPath(p: PatchSpec): seq<string>
  {
    Paths.Components(Paths.Join([p.source, p.path]))
  }

  /** Where the Debian copy of the patch file comes from inside its source; a path that
      cleans to the root copies a directory, which is no patch file. */
  function CopyLocation(p: PatchSpec): Option<seq<string>>
  {
    var cs := Paths.Components("/" + p.path);
    if p.path != "" && cs == [] then None else Some(cs)
  }

  /** What the build does with paths and trees, left open. */
  datatype Tools<!T, !F> = Tools(
    path: PatchSpec -> seq<string>,            // PatchPath in dalec
    copied: PatchSpec -> Option<seq<string>>,  // CopyLocation in dalec
    read: (T, seq<string>) -> F,               // the file at these components of a source's tree
    missing: F,                                // what opening an absent file or a directory amounts to
    apply: (T, F, int) -> T,                   // `patch -pN < file` run inside the tree
    nothing: T)                                // the zero state of a source the map does not hold

  /** The paths are resolved as dalec resolves them. */
  ghost predicate DalecPaths<T(!new), F(!new)>(tools: Tools<T, F>)
  {
    forall p :: tools.path(p) == PatchPath(p) && tools.copied(p) == CopyLocation(p)
  }

  /** A path that does not climb stays in its source, and the Debian copy is taken from the
      same place. */
  lemma PatchPathBelow(p: PatchSpec)
    requires Paths.PlainComponent(p.source) && Paths.StaysBelow(Paths.Split(p.path))
    ensures var cs := Paths.PushAll(false, [], Paths.Split(p.path));
      PatchPath(p) == [p.source] + cs && Paths.Components("/" + p.path) == cs
  {
    var cs := Paths.Split(p.path);
    Paths.JoinOnto(p.source, p.path);
    Paths.SplitPlain(p.source);
    assert Paths.Components(p.source) == [p.source] by {
      assert Paths.PushAll(false, [], [p.source]) == Paths.PushAll(false, [p.source], []);
    }
    Paths.SplitNoSlash(p.path);
    Paths.LandsBelow(false, [p.source], cs);
    Paths.LandsBelow(true, [], cs);
    assert ("/" + p.path)[1..] == p.path;
    assert Paths.Split("/" + p.path) == [""] + cs;
    assert ([""] + cs)[1..] == cs;
  }

  /** A Go map of source states: whoever holds it sees every change to it. */
  class StateMap<T> {
    var entries: map<string, T>

    constructor (entries: map<string, T>)
      ensures this.entries == entries
    {
      this.entries := entries;
    }

    /** `DuplicateMap`. */
    method Duplicate() returns (copy: StateMap<T>)
      ensures fresh(copy) && copy.entries == entries
    {
      copy := new StateMap(map[]);
      var order := RangeKeys(entries.Keys);
      for i := 0 to |order|
        invariant fresh(copy)
        invariant forall k :: k in copy.entries <==> k in order[..i]
        invariant forall k :: k in copy.entries ==> copy.entries[k] == entries[k]
      {
        copy.entries := copy.entries[order[i] := entries[order[i]]];
      }
      assert order[..|order|] == order;
      assert copy.entries.Keys == entries.Keys;
    }
  }

  ghost function Earlier(keys: set<string>, name: string): set<string>
  {
    set k | k in keys && Before(k, name)
  }

  lemma EarlierShrinks(keys: set<string>, a: string, b: string)
    requires a in keys && Before(a, b)
    ensures |Earlier(keys, a)| < |Earlier(keys, b)|
  {
    forall k | k in Earlier(keys, a) ensures k in Earlier(keys, b) {
      AtMostTransitive(k, a, b);
      if k == b { AtMostAntisymmetric(a, b); }
    }
    assert a in Earlier(keys, b) && a !in Earlier(keys, a);
    assert Earlier(keys, b) - {a} == Earlier(keys, a) + (Earlier(keys, b) - {a} - Earlier(keys, a));
  }

  /** In a sorted list, standing earlier and sorting earlier are the same. */
  lemma PositionIsOrder(sorted: seq<string>, i: nat, j: nat)
    requires Ascending(sorted) && i < |sorted| && j < |sorted|
    ensures Before(sorted[i], sorted[j]) <==> i < j
  {
    if j < i {
      assert Before(sorted[j], sorted[i]);
      if AtMost(sorted[i], sorted[j]) { AtMostAntisymmetric(sorted[i], sorted[j]); }
    }
  }

  lemma DoneIsEarlier(keys: seq<string>, n: nat, k: string)
    requires Ascending(keys) && n < |keys| && k in keys
    ensures k in keys[..n] <==> Before(k, keys[n])
  {
    var j :| 0 <= j < |keys| && keys[j] == k;
    PositionIsOrder(keys, j, n);
    if j < n {
      assert keys[..n][j] == k;
    }
    forall i | 0 <= i < n ensures keys[..n][i] == keys[i] && Before(keys[i], keys[n]) {
      PositionIsOrder(keys, i, n);
    }
  }

  lemma UpdateTwice<T>(dir: map<string, T>, k: string, x: T, y: T)
    ensures dir[k := x][k := y] == dir[k := y]
  {}

  lemma UpdateSame<T>(dir: map<string, T>, k: string)
    requires k in dir
    ensures dir[k := dir[k]] == dir
  {}

  /** The sources as they came, the patches to apply, and what applying means. */
  datatype Plan<!T(!new), !F(!new)> = Plan(
    tools: Tools<T, F>,
    base: map<string, T>,
    patches: map<string, seq<PatchSpec>>)
  {
    function PatchesOf(name: string): seq<PatchSpec>
    {
      if name in patches then patches[name] else []
    }

    /** Where the patch file's path points inside the patch source's own tree, if it does. */
    function Location(p: PatchSpec): Option<seq<string>>
    {
      var cs := tools.path(p);
      if cs != [] && cs[0] == p.source then Some(cs[1..]) else None
    }

    function StateOf(states: map<string, T>, name: string): T
    {
      if name in states then states[name] else tools.nothing
    }

    function ReadAt(tree: T, loc: Option<seq<string>>): F
    {
      match loc
      case Some(cs) => tools.read(tree, cs)
      case None => tools.missing
    }

    // ---------- the reference ----------

    /** A source's tree after its patches: a patch taken from a source that sorts strictly
        earlier sees that source patched, any other patch source is seen as it came. */
    ghost function Patched(name: string): T
      requires name in base
      decreases |Earlier(base.Keys, name)|, 1, 0
    {
      PatchedUpTo(name, |PatchesOf(name)|)
    }

    ghost function PatchedUpTo(name: string, n: nat): T
      requires name in base && n <= |PatchesOf(name)|
      decreases |Earlier(base.Keys, name)|, 0, n
    {
      if n == 0 then base[name] else
        var p := PatchesOf(name)[n - 1];
        tools.apply(PatchedUpTo(name, n - 1), ReadAt(SeenBy(name, p.source), Location(p)), p.strip)
    }

    lemma LastPatch(name: string, n: nat)
      requires name in base && 0 < n <= |PatchesOf(name)|
      ensures var p := PatchesOf(name)[n - 1];
        PatchedUpTo(name, n)
          == tools.apply(PatchedUpTo(name, n - 1), ReadAt(SeenBy(name, p.source), Location(p)), p.strip)
    {}

    ghost function SeenBy(name: string, source: string): T
      requires name in base
      decreases |Earlier(base.Keys, name)|, 0, 0
    {
      if source !in base then tools.nothing
      else if Before(source, name) then EarlierShrinks(base.Keys, source, name); Patched(source)
      else base[source]
    }

    /** The map as it stands when the loop over sorted names reaches `name`. */
    ghost predicate Reached(name: string, states: map<string, T>)
      requires name in base
    {
      states.Keys == base.Keys && forall k :: k in base ==> states[k] == SeenBy(name, k)
    }

    // ---------- PatchSources ----------

    ghost function FoldPatches(states: map<string, T>, tree: T, ps: seq<PatchSpec>): T
      decreases |ps|
    {
      if ps == [] then tree else
        var p := ps[|ps| - 1];
        tools.apply(FoldPatches(states, tree, ps[..|ps| - 1]), ReadAt(StateOf(states, p.source), Location(p)), p.strip)
    }

    /** `patchSource`: each `patch` run's output is the next run's input. */
    method PatchSource(tree: T, states: map<string, T>, ps: seq<PatchSpec>) returns (result: T)
      ensures result == FoldPatches(states, tree, ps)
    {
      result := tree;
      for i := 0 to |ps|
        invariant result == FoldPatches(states, tree, ps[..i])
      {
        var p := ps[i];
        assert ps[..i + 1][..i] == ps[..i];
        result := tools.apply(result, ReadAt(StateOf(states, p.source), Location(p)), p.strip);
      }
      assert ps[..|ps|] == ps;
    }

    lemma {:induction false} FoldIsPatched(name: string, states: map<string, T>, n: nat)
      requires name in base && n <= |PatchesOf(name)| && Reached(name, states)
      ensures FoldPatches(states, base[name], PatchesOf(name)[..n]) == PatchedUpTo(name, n)
      decreases n
    {
      if n > 0 {
        FoldIsPatched(name, states, n - 1);
        assert PatchesOf(name)[..n][..n - 1] == PatchesOf(name)[..n - 1];
      }
    }

    /** The sources in `done` are patched, the others are as they came. */
    ghost predicate DoneTo(done: seq<string>, states: map<string, T>)
    {
      && states.Keys == base.Keys
      && forall k :: k in base ==> states[k] == (if k in done then Patched(k) else base[k])
    }

    /** Working through a sorted list that has every patched source, the loop reaches each
        name with exactly the earlier ones patched. */
    lemma DoneIsReached(keys: seq<string>, n: nat, states: map<string, T>)
      requires Ascending(keys) && n < |keys| && keys[n] in base
      requires forall k :: k in base && Repatched(k) ==> k in keys
      requires DoneTo(keys[..n], states)
      ensures Reached(keys[n], states)
    {
      forall k | k in base ensures states[k] == SeenBy(keys[n], k) {
        if Repatched(k) {
          DoneIsEarlier(keys, n, k);
        } else {
          assert Patched(k) == base[k];
        }
      }
    }

    lemma DoneWithOneMore(keys: seq<string>, n: nat, states: map<string, T>, states': map<string, T>)
      requires n < |keys| && keys[n] in base && DoneTo(keys[..n], states)
      requires states' == states[keys[n] := Patched(keys[n])]
      ensures DoneTo(keys[..n + 1], states')
    {
      assert keys[..n + 1] == keys[..n] + [keys[n]];
    }

    lemma NothingToDo(keys: seq<string>, n: nat, states: map<string, T>)
      requires n < |keys| && keys[n] in base && DoneTo(keys[..n], states) && !Repatched(keys[n])
      ensures DoneTo(keys[..n + 1], states)
    {
      assert keys[..n + 1] == keys[..n] + [keys[n]];
      assert Patched(keys[n]) == base[keys[n]];
    }

    /** `PatchSources`: overwriting one map in sorted order computes the reference, on every
        spec: also when a patch source is unknown, patched itself, or its own target. The map
        is a duplicate: the caller's own may not be changed. */
    method PatchSources(given: StateMap<T>) returns (states: StateMap<T>)
      requires given.entries == base
      ensures fresh(states) && states.entries.Keys == base.Keys
      ensures forall k :: k in base ==> states.entries[k] == Patched(k)
      ensures given.entries == old(given.entries)
    {
      states := given.Duplicate();
      var sorted := SortMapKeys(states.entries);
      for i := 0 to |sorted|
        invariant fresh(states) && DoneTo(sorted[..i], states.entries)
      {
        var name := sorted[i];
        DoneIsReached(sorted, i, states.entries);
        if name in patches {
          FoldIsPatched(name, states.entries, |patches[name]|);
          assert patches[name][..|patches[name]|] == patches[name];
          assert states.entries[name] == base[name];
          var patched := PatchSource(states.entries[name], states.entries, patches[name]);
          DoneWithOneMore(sorted, i, states.entries, states.entries[name := patched]);
          states.entries := states.entries[name := patched];
        } else {
          NothingToDo(sorted, i, states.entries);
        }
      }
      assert sorted[..|sorted|] == sorted;
    }

    ghost predicate Repatched(name: string)
    {
      PatchesOf(name) != []
    }

    // ---------- getPatchedSources ----------

    ghost predicate TakesFrom(name: string, source: string)
    {
      exists i :: 0 <= i < |PatchesOf(name)| && PatchesOf(name)[i].source == source
    }

    /** Keeping `name` brings in `k`: it is `name`, or a patch of `name` comes from it. */
    ghost predicate Fetches(keep: string -> bool, name: string, k: string)
    {
      keep(name) && (k == name || TakesFrom(name, k))
    }

    /** The plan in which only the fetched sources are left. */
    ghost function Fetched(keep: string -> bool): Plan<T, F>
    {
      this.(base := map k | k in base && (exists n :: n in base && Fetches(keep, n, k)) :: base[k])
    }

    /** Adds the patch sources of `name` to the fetched states; fails on an unknown one. */
    method FetchPatchSources(name: string, states: map<string, T>) returns (result: Option<map<string, T>>)
      requires forall k :: k in states ==> k in base && states[k] == base[k]
      ensures result.None? <==> exists k :: TakesFrom(name, k) && k !in base
      ensures result.Some? ==>
        && (forall k :: k in result.value ==> k in base && result.value[k] == base[k])
        && (forall k :: k in result.value <==> k in states || TakesFrom(name, k))
    {
      var ps, acc := PatchesOf(name), states;
      for i := 0 to |ps|
        invariant forall k :: k in acc ==> k in base && acc[k] == base[k]
        invariant forall k :: k in states ==> k in acc
        invariant forall j :: 0 <= j < i ==> ps[j].source in acc
        invariant forall k :: k in acc ==> k in states || TakesFrom(name, k)
      {
        assert TakesFrom(name, ps[i].source);
        if ps[i].source !in base {
          return None;
        }
        acc := acc[ps[i].source := base[ps[i].source]];
      }
      result := Some(acc);
    }

    /** `getPatchedSources`: only the sources the filter keeps, and their patch sources, are
        fetched and patched. */
    method GetPatchedSources(keep: string -> bool) returns (result: Option<map<string, T>>)
      ensures result.None? <==> exists n, k :: n in base && keep(n) && TakesFrom(n, k) && k !in base
      ensures result.Some? ==>
        var part := Fetched(keep);
        && result.value.Keys == part.base.Keys
        && forall k :: k in part.base ==> result.value[k] == part.Patched(k)
    {
      var states: map<string, T> := map[];
      var order := RangeKeys(base.Keys);
      for i := 0 to |order|
        invariant forall k :: k in states ==> k in base && states[k] == base[k]
        invariant forall k :: k in states ==> exists n :: n in base && Fetches(keep, n, k)
        invariant forall j, k :: 0 <= j < i && Fetches(keep, order[j], k) ==> k in states
      {
        if keep(order[i]) {
          var found := FetchPatchSources(order[i], states[order[i] := base[order[i]]]);
          if found.None? {
            return None;
          }
          states := found.value;
        }
      }
      SameMap(states, Fetched(keep).base, base);
      var given := new StateMap(states);
      var patched := this.(base := states).PatchSources(given);
      result := Some(patched.entries);
    }

    static lemma SameMap(a: map<string, T>, b: map<string, T>, whole: map<string, T>)
      requires forall k :: k in a ==> k in whole && a[k] == whole[k]
      requires forall k :: k in b ==> k in whole && b[k] == whole[k]
      requires forall k :: k in a <==> k in b
      ensures a == b
    {}

    /** Everything the patched form of `name` depends on lies in `keys`. */
    ghost predicate Covered(keys: set<string>, name: string)
      decreases |Earlier(base.Keys, name)|
    {
      forall i :: 0 <= i < |PatchesOf(name)| ==>
        var p := PatchesOf(name)[i];
        || Location(p).None?
        || (p.source in keys &&
            (p.source in base && Before(p.source, name) ==>
              (EarlierShrinks(base.Keys, p.source, name); Covered(keys, p.source))))
    }

    /** Patching part of the sources gives a covered source the tree it has when all are patched. */
    lemma {:induction false} PartAgrees(part: Plan<T, F>, name: string, n: nat)
      requires part == this.(base := part.base)
      requires forall k :: k in part.base ==> k in base && part.base[k] == base[k]
      requires name in part.base && n <= |PatchesOf(name)| && Covered(part.base.Keys, name)
      ensures part.PatchedUpTo(name, n) == PatchedUpTo(name, n)
      decreases |Earlier(base.Keys, name)|, n
    {
      if n > 0 {
        PartAgrees(part, name, n - 1);
        var p := PatchesOf(name)[n - 1];
        assert part.PatchesOf(name) == PatchesOf(name);
        if Location(p).Some? {
          assert p.source in part.base;
          if Before(p.source, name) {
            EarlierShrinks(base.Keys, p.source, name);
            PartAgrees(part, p.source, |PatchesOf(p.source)|);
            assert part.PatchesOf(p.source) == PatchesOf(p.source);
          }
          assert part.SeenBy(name, p.source) == SeenBy(name, p.source);
        }
        assert part.ReadAt(part.SeenBy(name, p.source), part.Location(p))
          == ReadAt(SeenBy(name, p.source), Location(p));
        LastPatch(name, n);
        part.LastPatch(name, n);
      }
    }

    /** `getPatchedSources` gives every kept source the state `PatchSources` over the whole
        spec gives it, whatever the filter, when no patch source is patched itself. */
    lemma KeptSourcesAgree(keep: string -> bool, name: string)
      requires forall n, k :: n in base && TakesFrom(n, k) ==> k in base && !Repatched(k)
      requires name in base && keep(name)
      ensures name in Fetched(keep).base
      ensures Fetched(keep).Patched(name) == Patched(name)
    {
      assert Fetches(keep, name, name);
      forall i | 0 <= i < |PatchesOf(name)|
        ensures PatchesOf(name)[i].source in Fetched(keep).base && !Repatched(PatchesOf(name)[i].source)
      {
        assert TakesFrom(name, PatchesOf(name)[i].source);
        assert Fetches(keep, name, PatchesOf(name)[i].source);
      }
      PartAgrees(Fetched(keep), name, |PatchesOf(name)|);
    }
  }

  /** Patch targets and patch sources are all sources of the spec. */
  ghost predicate Closed<T(!new), F(!new)>(b: Plan<T, F>)
  {
    && (forall name :: name in b.patches ==> name in b.base)
    && (forall name, k :: b.TakesFrom(name, k) ==> k in b.base)
  }
}
