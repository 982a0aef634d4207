/**
 The interpretation of patch application that forgets nothing: a tree is the record of how
 it came about. Two parts of dalec that agree on these terms agree whatever `patch` does;
 here the conditions of PrepPatches, DebPatches and getPatchedSources turn out to be exact.
 */
module PatchTerms {
  import opened Values
  import opened Order
  import opened Patches
  import P = PrepPatches
  import D = DebPatches
  import Paths

  datatype Term = Nothing | Base(name: string) | Applied(tree: Term, file: File, strip: int)
  datatype File = Missing | At(of: Term, loc: seq<string>)

  /** The plan keeps terms; how it resolves paths is still open. */
  ghost predicate IsRecorded(b: Plan<Term, File>)
  {
    && (forall k :: k in b.base ==> b.base[k] == Base(k))
    && (forall t, l :: b.tools.read(t, l) == At(t, l))
    && (forall t, f, s :: b.tools.apply(t, f, s) == Applied(t, f, s))
    && b.tools.missing == Missing
    && b.tools.nothing == Nothing
  }

  function Terms(path: PatchSpec -> seq<string>, copied: PatchSpec -> Option<seq<string>>): Tools<Term, File>
  {
    Tools(path, copied, (t, l) => At(t, l), Missing, (t, f, s) => Applied(t, f, s), Nothing)
  }

  /** Every spec has such a plan, with dalec's own paths. */
  lemma RecordedExists(sources: set<string>, patches: map<string, seq<PatchSpec>>)
    ensures var b := Plan(Terms(PatchPath, CopyLocation), map k | k in sources :: Base(k), patches);
      IsRecorded(b) && DalecPaths(b.tools) && b.base.Keys == sources
  {}

  /** A term tells whether anything was applied. */
  lemma Untouched(b: Plan<Term, File>, name: string, n: nat)
    requires IsRecorded(b) && name in b.base && n <= |b.PatchesOf(name)|
    ensures b.PatchedUpTo(name, n) == Base(name) <==> n == 0
    ensures b.PatchedUpTo(name, n) != Nothing
  {}

  // ---------- getPatchedSources ----------

  /** A fetched part of the spec patches a source as the whole spec does exactly when all
      the source depends on was fetched. */
  lemma {:induction false} PartExact(b: Plan<Term, File>, part: Plan<Term, File>, name: string)
    requires IsRecorded(b) && IsRecorded(part) && Closed(b)
    requires part.patches == b.patches && part.tools == b.tools && part.base.Keys <= b.base.Keys
    requires name in part.base
    ensures part.Patched(name) == b.Patched(name) <==> b.Covered(part.base.Keys, name)
    decreases |Earlier(b.base.Keys, name)|
  {
    if b.Covered(part.base.Keys, name) {
      b.PartAgrees(part, name, |b.PatchesOf(name)|);
    }
    if part.Patched(name) == b.Patched(name) {
      forall i | 0 <= i < |b.PatchesOf(name)|
        ensures var p := b.PatchesOf(name)[i];
          b.Location(p).Some? ==>
            p.source in part.base && (Before(p.source, name) ==> b.Covered(part.base.Keys, p.source))
      {
        PartSees(b, part, name, i, |b.PatchesOf(name)|);
        var p := b.PatchesOf(name)[i];
        assert b.TakesFrom(name, p.source);
        Untouched(b, p.source, |b.PatchesOf(p.source)|);
        if b.Location(p).Some? && Before(p.source, name) {
          EarlierShrinks(b.base.Keys, p.source, name);
          PartExact(b, part, p.source);
        }
      }
    }
  }

  /** Equal terms were built from equal steps. */
  lemma {:induction false} PartSees(b: Plan<Term, File>, part: Plan<Term, File>, name: string, i: nat, n: nat)
    requires IsRecorded(b) && IsRecorded(part)
    requires part.patches == b.patches && part.tools == b.tools && name in part.base && name in b.base
    requires i < n <= |b.PatchesOf(name)|
    requires part.PatchedUpTo(name, n) == b.PatchedUpTo(name, n)
    ensures var p := b.PatchesOf(name)[i];
      part.ReadAt(part.SeenBy(name, p.source), b.Location(p)) == b.ReadAt(b.SeenBy(name, p.source), b.Location(p))
    decreases n
  {
    b.LastPatch(name, n);
    part.LastPatch(name, n);
    if i < n - 1 {
      PartSees(b, part, name, i, n - 1);
    }
  }

  // ---------- RPM %prep ----------

  lemma SameFileIsSafe(b: Plan<Term, File>, name: string, dir: map<string, Term>, n: nat)
    requires IsRecorded(b) && Closed(b) && name in b.base && n < |b.PatchesOf(name)|
    requires b.Reached(name, dir) && P.SameFileAt(b, name, dir, n)
    ensures P.SafeAt(b, name, n)
  {
    var p := b.PatchesOf(name)[n];
    assert b.TakesFrom(name, p.source);
    Untouched(b, name, n);
  }

  /** If the commands of a target record the right steps, each of them was safe. */
  lemma {:induction false} TargetExact(b: Plan<Term, File>, name: string, dir: map<string, Term>, n: nat)
    requires IsRecorded(b) && Closed(b) && name in b.base && n <= |b.PatchesOf(name)|
    requires b.Reached(name, dir)
    requires var r := P.Run(b.tools, dir, P.CommandsFor(name, b.PatchesOf(name)[..n]));
      r.Some? && name in r.value && r.value[name] == b.PatchedUpTo(name, n)
    ensures ExactTo(b, name, dir, n)
    decreases n
  {
    if n > 0 {
      OnlyTarget(b, name, dir, n - 1);
      var mid := P.Run(b.tools, dir, P.CommandsFor(name, b.PatchesOf(name)[..n - 1])).value;
      StepBack(b, name, dir, n, mid);
      TargetExact(b, name, dir, n - 1);
      LastExact(b, name, dir, n, mid);
    }
  }

  /** The first `n` commands of the target are safe and read the right files. */
  ghost predicate ExactTo(b: Plan<Term, File>, name: string, dir: map<string, Term>, n: nat)
    requires name in b.base && n <= |b.PatchesOf(name)|
  {
    forall i: nat :: i < n ==> P.SafeAt(b, name, i) && P.SameFileAt(b, name, dir, i)
  }

  lemma LastExact(b: Plan<Term, File>, name: string, dir: map<string, Term>, n: nat, mid: map<string, Term>)
    requires IsRecorded(b) && Closed(b) && name in b.base && 0 < n <= |b.PatchesOf(name)| && b.Reached(name, dir)
    requires ExactTo(b, name, dir, n - 1)
    requires P.Run(b.tools, dir, P.CommandsFor(name, b.PatchesOf(name)[..n - 1])) == Some(mid)
    requires var p := b.PatchesOf(name)[n - 1];
      P.FileAt(b.tools, mid, b.tools.path(p)) == b.ReadAt(b.SeenBy(name, p.source), b.Location(p))
    ensures ExactTo(b, name, dir, n)
  {
    P.TargetAgrees(b, name, dir, n - 1);
    assert mid == P.Partway(b, name, dir, n - 1);
    assert P.SameFileAt(b, name, dir, n - 1);
    SameFileIsSafe(b, name, dir, n - 1);
  }

  /** A step that recorded the right term started from the right tree and read the right file. */
  lemma StepBack(b: Plan<Term, File>, name: string, dir: map<string, Term>, n: nat, mid: map<string, Term>)
    requires IsRecorded(b) && name in b.base && 0 < n <= |b.PatchesOf(name)| && name in mid
    requires P.Run(b.tools, dir, P.CommandsFor(name, b.PatchesOf(name)[..n - 1])) == Some(mid)
    requires var r := P.Run(b.tools, dir, P.CommandsFor(name, b.PatchesOf(name)[..n]));
      r.Some? && name in r.value && r.value[name] == b.PatchedUpTo(name, n)
    ensures mid[name] == b.PatchedUpTo(name, n - 1)
    ensures var p := b.PatchesOf(name)[n - 1];
      P.FileAt(b.tools, mid, b.tools.path(p)) == b.ReadAt(b.SeenBy(name, p.source), b.Location(p))
  {
    P.StepOne(b, name, dir, n, mid);
    b.LastPatch(name, n);
  }

  /** The commands of one target change that target and nothing else. */
  lemma {:induction false} OnlyTarget(b: Plan<Term, File>, name: string, dir: map<string, Term>, n: nat)
    requires name in dir && n <= |b.PatchesOf(name)|
    ensures var r := P.Run(b.tools, dir, P.CommandsFor(name, b.PatchesOf(name)[..n]));
      && r.Some? && r.value.Keys == dir.Keys
      && forall k :: k in dir && k != name ==> r.value[k] == dir[k]
    decreases n
  {
    if n > 0 {
      OnlyTarget(b, name, dir, n - 1);
      P.StepOne(b, name, dir, n, P.Run(b.tools, dir, P.CommandsFor(name, b.PatchesOf(name)[..n - 1])).value);
    }
  }

  ghost function After(b: Plan<Term, File>, keys: seq<string>, n: nat): Option<map<string, Term>>
    requires n <= |keys| && forall k :: k in keys ==> k in b.patches
  {
    P.Run(b.tools, b.base, P.Commands(keys[..n], b.patches))
  }

  lemma NextTarget(b: Plan<Term, File>, keys: seq<string>, n: nat)
    requires Closed(b) && (forall k :: k in keys ==> k in b.patches) && 0 < n <= |keys|
    requires After(b, keys, n - 1).Some? && After(b, keys, n - 1).value.Keys == b.base.Keys
    ensures After(b, keys, n).Some? && After(b, keys, n).value.Keys == b.base.Keys
    ensures forall k :: k in b.base && k != keys[n - 1] ==> After(b, keys, n).value[k] == After(b, keys, n - 1).value[k]
  {
    P.OneMoreTarget(b, keys, n);
    OnlyTarget(b, keys[n - 1], After(b, keys, n - 1).value, |b.PatchesOf(keys[n - 1])|);
  }

  lemma {:induction false} AllRun(b: Plan<Term, File>, keys: seq<string>, n: nat)
    requires Closed(b) && (forall k :: k in keys ==> k in b.patches) && n <= |keys|
    ensures After(b, keys, n).Some? && After(b, keys, n).value.Keys == b.base.Keys
    decreases n
  {
    if n > 0 {
      AllRun(b, keys, n - 1);
      NextTarget(b, keys, n);
    }
  }

  /** Later targets leave a finished one alone. */
  lemma {:induction false} FinishedStays(b: Plan<Term, File>, keys: seq<string>, k: string, n: nat, m: nat)
    requires Closed(b) && (forall k :: k in keys ==> k in b.patches) && n <= m <= |keys|
    requires k in b.base && forall i :: n <= i < m ==> keys[i] != k
    ensures After(b, keys, n).Some? && k in After(b, keys, n).value
    ensures After(b, keys, m).Some? && k in After(b, keys, m).value
    ensures After(b, keys, m).value[k] == After(b, keys, n).value[k]
    decreases m
  {
    AllRun(b, keys, m);
    if n < m {
      FinishedStays(b, keys, k, n, m - 1);
      AllRun(b, keys, m - 1);
      NextTarget(b, keys, m);
    }
  }

  ghost predicate PrepMatches(b: Plan<Term, File>)
  {
    var r := P.Run(b.tools, b.base, P.Commands(SortedKeys(b.patches.Keys), b.patches));
    && r.Some? && r.value.Keys == b.base.Keys
    && forall k :: k in b.base ==> r.value[k] == b.Patched(k)
  }

  ghost predicate SafeTarget(b: Plan<Term, File>, name: string)
  {
    forall i: nat :: i < |b.PatchesOf(name)| ==> P.SafeAt(b, name, i)
  }

  lemma PrepMatchesAt(b: Plan<Term, File>, keys: seq<string>, n: nat)
    requires Closed(b) && keys == SortedKeys(b.patches.Keys) && PrepMatches(b) && 0 < n <= |keys|
    ensures After(b, keys, n).Some? && keys[n - 1] in After(b, keys, n).value
    ensures After(b, keys, n).value[keys[n - 1]] == b.Patched(keys[n - 1])
  {
    AfterAll(b, keys);
    FinishedStays(b, keys, keys[n - 1], n, |keys|);
  }

  lemma AfterAll(b: Plan<Term, File>, keys: seq<string>)
    requires forall k :: k in keys ==> k in b.patches
    ensures After(b, keys, |keys|) == P.Run(b.tools, b.base, P.Commands(keys, b.patches))
  {
    assert keys[..|keys|] == keys;
  }

  /** The first `n` targets are patched as in memory, and safe. */
  ghost predicate TargetsDone(b: Plan<Term, File>, keys: seq<string>, n: nat)
    requires n <= |keys| && forall k :: k in keys ==> k in b.patches
  {
    && After(b, keys, n).Some? && b.DoneTo(keys[..n], After(b, keys, n).value)
    && forall j :: 0 <= j < n ==> SafeTarget(b, keys[j])
  }

  lemma {:induction false} TargetsExact(b: Plan<Term, File>, keys: seq<string>, n: nat)
    requires IsRecorded(b) && Closed(b) && keys == SortedKeys(b.patches.Keys) && n <= |keys|
    requires PrepMatches(b)
    ensures TargetsDone(b, keys, n)
    decreases n
  {
    if n > 0 {
      TargetsExact(b, keys, n - 1);
      NextTargetExact(b, keys, n);
    } else {
      NoTargetYet(b, keys);
    }
  }

  lemma NoTargetYet(b: Plan<Term, File>, keys: seq<string>)
    requires forall k :: k in keys ==> k in b.patches
    ensures TargetsDone(b, keys, 0)
  {
    assert keys[..0] == [];
  }

  lemma NextTargetExact(b: Plan<Term, File>, keys: seq<string>, n: nat)
    requires IsRecorded(b) && Closed(b) && keys == SortedKeys(b.patches.Keys) && 0 < n <= |keys| && PrepMatches(b)
    requires TargetsDone(b, keys, n - 1)
    ensures TargetsDone(b, keys, n)
  {
    PrepMatchesAt(b, keys, n);
    OneTargetExact(b, keys, n);
  }

  lemma OneTargetExact(b: Plan<Term, File>, keys: seq<string>, n: nat)
    requires IsRecorded(b) && Closed(b) && keys == SortedKeys(b.patches.Keys) && 0 < n <= |keys|
    requires After(b, keys, n - 1).Some? && b.DoneTo(keys[..n - 1], After(b, keys, n - 1).value)
    requires After(b, keys, n).Some? && keys[n - 1] in After(b, keys, n).value
    requires After(b, keys, n).value[keys[n - 1]] == b.Patched(keys[n - 1])
    ensures b.DoneTo(keys[..n], After(b, keys, n).value)
    ensures SafeTarget(b, keys[n - 1])
  {
    var name, mid := keys[n - 1], After(b, keys, n - 1).value;
    b.DoneIsReached(keys, n - 1, mid);
    P.OneMoreTarget(b, keys, n);
    TargetExact(b, name, mid, |b.PatchesOf(name)|);
    P.TargetAgrees(b, name, mid, |b.PatchesOf(name)|);
    b.DoneWithOneMore(keys, n - 1, mid, mid[name := b.Patched(name)]);
  }

  /** On terms, the `%prep` commands compute what `PatchSources` computes exactly when the
      spec is safe for them. */
  lemma PrepExact(b: Plan<Term, File>)
    requires IsRecorded(b) && Closed(b)
    ensures PrepMatches(b) <==> P.Safe(b)
  {
    if P.Safe(b) {
      P.PrepAgrees(b);
    } else if PrepMatches(b) {
      MatchingIsSafe(b);
    }
  }

  lemma SafeOne(b: Plan<Term, File>, keys: seq<string>, name: string, n: nat)
    requires (forall j :: 0 <= j < |keys| ==> SafeTarget(b, keys[j])) && name in keys && n < |b.PatchesOf(name)|
    ensures P.SafeAt(b, name, n)
  {
    var j :| 0 <= j < |keys| && keys[j] == name;
    assert SafeTarget(b, keys[j]);
  }

  lemma MatchingIsSafe(b: Plan<Term, File>)
    requires IsRecorded(b) && Closed(b) && PrepMatches(b)
    ensures P.Safe(b)
  {
    var keys := SortedKeys(b.patches.Keys);
    TargetsExact(b, keys, |keys|);
    forall name, n: nat | n < |b.PatchesOf(name)| ensures P.SafeAt(b, name, n) {
      assert name in keys;
      SafeOne(b, keys, name, n);
    }
  }

  // ---------- Debian patch script ----------

  lemma SameCopyIsSafe(b: Plan<Term, File>, name: string, n: nat)
    requires IsRecorded(b) && Closed(b) && name in b.base && n < |b.PatchesOf(name)|
    requires D.SameFileAt(b, name, n)
    ensures D.SafeAt(b, name, n)
  {
    var p := b.PatchesOf(name)[n];
    assert b.TakesFrom(name, p.source);
    assert D.From(b.PatchesOf(name), p.source);
    var copy := b.tools.copied(D.LastFrom(b.PatchesOf(name), p.source));
    assert D.Copied(b, name, p.source) == b.ReadAt(b.base[p.source], copy);
    Untouched(b, p.source, |b.PatchesOf(p.source)|);
    assert copy == b.Location(p);
    if copy.Some? && Before(p.source, name) {
      assert b.Patched(p.source) == Base(p.source);
      assert |b.PatchesOf(p.source)| == 0;
    }
  }

  lemma {:induction false} ScriptTargetExact(b: Plan<Term, File>, name: string, n: nat)
    requires IsRecorded(b) && Closed(b) && name in b.base && n <= |b.PatchesOf(name)|
    requires D.ScriptPatched(b, name, n) == b.PatchedUpTo(name, n)
    ensures forall i: nat :: i < n ==> D.SafeAt(b, name, i)
    decreases n
  {
    if n > 0 {
      b.LastPatch(name, n);
      assert D.SameFileAt(b, name, n - 1);
      SameCopyIsSafe(b, name, n - 1);
      ScriptTargetExact(b, name, n - 1);
    }
  }

  ghost predicate ScriptMatches(b: Plan<Term, File>, order: seq<string>)
    requires Enumerates(order, b.patches.Keys)
  {
    var r := D.Run(b, D.Script(order, b.patches));
    && r.Some? && r.value.Keys == b.base.Keys
    && forall k :: k in b.base ==> r.value[k] == b.Patched(k)
  }

  /** On terms, the Debian script computes what `PatchSources` computes, in one map order or
      in all of them, exactly when the spec is safe for it. */
  lemma ScriptExact(b: Plan<Term, File>, order: seq<string>)
    requires IsRecorded(b) && Closed(b) && Enumerates(order, b.patches.Keys)
    ensures ScriptMatches(b, order) <==> D.Safe(b)
  {
    if D.Safe(b) {
      D.ScriptAgrees(b, order);
    }
    if ScriptMatches(b, order) {
      D.ScriptDeterministic(b, order);
      forall name, n: nat | n < |b.PatchesOf(name)| ensures D.SafeAt(b, name, n) {
        assert name in b.base;
        assert D.ScriptResult(b)[name] == b.Patched(name);
        ScriptTargetExact(b, name, |b.PatchesOf(name)|);
      }
    }
  }

  // ---------- specs on which they differ ----------

  /** The plan that keeps terms, with dalec's own paths. */
  ghost function Recorded(sources: set<string>, patches: map<string, seq<PatchSpec>>): Plan<Term, File>
  {
    Plan(Terms(PatchPath, CopyLocation), map k | k in sources :: Base(k), patches)
  }

  /** The file `x` of a source. */
  lemma NamedFile(p: PatchSpec)
    requires Paths.PlainComponent(p.source) && Paths.PlainComponent(p.path)
    ensures PatchPath(p) == [p.source, p.path] && CopyLocation(p) == Some([p.path])
  {
    Paths.NameInside(p.path);
    PatchPathBelow(p);
  }

  lemma NamedLocation(b: Plan<Term, File>, p: PatchSpec)
    requires b.tools.path(p) == [p.source, p.path]
    ensures b.Location(p) == Some([p.path])
  {
    assert [p.source, p.path][1..] == [p.path];
  }

  /** A source whose second patch comes from itself: the `%prep` commands find the file as the
      first patch left it. */
  lemma SelfPatchDiffers(p: PatchSpec, patches: map<string, seq<PatchSpec>>)
    requires p == PatchSpec("a", "x", 1) && patches == map["a" := [p, p]]
    ensures Closed(Recorded({"a"}, patches)) && !PrepMatches(Recorded({"a"}, patches))
  {
    var b := Recorded({"a"}, patches);
    RecordedExists({"a"}, patches);
    NamedFile(p);
    assert b.PatchesOf("a")[1] == p;
    assert !P.SafeAt(b, "a", 1);
    PrepExact(b);
  }

  lemma UnsafeDiffers(b: Plan<Term, File>, name: string, n: nat, order: seq<string>)
    requires IsRecorded(b) && Closed(b) && Enumerates(order, b.patches.Keys)
    requires n < |b.PatchesOf(name)| && !D.SafeAt(b, name, n)
    ensures !ScriptMatches(b, order)
  {
    ScriptExact(b, order);
  }

  lemma EarlierUnsafe(b: Plan<Term, File>, name: string, n: nat)
    requires n < |b.PatchesOf(name)|
    requires var p := b.PatchesOf(name)[n]; b.Location(p).Some? && Before(p.source, name) && b.Repatched(p.source)
    ensures !D.SafeAt(b, name, n)
  {}

  lemma TwoFilesUnsafe(b: Plan<Term, File>, name: string, p: PatchSpec, q: PatchSpec)
    requires b.PatchesOf(name) == [p, q] && p.source == q.source && b.Location(p) != b.tools.copied(q)
    ensures !D.SafeAt(b, name, 0)
  {
    LastOfTwo(p, q);
  }

  lemma RecordedPaths(b: Plan<Term, File>, p: PatchSpec)
    requires DalecPaths(b.tools) && Paths.PlainComponent(p.source) && Paths.PlainComponent(p.path)
    ensures b.Location(p) == b.tools.copied(p) == Some([p.path])
  {
    NamedFile(p);
    NamedLocation(b, p);
  }

  /** A patch from a source that sorts earlier and is patched itself: the Debian copy was taken
      before. */
  lemma PatchedEarlierDiffers(p: PatchSpec, q: PatchSpec, b: Plan<Term, File>, order: seq<string>)
    requires p == PatchSpec("a", "x", 1) && q == PatchSpec("c", "y", 1)
    requires b == Recorded({"a", "b", "c"}, map["a" := [q], "b" := [p]]) && Enumerates(order, b.patches.Keys)
    ensures Closed(b) && !ScriptMatches(b, order)
  {
    EarlierPlan(p, q, b);
    RecordedPaths(b, p);
    EarlierUnsafe(b, "b", 0);
    UnsafeDiffers(b, "b", 0, order);
  }

  lemma EarlierPlan(p: PatchSpec, q: PatchSpec, b: Plan<Term, File>)
    requires p == PatchSpec("a", "x", 1) && q == PatchSpec("c", "y", 1)
      && b == Recorded({"a", "b", "c"}, map["a" := [q], "b" := [p]])
    ensures IsRecorded(b) && DalecPaths(b.tools) && Closed(b) && b.PatchesOf("b") == [p] && b.Repatched("a")
      && Before("a", "b")
  {
    RecordedExists({"a", "b", "c"}, map["a" := [q], "b" := [p]]);
  }

  lemma LastOfTwo(p: PatchSpec, q: PatchSpec)
    requires p.source == q.source
    ensures D.From([p, q], p.source) && D.LastFrom([p, q], p.source) == q
  {
    assert [p, q][0].source == p.source;
  }

  /** Two files from one source for one target: the second copy lies over the first. */
  lemma TwoFilesDiffer(p: PatchSpec, q: PatchSpec, b: Plan<Term, File>, order: seq<string>)
    requires p == PatchSpec("a", "x", 1) && q == PatchSpec("a", "y", 1)
    requires b == Recorded({"a", "b"}, map["b" := [p, q]]) && Enumerates(order, b.patches.Keys)
    ensures Closed(b) && !ScriptMatches(b, order)
  {
    TwoFilesPlan(p, q, b);
    RecordedPaths(b, p);
    RecordedPaths(b, q);
    TwoFilesUnsafe(b, "b", p, q);
    UnsafeDiffers(b, "b", 0, order);
  }

  lemma TwoFilesPlan(p: PatchSpec, q: PatchSpec, b: Plan<Term, File>)
    requires p == PatchSpec("a", "x", 1) && q == PatchSpec("a", "y", 1) && b == Recorded({"a", "b"}, map["b" := [p, q]])
    ensures IsRecorded(b) && DalecPaths(b.tools) && Closed(b) && b.PatchesOf("b") == [p, q]
  {
    RecordedExists({"a", "b"}, map["b" := [p, q]]);
  }

  /** A source that is a file, with the path `.`, which names the file itself; the Debian copy
      is of a directory. */
  lemma DotPathDiffers(p: PatchSpec, b: Plan<Term, File>, order: seq<string>)
    requires p == PatchSpec("a", ".", 1)
    requires b == Recorded({"a", "b"}, map["b" := [p]]) && Enumerates(order, b.patches.Keys)
    ensures Closed(b) && !ScriptMatches(b, order)
  {
    DotPlan(p, b);
    DotPaths(p);
    DotUnsafe(b, "b", p);
    UnsafeDiffers(b, "b", 0, order);
  }

  lemma DotPlan(p: PatchSpec, b: Plan<Term, File>)
    requires p == PatchSpec("a", ".", 1) && b == Recorded({"a", "b"}, map["b" := [p]])
    ensures IsRecorded(b) && DalecPaths(b.tools) && Closed(b) && b.PatchesOf("b") == [p]
  {
    RecordedExists({"a", "b"}, map["b" := [p]]);
  }

  lemma DotPaths(p: PatchSpec)
    requires Paths.PlainComponent(p.source) && p.path == "."
    ensures PatchPath(p) == [p.source] && CopyLocation(p) == None
  {
    Paths.SplitPlain(".");
    assert Paths.PushAll(false, [], ["."]) == [];
    PatchPathBelow(p);
  }

  lemma DotUnsafe(b: Plan<Term, File>, name: string, p: PatchSpec)
    requires b.PatchesOf(name) == [p] && b.tools.path(p) == [p.source] && b.tools.copied(p) == None
    ensures !D.SafeAt(b, name, 0)
  {
    assert [p][0].source == p.source;
    assert D.LastFrom([p], p.source) == p;
  }
}
