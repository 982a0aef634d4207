/** The Debian patch script and the read-only patch copies it works from. */
module DebPatches {
  import opened Values
  import opened Order
  import opened Patches
  import Paths

  ghost predicate From(ps: seq<PatchSpec>, source: string)
  {
    exists i :: 0 <= i < |ps| && ps[i].source == source
  }

  /** The last patch in the list taken from `source`: its copy lands on top of the others. */
  ghost function LastFrom(ps: seq<PatchSpec>, source: string): (r: PatchSpec)
    requires From(ps, source)
    ensures r in ps && r.source == source
  {
    if ps[|ps| - 1].source == source then ps[|ps| - 1] else
      assert From(ps[..|ps| - 1], source);
      LastFrom(ps[..|ps| - 1], source)
  }

  /** The file at `debian/dalec/patches/<name>/<source>`. */
  ghost function CopyIn<T(!new), F(!new)>(b: Plan<T, F>, ps: seq<PatchSpec>, source: string): F
    requires From(ps, source)
  {
    b.ReadAt(b.StateOf(b.base, source), b.tools.copied(LastFrom(ps, source)))
  }

  /** `sourcePatchesDir`: one copy per patch, taken from the unpatched source and stored
      under the name of that source, the later ones over the earlier. */
  method SourcePatchesDir<T(!new), F(!new)>(b: Plan<T, F>, ps: seq<PatchSpec>) returns (files: map<string, F>)
    ensures forall s :: s in files <==> From(ps, s)
    ensures forall s :: s in files ==> files[s] == CopyIn(b, ps, s)
  {
    files := map[];
    for i := 0 to |ps|
      invariant forall s :: s in files <==> From(ps[..i], s)
      invariant forall s :: s in files ==> files[s] == CopyIn(b, ps[..i], s)
    {
      OneMore(ps, i);
      files := files[ps[i].source := b.ReadAt(b.StateOf(b.base, ps[i].source), b.tools.copied(ps[i]))];
    }
    assert ps[..|ps|] == ps;
  }

  lemma OneMore(ps: seq<PatchSpec>, i: nat)
    requires i < |ps|
    ensures forall s :: From(ps[..i + 1], s) <==> From(ps[..i], s) || s == ps[i].source
    ensures LastFrom(ps[..i + 1], ps[i].source) == ps[i]
    ensures forall s :: From(ps[..i], s) && s != ps[i].source ==> LastFrom(ps[..i + 1], s) == LastFrom(ps[..i], s)
  {
    assert ps[..i + 1][..i] == ps[..i];
    assert ps[..i + 1][i] == ps[i];
    forall s ensures From(ps[..i + 1], s) <==> From(ps[..i], s) || s == ps[i].source {
      if From(ps[..i], s) {
        var j :| 0 <= j < |ps[..i]| && ps[..i][j].source == s;
        assert ps[..i + 1][j].source == s;
      }
      if From(ps[..i + 1], s) && s != ps[i].source {
        var j :| 0 <= j < |ps[..i + 1]| && ps[..i + 1][j].source == s;
        assert ps[..i][j].source == s;
      }
    }
  }

  /** `patch -d <dir> -p<strip> -s < debian/dalec/patches/<dir>/<source>`. */
  datatype ScriptLine = ScriptLine(dir: string, strip: int, source: string)

  ghost function ScriptFor(name: string, ps: seq<PatchSpec>): seq<ScriptLine>
  {
    if ps == [] then [] else
      ScriptFor(name, ps[..|ps| - 1]) + [ScriptLine(name, ps[|ps| - 1].strip, ps[|ps| - 1].source)]
  }

  ghost function Script(order: seq<string>, patches: map<string, seq<PatchSpec>>): seq<ScriptLine>
  {
    if order == [] then [] else
      var k := order[|order| - 1];
      Script(order[..|order| - 1], patches) + ScriptFor(k, if k in patches then patches[k] else [])
  }

  /** `createPatchScript`: the targets come out in whatever order the map yields them. */
  method CreatePatchScript(patches: map<string, seq<PatchSpec>>) returns (lines: seq<ScriptLine>)
    ensures exists order :: Enumerates(order, patches.Keys) && lines == Script(order, patches)
  {
    lines := [];
    var names := RangeKeys(patches.Keys);
    for i := 0 to |names|
      invariant lines == Script(names[..i], patches)
    {
      var ps := patches[names[i]];
      for j := 0 to |ps|
        invariant lines == Script(names[..i], patches) + ScriptFor(names[i], ps[..j])
      {
        assert ps[..j + 1][..j] == ps[..j];
        lines := lines + [ScriptLine(names[i], ps[j].strip, ps[j].source)];
      }
      assert ps[..|ps|] == ps;
      assert names[..i + 1][..i] == names[..i];
    }
    assert names[..|names|] == names;
  }

  /** The copy a script line reads. */
  ghost function Copied<T(!new), F(!new)>(b: Plan<T, F>, name: string, source: string): F
  {
    if From(b.PatchesOf(name), source) then CopyIn(b, b.PatchesOf(name), source) else b.tools.missing
  }

  ghost function RunLine<T(!new), F(!new)>(b: Plan<T, F>, dir: map<string, T>, l: ScriptLine): Option<map<string, T>>
  {
    if l.dir !in dir then None else
      Some(dir[l.dir := b.tools.apply(dir[l.dir], Copied(b, l.dir, l.source), l.strip)])
  }

  /** The script lines in order, from the sources as they came; `set -e` stops at a failure. */
  ghost function Run<T(!new), F(!new)>(b: Plan<T, F>, lines: seq<ScriptLine>): Option<map<string, T>>
    decreases |lines|
  {
    if lines == [] then Some(b.base) else
      var before := Run(b, lines[..|lines| - 1]);
      if before.None? then None else RunLine(b, before.value, lines[|lines| - 1])
  }

  /** What the script makes of one target. */
  ghost function ScriptPatched<T(!new), F(!new)>(b: Plan<T, F>, name: string, n: nat): T
    requires name in b.base && n <= |b.PatchesOf(name)|
    decreases n
  {
    if n == 0 then b.base[name] else
      var p := b.PatchesOf(name)[n - 1];
      b.tools.apply(ScriptPatched(b, name, n - 1), Copied(b, name, p.source), p.strip)
  }

  ghost predicate ScriptedTo<T(!new), F(!new)>(b: Plan<T, F>, done: seq<string>, dir: map<string, T>)
  {
    && dir.Keys == b.base.Keys
    && forall k :: k in b.base ==>
         dir[k] == (if k in done then ScriptPatched(b, k, |b.PatchesOf(k)|) else b.base[k])
  }

  /** Running the lines of one target, whatever ran before, as long as it left the target alone. */
  lemma {:induction false} RunTarget<T(!new), F(!new)>(b: Plan<T, F>, pre: seq<ScriptLine>, name: string, n: nat,
    dir: map<string, T>)
    requires name in b.base && n <= |b.PatchesOf(name)|
    requires Run(b, pre) == Some(dir) && name in dir && dir[name] == b.base[name]
    ensures Run(b, pre + ScriptFor(name, b.PatchesOf(name)[..n])) == Some(dir[name := ScriptPatched(b, name, n)])
    decreases n
  {
    var ps := b.PatchesOf(name);
    if n == 0 {
      assert pre + [] == pre;
      UpdateSame(dir, name);
    } else {
      RunTarget(b, pre, name, n - 1, dir);
      RunOneLine(b, pre, name, n, dir[name := ScriptPatched(b, name, n - 1)]);
      UpdateTwice(dir, name, ScriptPatched(b, name, n - 1), ScriptPatched(b, name, n));
    }
  }

  lemma RunOneLine<T(!new), F(!new)>(b: Plan<T, F>, pre: seq<ScriptLine>, name: string, n: nat, mid: map<string, T>)
    requires 0 < n <= |b.PatchesOf(name)| && name in mid
    requires Run(b, pre + ScriptFor(name, b.PatchesOf(name)[..n - 1])) == Some(mid)
    ensures var p := b.PatchesOf(name)[n - 1];
      Run(b, pre + ScriptFor(name, b.PatchesOf(name)[..n]))
      == Some(mid[name := b.tools.apply(mid[name], Copied(b, name, p.source), p.strip)])
  {
    var ps := b.PatchesOf(name);
    var p := ps[n - 1];
    assert ps[..n][..n - 1] == ps[..n - 1];
    var lines, l := pre + ScriptFor(name, ps[..n - 1]), ScriptLine(name, p.strip, p.source);
    assert pre + ScriptFor(name, ps[..n]) == lines + [l];
    assert (lines + [l])[..|lines + [l]| - 1] == lines;
  }

  /** Whatever order the map yields, every source ends with its own `ScriptPatched` tree. */
  lemma {:induction false} OrderIrrelevant<T(!new), F(!new)>(b: Plan<T, F>, order: seq<string>, n: nat)
    requires Closed(b)
    requires NoDuplicates(order) && (forall k :: k in order ==> k in b.patches) && n <= |order|
    ensures var r := Run(b, Script(order[..n], b.patches));
      r.Some? && ScriptedTo(b, order[..n], r.value)
    decreases n
  {
    if n > 0 {
      OrderIrrelevant(b, order, n - 1);
      var name := order[n - 1];
      assert order[..n][..n - 1] == order[..n - 1];
      var pre := Script(order[..n - 1], b.patches);
      var mid := Run(b, pre).value;
      assert name !in order[..n - 1];
      RunTarget(b, pre, name, |b.patches[name]|, mid);
      assert b.patches[name][..|b.patches[name]|] == b.patches[name];
      StillScripted(b, order, n, mid);
    }
  }

  lemma StillScripted<T(!new), F(!new)>(b: Plan<T, F>, order: seq<string>, n: nat, mid: map<string, T>)
    requires 0 < n <= |order| && order[n - 1] in b.base
    requires ScriptedTo(b, order[..n - 1], mid)
    ensures ScriptedTo(b, order[..n], mid[order[n - 1] := ScriptPatched(b, order[n - 1], |b.PatchesOf(order[n - 1])|)])
  {
    assert order[..n] == order[..n - 1] + [order[n - 1]];
  }

  /** The trees the script leaves do not depend on the order in which it met the targets. */
  lemma ScriptDeterministic<T(!new), F(!new)>(b: Plan<T, F>, order: seq<string>)
    requires Closed(b) && Enumerates(order, b.patches.Keys)
    ensures Run(b, Script(order, b.patches)) == Some(ScriptResult(b))
  {
    assert order[..|order|] == order;
    OrderIrrelevant(b, order, |order|);
    ScriptedAll(b, order, Run(b, Script(order, b.patches)).value);
  }

  ghost function ScriptResult<T(!new), F(!new)>(b: Plan<T, F>): map<string, T>
  {
    map k | k in b.base :: ScriptPatched(b, k, |b.PatchesOf(k)|)
  }

  lemma ScriptedAll<T(!new), F(!new)>(b: Plan<T, F>, order: seq<string>, dir: map<string, T>)
    requires Enumerates(order, b.patches.Keys) && ScriptedTo(b, order, dir)
    ensures dir == ScriptResult(b)
  {
    forall k | k in b.base ensures dir[k] == ScriptResult(b)[k] {
      if k !in order {
        assert b.PatchesOf(k) == [];
      }
    }
  }

  /** The copy of patch `n` of `name` is the file the in-memory fold reads: no other file was
      copied over it, and the fold does not see its source in a patched form. */
  ghost predicate SafeAt<T(!new), F(!new)>(b: Plan<T, F>, name: string, n: nat)
    requires n < |b.PatchesOf(name)|
  {
    var p := b.PatchesOf(name)[n];
    assert From(b.PatchesOf(name), p.source);
    && b.Location(p) == b.tools.copied(LastFrom(b.PatchesOf(name), p.source))
    && (b.Location(p).None? || !Before(p.source, name) || !b.Repatched(p.source))
  }

  ghost predicate Safe<T(!new), F(!new)>(b: Plan<T, F>)
  {
    forall name, n: nat :: n < |b.PatchesOf(name)| ==> SafeAt(b, name, n)
  }

  /** The script reads for patch `n` what the in-memory fold reads. */
  ghost predicate SameFileAt<T(!new), F(!new)>(b: Plan<T, F>, name: string, n: nat)
    requires name in b.base && n < |b.PatchesOf(name)|
  {
    var p := b.PatchesOf(name)[n];
    Copied(b, name, p.source) == b.ReadAt(b.SeenBy(name, p.source), b.Location(p))
  }

  lemma SafeReadsSame<T(!new), F(!new)>(b: Plan<T, F>, name: string, n: nat)
    requires Closed(b) && name in b.base && n < |b.PatchesOf(name)| && SafeAt(b, name, n)
    ensures SameFileAt(b, name, n)
  {
    var p := b.PatchesOf(name)[n];
    assert b.TakesFrom(name, p.source);
    assert From(b.PatchesOf(name), p.source);
    assert Copied(b, name, p.source) == b.ReadAt(b.base[p.source], b.Location(p));
    if b.Location(p).Some? && Before(p.source, name) {
      assert b.Patched(p.source) == b.base[p.source];
    }
  }

  lemma {:induction false} TargetAgrees<T(!new), F(!new)>(b: Plan<T, F>, name: string, n: nat)
    requires name in b.base && n <= |b.PatchesOf(name)|
    requires forall i: nat :: i < n ==> SameFileAt(b, name, i)
    ensures ScriptPatched(b, name, n) == b.PatchedUpTo(name, n)
    decreases n
  {
    if n > 0 {
      TargetAgrees(b, name, n - 1);
      assert SameFileAt(b, name, n - 1);
      b.LastPatch(name, n);
    }
  }

  /** The Debian script leaves every source with the tree `PatchSources` computes for it. */
  lemma ScriptAgrees<T(!new), F(!new)>(b: Plan<T, F>, order: seq<string>)
    requires Closed(b) && Safe(b) && Enumerates(order, b.patches.Keys)
    ensures var r := Run(b, Script(order, b.patches));
      && r.Some? && r.value.Keys == b.base.Keys
      && forall k :: k in b.base ==> r.value[k] == b.Patched(k)
  {
    ScriptDeterministic(b, order);
    forall k | k in b.base ensures ScriptResult(b)[k] == b.Patched(k) {
      forall i: nat | i < |b.PatchesOf(k)| ensures SameFileAt(b, k, i) {
        SafeReadsSame(b, k, i);
      }
      TargetAgrees(b, k, |b.PatchesOf(k)|);
    }
  }

  /** A spec whose patch paths name files below their source without climbing, where a
      target takes one file from each patch source, and where no patch source that sorts
      before its target is patched itself, is safe. */
  lemma PlainSpecSafe<T(!new), F(!new)>(b: Plan<T, F>)
    requires DalecPaths(b.tools) && Closed(b)
    requires forall k :: k in b.base ==> Paths.PlainComponent(k)
    requires forall name, k :: b.TakesFrom(name, k) && Before(k, name) ==> !b.Repatched(k)
    requires forall name, n, m :: 0 <= n < |b.PatchesOf(name)| && 0 <= m < |b.PatchesOf(name)| ==>
      b.PatchesOf(name)[n].source == b.PatchesOf(name)[m].source ==>
        b.PatchesOf(name)[n].path == b.PatchesOf(name)[m].path
    requires forall name, n :: 0 <= n < |b.PatchesOf(name)| ==>
      var p := b.PatchesOf(name)[n];
      Paths.StaysBelow(Paths.Split(p.path)) && (p.path == "" || Paths.Components("/" + p.path) != [])
    ensures Safe(b)
  {
    forall name, n: nat | n < |b.PatchesOf(name)| ensures SafeAt(b, name, n) {
      var p := b.PatchesOf(name)[n];
      assert b.TakesFrom(name, p.source) && From(b.PatchesOf(name), p.source);
      var q := LastFrom(b.PatchesOf(name), p.source);
      assert q.path == p.path;
      PatchPathBelow(p);
      PatchPathBelow(q);
      if p.path == "" {
        assert Paths.Components("/" + p.path) == [];
      }
    }
  }
}
