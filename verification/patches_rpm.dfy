/** The `patch` commands of the RPM `%prep` section, run in one shared build directory. */
module PrepPatches {
  import opened Values
  import opened Order
  import opened Patches
  import Paths

  /** `patch -d <dir> -p<strip> -s --input "%{_builddir}/<path of input>"`. */
  datatype PrepCommand = PrepCommand(dir: string, strip: int, input: PatchSpec)

  ghost function CommandsFor(name: string, ps: seq<PatchSpec>): seq<PrepCommand>
  {
    if ps == [] then [] else CommandsFor(name, ps[..|ps| - 1]) + [PrepCommand(name, ps[|ps| - 1].strip, ps[|ps| - 1])]
  }

  ghost function Commands(keys: seq<string>, patches: map<string, seq<PatchSpec>>): seq<PrepCommand>
  {
    if keys == [] then [] else
      var k := keys[|keys| - 1];
      Commands(keys[..|keys| - 1], patches) + CommandsFor(k, if k in patches then patches[k] else [])
  }

  lemma CommandsGrow(keys: seq<string>, i: nat, patches: map<string, seq<PatchSpec>>)
    requires i < |keys|
    ensures Commands(keys[..i + 1], patches) ==
      Commands(keys[..i], patches) + CommandsFor(keys[i], if keys[i] in patches then patches[keys[i]] else [])
  {
    assert keys[..i + 1][..i] == keys[..i];
  }

  /** The inner loop of `PrepareSources`: the commands of one target. */
  method PrepareTarget(name: string, ps: seq<PatchSpec>) returns (cmds: seq<PrepCommand>)
    ensures cmds == CommandsFor(name, ps)
  {
    cmds := [];
    for j := 0 to |ps|
      invariant cmds == CommandsFor(name, ps[..j])
    {
      assert ps[..j + 1][..j] == ps[..j];
      cmds := cmds + [PrepCommand(name, ps[j].strip, ps[j])];
    }
    assert ps[..|ps|] == ps;
  }

  /** The patch part of `PrepareSources`. */
  method PrepareSources(patches: map<string, seq<PatchSpec>>) returns (cmds: seq<PrepCommand>)
    ensures cmds == Commands(SortedKeys(patches.Keys), patches)
  {
    cmds := [];
    var keys := SortMapKeys(patches);
    SortedKeysUnique(keys, SortedKeys(patches.Keys), patches.Keys);
    for i := 0 to |keys|
      invariant cmds == Commands(keys[..i], patches)
    {
      CommandsGrow(keys, i, patches);
      var more := PrepareTarget(keys[i], patches[keys[i]]);
      cmds := cmds + more;
    }
    assert keys[..|keys|] == keys;
  }

  /** The patch file a command finds in the shared directory. */
  ghost function FileAt<T, F>(tools: Tools<T, F>, dir: map<string, T>, cs: seq<string>): F
  {
    if cs != [] && cs[0] in dir then tools.read(dir[cs[0]], cs[1..]) else tools.missing
  }

  /** One command changes its target in place; it fails when the target is not there. */
  ghost function RunCommand<T, F>(tools: Tools<T, F>, dir: map<string, T>, c: PrepCommand): Option<map<string, T>>
  {
    if c.dir !in dir then None else
      Some(dir[c.dir := tools.apply(dir[c.dir], FileAt(tools, dir, tools.path(c.input)), c.strip)])
  }

  /** The commands in order, stopping at the first failure. */
  ghost function Run<T, F>(tools: Tools<T, F>, dir: map<string, T>, cmds: seq<PrepCommand>): Option<map<string, T>>
    decreases |cmds|
  {
    if cmds == [] then Some(dir) else
      var before := Run(tools, dir, cmds[..|cmds| - 1]);
      if before.None? then None else RunCommand(tools, before.value, cmds[|cmds| - 1])
  }

  lemma {:induction false} RunAppend<T, F>(tools: Tools<T, F>, dir: map<string, T>, a: seq<PrepCommand>,
    b: seq<PrepCommand>)
    ensures Run(tools, dir, a + b) ==
      var mid := Run(tools, dir, a);
      if mid.None? then None else Run(tools, mid.value, b)
    decreases |b|
  {
    if b == [] {
      assert a + b == a;
    } else {
      assert (a + b)[..|a + b| - 1] == a + b[..|b| - 1];
      RunAppend(tools, dir, a, b[..|b| - 1]);
    }
  }

  /** Patch `n` of `name` finds the same file in the shared directory as in memory: its path
      stays in its own source or leads nowhere, and it does not read the tree that earlier
      patches of this very target have already changed. */
  ghost predicate SafeAt<T(!new), F(!new)>(b: Plan<T, F>, name: string, n: nat)
    requires n < |b.PatchesOf(name)|
  {
    var p := b.PatchesOf(name)[n];
    var cs := b.tools.path(p);
    cs == [] || cs[0] !in b.base || (cs[0] == p.source && (p.source != name || n == 0))
  }

  ghost predicate Safe<T(!new), F(!new)>(b: Plan<T, F>)
  {
    forall name, n: nat :: n < |b.PatchesOf(name)| ==> SafeAt(b, name, n)
  }

  /** The shared directory while `name` is being patched: `n` of its patches are in. */
  ghost function Partway<T(!new), F(!new)>(b: Plan<T, F>, name: string, dir: map<string, T>, n: nat): map<string, T>
    requires name in b.base && n <= |b.PatchesOf(name)|
  {
    dir[name := b.PatchedUpTo(name, n)]
  }

  /** The command for patch `n` reads what the in-memory fold reads. */
  ghost predicate SameFileAt<T(!new), F(!new)>(b: Plan<T, F>, name: string, dir: map<string, T>, n: nat)
    requires name in b.base && n < |b.PatchesOf(name)|
  {
    var p := b.PatchesOf(name)[n];
    FileAt(b.tools, Partway(b, name, dir, n), b.tools.path(p)) == b.ReadAt(b.SeenBy(name, p.source), b.Location(p))
  }

  lemma SafeReadsSame<T(!new), F(!new)>(b: Plan<T, F>, name: string, dir: map<string, T>, n: nat)
    requires Closed(b) && name in b.base && n < |b.PatchesOf(name)|
    requires b.Reached(name, dir) && SafeAt(b, name, n)
    ensures SameFileAt(b, name, dir, n)
  {
    var p := b.PatchesOf(name)[n];
    assert b.TakesFrom(name, p.source);
  }

  /** Running the commands of one target from the directory as the reference sees it. */
  lemma {:induction false} TargetAgrees<T(!new), F(!new)>(b: Plan<T, F>, name: string, dir: map<string, T>, n: nat)
    requires name in b.base && n <= |b.PatchesOf(name)|
    requires b.Reached(name, dir)
    requires forall i: nat :: i < n ==> SameFileAt(b, name, dir, i)
    ensures Run(b.tools, dir, CommandsFor(name, b.PatchesOf(name)[..n])) == Some(Partway(b, name, dir, n))
    decreases n
  {
    if n == 0 {
      assert Partway(b, name, dir, 0) == dir;
    } else {
      var mid := Partway(b, name, dir, n - 1);
      TargetAgrees(b, name, dir, n - 1);
      assert SameFileAt(b, name, dir, n - 1);
      StepOne(b, name, dir, n, mid);
      b.LastPatch(name, n);
      UpdateTwice(dir, name, b.PatchedUpTo(name, n - 1), b.PatchedUpTo(name, n));
    }
  }

  /** One more command of the target, from whatever the ones before it left. */
  lemma StepOne<T(!new), F(!new)>(b: Plan<T, F>, name: string, dir: map<string, T>, n: nat, mid: map<string, T>)
    requires 0 < n <= |b.PatchesOf(name)| && name in mid
    requires Run(b.tools, dir, CommandsFor(name, b.PatchesOf(name)[..n - 1])) == Some(mid)
    ensures var p := b.PatchesOf(name)[n - 1];
      Run(b.tools, dir, CommandsFor(name, b.PatchesOf(name)[..n]))
      == Some(mid[name := b.tools.apply(mid[name], FileAt(b.tools, mid, b.tools.path(p)), p.strip)])
  {
    var ps := b.PatchesOf(name);
    assert ps[..n][..n - 1] == ps[..n - 1];
    var cmds := CommandsFor(name, ps[..n]);
    assert cmds[..|cmds| - 1] == CommandsFor(name, ps[..n - 1]);
  }

  lemma {:induction false} TargetsAgree<T(!new), F(!new)>(b: Plan<T, F>, keys: seq<string>, n: nat)
    requires IsSortedKeys(keys, b.patches.Keys) && n <= |keys|
    requires Closed(b) && Safe(b)
    ensures var r := Run(b.tools, b.base, Commands(keys[..n], b.patches));
      r.Some? && b.DoneTo(keys[..n], r.value)
    decreases n
  {
    if n > 0 {
      TargetsAgree(b, keys, n - 1);
      var name := keys[n - 1];
      var mid := Run(b.tools, b.base, Commands(keys[..n - 1], b.patches)).value;
      b.DoneIsReached(keys, n - 1, mid);
      forall i: nat | i < |b.PatchesOf(name)| ensures SameFileAt(b, name, mid, i) {
        SafeReadsSame(b, name, mid, i);
      }
      TargetAgrees(b, name, mid, |b.patches[name]|);
      OneMoreTarget(b, keys, n);
      b.DoneWithOneMore(keys, n - 1, mid, mid[name := b.Patched(name)]);
    }
  }

  lemma OneMoreTarget<T(!new), F(!new)>(b: Plan<T, F>, keys: seq<string>, n: nat)
    requires (forall k :: k in keys ==> k in b.patches) && 0 < n <= |keys|
    ensures var mid := Run(b.tools, b.base, Commands(keys[..n - 1], b.patches));
      var ps := b.PatchesOf(keys[n - 1]);
      Run(b.tools, b.base, Commands(keys[..n], b.patches)) ==
      if mid.None? then None else Run(b.tools, mid.value, CommandsFor(keys[n - 1], ps[..|ps|]))
  {
    var name := keys[n - 1];
    assert keys[..n][..n - 1] == keys[..n - 1];
    assert b.patches[name][..|b.patches[name]|] == b.patches[name];
    RunAppend(b.tools, b.base, Commands(keys[..n - 1], b.patches), CommandsFor(name, b.patches[name]));
  }

  /** The `%prep` commands leave every source in the shared directory with the tree
      `PatchSources` computes for it. */
  lemma PrepAgrees<T(!new), F(!new)>(b: Plan<T, F>)
    requires Closed(b) && Safe(b)
    ensures var r := Run(b.tools, b.base, Commands(SortedKeys(b.patches.Keys), b.patches));
      && r.Some? && r.value.Keys == b.base.Keys
      && forall k :: k in b.base ==> r.value[k] == b.Patched(k)
  {
    var keys := SortedKeys(b.patches.Keys);
    TargetsAgree(b, keys, |keys|);
    assert keys[..|keys|] == keys;
    forall k | k in b.base && k !in keys ensures b.Patched(k) == b.base[k] {
      assert b.PatchesOf(k) == [];
    }
  }

  /** A spec whose patch paths do not climb out of their source and where no source patches
      itself is safe. */
  lemma PlainSpecSafe<T(!new), F(!new)>(b: Plan<T, F>)
    requires DalecPaths(b.tools) && Closed(b)
    requires forall k :: k in b.base ==> Paths.PlainComponent(k)
    requires forall name :: !b.TakesFrom(name, name)
    requires forall name, n :: 0 <= n < |b.PatchesOf(name)| ==> Paths.StaysBelow(Paths.Split(b.PatchesOf(name)[n].path))
    ensures Safe(b)
  {
    forall name, n: nat | n < |b.PatchesOf(name)| ensures SafeAt(b, name, n) {
      var p := b.PatchesOf(name)[n];
      assert b.TakesFrom(name, p.source);
      PatchPathBelow(p);
    }
  }
}
