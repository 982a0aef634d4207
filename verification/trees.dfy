/**
 What `mkdir -p`, `cp -r` and `ln -s` do to a tree of directories. A script is a list of
 directories to make and things to put somewhere. Putting something onto a directory puts
 it into the directory, so a script can end well and yet leave things elsewhere.
 */
module Trees {

  type Path = seq<string>

  /** `Put` is `cp -r` or `ln -s`: `base` is the name it takes inside a directory, `tree`
      says that it is a directory itself, `replace` that it takes the place of what is there. */
  datatype Op<X> = MakeDir(dir: Path) | Put(at: Path, base: string, item: X, tree: bool, replace: bool)

  datatype Item<X> = Item(what: X, tree: bool)

  datatype Tree<X> = Tree(dirs: set<Path>, items: map<Path, Item<X>>)
  {
    predicate IsDir(p: Path)
    {
      p in dirs || (p in items && items[p].tree)
    }

    /** A file or link is in the way of a directory. */
    predicate Blocks(p: Path)
    {
      p in items && !items[p].tree
    }
  }

  datatype Outcome<X> = Failed | Done(tree: Tree<X>)

  function Prefixes(p: Path): set<Path>
  {
    set i | 0 <= i <= |p| :: p[..i]
  }

  lemma InPrefixes(p: Path, q: Path)
    ensures q in Prefixes(p) <==> q <= p
  {
    if q <= p { assert q == p[..|q|]; }
  }

  function Parent(p: Path): Path
    requires p != []
  {
    p[..|p| - 1]
  }

  function Step<X>(t: Tree<X>, op: Op<X>): Outcome<X>
  {
    match op
    case MakeDir(dir) =>
      if exists q :: q in Prefixes(dir) && t.Blocks(q) then Failed
      else Done(t.(dirs := t.dirs + (Prefixes(dir) - t.items.Keys)))
    case Put(at, base, item, tree, replace) =>
      var land := if t.IsDir(at) then at + [base] else at;
      if land == [] || !t.IsDir(Parent(land)) || t.IsDir(land) || (land in t.items && !replace) then Failed
      else Done(t.(items := t.items[land := Item(item, tree)]))
  }

  /** The tree after the first `n` operations. */
  function Run<X>(ops: seq<Op<X>>, n: nat, start: Tree<X>): Outcome<X>
    requires n <= |ops|
  {
    if n == 0 then Done(start) else
      match Run(ops, n - 1, start)
      case Failed => Failed
      case Done(t) => Step(t, ops[n - 1])
  }

  /** Everything the first `n` operations put is where it was to go, what was there is as it
      was, and nothing else is anywhere. */
  ghost predicate DeliveredTo<X>(ops: seq<Op<X>>, n: nat, start: Tree<X>, t: Tree<X>)
    requires n <= |ops|
  {
    && (forall i :: 0 <= i < n && ops[i].Put? ==>
      ops[i].at in t.items && t.items[ops[i].at] == Item(ops[i].item, ops[i].tree))
    && (forall p :: p in start.items ==> p in t.items && t.items[p] == start.items[p])
    && (forall p :: p in t.items ==> p in start.items || PutAt(ops, n, p))
  }

  ghost predicate PutAt<X>(ops: seq<Op<X>>, n: nat, p: Path)
    requires n <= |ops|
  {
    exists i :: 0 <= i < n && ops[i].Put? && ops[i].at == p
  }

  ghost predicate Delivered<X>(ops: seq<Op<X>>, start: Tree<X>)
  {
    var o := Run(ops, |ops|, start);
    o.Done? && DeliveredTo(ops, |ops|, start, o.tree)
  }

  /** A tree to start from: its files and links are not directories. */
  ghost predicate Settled<X>(start: Tree<X>)
  {
    [] in start.dirs && forall p :: p in start.items ==> !start.items[p].tree && p !in start.dirs
  }

  // ---------- the condition ----------

  /** The place is not a directory, and does not become one; what is there already is what
      is to be put there. */
  ghost predicate Free<X>(ops: seq<Op<X>>, start: Tree<X>, i: nat)
    requires i < |ops| && ops[i].Put?
  {
    && ops[i].at !in start.dirs
    && (forall j :: 0 <= j < |ops| && ops[j].MakeDir? ==> !(ops[i].at <= ops[j].dir))
    && (ops[i].at in start.items ==>
      ops[i].replace && start.items[ops[i].at] == Item(ops[i].item, ops[i].tree))
  }

  /** No file or link is at or above the directory to make. */
  ghost predicate Open<X>(ops: seq<Op<X>>, start: Tree<X>, j: nat)
    requires j < |ops| && ops[j].MakeDir?
  {
    forall p :: p in start.items ==> !(p <= ops[j].dir)
  }

  /** The directory it goes into is made before. */
  ghost predicate Prepared<X>(ops: seq<Op<X>>, start: Tree<X>, i: nat)
    requires i < |ops| && ops[i].Put?
  {
    ops[i].at != [] && MadeTo(ops, i, start.dirs, Parent(ops[i].at))
  }

  ghost predicate MadeTo<X>(ops: seq<Op<X>>, n: nat, dirs: set<Path>, p: Path)
    requires n <= |ops|
  {
    p in dirs || exists j :: 0 <= j < n && ops[j].MakeDir? && p <= ops[j].dir
  }

  /** Two things put at one place are one thing, put there twice. */
  ghost predicate Apart<X>(ops: seq<Op<X>>, i: nat, j: nat)
    requires i < j < |ops| && ops[i].Put? && ops[j].Put?
  {
    ops[i].at == ops[j].at ==>
      ops[j].replace && !ops[i].tree && ops[i].item == ops[j].item && ops[i].tree == ops[j].tree
  }

  ghost predicate Clear<X>(ops: seq<Op<X>>, start: Tree<X>)
  {
    && (forall i :: 0 <= i < |ops| && ops[i].Put? ==> Free(ops, start, i) && Prepared(ops, start, i))
    && (forall j :: 0 <= j < |ops| && ops[j].MakeDir? ==> Open(ops, start, j))
    && (forall i, j :: 0 <= i < j < |ops| && ops[i].Put? && ops[j].Put? ==> Apart(ops, i, j))
  }

  /** The directories there are. */
  ghost predicate DirsTo<X>(ops: seq<Op<X>>, n: nat, start: Tree<X>, t: Tree<X>)
    requires n <= |ops|
  {
    forall p :: p in t.dirs <==> MadeTo(ops, n, start.dirs, p)
  }

  // ---------- the condition suffices ----------

  lemma NothingThere<X>(ops: seq<Op<X>>, n: nat, start: Tree<X>, q: Path)
    requires n < |ops| && ops[n].MakeDir? && Clear(ops, start) && q <= ops[n].dir
    ensures !PutAt(ops, n, q) && q !in start.items
  {
    assert Open(ops, start, n);
    forall i | 0 <= i < n && ops[i].Put? ensures ops[i].at != q { assert Free(ops, start, i); }
  }

  lemma MakesClear<X>(ops: seq<Op<X>>, n: nat, start: Tree<X>, t: Tree<X>)
    requires n < |ops| && ops[n].MakeDir? && Clear(ops, start)
    requires DeliveredTo(ops, n, start, t) && DirsTo(ops, n, start, t)
    ensures Step(t, ops[n]).Done? && DeliveredTo(ops, n + 1, start, Step(t, ops[n]).tree)
      && DirsTo(ops, n + 1, start, Step(t, ops[n]).tree)
  {
    var dir := ops[n].dir;
    forall q | q in Prefixes(dir) ensures q !in t.items {
      InPrefixes(dir, q);
      NothingThere(ops, n, start, q);
    }
    assert Prefixes(dir) - t.items.Keys == Prefixes(dir);
    var t' := Step(t, ops[n]).tree;
    forall p ensures p in t'.dirs <==> MadeTo(ops, n + 1, start.dirs, p) { InPrefixes(dir, p); }
    forall p | p in t'.items && p !in start.items ensures PutAt(ops, n + 1, p) { assert PutAt(ops, n, p); }
  }

  lemma PlaceFree<X>(ops: seq<Op<X>>, n: nat, start: Tree<X>, t: Tree<X>)
    requires n < |ops| && ops[n].Put? && Clear(ops, start) && Settled(start)
    requires DeliveredTo(ops, n, start, t) && DirsTo(ops, n, start, t)
    ensures ops[n].at != [] && !t.IsDir(ops[n].at) && t.IsDir(Parent(ops[n].at))
    ensures ops[n].at in t.items ==> ops[n].replace && t.items[ops[n].at] == Item(ops[n].item, ops[n].tree)
  {
    var at := ops[n].at;
    assert Free(ops, start, n) && Prepared(ops, start, n);
    if at in t.items && at !in start.items {
      assert PutAt(ops, n, at);
      var i :| 0 <= i < n && ops[i].Put? && ops[i].at == at;
      assert Apart(ops, i, n);
    }
  }

  lemma PutsClear<X>(ops: seq<Op<X>>, n: nat, start: Tree<X>, t: Tree<X>)
    requires n < |ops| && ops[n].Put? && Clear(ops, start) && Settled(start)
    requires DeliveredTo(ops, n, start, t) && DirsTo(ops, n, start, t)
    ensures Step(t, ops[n]).Done? && DeliveredTo(ops, n + 1, start, Step(t, ops[n]).tree)
      && DirsTo(ops, n + 1, start, Step(t, ops[n]).tree)
  {
    PlaceFree(ops, n, start, t);
    Putting(ops, n, start, t);
    forall p ensures MadeTo(ops, n + 1, start.dirs, p) <==> MadeTo(ops, n, start.dirs, p) {}
  }

  lemma Putting<X>(ops: seq<Op<X>>, n: nat, start: Tree<X>, t: Tree<X>)
    requires n < |ops| && ops[n].Put? && DeliveredTo(ops, n, start, t)
    requires ops[n].at in t.items ==> t.items[ops[n].at] == Item(ops[n].item, ops[n].tree)
    ensures DeliveredTo(ops, n + 1, start, t.(items := t.items[ops[n].at := Item(ops[n].item, ops[n].tree)]))
  {
    var t' := t.(items := t.items[ops[n].at := Item(ops[n].item, ops[n].tree)]);
    forall p | p in t'.items && p !in start.items ensures PutAt(ops, n + 1, p) {
      if p != ops[n].at { assert PutAt(ops, n, p); }
    }
  }

  lemma {:induction false} ClearDelivers<X>(ops: seq<Op<X>>, n: nat, start: Tree<X>)
    requires n <= |ops| && Clear(ops, start) && Settled(start)
    ensures var o := Run(ops, n, start); o.Done? && DeliveredTo(ops, n, start, o.tree) && DirsTo(ops, n, start, o.tree)
  {
    if n > 0 {
      ClearDelivers(ops, n - 1, start);
      ClearStep(ops, n - 1, start, Run(ops, n - 1, start).tree, Run(ops, n, start));
    }
  }

  lemma ClearStep<X>(ops: seq<Op<X>>, n: nat, start: Tree<X>, t: Tree<X>, o: Outcome<X>)
    requires n < |ops| && Clear(ops, start) && Settled(start) && o == Step(t, ops[n])
    requires DeliveredTo(ops, n, start, t) && DirsTo(ops, n, start, t)
    ensures o.Done? && DeliveredTo(ops, n + 1, start, o.tree) && DirsTo(ops, n + 1, start, o.tree)
  {
    if ops[n].MakeDir? { MakesClear(ops, n, start, t); } else { PutsClear(ops, n, start, t); }
  }

  // ---------- the condition is needed ----------

  /** Nothing put is a directory. */
  ghost predicate Plain<X>(ops: seq<Op<X>>)
  {
    forall i :: 0 <= i < |ops| && ops[i].Put? ==> !ops[i].tree
  }

  /** What holds along the way: directories are those made, and hold no file or link. */
  ghost predicate Sound<X>(ops: seq<Op<X>>, n: nat, start: Tree<X>, t: Tree<X>)
    requires n <= |ops|
  {
    DirsTo(ops, n, start, t) && (forall p :: p in t.items ==> !t.items[p].tree && p !in t.dirs)
  }

  lemma StepSound<X>(ops: seq<Op<X>>, n: nat, start: Tree<X>, t: Tree<X>)
    requires n < |ops| && Plain(ops) && Sound(ops, n, start, t) && Step(t, ops[n]).Done?
    ensures Sound(ops, n + 1, start, Step(t, ops[n]).tree)
  {
    var t' := Step(t, ops[n]).tree;
    match ops[n]
    case MakeDir(dir) =>
      forall q | q in Prefixes(dir) ensures q !in t.items { assert !t.Blocks(q); }
      assert Prefixes(dir) - t.items.Keys == Prefixes(dir);
      forall p ensures p in t'.dirs <==> MadeTo(ops, n + 1, start.dirs, p) { InPrefixes(dir, p); }
    case Put(_, _, _, _, _) =>
      forall p ensures p in t'.dirs <==> MadeTo(ops, n + 1, start.dirs, p) {
        assert p in t.dirs <==> MadeTo(ops, n, start.dirs, p);
      }
  }

  lemma {:induction false} RunSound<X>(ops: seq<Op<X>>, n: nat, start: Tree<X>)
    requires n <= |ops| && Plain(ops) && Settled(start) && Run(ops, n, start).Done?
    ensures Sound(ops, n, start, Run(ops, n, start).tree)
  {
    if n > 0 {
      RunSound(ops, n - 1, start);
      StepSound(ops, n - 1, start, Run(ops, n - 1, start).tree);
    }
  }

  /** Directories and what was put stay, though what was put may be replaced. */
  lemma {:induction false} RunGrows<X>(ops: seq<Op<X>>, n: nat, m: nat, start: Tree<X>)
    requires n <= m <= |ops| && Run(ops, m, start).Done?
    ensures Run(ops, n, start).Done?
    ensures Run(ops, n, start).tree.dirs <= Run(ops, m, start).tree.dirs
    ensures Run(ops, n, start).tree.items.Keys <= Run(ops, m, start).tree.items.Keys
    decreases m
  {
    if n < m { RunGrows(ops, n, m - 1, start); }
  }

  /** In a script that delivers, each thing went straight to its place. */
  lemma WentStraight<X>(ops: seq<Op<X>>, i: nat, start: Tree<X>)
    requires i < |ops| && ops[i].Put? && Plain(ops) && Settled(start) && Delivered(ops, start)
    ensures Free(ops, start, i) && Prepared(ops, start, i)
    ensures Run(ops, i, start).Done? && !Run(ops, i, start).tree.IsDir(ops[i].at)
    ensures Run(ops, i + 1, start).Done? && ops[i].at in Run(ops, i + 1, start).tree.items
    ensures ops[i].at in Run(ops, i, start).tree.items ==> ops[i].replace
  {
    var at, end := ops[i].at, Run(ops, |ops|, start).tree;
    RunSound(ops, |ops|, start);
    assert at in end.items && at !in end.dirs;
    assert !MadeTo(ops, |ops|, start.dirs, at);
    RunGrows(ops, i, |ops|, start);
    RunGrows(ops, 0, i, start);
    RunGrows(ops, i + 1, |ops|, start);
    RunSound(ops, i, start);
  }

  lemma NeedsApart<X>(ops: seq<Op<X>>, i: nat, j: nat, start: Tree<X>)
    requires i < j < |ops| && ops[i].Put? && ops[j].Put? && Plain(ops) && Settled(start) && Delivered(ops, start)
    ensures Apart(ops, i, j)
  {
    if ops[i].at == ops[j].at {
      WentStraight(ops, i, start);
      WentStraight(ops, j, start);
      RunGrows(ops, j, |ops|, start);
      RunGrows(ops, i + 1, j, start);
    }
  }

  lemma NeedsOpen<X>(ops: seq<Op<X>>, j: nat, start: Tree<X>)
    requires j < |ops| && ops[j].MakeDir? && Plain(ops) && Settled(start) && Delivered(ops, start)
    ensures Open(ops, start, j)
  {
    var t := Midway(ops, j, start);
    forall p | p in start.items ensures !(p <= ops[j].dir) { InTheWay(t, ops[j], p); }
  }

  /** The tree before operation `j` of a script that gets through. */
  lemma Midway<X>(ops: seq<Op<X>>, j: nat, start: Tree<X>) returns (t: Tree<X>)
    requires j < |ops| && Plain(ops) && Settled(start) && Run(ops, |ops|, start).Done?
    ensures Step(t, ops[j]).Done? && start.items.Keys <= t.items.Keys
    ensures forall p :: p in t.items ==> !t.items[p].tree
  {
    RunGrows(ops, j + 1, |ops|, start);
    t := Run(ops, j, start).tree;
    RunGrows(ops, 0, j, start);
    RunSound(ops, j, start);
  }

  lemma InTheWay<X>(t: Tree<X>, op: Op<X>, p: Path)
    requires op.MakeDir? && t.Blocks(p) && Step(t, op).Done?
    ensures !(p <= op.dir)
  {
    InPrefixes(op.dir, p);
  }

  /** When nothing put is a directory, a script delivers everything to its place, and changes
      nothing else, if and only if no place is at or above a directory that is there or made,
      or taken by something else; no file or link is at or above a directory to make; each
      thing goes into a directory made before; and no two things go to one place. */
  lemma DeliversExactly<X>(ops: seq<Op<X>>, start: Tree<X>)
    requires Plain(ops) && Settled(start)
    ensures Delivered(ops, start) <==> Clear(ops, start)
  {
    if Clear(ops, start) { ClearDelivers(ops, |ops|, start); }
    if Delivered(ops, start) {
      forall i | 0 <= i < |ops| && ops[i].Put? ensures Free(ops, start, i) && Prepared(ops, start, i) {
        WentStraight(ops, i, start);
      }
      forall j | 0 <= j < |ops| && ops[j].MakeDir? ensures Open(ops, start, j) { NeedsOpen(ops, j, start); }
      forall i, j | 0 <= i < j < |ops| && ops[i].Put? && ops[j].Put? ensures Apart(ops, i, j) {
        NeedsApart(ops, i, j, start);
      }
    }
  }
}
