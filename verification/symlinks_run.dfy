/**
 Running the symlink script in an image with directories, files and links. A link lands inside
 a directory that is in its place; a file or link that is in the way stops the script; and
 links of the image that lead to directories are followed.
 */
module SymlinkScripts {
  import opened Order
  import opened Symlinks
  import opened Trees
  import Paths

  // ---------- the script as operations on a tree ----------

  /** How text is resolved: the path of a file name, and the last element of one. */
  datatype Names = Names(path: string -> Path, base: string -> string)

  function OpOf(ns: Names, c: Command): seq<Op<string>>
  {
    match c
    case Mkdir(dir) => [MakeDir(ns.path(dir))]
    case Ln(source, dest) => [Put(ns.path(dest), ns.base(source), source, false, false)]
    case Chown(_, _) => []
    case Chgrp(_, _) => []
  }

  function OpsBy(ns: Names, cmds: seq<Command>): seq<Op<string>>
  {
    if cmds == [] then [] else OpOf(ns, cmds[0]) + OpsBy(ns, cmds[1..])
  }

  lemma {:induction false} OpsByAppend(ns: Names, a: seq<Command>, b: seq<Command>)
    ensures OpsBy(ns, a + b) == OpsBy(ns, a) + OpsBy(ns, b)
  {
    if a == [] {
      assert a + b == b;
    } else {
      assert (a + b)[1..] == a[1..] + b;
      OpsByAppend(ns, a[1..], b);
    }
  }

  /** What a new path asks for: the directory that is made, and the place of the link. */
  datatype Places = Places(made: string -> Path, at: string -> Path, base: string -> string)

  function Pair(pl: Places, p: (string, string)): seq<Op<string>>
  {
    [MakeDir(pl.made(p.1)), Put(pl.at(p.1), pl.base(p.0), p.0, false, false)]
  }

  /** The operations of a list of links. */
  ghost function PairOps(pl: Places, ps: seq<(string, string)>): seq<Op<string>>
  {
    if ps == [] then [] else PairOps(pl, ps[..|ps| - 1]) + Pair(pl, ps[|ps| - 1])
  }

  /** The commands for one link, by the text of its directory and its place. */
  ghost predicate Shaped(cmds: seq<Command>, source: string, dir: string, dest: string)
  {
    exists t :: cmds == Shape(source, dir, dest, t)
  }

  function Shape(source: string, dir: string, dest: string, t: Target): seq<Command>
  {
    [Mkdir(dir), Ln(source, dest)]
    + (if t.user != "" then [Chown(t.user, dest)] else [])
    + (if t.group != "" then [Chgrp(t.group, dest)] else [])
  }

  lemma ShapeOps(ns: Names, cmds: seq<Command>, source: string, dir: string, dest: string)
    requires Shaped(cmds, source, dir, dest)
    ensures OpsBy(ns, cmds) == [MakeDir(ns.path(dir)), Put(ns.path(dest), ns.base(source), source, false, false)]
  {
    var t :| cmds == Shape(source, dir, dest, t);
    var own := if t.user != "" then [Chown(t.user, dest)] else [];
    var grp := if t.group != "" then [Chgrp(t.group, dest)] else [];
    var mkdir, ln := Mkdir(dir), Ln(source, dest);
    OpsByAppend(ns, [mkdir, ln] + own, grp);
    OpsByAppend(ns, [mkdir, ln], own);
    OpsByAppend(ns, [mkdir], [ln]);
    assert [mkdir] + [ln] == [mkdir, ln];
    assert forall c: Command :: [c][1..] == [];
    assert OpsBy(ns, own) == [] && OpsBy(ns, grp) == [];
  }

  lemma {:induction false} PairOpsAppend(pl: Places, a: seq<(string, string)>, b: seq<(string, string)>)
    ensures PairOps(pl, a + b) == PairOps(pl, a) + PairOps(pl, b)
  {
    if b == [] {
      assert a + b == a;
    } else {
      assert (a + b)[..|a + b| - 1] == a + b[..|b| - 1];
      PairOpsAppend(pl, a, b[..|b| - 1]);
    }
  }

  ghost predicate KeyAgrees(ns: Names, pl: Places, f: string -> seq<Command>, g: string -> seq<(string, string)>,
    k: string)
  {
    OpsBy(ns, f(k)) == PairOps(pl, g(k))
  }

  /** What holds key by key, and carries over to what is put together, holds of the whole. */
  lemma {:induction false} GatherRelated(keys: seq<string>, n: nat, f: string -> seq<Command>,
    g: string -> seq<(string, string)>, R: (seq<Command>, seq<(string, string)>) -> bool)
    requires n <= |keys| && R([], []) && forall k :: R(f(k), g(k))
    requires forall a, b, c, d :: R(a, c) && R(b, d) ==> R(a + b, c + d)
    ensures R(Gather(keys, n, f), Gather(keys, n, g))
  {
    if n > 0 {
      GatherRelated(keys, n - 1, f, g, R);
      var a, b, c, d := Gather(keys, n - 1, f), f(keys[n - 1]), Gather(keys, n - 1, g), g(keys[n - 1]);
      assert R(a, c) && R(b, d);
      assert R(a + b, c + d);
    }
  }

  /** Commands given key by key are the operations of the links given key by key. */
  lemma OpsOfGather(ns: Names, pl: Places, keys: seq<string>, f: string -> seq<Command>,
    g: string -> seq<(string, string)>)
    requires forall k {:trigger KeyAgrees(ns, pl, f, g, k)} :: KeyAgrees(ns, pl, f, g, k)
    ensures OpsBy(ns, Gather(keys, |keys|, f)) == PairOps(pl, Gather(keys, |keys|, g))
  {
    var R := (a: seq<Command>, c: seq<(string, string)>) => OpsBy(ns, a) == PairOps(pl, c);
    forall k ensures R(f(k), g(k)) { assert KeyAgrees(ns, pl, f, g, k); }
    forall a, b, c, d | R(a, c) && R(b, d) ensures R(a + b, c + d) { GatherStep(ns, pl, a, b, c, d); }
    GatherRelated(keys, |keys|, f, g, R);
  }

  lemma GatherStep(ns: Names, pl: Places, a: seq<Command>, b: seq<Command>, c: seq<(string, string)>,
    d: seq<(string, string)>)
    requires OpsBy(ns, a) == PairOps(pl, c) && OpsBy(ns, b) == PairOps(pl, d)
    ensures OpsBy(ns, a + b) == PairOps(pl, c + d)
  {
    OpsByAppend(ns, a, b);
    PairOpsAppend(pl, c, d);
  }

  ghost function One(source: string): string -> seq<(string, string)>
  {
    l => [(source, l)]
  }

  ghost function PairsAt(m: Links): string -> seq<(string, string)>
  {
    k => if k in m then Gather(m[k].paths, |m[k].paths|, One(k)) else []
  }

  /** All links, in the order the script makes them. */
  ghost function Pairs(m: Links): seq<(string, string)>
  {
    Gather(SortedKeys(m.Keys), |SortedKeys(m.Keys)|, PairsAt(m))
  }

  ghost function PlacesBy(ns: Names, tx: Texts): Places
  {
    Places(l => ns.path(tx.dir(l)), l => ns.path(tx.dest(l)), ns.base)
  }

  lemma OnePair(pl: Places, p: (string, string))
    ensures PairOps(pl, [p]) == Pair(pl, p)
  {
    assert [p][..0] == [];
    assert PairOps(pl, []) + Pair(pl, p) == Pair(pl, p);
  }

  lemma TargetOps(ns: Names, tx: Texts, source: string, paths: seq<string>, f: string -> seq<Command>)
    requires forall l :: Shaped(f(l), source, tx.dir(l), tx.dest(l))
    ensures OpsBy(ns, Gather(paths, |paths|, f)) == PairOps(PlacesBy(ns, tx), Gather(paths, |paths|, One(source)))
  {
    var pl := PlacesBy(ns, tx);
    forall l ensures KeyAgrees(ns, pl, f, One(source), l) {
      ShapeOps(ns, f(l), source, tx.dir(l), tx.dest(l));
      OnePair(pl, (source, l));
    }
    OpsOfGather(ns, pl, paths, f, One(source));
  }

  lemma TargetCommandOps(ns: Names, tx: Texts, source: string, t: Target)
    ensures OpsBy(ns, TargetCommands(tx, source, t))
      == PairOps(PlacesBy(ns, tx), Gather(t.paths, |t.paths|, One(source)))
  {
    var f := link => LinkCommands(tx, source, t, link);
    forall l ensures Shaped(f(l), source, tx.dir(l), tx.dest(l)) {
      assert f(l) == Shape(source, tx.dir(l), tx.dest(l), t);
    }
    TargetOps(ns, tx, source, t.paths, f);
  }

  /** The script, as operations on a tree. */
  lemma ScriptOps(ns: Names, tx: Texts, m: Links)
    ensures OpsBy(ns, Script(tx, m)) == PairOps(PlacesBy(ns, tx), Pairs(m))
  {
    KeysOps(ns, PlacesBy(ns, tx), tx, m, SortedKeys(m.Keys));
  }

  lemma SourceAgrees(ns: Names, pl: Places, tx: Texts, m: Links, k: string)
    requires pl == PlacesBy(ns, tx)
    ensures KeyAgrees(ns, pl, CommandsOf(tx, m), PairsAt(m), k)
  {
    if k in m { TargetCommandOps(ns, tx, k, m[k]); }
  }

  lemma KeysOps(ns: Names, pl: Places, tx: Texts, m: Links, keys: seq<string>)
    requires pl == PlacesBy(ns, tx)
    ensures OpsBy(ns, Gather(keys, |keys|, CommandsOf(tx, m))) == PairOps(pl, Gather(keys, |keys|, PairsAt(m)))
  {
    forall k ensures KeyAgrees(ns, pl, CommandsOf(tx, m), PairsAt(m), k) {
      SourceAgrees(ns, pl, tx, m, k);
    }
    OpsOfGather(ns, pl, keys, CommandsOf(tx, m), PairsAt(m));
  }

  // ---------- the script, link by link ----------

  lemma {:induction false} GatherBlock(keys: seq<string>, n: nat, f: string -> seq<Command>, k: string)
    returns (pre: seq<Command>, post: seq<Command>)
    requires n <= |keys| && k in keys[..n]
    ensures Gather(keys, n, f) == pre + f(k) + post
  {
    if keys[n - 1] == k {
      pre, post := Gather(keys, n - 1, f), [];
    } else {
      assert keys[..n] == keys[..n - 1] + [keys[n - 1]];
      pre, post := GatherBlock(keys, n - 1, f, k);
      assert pre + f(k) + post + f(keys[n - 1]) == pre + f(k) + (post + f(keys[n - 1]));
      post := post + f(keys[n - 1]);
    }
  }

  /** The commands for one link: its directory is made, the link is made, and it is given to
      the user and the group that are named. */
  ghost predicate LinkBlock(tx: Texts, source: string, t: Target, l: string, block: seq<Command>)
  {
    && 2 <= |block| && block[0] == Mkdir(tx.dir(l)) && block[1] == Ln(source, tx.dest(l))
    && (forall c :: c in block[2..] ==>
      (c == Chown(t.user, tx.dest(l)) && t.user != "") || (c == Chgrp(t.group, tx.dest(l)) && t.group != ""))
    && (t.user != "" ==> Chown(t.user, tx.dest(l)) in block[2..])
    && (t.group != "" ==> Chgrp(t.group, tx.dest(l)) in block[2..])
  }

  lemma LinkBlockOf(tx: Texts, source: string, t: Target, l: string)
    ensures LinkBlock(tx, source, t, l, LinkCommands(tx, source, t, l))
  {
    var own := if t.user != "" then [Chown(t.user, tx.dest(l))] else [];
    var grp := if t.group != "" then [Chgrp(t.group, tx.dest(l))] else [];
    assert LinkCommands(tx, source, t, l)[2..] == own + grp;
  }

  /** Every link has its commands in the script, one after the other. */
  lemma LinkWritten(tx: Texts, m: Links, k: string, l: string)
    returns (pre: seq<Command>, block: seq<Command>, post: seq<Command>)
    requires k in m && l in m[k].paths
    ensures Script(tx, m) == pre + block + post && LinkBlock(tx, k, m[k], l, block)
  {
    var keys := SortedKeys(m.Keys);
    assert keys[..|keys|] == keys;
    var before, after := GatherBlock(keys, |keys|, CommandsOf(tx, m), k);
    var before', after';
    before', block, after' := TargetWritten(tx, k, m[k], l);
    pre, post := before + before', after' + after;
    Within(Script(tx, m), before, CommandsOf(tx, m)(k), after, before', block, after');
  }

  lemma TargetWritten(tx: Texts, source: string, t: Target, l: string)
    returns (pre: seq<Command>, block: seq<Command>, post: seq<Command>)
    requires l in t.paths
    ensures TargetCommands(tx, source, t) == pre + block + post && LinkBlock(tx, source, t, l, block)
  {
    var f := link => LinkCommands(tx, source, t, link);
    assert t.paths[..|t.paths|] == t.paths;
    pre, post := GatherBlock(t.paths, |t.paths|, f, l);
    block := f(l);
    LinkBlockOf(tx, source, t, l);
  }

  lemma Within(outer: seq<Command>, pre: seq<Command>, inner: seq<Command>, post: seq<Command>, pre': seq<Command>,
    x: seq<Command>, post': seq<Command>)
    requires outer == pre + inner + post && inner == pre' + x + post'
    ensures outer == (pre + pre') + x + (post' + post)
  {}

  /** The script has no other commands. */
  lemma OnlyLinksWritten(tx: Texts, m: Links, c: Command) returns (k: string, l: string, block: seq<Command>)
    requires c in Script(tx, m)
    ensures k in m && l in m[k].paths && LinkBlock(tx, k, m[k], l, block) && c in block
  {
    var keys := SortedKeys(m.Keys);
    GatherHolds(keys, |keys|, CommandsOf(tx, m), c);
    var i :| 0 <= i < |keys| && c in CommandsOf(tx, m)(keys[i]);
    k := keys[i];
    var f := link => LinkCommands(tx, k, m[k], link);
    assert CommandsOf(tx, m)(k) == TargetCommands(tx, k, m[k]) == Gather(m[k].paths, |m[k].paths|, f);
    GatherHolds(m[k].paths, |m[k].paths|, f, c);
    var j :| 0 <= j < |m[k].paths| && c in f(m[k].paths[j]);
    l := m[k].paths[j];
    block := f(l);
    LinkBlockOf(tx, k, m[k], l);
  }

  // ---------- the links of the list ----------

  lemma PairsHold(m: Links, k: string, l: string)
    ensures (k, l) in Pairs(m) <==> k in m && l in m[k].paths
  {
    KeysHold(m, SortedKeys(m.Keys), k, l);
  }

  lemma PairsAtHold(m: Links, k': string, k: string, l: string)
    ensures (k, l) in PairsAt(m)(k') <==> k' == k && k in m && l in m[k].paths
  {
    if k' in m { OneHolds(m[k'].paths, k', k, l); }
  }

  lemma KeysHold(m: Links, keys: seq<string>, k: string, l: string)
    requires forall k :: k in keys <==> k in m
    ensures (k, l) in Gather(keys, |keys|, PairsAt(m)) <==> k in m && l in m[k].paths
  {
    GatherHolds(keys, |keys|, PairsAt(m), (k, l));
    forall i | 0 <= i < |keys| ensures (k, l) in PairsAt(m)(keys[i]) <==> keys[i] == k && l in m[k].paths {
      PairsAtHold(m, keys[i], k, l);
    }
    if k in m && l in m[k].paths {
      var i :| 0 <= i < |keys| && keys[i] == k;
    }
  }

  lemma OneHolds(paths: seq<string>, source: string, k: string, l: string)
    ensures (k, l) in Gather(paths, |paths|, One(source)) <==> k == source && l in paths
  {
    GatherHolds(paths, |paths|, One(source), (k, l));
    if k == source && l in paths {
      var i :| 0 <= i < |paths| && paths[i] == l;
      assert (k, l) in One(source)(paths[i]);
    }
  }

  /** No link is made twice. */
  ghost predicate Distinct(ps: seq<(string, string)>)
  {
    forall i, j :: 0 <= i < j < |ps| ==> ps[i].1 != ps[j].1
  }

  lemma DistinctJoin(a: seq<(string, string)>, b: seq<(string, string)>)
    requires Distinct(a) && Distinct(b) && Strangers(a, b)
    ensures Distinct(a + b)
  {
    var ps := a + b;
    forall i, j | 0 <= i < j < |ps| ensures ps[i].1 != ps[j].1 {
      if i < |a| <= j { assert ps[i] in a && ps[j] in b; }
    }
  }

  lemma {:induction false} OneDistinct(paths: seq<string>, n: nat, source: string)
    requires n <= |paths| && NoDuplicates(paths)
    ensures Distinct(Gather(paths, n, One(source)))
    ensures forall p :: p in Gather(paths, n, One(source)) ==> p.0 == source && p.1 in paths[..n]
  {
    if n > 0 {
      OneDistinct(paths, n - 1, source);
      assert paths[..n] == paths[..n - 1] + [paths[n - 1]];
      DistinctJoin(Gather(paths, n - 1, One(source)), [(source, paths[n - 1])]);
    }
  }

  ghost predicate Strangers(a: seq<(string, string)>, b: seq<(string, string)>)
  {
    forall p, q :: p in a && q in b ==> p.1 != q.1
  }

  lemma {:induction false} GatherStrangers(keys: seq<string>, n: nat, f: string -> seq<(string, string)>,
    b: seq<(string, string)>)
    requires n <= |keys| && forall i :: 0 <= i < n ==> Strangers(f(keys[i]), b)
    ensures Strangers(Gather(keys, n, f), b)
  {
    if n > 0 { GatherStrangers(keys, n - 1, f, b); }
  }

  /** Lists that share nothing, one after another. */
  lemma {:induction false} GatherDistinct(keys: seq<string>, n: nat, f: string -> seq<(string, string)>)
    requires n <= |keys|
    requires forall i :: 0 <= i < |keys| ==> Distinct(f(keys[i]))
    requires forall i, j :: 0 <= i < j < |keys| ==> Strangers(f(keys[i]), f(keys[j]))
    ensures Distinct(Gather(keys, n, f))
  {
    if n > 0 {
      GatherDistinct(keys, n - 1, f);
      GatherStrangers(keys, n - 1, f, f(keys[n - 1]));
      DistinctJoin(Gather(keys, n - 1, f), f(keys[n - 1]));
    }
  }

  lemma SourceDistinct(m: Links, k: string)
    requires Normal(m) && k in m
    ensures Distinct(PairsAt(m)(k))
  {
    OneDistinct(m[k].paths, |m[k].paths|, k);
  }

  lemma PairsDistinct(m: Links)
    requires Normal(m)
    ensures Distinct(Pairs(m))
  {
    var keys := SortedKeys(m.Keys);
    forall i | 0 <= i < |keys| ensures Distinct(PairsAt(m)(keys[i])) { SourceDistinct(m, keys[i]); }
    forall i, j | 0 <= i < j < |keys| ensures Strangers(PairsAt(m)(keys[i]), PairsAt(m)(keys[j])) {
      OtherSource(m, keys[i], keys[j]);
    }
    GatherDistinct(keys, |keys|, PairsAt(m));
  }

  lemma OtherSource(m: Links, k: string, k': string)
    requires Normal(m) && k in m && k' in m && k != k'
    ensures Strangers(PairsAt(m)(k), PairsAt(m)(k'))
  {
    forall p, q | p in PairsAt(m)(k) && q in PairsAt(m)(k') ensures p.1 != q.1 {
      PairsAtHold(m, k, p.0, p.1);
      PairsAtHold(m, k', q.0, q.1);
      assert Disjoint(m[k].paths, m[k'].paths);
    }
  }

  // ---------- the condition on the list ----------

  lemma {:induction false} PairOpsAt(pl: Places, ps: seq<(string, string)>, i: nat)
    requires i < |ps|
    ensures |PairOps(pl, ps)| == 2 * |ps|
    ensures PairOps(pl, ps)[2 * i] == MakeDir(pl.made(ps[i].1))
    ensures PairOps(pl, ps)[2 * i + 1] == Put(pl.at(ps[i].1), pl.base(ps[i].0), ps[i].0, false, false)
  {
    var front := ps[..|ps| - 1];
    if |ps| > 1 { PairOpsAt(pl, front, if i < |front| then i else 0); }
  }

  lemma {:induction false} PairOpsLength(pl: Places, ps: seq<(string, string)>)
    ensures |PairOps(pl, ps)| == 2 * |ps|
  {
    if ps != [] { PairOpsLength(pl, ps[..|ps| - 1]); }
  }

  /** The place of one link is free and in a directory that its own command makes. */
  ghost predicate PlaceReady(pl: Places, start: Tree<string>, l: string)
  {
    pl.at(l) !in start.dirs && pl.at(l) !in start.items && pl.at(l) != [] && Parent(pl.at(l)) == pl.made(l)
  }

  /** No file or link of the image is at or above the directory that is made. */
  ghost predicate WayOpen(pl: Places, start: Tree<string>, l: string)
  {
    forall p :: p in start.items ==> !(p <= pl.made(l))
  }

  ghost predicate ClearPairs(pl: Places, start: Tree<string>, ps: seq<(string, string)>)
  {
    && (forall i :: 0 <= i < |ps| ==> PlaceReady(pl, start, ps[i].1) && WayOpen(pl, start, ps[i].1))
    && (forall i, j :: 0 <= i < |ps| && 0 <= j < |ps| ==> !(pl.at(ps[i].1) <= pl.made(ps[j].1)))
    && (forall i, j :: 0 <= i < j < |ps| ==> pl.at(ps[i].1) != pl.at(ps[j].1))
  }

  /** A new path makes the directory its link goes into, or makes a directory of the place
      itself, or leads to a directory of the image. */
  ghost predicate Tidy(pl: Places, start: Tree<string>, l: string)
  {
    || pl.at(l) <= pl.made(l)
    || (pl.at(l) != [] && Parent(pl.at(l)) == pl.made(l))
    || pl.at(l) in start.dirs
  }

  lemma IsPutAt(pl: Places, ps: seq<(string, string)>, x: nat)
    requires x < 2 * |ps|
    ensures |PairOps(pl, ps)| == 2 * |ps|
    ensures PairOps(pl, ps)[x].Put? <==> x % 2 == 1
    ensures x % 2 == 1 ==>
      PairOps(pl, ps)[x] == Put(pl.at(ps[x / 2].1), pl.base(ps[x / 2].0), ps[x / 2].0, false, false)
    ensures x % 2 == 0 ==> PairOps(pl, ps)[x] == MakeDir(pl.made(ps[x / 2].1))
  {
    PairOpsAt(pl, ps, x / 2);
    if x % 2 == 0 { assert x == 2 * (x / 2); } else { assert x == 2 * (x / 2) + 1; }
  }

  lemma OneClear(pl: Places, start: Tree<string>, ps: seq<(string, string)>, x: nat)
    requires ClearPairs(pl, start, ps) && x < |PairOps(pl, ps)| && PairOps(pl, ps)[x].Put?
    ensures Free(PairOps(pl, ps), start, x) && Prepared(PairOps(pl, ps), start, x)
  {
    var ops := PairOps(pl, ps);
    PairOpsLength(pl, ps);
    IsPutAt(pl, ps, x);
    forall y | 0 <= y < |ops| && ops[y].MakeDir? ensures !(ops[x].at <= ops[y].dir) { IsPutAt(pl, ps, y); }
    assert PlaceReady(pl, start, ps[x / 2].1);
    OnePrepared(pl, start, ps, x / 2);
  }

  lemma OnePrepared(pl: Places, start: Tree<string>, ps: seq<(string, string)>, i: nat)
    requires i < |ps| && PlaceReady(pl, start, ps[i].1)
    ensures |PairOps(pl, ps)| == 2 * |ps| && PairOps(pl, ps)[2 * i + 1].Put?
    ensures Prepared(PairOps(pl, ps), start, 2 * i + 1)
  {
    PairOpsAt(pl, ps, i);
    var ops := PairOps(pl, ps);
    assert ops[2 * i].MakeDir? && Parent(ops[2 * i + 1].at) <= ops[2 * i].dir;
  }

  lemma OneOpen(pl: Places, start: Tree<string>, ps: seq<(string, string)>, x: nat)
    requires ClearPairs(pl, start, ps) && x < |PairOps(pl, ps)| && PairOps(pl, ps)[x].MakeDir?
    ensures Open(PairOps(pl, ps), start, x)
  {
    PairOpsLength(pl, ps);
    IsPutAt(pl, ps, x);
    assert WayOpen(pl, start, ps[x / 2].1);
  }

  lemma ClearFromPairs(pl: Places, start: Tree<string>, ps: seq<(string, string)>)
    requires ClearPairs(pl, start, ps)
    ensures Clear(PairOps(pl, ps), start)
  {
    var ops := PairOps(pl, ps);
    PairOpsLength(pl, ps);
    forall x | 0 <= x < |ops| && ops[x].Put? ensures Free(ops, start, x) && Prepared(ops, start, x) {
      OneClear(pl, start, ps, x);
    }
    forall x | 0 <= x < |ops| && ops[x].MakeDir? ensures Open(ops, start, x) { OneOpen(pl, start, ps, x); }
    forall x, y | 0 <= x < y < |ops| && ops[x].Put? && ops[y].Put? ensures Apart(ops, x, y) {
      IsPutAt(pl, ps, x);
      IsPutAt(pl, ps, y);
      assert x / 2 < y / 2;
    }
  }

  lemma PairsFromClear(pl: Places, start: Tree<string>, ps: seq<(string, string)>)
    requires Clear(PairOps(pl, ps), start) && forall i :: 0 <= i < |ps| ==> Tidy(pl, start, ps[i].1)
    ensures ClearPairs(pl, start, ps)
  {
    forall i, j | 0 <= i < |ps| && 0 <= j < |ps| ensures !(pl.at(ps[i].1) <= pl.made(ps[j].1)) {
      PlaceIsFree(pl, start, ps, i, j);
    }
    forall i | 0 <= i < |ps| ensures PlaceReady(pl, start, ps[i].1) && WayOpen(pl, start, ps[i].1) {
      assert Tidy(pl, start, ps[i].1);
      PlaceIsFree(pl, start, ps, i, i);
      WayIsOpen(pl, start, ps, i);
    }
    forall i, j | 0 <= i < j < |ps| ensures pl.at(ps[i].1) != pl.at(ps[j].1) {
      PlacesApart(pl, start, ps, i, j);
    }
  }

  lemma PlaceIsFree(pl: Places, start: Tree<string>, ps: seq<(string, string)>, i: nat, j: nat)
    requires Clear(PairOps(pl, ps), start) && i < |ps| && j < |ps|
    ensures !(pl.at(ps[i].1) <= pl.made(ps[j].1)) && pl.at(ps[i].1) !in start.dirs && pl.at(ps[i].1) !in start.items
  {
    var ops := PairOps(pl, ps);
    PairOpsAt(pl, ps, i);
    PairOpsAt(pl, ps, j);
    assert Free(ops, start, 2 * i + 1);
    assert ops[2 * j].MakeDir?;
  }

  lemma WayIsOpen(pl: Places, start: Tree<string>, ps: seq<(string, string)>, i: nat)
    requires Clear(PairOps(pl, ps), start) && i < |ps|
    ensures WayOpen(pl, start, ps[i].1)
  {
    PairOpsAt(pl, ps, i);
    assert Open(PairOps(pl, ps), start, 2 * i);
  }

  lemma PlacesApart(pl: Places, start: Tree<string>, ps: seq<(string, string)>, i: nat, j: nat)
    requires Clear(PairOps(pl, ps), start) && i < j < |ps|
    ensures pl.at(ps[i].1) != pl.at(ps[j].1)
  {
    PairOpsAt(pl, ps, i);
    PairOpsAt(pl, ps, j);
    assert Apart(PairOps(pl, ps), 2 * i + 1, 2 * j + 1);
  }

  lemma PairsPlain(pl: Places, ps: seq<(string, string)>)
    ensures Plain(PairOps(pl, ps))
  {
    PairOpsLength(pl, ps);
    forall x | 0 <= x < 2 * |ps| ensures PairOps(pl, ps)[x].Put? ==> !PairOps(pl, ps)[x].tree { IsPutAt(pl, ps, x); }
  }

  /** Making a list of links delivers them if and only if their places are clear. */
  lemma PairsDeliver(pl: Places, start: Tree<string>, ps: seq<(string, string)>)
    requires Settled(start) && forall i :: 0 <= i < |ps| ==> Tidy(pl, start, ps[i].1)
    ensures Delivered(PairOps(pl, ps), start) <==> ClearPairs(pl, start, ps)
  {
    PairsPlain(pl, ps);
    DeliversExactly(PairOps(pl, ps), start);
    if ClearPairs(pl, start, ps) { ClearFromPairs(pl, start, ps); }
    if Clear(PairOps(pl, ps), start) { PairsFromClear(pl, start, ps); }
  }

  // ---------- from the spec to the image ----------

  ghost predicate Linked(m: Links, l: string)
  {
    exists k :: k in m && l in NewPaths(m[k])
  }

  /** No place is taken or becomes a directory on the way, no file or link is in the way, and
      no two new paths lead to one place. */
  ghost predicate ClearPlaces(pl: Places, start: Tree<string>, m: Links)
  {
    && (forall l :: Linked(m, l) ==> pl.at(l) !in start.dirs && pl.at(l) !in start.items && WayOpen(pl, start, l))
    && (forall l, l' :: Linked(m, l) && Linked(m, l') ==> !(pl.at(l) <= pl.made(l')))
    && (forall l, l' :: Linked(m, l) && Linked(m, l') && l != l' ==> pl.at(l) != pl.at(l'))
  }

  ghost predicate Lists(ps: seq<(string, string)>, m: Links)
  {
    && (forall i :: 0 <= i < |ps| ==> ps[i].0 in m && ps[i].1 in NewPaths(m[ps[i].0]))
    && (forall k, l :: k in m && l in NewPaths(m[k]) ==> (k, l) in ps)
  }

  lemma PairsFromLinks(pl: Places, start: Tree<string>, m: Links, ps: seq<(string, string)>)
    requires Lists(ps, m) && Distinct(ps) && ClearPlaces(pl, start, m)
      && forall l :: Linked(m, l) ==> Tidy(pl, start, l)
    ensures ClearPairs(pl, start, ps)
  {
    forall i | 0 <= i < |ps|
      ensures Linked(m, ps[i].1) && PlaceReady(pl, start, ps[i].1) && WayOpen(pl, start, ps[i].1)
    {
      assert ps[i].0 in m && ps[i].1 in NewPaths(m[ps[i].0]);
      assert Tidy(pl, start, ps[i].1);
    }
    forall i, j | 0 <= i < |ps| && 0 <= j < |ps|
      ensures !(pl.at(ps[i].1) <= pl.made(ps[j].1)) && (i < j ==> pl.at(ps[i].1) != pl.at(ps[j].1))
    {
      assert Linked(m, ps[i].1) && Linked(m, ps[j].1);
    }
  }

  lemma LinksFromPairs(pl: Places, start: Tree<string>, m: Links, ps: seq<(string, string)>)
    requires Lists(ps, m) && ClearPairs(pl, start, ps)
    ensures ClearPlaces(pl, start, m)
  {
    forall l | Linked(m, l)
      ensures pl.at(l) !in start.dirs && pl.at(l) !in start.items && WayOpen(pl, start, l)
    {
      var i := IndexOf(ps, m, l);
      assert PlaceReady(pl, start, ps[i].1);
    }
    forall l, l' | Linked(m, l) && Linked(m, l')
      ensures !(pl.at(l) <= pl.made(l')) && (l != l' ==> pl.at(l) != pl.at(l'))
    {
      var i := IndexOf(ps, m, l);
      var j := IndexOf(ps, m, l');
      assert !(pl.at(ps[i].1) <= pl.made(ps[j].1));
      assert i < j || j < i || l == l';
    }
  }

  lemma IndexOf(ps: seq<(string, string)>, m: Links, l: string) returns (i: nat)
    requires Lists(ps, m) && Linked(m, l)
    ensures i < |ps| && ps[i].1 == l
  {
    var k :| k in m && l in NewPaths(m[k]);
    i :| 0 <= i < |ps| && ps[i] == (k, l);
  }

  /** The links of the relation are in their places, what was in the image is as it was, and
      there is nothing else. */
  ghost predicate LinksMade(o: Outcome<string>, start: Tree<string>, at: string -> Path, m: Links)
  {
    && o.Done?
    && (forall k, l :: k in m && l in NewPaths(m[k]) ==> at(l) in o.tree.items && o.tree.items[at(l)] == Item(k, false))
    && (forall p :: p in start.items ==> p in o.tree.items && o.tree.items[p] == start.items[p])
    && (forall p :: p in o.tree.items ==> p in start.items || exists l :: Linked(m, l) && p == at(l))
  }

  lemma DeliveredIsMade(pl: Places, start: Tree<string>, m: Links, ps: seq<(string, string)>)
    requires Lists(ps, m)
    ensures Delivered(PairOps(pl, ps), start) <==> LinksMade(RunAll(PairOps(pl, ps), start), start, pl.at, m)
  {
    var ops, o := PairOps(pl, ps), RunAll(PairOps(pl, ps), start);
    if Delivered(ops, start) { AllMade(pl, start, m, ps, o.tree); }
    if LinksMade(o, start, pl.at, m) { MadeIsDelivered(pl, start, m, ps, o.tree); }
  }

  lemma AllMade(pl: Places, start: Tree<string>, m: Links, ps: seq<(string, string)>, t: Tree<string>)
    requires Lists(ps, m) && DeliveredTo(PairOps(pl, ps), |PairOps(pl, ps)|, start, t)
    ensures LinksMade(Outcome.Done(t), start, pl.at, m)
  {
    var ops := PairOps(pl, ps);
    PairOpsLength(pl, ps);
    forall k, l | k in m && l in NewPaths(m[k]) ensures pl.at(l) in t.items && t.items[pl.at(l)] == Item(k, false) {
      var i :| 0 <= i < |ps| && ps[i] == (k, l);
      PairOpsAt(pl, ps, i);
      assert ops[2 * i + 1].Put?;
    }
    forall p | p in t.items && p !in start.items ensures exists l :: Linked(m, l) && p == pl.at(l) {
      assert PutAt(ops, |ops|, p);
      var x :| 0 <= x < |ops| && ops[x].Put? && ops[x].at == p;
      IsPutAt(pl, ps, x);
      assert Linked(m, ps[x / 2].1);
    }
  }

  lemma MadeIsDelivered(pl: Places, start: Tree<string>, m: Links, ps: seq<(string, string)>, t: Tree<string>)
    requires Lists(ps, m) && LinksMade(Outcome.Done(t), start, pl.at, m)
    ensures DeliveredTo(PairOps(pl, ps), |PairOps(pl, ps)|, start, t)
  {
    var ops := PairOps(pl, ps);
    PairOpsLength(pl, ps);
    forall x | 0 <= x < |ops| && ops[x].Put?
      ensures ops[x].at in t.items && t.items[ops[x].at] == Item(ops[x].item, ops[x].tree)
    {
      IsPutAt(pl, ps, x);
      assert ps[x / 2].0 in m && ps[x / 2].1 in NewPaths(m[ps[x / 2].0]);
    }
    forall p | p in t.items && p !in start.items ensures PutAt(ops, |ops|, p) {
      var l :| Linked(m, l) && p == pl.at(l);
      var i := IndexOf(ps, m, l);
      PairOpsAt(pl, ps, i);
      assert ops[2 * i + 1].Put? && ops[2 * i + 1].at == p;
    }
  }

  lemma PairsList(m: Links, s: Links)
    requires Normal(s) && Relation(s) == Relation(m)
    ensures Lists(Pairs(s), m) && Distinct(Pairs(s))
  {
    PairsDistinct(s);
    forall k, l ensures (k, l) in Pairs(s) <==> k in m && l in NewPaths(m[k]) {
      PairsHold(s, k, l);
      SameLinks(m, s, k, l);
    }
    ListsAll(Pairs(s), m);
  }

  lemma ListsAll(ps: seq<(string, string)>, m: Links)
    requires forall k, l :: (k, l) in ps <==> k in m && l in NewPaths(m[k])
    ensures Lists(ps, m)
  {
    forall i | 0 <= i < |ps| ensures ps[i].0 in m && ps[i].1 in NewPaths(m[ps[i].0]) {
      assert (ps[i].0, ps[i].1) in ps;
    }
  }

  lemma SameLinks(m: Links, s: Links, k: string, l: string)
    requires Normal(s) && Relation(s) == Relation(m)
    ensures (k in s && l in s[k].paths) <==> (k in m && l in NewPaths(m[k]))
  {
    assert (k, l) in Relation(s) <==> (k, l) in Relation(m);
    if k in s { NoPath(s[k]); }
  }

  /** Running a script from a tree. */
  ghost function RunScript(ns: Names, tx: Texts, m: Links, start: Tree<string>): Outcome<string>
  {
    RunAll(OpsBy(ns, Script(tx, m)), start)
  }

  ghost function RunAll(ops: seq<Op<string>>, start: Tree<string>): Outcome<string>
  {
    Run(ops, |ops|, start)
  }

  lemma ListExactly(pl: Places, start: Tree<string>, m: Links, ps: seq<(string, string)>)
    requires Settled(start) && Lists(ps, m) && Distinct(ps) && forall l :: Linked(m, l) ==> Tidy(pl, start, l)
    ensures LinksMade(RunAll(PairOps(pl, ps), start), start, pl.at, m) <==> ClearPlaces(pl, start, m)
  {
    forall i | 0 <= i < |ps| ensures Tidy(pl, start, ps[i].1) { assert Linked(m, ps[i].1); }
    PairsDeliver(pl, start, ps);
    DeliveredIsMade(pl, start, m, ps);
    if ClearPlaces(pl, start, m) { PairsFromLinks(pl, start, m, ps); }
    if ClearPairs(pl, start, ps) { LinksFromPairs(pl, start, m, ps); }
  }

  /** From any tree of directories, files and links, the script leaves exactly the links of
      the relation beside what was there if and only if their places are clear. */
  lemma ScriptExactly(ns: Names, tx: Texts, start: Tree<string>, m: Links, s: Links)
    requires Settled(start) && Normal(s) && Relation(s) == Relation(m)
    requires AllTidy(PlacesBy(ns, tx), start, m)
    ensures LinksMade(RunScript(ns, tx, s, start), start, PlacesBy(ns, tx).at, m) <==>
      ClearPlaces(PlacesBy(ns, tx), start, m)
  {
    ScriptOps(ns, tx, s);
    PairsList(m, s);
    ListExactly(PlacesBy(ns, tx), start, m, Pairs(s));
  }

  // ---------- images ----------

  /** What the container holds when the script starts. `resolve` follows the links that lead to
      directories: a path to where it really leads. */
  datatype Image = Image(tree: Tree<string>, resolve: Path -> Path)
  {
    /** Every directory is in a directory, no file or link is one, and each further element
        of a path stands for itself or leads from one directory to another. */
    ghost predicate Valid()
    {
      && Settled(tree)
      && (forall p, q :: p in tree.dirs && q <= p ==> q in tree.dirs)
      && (forall p, c :: Leads(p, c))
    }

    ghost predicate Leads(p: Path, c: string)
    {
      resolve(p + [c]) == resolve(p) + [c] || (resolve(p) in tree.dirs && resolve(p + [c]) in tree.dirs)
    }
  }

  /** Further down from a path is really further down, or the path leads to a directory. */
  lemma {:induction false} RealDescends(img: Image, p: Path, more: Path)
    requires img.Valid()
    ensures img.resolve(p) <= img.resolve(p + more) || img.resolve(p) in img.tree.dirs
    decreases |more|
  {
    if more == [] {
      assert p + more == p;
    } else {
      var front, c := more[..|more| - 1], more[|more| - 1];
      RealDescends(img, p, front);
      assert p + more == (p + front) + [c];
      assert img.Leads(p + front, c);
    }
  }

  /** What is made for a new path is its directory, or covers its place. */
  ghost predicate EndsWell(a: Path, b: Path)
  {
    a <= b || (a != [] && Parent(a) == b)
  }

  lemma RealTidy(img: Image, root: Path, a: Path, b: Path)
    requires img.Valid() && EndsWell(a, b)
    ensures var at, made := img.resolve(root + a), img.resolve(root + b);
      at <= made || (at != [] && Parent(at) == made) || at in img.tree.dirs
  {
    if a <= b {
      RealDescends(img, root + a, b[|a|..]);
      assert (root + a) + b[|a|..] == root + b;
    } else {
      var c := a[|a| - 1];
      assert root + a == (root + b) + [c];
      assert img.Leads(root + b, c);
      assert Parent(img.resolve(root + b) + [c]) == img.resolve(root + b);
    }
  }

  /** How new paths are written: where each leads below the root, and which directory is made
      for it, before links are followed. */
  datatype Layout = Layout(root: Path, inside: string -> Path, above: string -> Path)
  {
    /** Where a new path really leads. */
    function At(img: Image, l: string): Path
    {
      img.resolve(root + inside(l))
    }

    /** The directory that is really made for it. */
    function Made(img: Image, l: string): Path
    {
      img.resolve(root + above(l))
    }
  }

  ghost predicate Follows(pl: Places, lay: Layout, img: Image, l: string)
  {
    pl.at(l) == lay.At(img, l) && pl.made(l) == lay.Made(img, l) && EndsWell(lay.inside(l), lay.above(l))
  }

  ghost predicate AllFollow(pl: Places, lay: Layout, img: Image, m: Links)
  {
    forall l :: Linked(m, l) ==> Follows(pl, lay, img, l)
  }

  ghost predicate AllTidy(pl: Places, start: Tree<string>, m: Links)
  {
    forall l :: Linked(m, l) ==> Tidy(pl, start, l)
  }

  lemma AllFollowTidy(pl: Places, lay: Layout, img: Image, m: Links)
    requires img.Valid() && AllFollow(pl, lay, img, m)
    ensures AllTidy(pl, img.tree, m)
  {
    forall l | Linked(m, l) ensures Tidy(pl, img.tree, l) { FollowsTidy(pl, lay, img, l); }
  }

  lemma FollowsTidy(pl: Places, lay: Layout, img: Image, l: string)
    requires img.Valid() && Follows(pl, lay, img, l)
    ensures Tidy(pl, img.tree, l)
  {
    RealTidy(img, lay.root, lay.inside(l), lay.above(l));
  }

  /** No new path leads to something that is in the image or to a directory that is made on the
      way, no file or link of the image is at or above such a directory, and no two new paths
      lead to one place. */
  ghost predicate ClearLinks(lay: Layout, img: Image, m: Links)
  {
    && (forall l :: Linked(m, l) ==> lay.At(img, l) !in img.tree.dirs && lay.At(img, l) !in img.tree.items)
    && (forall l, p :: Linked(m, l) && p in img.tree.items ==> !(p <= lay.Made(img, l)))
    && (forall l, l' :: Linked(m, l) && Linked(m, l') ==> !(lay.At(img, l) <= lay.Made(img, l')))
    && (forall l, l' :: Linked(m, l) && Linked(m, l') && l != l' ==> lay.At(img, l) != lay.At(img, l'))
  }

  lemma ClearAlike(pl: Places, lay: Layout, img: Image, m: Links)
    requires AllFollow(pl, lay, img, m)
    ensures ClearPlaces(pl, img.tree, m) <==> ClearLinks(lay, img, m)
  {
    forall l | Linked(m, l) ensures Follows(pl, lay, img, l)
      && (WayOpen(pl, img.tree, l) <==> forall p :: p in img.tree.items ==> !(p <= lay.Made(img, l)))
    {
      assert Follows(pl, lay, img, l);
    }
  }

  /** The same in an image, by where the new paths lead. */
  lemma ImageExactly(ns: Names, tx: Texts, lay: Layout, img: Image, m: Links, s: Links)
    requires img.Valid() && Normal(s) && Relation(s) == Relation(m)
    requires AllFollow(PlacesBy(ns, tx), lay, img, m)
    ensures LinksMade(RunScript(ns, tx, s, img.tree), img.tree, PlacesBy(ns, tx).at, m) <==> ClearLinks(lay, img, m)
  {
    var pl := PlacesBy(ns, tx);
    AllFollowTidy(pl, lay, img, m);
    ScriptExactly(ns, tx, img.tree, m, s);
    ClearAlike(pl, lay, img, m);
  }

  // ---------- with the paths of dalec ----------

  ghost function ImageNames(img: Image): Names
  {
    Names(p => img.resolve(Paths.Components(p)), s => Paths.Base(s))
  }

  /** Where the new paths of the script lead, the root of the image being at `root`. */
  ghost function PlacesIn(root: string, img: Image): Places
  {
    PlacesBy(ImageNames(img), TextsIn(root))
  }

  ghost function LayoutIn(root: string): Layout
  {
    Layout(Paths.Components(root), l => Paths.Inside(l), l => Paths.Inside(Paths.UpToSlash(l)))
  }

  /** The new path does not climb out of the image. */
  predicate Stays(l: string)
  {
    Paths.StaysBelow(Paths.Split(l))
  }

  ghost predicate Contained(m: Links)
  {
    forall l :: Linked(m, l) ==> Stays(l)
  }

  lemma FollowsIn(root: string, img: Image, l: string)
    requires root != "" && Stays(l)
    ensures Follows(PlacesIn(root, img), LayoutIn(root), img, l)
  {
    var a, b := Paths.Inside(l), Paths.Inside(Paths.UpToSlash(l));
    LastInside(l);
    FollowsWith(root, img, l, a, b);
  }

  lemma FollowsWith(root: string, img: Image, l: string, a: Path, b: Path)
    requires root != "" && Stays(l) && a == Paths.Inside(l)
      && b == Paths.Inside(Paths.UpToSlash(l))
    requires EndsWell(a, b)
    ensures Follows(PlacesIn(root, img), LayoutIn(root), img, l)
  {
    PlacesAre(root, img, l, a, b);
    LayoutInAt(root, l);
    MakeFollows(PlacesIn(root, img), LayoutIn(root), img, l, Paths.Components(root), a, b);
  }

  lemma MakeFollows(pl: Places, lay: Layout, img: Image, l: string, root: Path, a: Path, b: Path)
    requires pl.at(l) == img.resolve(root + a) && pl.made(l) == img.resolve(root + b)
    requires lay.root == root && lay.inside(l) == a && lay.above(l) == b && EndsWell(a, b)
    ensures Follows(pl, lay, img, l)
  {}

  lemma PlacesAre(root: string, img: Image, l: string, a: Path, b: Path)
    requires root != "" && Stays(l) && a == Paths.Inside(l)
      && b == Paths.Inside(Paths.UpToSlash(l))
    ensures PlacesIn(root, img).at(l) == img.resolve(Paths.Components(root) + a)
    ensures PlacesIn(root, img).made(l) == img.resolve(Paths.Components(root) + b)
  {
    PlacesByAt(ImageNames(img), TextsIn(root), l);
    TextsAt(root, l);
    NamesAt(img, DestIn(root, l));
    NamesAt(img, DirIn(root, l));
    PlaceOf(root, l);
    DirOf(root, l);
  }

  lemma LayoutInAt(root: string, l: string)
    ensures LayoutIn(root).root == Paths.Components(root)
    ensures LayoutIn(root).inside(l) == Paths.Inside(l) && LayoutIn(root).above(l) == Paths.Inside(Paths.UpToSlash(l))
  {}

  lemma PlaceOf(root: string, l: string)
    requires root != "" && Stays(l)
    ensures Paths.Components(DestIn(root, l)) == Paths.Components(root) + Paths.Inside(l)
  {
    Paths.JoinInside(root, l);
  }

  lemma DirOf(root: string, l: string)
    requires root != "" && Stays(l)
    ensures Paths.Components(DirIn(root, l)) == Paths.Components(root) + Paths.Inside(Paths.UpToSlash(l))
  {
    Paths.JoinDirInside(root, l);
  }

  lemma NamesAt(img: Image, p: string)
    ensures ImageNames(img).path(p) == img.resolve(Paths.Components(p))
  {}

  lemma TextsAt(root: string, l: string)
    ensures TextsIn(root).dest(l) == DestIn(root, l) && TextsIn(root).dir(l) == DirIn(root, l)
  {}

  lemma PlacesByAt(ns: Names, tx: Texts, l: string)
    ensures PlacesBy(ns, tx).at(l) == ns.path(tx.dest(l)) && PlacesBy(ns, tx).made(l) == ns.path(tx.dir(l))
  {}

  /** A new path either ends in a proper name, whose directory is made, or leads to a
      directory that is made for it. */
  lemma LastInside(l: string)
    requires Stays(l)
    ensures EndsWell(Paths.Inside(l), Paths.Inside(Paths.UpToSlash(l)))
  {
    var last := Paths.LastElement(l);
    var a, b := Paths.Inside(l), Paths.Inside(Paths.UpToSlash(l));
    Paths.DirStaysBelow(l);
    if last != "" && last != "." && last != ".." {
      assert Parent(b + [last]) == b;
    }
  }

  /** The script of links, normalised and sorted to `s`, leaves exactly the links of the
      relation beside what was there. */
  ghost predicate MadeIn(root: string, img: Image, m: Links, s: Links)
  {
    LinksMade(RunScript(ImageNames(img), TextsIn(root), s, img.tree), img.tree, PlacesIn(root, img).at, m)
  }

  /** For accepted links that do not climb out of the image, and any image: normalised, sorted
      and run, they become exactly the relation if and only if no new path leads to something
      that is there or to a directory that is made on the way, nothing but directories is on
      the way, and no two lead to one place. */
  lemma AcceptedLinksMade(root: string, img: Image, m: Links, s: Links)
    requires root != "" && img.Valid() && Acceptable(m) && Contained(m) && s == SortedPaths(Normalized(m))
    ensures MadeIn(root, img, m, s) <==> ClearLinks(LayoutIn(root), img, m)
  {
    AcceptableNormal(m);
    AllFollowIn(root, img, m);
    ImageExactly(ImageNames(img), TextsIn(root), LayoutIn(root), img, m, s);
  }

  lemma AllFollowIn(root: string, img: Image, m: Links)
    requires root != "" && Contained(m)
    ensures AllFollow(PlacesIn(root, img), LayoutIn(root), img, m)
  {
    forall l | Linked(m, l) ensures Follows(PlacesIn(root, img), LayoutIn(root), img, l) {
      LinkFollows(root, img, m, l);
    }
  }

  lemma LinkFollows(root: string, img: Image, m: Links, l: string)
    requires root != "" && Contained(m) && Linked(m, l)
    ensures Follows(PlacesIn(root, img), LayoutIn(root), img, l)
  {
    FollowsIn(root, img, l);
  }

  /** New paths that lead to a name in the directory made for them: then the places are clear
      if and only if none is a directory of the image, no file or link of the image is at or
      above one, and none is at or above another. */
  lemma NamedClear(lay: Layout, img: Image, m: Links)
    requires forall l :: Linked(m, l) ==> lay.At(img, l) != [] && Parent(lay.At(img, l)) == lay.Made(img, l)
    ensures ClearLinks(lay, img, m) <==>
      && (forall l :: Linked(m, l) ==> lay.At(img, l) !in img.tree.dirs)
      && (forall l, p :: Linked(m, l) && p in img.tree.items ==> !(p <= lay.At(img, l)))
      && (forall l, l' :: Linked(m, l) && Linked(m, l') && l != l' ==> !(lay.At(img, l) <= lay.At(img, l')))
  {
    forall l, l' | Linked(m, l) && Linked(m, l')
      ensures lay.At(img, l) <= lay.At(img, l') <==>
        lay.At(img, l) <= lay.Made(img, l') || lay.At(img, l) == lay.At(img, l')
    {
      ProperPrefix(lay.At(img, l), lay.At(img, l'));
    }
    forall l, p | Linked(m, l) && p in img.tree.items
      ensures p <= lay.At(img, l) <==> p <= lay.Made(img, l) || p == lay.At(img, l)
    {
      ProperPrefix(p, lay.At(img, l));
    }
  }

  lemma ProperPrefix(a: Path, b: Path)
    requires b != []
    ensures a <= b <==> a <= Parent(b) || a == b
  {
    if a <= b && a != b { assert a == Parent(b)[..|a|]; }
  }

  // ---------- where it goes wrong ----------

  function To(path: string): Target
  {
    Target("", [path], "", "")
  }

  lemma OneTarget(k: string, l: string)
    requires k != "" && l != ""
    ensures GoodEntry(k, To(l)) && NewPaths(To(l)) == [l]
  {
    assert To(l).paths[0] == l;
  }

  lemma TwoSources(m: Links, k: string, l: string, k': string, l': string)
    requires k != "" && k' != "" && l != "" && l' != "" && k != k' && l != l' && m == map[k := To(l), k' := To(l')]
    ensures Acceptable(m) && forall x :: Linked(m, x) <==> x == l || x == l'
  {
    OneTarget(k, l);
    OneTarget(k', l');
    TwoTargets(m, k, l, k', l', To(l), To(l'));
  }

  lemma TwoTargets(m: Links, k: string, l: string, k': string, l': string, t: Target, t': Target)
    requires k != k' && l != l' && m == map[k := t, k' := t']
    requires GoodEntry(k, t) && GoodEntry(k', t') && NewPaths(t) == [l] && NewPaths(t') == [l']
    ensures Acceptable(m) && forall x :: Linked(m, x) <==> x == l || x == l'
  {
    TwoLinked(m, k, l, k', l');
    TwoUnique(m, k, l, k', l');
  }

  lemma TwoUnique(m: Links, k: string, l: string, k': string, l': string)
    requires k != k' && l != l' && m.Keys == {k, k'} && NewPaths(m[k]) == [l] && NewPaths(m[k']) == [l']
    ensures Unique(m)
  {
    forall x | x in m ensures NoDuplicates(NewPaths(m[x])) {}
    assert Disjoint([l], [l']) && Disjoint([l'], [l]);
  }

  lemma TwoLinked(m: Links, k: string, l: string, k': string, l': string)
    requires m.Keys == {k, k'} && NewPaths(m[k]) == [l] && NewPaths(m[k']) == [l']
    ensures forall x :: Linked(m, x) <==> x == l || x == l'
  {
    forall x ensures Linked(m, x) <==> x == l || x == l' {
      assert k in m && k' in m;
      if x == l { assert x in NewPaths(m[k]); }
      if x == l' { assert x in NewPaths(m[k']); }
    }
  }

  lemma OneLink(m: Links, k: string, l: string, t: Target)
    requires m == map[k := t] && GoodEntry(k, t) && NewPaths(t) == [l]
    ensures Acceptable(m) && forall x :: Linked(m, x) <==> x == l
  {
    assert k in m && l in NewPaths(m[k]);
  }

  /** Accepted links whose places are not clear are not all made. */
  lemma NotMade(root: string, img: Image, m: Links, s: Links, l: string, l': string)
    requires root != "" && img.Valid() && Acceptable(m) && Contained(m) && s == SortedPaths(Normalized(m))
    requires Linked(m, l) && Linked(m, l') && Unclear(LayoutIn(root), img, l, l')
    ensures !MadeIn(root, img, m, s)
  {
    AcceptedLinksMade(root, img, m, s);
    NotClear(LayoutIn(root), img, m, l, l');
  }

  ghost predicate Unclear(lay: Layout, img: Image, l: string, l': string)
  {
    || lay.inside(l) == lay.above(l')
    || (l != l' && lay.inside(l) == lay.inside(l'))
    || lay.At(img, l) in img.tree.items
    || lay.Made(img, l) in img.tree.items
  }

  lemma NotClear(lay: Layout, img: Image, m: Links, l: string, l': string)
    requires Linked(m, l) && Linked(m, l') && Unclear(lay, img, l, l')
    ensures !ClearLinks(lay, img, m)
  {
    var at, made := lay.At(img, l), lay.Made(img, l');
    if at == made { assert at <= made; }
  }

  lemma UnclearWith(lay: Layout, img: Image, l: string, l': string, root: Path, a: Path, b: Path, a': Path, b': Path)
    requires lay.root == root && lay.inside(l) == a && lay.above(l) == b && lay.inside(l') == a' && lay.above(l') == b'
    requires a == b' || (l != l' && a == a')
      || img.resolve(root + a) in img.tree.items || img.resolve(root + b) in img.tree.items
    ensures Unclear(lay, img, l, l')
  {}

  /** Told by the elements of the new paths alone. */
  lemma UnclearIn(root: string, img: Image, l: string, l': string, a: Path, b: Path, a': Path, b': Path)
    requires a == Paths.Inside(l) && b == Paths.Inside(Paths.UpToSlash(l))
    requires a' == Paths.Inside(l') && b' == Paths.Inside(Paths.UpToSlash(l'))
    requires a == b' || (l != l' && a == a') || img.resolve(Paths.Components(root) + a) in img.tree.items
      || img.resolve(Paths.Components(root) + b) in img.tree.items
    ensures Unclear(LayoutIn(root), img, l, l')
  {
    LayoutInAt(root, l);
    LayoutInAt(root, l');
    UnclearWith(LayoutIn(root), img, l, l', Paths.Components(root), a, b, a', b');
  }

  /** Two new paths, one of which leads to the directory made for the other, or to its place. */
  lemma TwoNotMade(root: string, img: Image, m: Links, s: Links, k: string, l: string, k': string, l': string)
    requires k != "" && k' != "" && l != "" && l' != "" && k != k' && l != l' && m == map[k := To(l), k' := To(l')]
    requires root != "" && img.Valid() && s == SortedPaths(Normalized(m))
    requires Stays(l) && Stays(l')
    requires Unclear(LayoutIn(root), img, l', l)
    ensures Acceptable(m) && !MadeIn(root, img, m, s)
  {
    TwoSources(m, k, l, k', l');
    LinksContained(m, l, l');
    NotMade(root, img, m, s, l', l);
  }

  lemma LinksContained(m: Links, l: string, l': string)
    requires Stays(l) && Stays(l')
    requires forall x :: Linked(m, x) <==> x == l || x == l'
    ensures Contained(m) && Linked(m, l) && Linked(m, l')
  {}

  /** One new path that cannot be made. */
  lemma OneNotMade(root: string, img: Image, m: Links, s: Links, k: string, l: string)
    requires k != "" && l != "" && m == map[k := To(l)]
    requires root != "" && img.Valid() && s == SortedPaths(Normalized(m)) && Stays(l)
    requires Unclear(LayoutIn(root), img, l, l)
    ensures Acceptable(m) && !MadeIn(root, img, m, s)
  {
    OneTarget(k, l);
    OneLink(m, k, l, To(l));
    LinksContained(m, l, l);
    NotMade(root, img, m, s, l, l);
  }

  /** `/a` and `a` are different new paths and one place. */
  lemma SamePlaceTwice(root: string, img: Image, m: Links, s: Links)
    requires root != "" && img.Valid() && s == SortedPaths(Normalized(m))
    requires m == map["/x" := To("/a"), "/y" := To("a")]
    ensures Acceptable(m) && !MadeIn(root, img, m, s)
  {
    NamePlaces("a", "/a");
    UnclearIn(root, img, "a", "/a", ["a"], [], ["a"], []);
    TwoNotMade(root, img, m, s, "/x", "/a", "/y", "a");
  }

  lemma NamePlaces(a: string, text: string)
    requires Paths.PlainComponent(a) && text == "/" + a
    ensures Paths.Inside(text) == Paths.Inside(a) == [a]
    ensures Paths.Inside(Paths.UpToSlash(text)) == Paths.Inside(Paths.UpToSlash(a)) == []
    ensures Stays(text) && Stays(a)
  {
    Paths.NameInside(a);
  }

  lemma NestedPlaces(a: string, b: string, text: string)
    requires Paths.PlainComponent(a) && Paths.PlainComponent(b) && text == "/" + a + "/" + b
    ensures Paths.Inside(text) == [a, b] && Paths.Inside(Paths.UpToSlash(text)) == [a]
    ensures Stays(text)
  {
    Paths.NestedInside(a, b);
  }

  /** A new path below another; the two are different places. */
  lemma NestedLinks(root: string, img: Image, m: Links, s: Links)
    requires root != "" && img.Valid() && s == SortedPaths(Normalized(m))
    requires m == map["/b" := To("/a/b"), "/x" := To("/a")]
    ensures Acceptable(m) && !MadeIn(root, img, m, s)
  {
    NamePlaces("a", "/a");
    NestedPlaces("a", "b", "/a/b");
    UnclearIn(root, img, "/a", "/a/b", ["a"], [], ["a", "b"], ["a"]);
    TwoNotMade(root, img, m, s, "/b", "/a/b", "/x", "/a");
  }

  /** The root of the image as a new path. */
  lemma RootLink(root: string, img: Image, m: Links, s: Links)
    requires root != "" && img.Valid() && s == SortedPaths(Normalized(m)) && m == map["/x" := To("/")]
    ensures Acceptable(m) && !MadeIn(root, img, m, s)
  {
    RootPlace();
    UnclearIn(root, img, "/", "/", [], [], [], []);
    OneNotMade(root, img, m, s, "/x", "/");
  }

  lemma RootPlace()
    ensures Paths.Inside("/") == [] && Paths.UpToSlash("/") == "/" && Stays("/")
  {
    Paths.RootInside();
    assert "/" + "" == "/";
  }

  /** A file or link of the image where the new path leads. */
  lemma FileThere(root: string, img: Image, m: Links, s: Links)
    requires root != "" && img.Valid() && s == SortedPaths(Normalized(m)) && m == map["/x" := To("/a")]
    requires img.resolve(Paths.Components(root) + ["a"]) in img.tree.items
    ensures Acceptable(m) && !MadeIn(root, img, m, s)
  {
    NamePlaces("a", "/a");
    UnclearIn(root, img, "/a", "/a", ["a"], [], ["a"], []);
    OneNotMade(root, img, m, s, "/x", "/a");
  }

  /** A file of the image where a directory is to be made. */
  lemma FileOnTheWay(root: string, img: Image, m: Links, s: Links)
    requires root != "" && img.Valid() && s == SortedPaths(Normalized(m)) && m == map["/x" := To("/a/b")]
    requires img.resolve(Paths.Components(root) + ["a"]) in img.tree.items
    ensures Acceptable(m) && !MadeIn(root, img, m, s)
  {
    NestedPlaces("a", "b", "/a/b");
    UnclearIn(root, img, "/a/b", "/a/b", ["a", "b"], ["a"], ["a", "b"], ["a"]);
    OneNotMade(root, img, m, s, "/x", "/a/b");
  }

  /** Two links, the second to be where the directory is made for the first: it lands inside. */
  lemma LandsInside(pl: Places, start: Tree<string>, k: string, l: string, k': string, l': string)
    requires pl.at(l) != [] && Parent(pl.at(l)) == pl.at(l') == pl.made(l) && pl.at(l') != []
      && Parent(pl.at(l')) == pl.made(l')
    requires pl.at(l) != pl.at(l') + [pl.base(k')] && pl.at(l') + [pl.base(k')] !in start.dirs
    requires start.items == map[] && pl.at(l) !in start.dirs
    ensures RunAll(PairOps(pl, [(k, l), (k', l')]), start).Done?
    ensures RunAll(PairOps(pl, [(k, l), (k', l')]), start).tree.items
         == map[pl.at(l) := Item(k, false), pl.at(l') + [pl.base(k')] := Item(k', false)]
  {
    var ps := [(k, l), (k', l')];
    var ops := PairOps(pl, ps);
    PairOpsAt(pl, ps, 0);
    PairOpsAt(pl, ps, 1);
    var d, at := pl.made(l), pl.at(l);
    var t1: Tree<string> := Tree(start.dirs + Prefixes(d), map[]);
    InPrefixes(d, d);
    InPrefixes(d, at);
    assert Prefixes(d) - t1.items.Keys == Prefixes(d);
    assert Run(ops, 1, start) == Outcome.Done(t1);
    var t2: Tree<string> := Tree(t1.dirs, map[at := Item(k, false)]);
    assert Run(ops, 2, start) == Outcome.Done(t2);
    InPrefixes(pl.made(l'), at);
    var t3: Tree<string> := Tree(t1.dirs + Prefixes(pl.made(l')), t2.items);
    assert at !in Prefixes(pl.made(l'));
    assert Prefixes(pl.made(l')) - t2.items.Keys == Prefixes(pl.made(l'));
    assert Run(ops, 3, start) == Outcome.Done(t3);
    InPrefixes(d, d + [pl.base(k')]);
    InPrefixes(pl.made(l'), d + [pl.base(k')]);
    assert Parent(d + [pl.base(k')]) == d;
    var t4: Tree<string> := Tree(t3.dirs, t3.items[d + [pl.base(k')] := Item(k', false)]);
    assert Run(ops, 4, start) == Outcome.Done(t4);
  }
}
