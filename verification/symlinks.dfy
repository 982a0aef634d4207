/**
 Symlinks added to an image: their validation, the rewriting of `path` into `paths`, and the
 shell commands that create them.
 */
module Symlinks {
  import opened Order
  import opened Text
  import Paths

  datatype Target = Target(path: string, paths: seq<string>, user: string, group: string)

  /** From what a link points at to where the links are placed. */
  type Links = map<string, Target>

  /** All places a target names. */
  function NewPaths(t: Target): seq<string>
  {
    (if t.path == "" then [] else [t.path]) + t.paths
  }

  /** The links asked for. */
  ghost function Relation(m: Links): set<(string, string)>
  {
    set source, link | source in m && link in NewPaths(m[source]) :: (source, link)
  }

  // ---------- validation ----------

  predicate ExactlyOne(t: Target)
  {
    (t.path != "") != (|t.paths| > 0)
  }

  ghost predicate GoodEntry(source: string, t: Target)
  {
    source != "" && ExactlyOne(t) && "" !in t.paths
  }

  ghost predicate Disjoint(s: seq<string>, t: seq<string>)
  {
    forall x :: x in s ==> x !in t
  }

  /** No new path is named twice, by one source or by two. */
  ghost predicate Unique(m: Links)
  {
    && (forall k :: k in m ==> NoDuplicates(NewPaths(m[k])))
    && (forall k, k' :: k in m && k' in m && k != k' ==> Disjoint(NewPaths(m[k]), NewPaths(m[k'])))
  }

  ghost predicate Acceptable(m: Links)
  {
    (forall k :: k in m ==> GoodEntry(k, m[k])) && Unique(m)
  }

  datatype Problem =
    | EmptySource
    | PathAndPaths(source: string)
    | EmptyNewPath
    | Duplicate(link: string, source: string, seen: string)

  /** The first loop of `validateSymlinks`, for one entry. */
  method CheckEntry(source: string, t: Target) returns (errs: seq<Problem>, pairs: nat)
    ensures errs == [] <==> GoodEntry(source, t)
    ensures GoodEntry(source, t) ==> pairs == |NewPaths(t)|
  {
    errs, pairs := [], 0;
    if source == "" { errs := errs + [EmptySource]; }
    if (t.path != "" && |t.paths| > 0) || (t.path == "" && |t.paths| == 0) {
      errs := errs + [PathAndPaths(source)];
    }
    if errs != [] { return; }
    if t.path != "" { pairs := 1; return; }
    for i := 0 to |t.paths|
      invariant pairs == i
      invariant errs == [] <==> "" !in t.paths[..i]
    {
      pairs := pairs + 1;
      if t.paths[i] == "" { errs := errs + [EmptyNewPath]; }
    }
    assert t.paths[..|t.paths|] == t.paths;
  }

  ghost function PairCount(m: Links, order: seq<string>, n: nat): nat
    requires n <= |order| && forall k :: k in order ==> k in m
  {
    if n == 0 then 0 else PairCount(m, order, n - 1) + |NewPaths(m[order[n - 1]])|
  }

  method CheckEntries(m: Links, order: seq<string>) returns (errs: seq<Problem>, pairs: nat)
    requires forall k :: k in order ==> k in m
    ensures errs == [] <==> forall k :: k in order ==> GoodEntry(k, m[k])
    ensures errs == [] ==> pairs == PairCount(m, order, |order|)
  {
    errs, pairs := [], 0;
    for i := 0 to |order|
      invariant errs == [] <==> forall j :: 0 <= j < i ==> GoodEntry(order[j], m[order[j]])
      invariant errs == [] ==> pairs == PairCount(m, order, i)
    {
      var es, n := CheckEntry(order[i], m[order[i]]);
      errs, pairs := errs + es, pairs + n;
    }
  }

  /** `checkDuplicateNewpath` over a list of new paths; `done` are those seen before. */
  method CheckNewPaths(source: string, news: seq<string>, seen: map<string, string>, ghost done: seq<string>)
    returns (errs: seq<Problem>, seen': map<string, string>)
    requires forall x :: x in seen <==> x in done
    ensures forall x :: x in seen' <==> x in done + NonEmpty(news)
    ensures NoDuplicates(done) ==> (errs == [] <==> NoDuplicates(done + NonEmpty(news)))
  {
    errs, seen' := [], seen;
    assert done + [] == done;
    for i := 0 to |news|
      invariant forall x :: x in seen' <==> x in done + NonEmpty(news[..i])
      invariant NoDuplicates(done) ==> (errs == [] <==> NoDuplicates(done + NonEmpty(news[..i])))
    {
      assert news[..i + 1][..i] == news[..i];
      ghost var before := done + NonEmpty(news[..i]);
      if news[i] != "" {
        assert done + NonEmpty(news[..i + 1]) == before + [news[i]];
        OneMore(before, news[i]);
        if news[i] in seen' {
          errs := errs + [Duplicate(news[i], source, seen'[news[i]])];
        }
        seen' := seen'[news[i] := source];
      } else {
        assert done + NonEmpty(news[..i + 1]) == before;
      }
    }
    assert news[..|news|] == news;
  }

  lemma OneMore<T>(s: seq<T>, x: T)
    ensures NoDuplicates(s + [x]) <==> NoDuplicates(s) && x !in s
  {
    var t := s + [x];
    if NoDuplicates(t) {
      assert forall i, j :: 0 <= i < j < |s| ==> t[i] == s[i] && t[j] == s[j];
      forall i | 0 <= i < |s| ensures s[i] != x { assert t[i] == s[i] && t[|s|] == x; }
    }
  }

  ghost function NonEmptyOf(m: Links): string -> seq<string>
  {
    k => if k in m then NonEmpty(NewPaths(m[k])) else []
  }

  ghost predicate SourceNamed(f: string -> seq<string>, m: Links, k: string)
  {
    k in m && f(k) == NonEmpty(NewPaths(m[k]))
  }

  method CheckSource(m: Links, k: string, seen: map<string, string>, ghost done: seq<string>,
    ghost f: string -> seq<string>)
    returns (errs: seq<Problem>, seen': map<string, string>)
    requires k in m && SourceNamed(f, m, k) && forall x :: x in seen <==> x in done
    ensures forall x :: x in seen' <==> x in done + f(k)
    ensures NoDuplicates(done) && errs == [] <==> NoDuplicates(done + f(k))
  {
    errs, seen' := CheckNewPaths(k, NewPaths(m[k]), seen, done);
    PrefixNoDuplicates(done, f(k));
  }

  /** The second loop of `validateSymlinks`; `f` names the paths of each source. */
  method CheckSources(m: Links, order: seq<string>, ghost f: string -> seq<string>) returns (errs: seq<Problem>)
    requires forall k :: k in order ==> k in m
    requires forall k {:trigger SourceNamed(f, m, k)} :: k in m ==> SourceNamed(f, m, k)
    ensures errs == [] <==> NoDuplicates(Gather(order, |order|, f))
  {
    errs := [];
    var seen: map<string, string> := map[];
    for i := 0 to |order|
      invariant forall x :: x in seen <==> x in Gather(order, i, f)
      invariant errs == [] <==> NoDuplicates(Gather(order, i, f))
    {
      var es;
      assert SourceNamed(f, m, order[i]);
      es, seen := CheckSource(m, order[i], seen, Gather(order, i, f), f);
      errs := errs + es;
    }
  }

  method CheckDuplicates(m: Links, order: seq<string>) returns (errs: seq<Problem>)
    requires forall k :: k in order ==> k in m
    ensures errs == [] <==> NoDuplicates(Gather(order, |order|, NonEmptyOf(m)))
  {
    errs := CheckSources(m, order, NonEmptyOf(m));
  }

  lemma PrefixNoDuplicates<T>(s: seq<T>, t: seq<T>)
    ensures NoDuplicates(s + t) ==> NoDuplicates(s)
  {
    var u := s + t;
    assert forall i :: 0 <= i < |s| ==> u[i] == s[i];
  }

  lemma JoinNoDuplicates(s: seq<string>, t: seq<string>)
    ensures NoDuplicates(s + t) <==> NoDuplicates(s) && NoDuplicates(t) && Disjoint(s, t)
  {
    var u := s + t;
    assert forall i :: 0 <= i < |s| ==> u[i] == s[i];
    assert forall i :: |s| <= i < |u| ==> u[i] == t[i - |s|];
    if NoDuplicates(u) {
      forall i, j | 0 <= i < j < |t| ensures t[i] != t[j] {
        assert u[|s| + i] != u[|s| + j];
      }
      forall i, j | 0 <= i < |s| && 0 <= j < |t| ensures s[i] != t[j] {
        assert u[i] != u[|s| + j];
      }
    }
    if NoDuplicates(s) && NoDuplicates(t) && Disjoint(s, t) {
      forall i, j | 0 <= i < j < |u| ensures u[i] != u[j] {
        if i < |s| <= j { assert s[i] in s && t[j - |s|] in t; }
      }
    }
  }

  ghost predicate UniqueIn(order: seq<string>, n: nat, f: string -> seq<string>)
    requires n <= |order|
  {
    && (forall i :: 0 <= i < n ==> NoDuplicates(f(order[i])))
    && (forall i, j :: 0 <= i < j < n ==> Disjoint(f(order[i]), f(order[j])))
  }

  /** A list of all new paths has a duplicate when one source does, or two share one. */
  lemma {:induction false} GatherNoDuplicates(order: seq<string>, n: nat, f: string -> seq<string>)
    requires n <= |order|
    ensures NoDuplicates(Gather(order, n, f)) <==> UniqueIn(order, n, f)
  {
    if n > 0 {
      GatherNoDuplicates(order, n - 1, f);
      var s, t := Gather(order, n - 1, f), f(order[n - 1]);
      JoinNoDuplicates(s, t);
      forall x ensures x in s <==> exists i :: 0 <= i < n - 1 && x in f(order[i]) {
        GatherHolds(order, n - 1, f, x);
      }
      assert Disjoint(s, t) <==> forall i :: 0 <= i < n - 1 ==> Disjoint(f(order[i]), t) by {
        if Disjoint(s, t) {
          forall i | 0 <= i < n - 1 ensures Disjoint(f(order[i]), t) {}
        }
      }
    }
  }

  lemma {:induction false} NonEmptyAll(s: seq<string>)
    requires "" !in s
    ensures NonEmpty(s) == s
  {
    if s != [] {
      NonEmptyAll(s[..|s| - 1]);
      assert s[|s| - 1] in s;
      assert s == s[..|s| - 1] + [s[|s| - 1]];
    }
  }

  lemma NonEmptyOfGood(m: Links, k: string)
    requires k in m && GoodEntry(k, m[k])
    ensures NonEmptyOf(m)(k) == NewPaths(m[k])
  {
    NonEmptyAll(NewPaths(m[k]));
  }

  lemma UniqueInIsUnique(m: Links, order: seq<string>, f: string -> seq<string>)
    requires Enumerates(order, m.Keys) && forall k :: k in m ==> f(k) == NewPaths(m[k])
    ensures UniqueIn(order, |order|, f) <==> Unique(m)
  {
    if UniqueIn(order, |order|, f) {
      forall k | k in m ensures NoDuplicates(NewPaths(m[k])) {
        var i :| 0 <= i < |order| && order[i] == k;
      }
      forall k, k' | k in m && k' in m && k != k' ensures Disjoint(NewPaths(m[k]), NewPaths(m[k'])) {
        var i :| 0 <= i < |order| && order[i] == k;
        var j :| 0 <= j < |order| && order[j] == k';
        assert if i < j then Disjoint(f(order[i]), f(order[j])) else Disjoint(f(order[j]), f(order[i]));
      }
    }
    if Unique(m) {
      forall i | 0 <= i < |order| ensures NoDuplicates(f(order[i])) { assert order[i] in m; }
      forall i, j | 0 <= i < j < |order| ensures Disjoint(f(order[i]), f(order[j])) {
        assert order[i] in m && order[j] in m && order[i] != order[j];
      }
    }
  }

  lemma DuplicatesDecide(m: Links, order: seq<string>)
    requires Enumerates(order, m.Keys) && forall k :: k in m ==> GoodEntry(k, m[k])
    ensures NoDuplicates(Gather(order, |order|, NonEmptyOf(m))) <==> Unique(m)
  {
    forall k | k in m ensures NonEmptyOf(m)(k) == NewPaths(m[k]) { NonEmptyOfGood(m, k); }
    GatherNoDuplicates(order, |order|, NonEmptyOf(m));
    UniqueInIsUnique(m, order, NonEmptyOf(m));
  }

  lemma {:induction false} CountIsLength(m: Links, order: seq<string>, n: nat, f: string -> seq<string>)
    requires n <= |order| && (forall k :: k in order ==> k in m) && forall k :: k in m ==> f(k) == NewPaths(m[k])
    ensures |Gather(order, n, f)| == PairCount(m, order, n)
  {
    if n > 0 { CountIsLength(m, order, n - 1, f); }
  }

  /** Fewer than two pairs cannot have a duplicate. */
  lemma ShortcutSound(m: Links, order: seq<string>)
    requires Enumerates(order, m.Keys) && forall k :: k in m ==> GoodEntry(k, m[k])
    requires PairCount(m, order, |order|) < 2
    ensures Unique(m)
  {
    forall k | k in m ensures NonEmptyOf(m)(k) == NewPaths(m[k]) { NonEmptyOfGood(m, k); }
    CountIsLength(m, order, |order|, NonEmptyOf(m));
    DuplicatesDecide(m, order);
  }

  /** `validateSymlinks`: it accepts exactly the acceptable links. Each loop ranges over the
      map in an order of its own. */
  method ValidateSymlinks(m: Links) returns (errs: seq<Problem>)
    ensures errs == [] <==> Acceptable(m)
  {
    var order := RangeKeys(m.Keys);
    var pairs;
    errs, pairs := CheckEntries(m, order);
    if pairs < 2 {
      if errs == [] { ShortcutSound(m, order); }
      return;
    }
    var again := RangeKeys(m.Keys);
    var more := CheckDuplicates(m, again);
    if errs == [] { DuplicatesDecide(m, again); }
    errs := errs + more;
  }

  // ---------- normalisation ----------

  function NormalTarget(t: Target): Target
  {
    if t.path == "" then t else t.(paths := t.paths + [t.path], path := "")
  }

  function Normalized(m: Links): Links
  {
    map k | k in m :: NormalTarget(m[k])
  }

  lemma NormalTargetNames(t: Target, x: string)
    ensures x in NewPaths(NormalTarget(t)) <==> x in NewPaths(t)
  {}

  /** Normalising names the same links, is done once, and keeps acceptable links acceptable. */
  lemma NormalizedSame(m: Links)
    ensures Relation(Normalized(m)) == Relation(m)
    ensures Normalized(Normalized(m)) == Normalized(m)
    ensures Acceptable(m) ==> Acceptable(Normalized(m))
  {
    var n := Normalized(m);
    forall k, x | k in m ensures x in NewPaths(n[k]) <==> x in NewPaths(m[k]) {
      NormalTargetNames(m[k], x);
    }
    if Acceptable(m) {
      forall k | k in m ensures GoodEntry(k, n[k]) && NewPaths(n[k]) == NewPaths(m[k]) {
        assert GoodEntry(k, m[k]);
      }
      forall k, k' | k in n && k' in n && k != k' ensures Disjoint(NewPaths(n[k]), NewPaths(n[k'])) {
        assert Disjoint(NewPaths(m[k]), NewPaths(m[k']));
      }
    }
  }

  // ---------- the script ----------

  datatype Command =
    | Mkdir(dir: string)
    | Ln(source: string, dest: string)
    | Chown(user: string, dest: string)
    | Chgrp(group: string, dest: string)

  /** How a script names the directory that is made for a new path, and its place. */
  datatype Texts = Texts(dir: string -> string, dest: string -> string)

  /** Below the root of the image. */
  function TextsIn(root: string): Texts
  {
    Texts(l => DirIn(root, l), l => DestIn(root, l))
  }

  function DirIn(root: string, l: string): string
  {
    Paths.Join([root, Paths.Dir(l)])
  }

  function DestIn(root: string, l: string): string
  {
    Paths.Join([root, l])
  }

  /** The commands for one link. */
  function LinkCommands(tx: Texts, source: string, t: Target, link: string): seq<Command>
  {
    [Mkdir(tx.dir(link)), Ln(source, tx.dest(link))]
    + (if t.user != "" then [Chown(t.user, tx.dest(link))] else [])
    + (if t.group != "" then [Chgrp(t.group, tx.dest(link))] else [])
  }

  ghost function TargetCommands(tx: Texts, source: string, t: Target): seq<Command>
  {
    Gather(t.paths, |t.paths|, link => LinkCommands(tx, source, t, link))
  }

  function SortedPaths(m: Links): Links
  {
    map k | k in m :: m[k].(paths := Sort(m[k].paths))
  }

  ghost function CommandsOf(tx: Texts, m: Links): string -> seq<Command>
  {
    k => if k in m then TargetCommands(tx, k, m[k]) else []
  }

  ghost function Script(tx: Texts, m: Links): seq<Command>
  {
    Gather(SortedKeys(m.Keys), |SortedKeys(m.Keys)|, CommandsOf(tx, m))
  }

  class PostInstall {
    var symlinks: Links

    /** `normalizeSymlinks`. */
    method NormalizeSymlinks()
      modifies this
      ensures symlinks == Normalized(old(symlinks))
    {
      ghost var before := symlinks;
      var order := RangeKeys(symlinks.Keys);
      for i := 0 to |order|
        invariant symlinks.Keys == before.Keys
        invariant forall j :: 0 <= j < i ==> symlinks[order[j]] == NormalTarget(before[order[j]])
        invariant forall j :: i <= j < |order| ==> symlinks[order[j]] == before[order[j]]
      {
        var cfg := symlinks[order[i]];
        if cfg.path != "" {
          cfg := cfg.(paths := cfg.paths + [cfg.path]);
          cfg := cfg.(path := "");
          symlinks := symlinks[order[i] := cfg];
        }
      }
      EachNormal(before, symlinks, order);
    }

    /** The script `InstallPostSymlinks` writes; the lists of new paths are sorted in place. */
    method InstallScript(root: string) returns (cmds: seq<Command>)
      modifies this
      ensures symlinks == SortedPaths(old(symlinks))
      ensures IsScriptOf(cmds, root, symlinks)
    {
      cmds, symlinks := WriteScriptIn(root, symlinks);
    }
  }

  /** The script for links below a root. */
  ghost predicate IsScriptOf(cmds: seq<Command>, root: string, m: Links)
  {
    cmds == Script(TextsIn(root), m)
  }

  method WriteScriptIn(root: string, m: Links) returns (cmds: seq<Command>, m': Links)
    ensures m' == SortedPaths(m) && IsScriptOf(cmds, root, m')
  {
    cmds, m' := WriteScript(TextsIn(root), m);
  }

  method WriteScript(tx: Texts, m: Links) returns (cmds: seq<Command>, m': Links)
    ensures m' == SortedPaths(m) && cmds == Script(tx, m')
  {
    var keys := SortMapKeys(m);
    ghost var after := SortedPaths(m);
    cmds, m' := WriteTargets(tx, m, keys, after, CommandsOf(tx, after));
    IsScript(tx, after, keys);
  }

  lemma IsScript(tx: Texts, m: Links, keys: seq<string>)
    requires IsSortedKeys(keys, m.Keys)
    ensures Script(tx, m) == Gather(keys, |keys|, CommandsOf(tx, m))
  {
    SortedKeysUnique(keys, SortedKeys(m.Keys), m.Keys);
  }

  ghost predicate TargetNamed(f: string -> seq<Command>, tx: Texts, m: Links, sorted: Links, k: string)
  {
    k in m && k in sorted && sorted[k] == m[k].(paths := Sort(m[k].paths)) && f(k) == TargetCommands(tx, k, sorted[k])
  }

  method WriteSorted(tx: Texts, k: string, m: Links, ghost sorted: Links, ghost f: string -> seq<Command>)
    returns (cfg: Target, cmds: seq<Command>)
    requires k in m && k in sorted && TargetNamed(f, tx, m, sorted, k)
    ensures cfg == sorted[k] && cmds == f(k)
  {
    cfg := m[k].(paths := Sort(m[k].paths));
    cmds := WriteTarget(tx, k, cfg);
  }

  /** The loop over the sources; `sorted` and `f` name what becomes of each and what is
      written for it. */
  method WriteTargets(tx: Texts, m: Links, keys: seq<string>, ghost sorted: Links, ghost f: string -> seq<Command>)
    returns (cmds: seq<Command>, m': Links)
    requires (forall k :: k in keys <==> k in m) && m.Keys == sorted.Keys
    requires forall k {:trigger TargetNamed(f, tx, m, sorted, k)} :: k in m ==> TargetNamed(f, tx, m, sorted, k)
    ensures m' == sorted && cmds == Gather(keys, |keys|, f)
  {
    cmds, m' := [], m;
    for i := 0 to |keys|
      invariant Agree(m', sorted, keys, i)
      invariant cmds == Gather(keys, i, f)
    {
      assert TargetNamed(f, tx, m, sorted, keys[i]);
      var cfg, more := WriteSorted(tx, keys[i], m, sorted, f);
      PutAgrees(m', sorted, keys, i);
      m', cmds := m'[keys[i] := cfg], cmds + more;
    }
    EachSorted(sorted, m', keys);
  }

  ghost predicate Agree(m': Links, sorted: Links, keys: seq<string>, n: nat)
    requires n <= |keys| && forall k :: k in keys <==> k in sorted
  {
    m'.Keys == sorted.Keys && forall j :: 0 <= j < n ==> m'[keys[j]] == sorted[keys[j]]
  }

  lemma PutAgrees(m': Links, sorted: Links, keys: seq<string>, n: nat)
    requires n < |keys| && (forall k :: k in keys <==> k in sorted) && Agree(m', sorted, keys, n)
    ensures Agree(m'[keys[n] := sorted[keys[n]]], sorted, keys, n + 1)
  {
    assert keys[n] in sorted;
  }

  lemma EachSorted(sorted: Links, m': Links, keys: seq<string>)
    requires (forall k :: k in keys <==> k in sorted) && Agree(m', sorted, keys, |keys|)
    ensures m' == sorted
  {
    forall k | k in sorted ensures m'[k] == sorted[k] {
      var j :| 0 <= j < |keys| && keys[j] == k;
    }
  }

  method WriteTarget(tx: Texts, source: string, t: Target) returns (cmds: seq<Command>)
    ensures cmds == TargetCommands(tx, source, t)
  {
    cmds := WriteLinks(tx, source, t, link => LinkCommands(tx, source, t, link));
  }

  ghost predicate LinkNamed(f: string -> seq<Command>, tx: Texts, source: string, t: Target, link: string)
  {
    f(link) == LinkCommands(tx, source, t, link)
  }

  /** The loop over the new paths of a source; `f` names what each of them writes. */
  method WriteLinks(tx: Texts, source: string, t: Target, ghost f: string -> seq<Command>) returns (cmds: seq<Command>)
    requires forall link {:trigger LinkNamed(f, tx, source, t, link)} :: LinkNamed(f, tx, source, t, link)
    ensures cmds == Gather(t.paths, |t.paths|, f)
  {
    cmds := [];
    for i := 0 to |t.paths|
      invariant cmds == Gather(t.paths, i, f)
    {
      assert LinkNamed(f, tx, source, t, t.paths[i]);
      var more := WriteLink(tx, source, t, t.paths[i], f);
      cmds := cmds + more;
    }
  }

  method WriteLink(tx: Texts, source: string, t: Target, link: string, ghost f: string -> seq<Command>)
    returns (cmds: seq<Command>)
    requires LinkNamed(f, tx, source, t, link)
    ensures cmds == f(link)
  {
    cmds := [Mkdir(tx.dir(link))];
    cmds := cmds + [Ln(source, tx.dest(link))];
    if t.user != "" { cmds := cmds + [Chown(t.user, tx.dest(link))]; }
    if t.group != "" { cmds := cmds + [Chgrp(t.group, tx.dest(link))]; }
  }

  lemma EachNormal(before: Links, after: Links, order: seq<string>)
    requires Enumerates(order, before.Keys) && after.Keys == before.Keys
    requires forall j :: 0 <= j < |order| ==> after[order[j]] == NormalTarget(before[order[j]])
    ensures after == Normalized(before)
  {
    forall k | k in before ensures after[k] == NormalTarget(before[k]) {
      var j :| 0 <= j < |order| && order[j] == k;
    }
  }

  // ---------- what normalising leaves ----------

  /** What `normalizeSymlinks` leaves of acceptable links. */
  ghost predicate Normal(m: Links)
  {
    && (forall k :: k in m ==> m[k].path == "" && NoDuplicates(m[k].paths))
    && (forall k, k' :: k in m && k' in m && k != k' ==> Disjoint(m[k].paths, m[k'].paths))
  }

  lemma AcceptableNormal(m: Links)
    requires Acceptable(m)
    ensures Normal(SortedPaths(Normalized(m)))
    ensures Relation(SortedPaths(Normalized(m))) == Relation(m)
  {
    var n, s := Normalized(m), SortedPaths(Normalized(m));
    NormalizedSame(m);
    forall k | k in n ensures n[k].path == "" && GoodEntry(k, n[k]) {}
    SortedNormal(n);
  }

  lemma NoPath(t: Target)
    requires t.path == ""
    ensures NewPaths(t) == t.paths
  {}

  lemma SortedEntry(t: Target, s: Target)
    requires t.path == "" && NoDuplicates(NewPaths(t)) && s == t.(paths := Sort(t.paths))
    ensures NewPaths(t) == t.paths && NewPaths(s) == s.paths && NoDuplicates(s.paths)
      && forall x :: x in s.paths <==> x in t.paths
  {
    NoPath(t);
    NoPath(s);
    SortKeeps(t.paths);
  }

  lemma SortedNormal(n: Links)
    requires Unique(n) && forall k :: k in n ==> n[k].path == ""
    ensures Normal(SortedPaths(n)) && Relation(SortedPaths(n)) == Relation(n)
  {
    var s := SortedPaths(n);
    forall k | k in n
      ensures NewPaths(n[k]) == n[k].paths && NewPaths(s[k]) == s[k].paths && NoDuplicates(s[k].paths)
      ensures forall x :: x in s[k].paths <==> x in n[k].paths
    {
      SortedEntry(n[k], s[k]);
    }
    forall k, k' | k in s && k' in s && k != k' ensures Disjoint(s[k].paths, s[k'].paths) {
      assert Disjoint(NewPaths(n[k]), NewPaths(n[k']));
    }
  }

  lemma SortKeeps(s: seq<string>)
    requires NoDuplicates(s)
    ensures NoDuplicates(Sort(s)) && forall x :: x in Sort(s) <==> x in s
  {
    var keys := set x | x in s;
    SortEnumeration(s, keys);
  }
}
