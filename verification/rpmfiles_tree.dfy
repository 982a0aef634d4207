/**
 What the `%install` section leaves in the build root, and what of it `%files` covers. Copying
 or linking onto a directory puts things into the directory, so where things end up depends
 on the other artifacts. Macros are expanded, in any way: the directories of two kinds may be
 one, or one below the other.
 */
module RpmTrees {
  import opened Order
  import opened Paths
  import opened RpmFiles
  import opened RpmFilesAgree
  import opened Trees

  // ---------- the commands as operations on a tree ----------

  datatype Thing = Copied(source: string) | LinkTo(target: string)

  /** What a component of a path expands to, how text is resolved, and which of the copied
      sources are directories. */
  datatype World = World(expand: string -> Path, path: string -> Path, base: string -> string, tree: string -> bool)

  function OpOf(w: World, c: Command): seq<Op<Thing>>
  {
    match c
    case Mkdir(_, dir) => [MakeDir(w.path(dir))]
    case Copy(source, dest) => [Put(w.path(dest), w.base(source), Copied(source), w.tree(source), true)]
    case Chmod(_, _) => []
    case Symlink(target, dest) => [Put(w.path(dest), w.base(target), LinkTo(target), false, true)]
  }

  function OpsBy(w: World, lines: seq<Command>): seq<Op<Thing>>
  {
    if lines == [] then [] else OpsBy(w, lines[..|lines| - 1]) + OpOf(w, lines[|lines| - 1])
  }

  lemma {:induction false} OpsByAppend(w: World, a: seq<Command>, b: seq<Command>)
    ensures OpsBy(w, a + b) == OpsBy(w, a) + OpsBy(w, b)
  {
    if b == [] {
      assert a + b == a;
    } else {
      assert (a + b)[..|a + b| - 1] == a + b[..|b| - 1];
      OpsByAppend(w, a, b[..|b| - 1]);
    }
  }

  lemma {:induction false} OpsHold(w: World, lines: seq<Command>, op: Op<Thing>)
    ensures op in OpsBy(w, lines) <==> exists i :: 0 <= i < |lines| && op in OpOf(w, lines[i])
  {
    if lines != [] {
      var front := lines[..|lines| - 1];
      OpsHold(w, front, op);
      assert forall i :: 0 <= i < |front| ==> front[i] == lines[i];
    }
  }

  /** The places the commands name. */
  ghost predicate Named(w: World, lines: seq<Command>, p: Path)
  {
    exists c :: c in lines && (c.Copy? || c.Symlink?) && w.path(c.dest) == p
  }

  lemma PutIsNamed(w: World, lines: seq<Command>, p: Path)
    ensures PutAt(OpsBy(w, lines), |OpsBy(w, lines)|, p) <==> Named(w, lines, p)
  {
    var ops := OpsBy(w, lines);
    if PutAt(ops, |ops|, p) {
      var i :| 0 <= i < |ops| && ops[i].Put? && ops[i].at == p;
      OpsHold(w, lines, ops[i]);
      var j :| 0 <= j < |lines| && ops[i] in OpOf(w, lines[j]);
      assert lines[j] in lines;
    }
    if Named(w, lines, p) {
      var c :| c in lines && (c.Copy? || c.Symlink?) && w.path(c.dest) == p;
      var op := OpOf(w, c)[0];
      OpsHold(w, lines, op);
      var i :| 0 <= i < |ops| && ops[i] == op;
    }
  }

  /** What the commands put there is where they name, and nothing else is anywhere. */
  lemma DeliveredLines(w: World, lines: seq<Command>, start: Tree<Thing>, t: Tree<Thing>)
    requires start.items == map[] && DeliveredTo(OpsBy(w, lines), |OpsBy(w, lines)|, start, t)
    ensures forall p :: p in t.items <==> Named(w, lines, p)
    ensures forall c :: c in lines && c.Copy? ==>
      w.path(c.dest) in t.items && t.items[w.path(c.dest)] == Item(Copied(c.source), w.tree(c.source))
    ensures forall c :: c in lines && c.Symlink? ==>
      w.path(c.dest) in t.items && t.items[w.path(c.dest)] == Item(LinkTo(c.target), false)
  {
    var ops := OpsBy(w, lines);
    forall c | c in lines && (c.Copy? || c.Symlink?)
      ensures w.path(c.dest) in t.items && t.items[w.path(c.dest)] == Item(OpOf(w, c)[0].item, OpOf(w, c)[0].tree)
    {
      OpsHold(w, lines, OpOf(w, c)[0]);
      var i :| 0 <= i < |ops| && ops[i] == OpOf(w, c)[0];
    }
    forall p ensures p in t.items <==> Named(w, lines, p) {
      PutIsNamed(w, lines, p);
      if Named(w, lines, p) {
        var c :| c in lines && (c.Copy? || c.Symlink?) && w.path(c.dest) == p;
      }
    }
  }

  lemma MadeLines(w: World, lines: seq<Command>, start: Tree<Thing>, t: Tree<Thing>, c: Command)
    requires DirsTo(OpsBy(w, lines), |OpsBy(w, lines)|, start, t) && c in lines && c.Mkdir?
    ensures w.path(c.dir) in t.dirs
  {
    var ops := OpsBy(w, lines);
    OpsHold(w, lines, MakeDir(w.path(c.dir)));
    var i :| 0 <= i < |ops| && ops[i] == MakeDir(w.path(c.dir));
    assert MadeTo(ops, |ops|, start.dirs, w.path(c.dir));
  }

  // ---------- every thing goes into a directory made for it ----------

  /** Right before anything is put somewhere, its directory is made. */
  ghost predicate Neat(ops: seq<Op<Thing>>)
  {
    forall i :: 0 <= i < |ops| && ops[i].Put? ==> i > 0 && ops[i].at != [] && ops[i - 1] == MakeDir(Parent(ops[i].at))
  }

  lemma NeatAppend(a: seq<Op<Thing>>, b: seq<Op<Thing>>)
    requires Neat(a) && Neat(b)
    ensures Neat(a + b)
  {
    var ops := a + b;
    forall i | 0 <= i < |ops| && ops[i].Put?
      ensures i > 0 && ops[i].at != [] && ops[i - 1] == MakeDir(Parent(ops[i].at))
    {
      if i >= |a| { assert b[i - |a|] == ops[i] && ops[i - 1] == b[i - |a| - 1]; }
    }
  }

  lemma {:induction false} NeatFlatMap<K>(w: World, keys: seq<K>, f: K -> seq<Command>)
    requires forall i :: 0 <= i < |keys| ==> Neat(OpsBy(w, f(keys[i])))
    ensures Neat(OpsBy(w, FlatMap(keys, f)))
  {
    if keys != [] {
      var front, k := keys[..|keys| - 1], keys[|keys| - 1];
      NeatFlatMap(w, front, f);
      OpsByAppend(w, FlatMap(front, f), f(k));
      NeatAppend(OpsBy(w, FlatMap(front, f)), OpsBy(w, f(k)));
    }
  }

  /** No place is at or above a directory that is there or made, and no two things go to one
      place. */
  ghost predicate Uncrowded<X>(ops: seq<Op<X>>, start: Tree<X>)
  {
    && (forall i :: 0 <= i < |ops| && ops[i].Put? ==> Free(ops, start, i))
    && (forall i, j :: 0 <= i < j < |ops| && ops[i].Put? && ops[j].Put? ==> Apart(ops, i, j))
  }

  lemma NeatClear(ops: seq<Op<Thing>>, start: Tree<Thing>)
    requires Neat(ops) && start.items == map[]
    ensures Clear(ops, start) <==> Uncrowded(ops, start)
  {
    forall i | 0 <= i < |ops| && ops[i].Put? ensures Prepared(ops, start, i) {
      assert ops[i - 1].MakeDir? && Parent(ops[i].at) <= ops[i - 1].dir;
    }
  }

  lemma TwoLines(w: World, first: Command, second: Command)
    requires first.Mkdir? && (second.Copy? || second.Symlink?)
    requires w.path(second.dest) != [] && Parent(w.path(second.dest)) == w.path(first.dir)
    ensures Neat(OpsBy(w, [first, second]))
  {
    assert [first, second] == [first] + [second];
    OpsByAppend(w, [first], [second]);
    assert [first][..0] == [] && [second][..0] == [];
    assert OpsBy(w, [first]) == OpOf(w, first) && OpsBy(w, [second]) == OpOf(w, second);
  }

  lemma NeatCopy(w: World, dir: string, source: string, target: string, perm: nat)
    requires w.path(target) != [] && Parent(w.path(target)) == w.path(dir)
    ensures Neat(OpsBy(w, [Mkdir(0, dir), Copy(source, target)] + (if perm != 0 then [Chmod(perm, target)] else [])))
  {
    var chmod := if perm != 0 then [Chmod(perm, target)] else [];
    TwoLines(w, Mkdir(0, dir), Copy(source, target));
    OpsByAppend(w, [Mkdir(0, dir), Copy(source, target)], chmod);
    assert perm != 0 ==> chmod[..0] == [];
    assert OpsBy(w, chmod) == [];
  }

  // ---------- macros ----------

  /** A path with its macros expanded. */
  function Expand(expand: string -> Path, p: Path): Path
  {
    if p == [] then [] else Expand(expand, p[..|p| - 1]) + expand(p[|p| - 1])
  }

  lemma ExpandName(expand: string -> Path, p: Path, c: string)
    ensures Expand(expand, p + [c]) == Expand(expand, p) + expand(c)
  {
    assert (p + [c])[..|p|] == p;
  }

  lemma {:induction false} ExpandBelow(expand: string -> Path, dir: string, p: Path)
    ensures Expand(expand, [dir] + p) == expand(dir) + Expand(expand, p)
  {
    if p == [] {
      assert [dir] + p == [] + [dir];
      ExpandName(expand, [], dir);
    } else {
      var front, c := p[..|p| - 1], p[|p| - 1];
      assert [dir] + p == ([dir] + front) + [c];
      ExpandName(expand, [dir] + front, c);
      ExpandBelow(expand, dir, front);
    }
  }

  /** A component with a macro stands for at least one name, any other for itself. */
  ghost predicate Stands(expand: string -> Path, c: string)
  {
    if '%' in c then expand(c) != [] && forall i :: 0 <= i < |expand(c)| ==> PlainComponent(expand(c)[i])
    else expand(c) == [c]
  }

  /** Paths are resolved as cleaned components, with their macros expanded. */
  ghost predicate Resolves(w: World)
  {
    && (forall c {:trigger Stands(w.expand, c)} :: Stands(w.expand, c))
    && (forall p {:trigger w.path(p)} :: w.path(p) == Expand(w.expand, Components(p)))
  }

  /** A name that is one component and no macro. */
  predicate PlainName(c: string)
  {
    PlainComponent(c) && '%' !in c && '*' !in c
  }

  lemma NameStands(w: World, dir: Path, c: string)
    requires Resolves(w) && PlainName(c)
    ensures Expand(w.expand, dir + [c]) == Expand(w.expand, dir) + [c]
    ensures Parent(Expand(w.expand, dir + [c])) == Expand(w.expand, dir)
  {
    assert Stands(w.expand, c);
    ExpandName(w.expand, dir, c);
  }

  lemma CopyNeat(w: World, root: string, m: ArtifactMap, p: string)
    requires Resolves(w) && root != "" && p in m && PlainName(m[p].ResolveName(p))
    ensures Neat(OpsBy(w, CopyOne(root, m)(p)))
  {
    var dir, file := Join([root, m[p].subPath]), m[p].ResolveName(p);
    CopyOneLines(root, m, p);
    JoinNonEmpty(root, m[p].subPath);
    CopyPlace(w, dir, file);
    NeatCopy(w, dir, p, Join([dir, file]), m[p].perm);
  }

  lemma CopyPlace(w: World, dir: string, file: string)
    requires Resolves(w) && dir != "" && PlainName(file)
    ensures w.path(Join([dir, file])) != [] && Parent(w.path(Join([dir, file]))) == w.path(dir)
  {
    JoinName(dir, file);
    NameStands(w, Components(dir), file);
  }

  /** The link ends in a name and does not climb out. */
  ghost predicate PlainLink(l: Link)
  {
    Below([l.dest]) && exists c :: PlainName(c) && l.dest == UpToSlash(l.dest) + c
  }

  lemma LinkNeat(w: World, l: Link)
    requires Resolves(w) && PlainLink(l)
    ensures Neat(OpsBy(w, LinkOne(l)))
  {
    var c := LinkName(l);
    LinkPlace(l.dest);
    LinkAt(w, Under(l.dest), Dir(Join([Buildroot, l.dest])), Components(Under(l.dest)), c);
    TwoLines(w, Mkdir(0, Dir(Join([Buildroot, l.dest]))), Symlink(l.source, Under(l.dest)));
  }

  lemma LinkAt(w: World, text: string, dir: string, at: Path, c: string)
    requires Resolves(w) && PlainName(c) && at != [] && at[|at| - 1] == c
    requires Components(text) == at && Components(dir) == Parent(at)
    ensures w.path(text) != [] && Parent(w.path(text)) == w.path(dir)
  {
    assert at == Parent(at) + [c];
    NameStands(w, Parent(at), c);
  }

  /** The name a link ends in is the last of its place. */
  lemma LinkName(l: Link) returns (c: string)
    requires PlainLink(l)
    ensures PlainName(c) && Inside(l.dest) != [] && Inside(l.dest)[|Inside(l.dest)| - 1] == c
    ensures Components(Under(l.dest)) == [Buildroot] + Inside(l.dest)
  {
    c :| PlainName(c) && l.dest == UpToSlash(l.dest) + c;
    var last := LastElement(l.dest);
    assert last == l.dest[|UpToSlash(l.dest)|..] == c;
    BuildrootPlain();
    DestBelow(Buildroot, l.dest);
    SplitEachOne(l.dest);
  }

  lemma LinkPlace(dest: string)
    requires Below([dest])
    ensures Components(Under(dest)) != [] && Parent(Components(Under(dest))) == Components(Dir(Join([Buildroot, dest])))
  {
    BuildrootPlain();
    DestBelow(Buildroot, dest);
    SplitEachOne(dest);
    PlainInside(dest);
    LinkPlaceAt(Buildroot, dest, Inside(dest));
  }

  lemma LinkPlaceAt(root: string, dest: string, rel: Path)
    requires PlainComponent(root) && StaysBelow(Split(dest)) && rel == Inside(dest)
    requires forall i :: 0 <= i < |rel| ==> PlainComponent(rel[i])
    ensures Components(Dir(Join([root, dest]))) == Parent([root] + rel)
  {
    PlainRoot(root);
    JoinInside(root, dest);
    JoinText(root, dest, [root] + rel);
    NamesDir([root] + rel, Parent([root] + rel), ([root] + rel)[|rel|], Join([root, dest]));
  }

  lemma NamesDir(cs: Path, front: Path, c: string, text: string)
    requires cs != [] && front == Parent(cs) && c == cs[|cs| - 1]
    requires text == Unsplit(cs) && forall i :: 0 <= i < |cs| ==> PlainComponent(cs[i])
    ensures Components(Dir(text)) == front
  {
    LastOf(cs, front, c);
    DirOfNames(front, c, cs, text);
  }

  lemma LastOf(cs: Path, front: Path, c: string)
    requires cs != [] && front == Parent(cs) && c == cs[|cs| - 1]
    requires forall i :: 0 <= i < |cs| ==> PlainComponent(cs[i])
    ensures cs == front + [c] && PlainComponent(c) && forall i :: 0 <= i < |front| ==> PlainComponent(front[i])
  {}

  lemma PlainRoot(root: string)
    requires PlainComponent(root)
    ensures !Rooted(root) && Components(root) == [root]
  {
    OneRoot(root);
    assert SplitEach([]) == [];
  }

  lemma JoinText(root: string, p: string, cs: Path)
    requires root != "" && !Rooted(root) && cs != [] && Components(Join([root, p])) == cs
    ensures Join([root, p]) == Unsplit(cs)
  {
    var t := Unsplit([root, p]);
    assert Join([root, p]) == Clean(t);
    UnsplitRooted([root, p]);
    CleanComponents(t);
  }

  // ---------- the whole section ----------

  /** Every file is named by a plain name, and every link ends in one. */
  ghost predicate PlainNames(part: InstallPart)
  {
    match part
    case Copies(root, m) => root != "" && forall p :: p in m ==> PlainName(m[p].ResolveName(p))
    case Makes(_, _) => true
    case MakesLinks(links) => forall l :: l in links ==> PlainLink(l)
  }

  lemma PartNeat(w: World, part: InstallPart)
    requires Resolves(w) && PlainNames(part)
    ensures Neat(OpsBy(w, InstallLinesOf(part)))
  {
    match part
    case Copies(root, m) => CopiesNeat(w, root, m);
    case Makes(root, dirs) => MakesNeat(w, root, dirs);
    case MakesLinks(links) => LinksNeat(w, links);
  }

  lemma CopiesNeat(w: World, root: string, m: ArtifactMap)
    requires Resolves(w) && root != "" && forall p :: p in m ==> PlainName(m[p].ResolveName(p))
    ensures Neat(OpsBy(w, CopyAll(root, m)))
  {
    var keys := SortedKeys(m.Keys);
    forall i | 0 <= i < |keys| ensures Neat(OpsBy(w, CopyOne(root, m)(keys[i]))) { CopyNeat(w, root, m, keys[i]); }
    NeatFlatMap(w, keys, CopyOne(root, m));
  }

  lemma MakesNeat(w: World, root: string, dirs: map<string, nat>)
    ensures Neat(OpsBy(w, MkdirAll(root, dirs)))
  {
    var keys := SortedKeys(dirs.Keys);
    forall i | 0 <= i < |keys| ensures Neat(OpsBy(w, MkdirOne(root, dirs)(keys[i]))) {
      OneMkdir(w, dirs[keys[i]], Join([root, keys[i]]));
    }
    NeatFlatMap(w, keys, MkdirOne(root, dirs));
  }

  lemma OneMkdir(w: World, mode: nat, dir: string)
    ensures Neat(OpsBy(w, [Mkdir(mode, dir)]))
  {
    assert [Mkdir(mode, dir)][..0] == [];
  }

  lemma LinksNeat(w: World, links: seq<Link>)
    requires Resolves(w) && forall l :: l in links ==> PlainLink(l)
    ensures Neat(OpsBy(w, LinkAll(links)))
  {
    forall i | 0 <= i < |links| ensures Neat(OpsBy(w, LinkOne(links[i]))) { LinkNeat(w, links[i]); }
    NeatFlatMap(w, links, LinkOne);
  }

  ghost predicate PlainPackage(pkg: string, a: Artifacts)
  {
    TamePackage(pkg, a) && forall part :: part in InstallParts(pkg, a) ==> PlainNames(part)
  }

  lemma SectionNeat(w: World, pkg: string, a: Artifacts)
    requires Resolves(w) && PlainPackage(pkg, a)
    ensures Neat(OpsBy(w, InstallLines(pkg, a)))
  {
    var parts := InstallParts(pkg, a);
    forall i | 0 <= i < |parts| ensures Neat(OpsBy(w, InstallLinesOf(parts[i]))) { PartNeat(w, parts[i]); }
    NeatFlatMap(w, parts, InstallLinesOf);
  }

  /** The build root is made and empty to begin with. */
  ghost function Begin(w: World): Tree<Thing>
  {
    Tree(Prefixes(w.expand(Buildroot)), map[])
  }

  lemma BeginSettled(w: World)
    ensures Settled(Begin(w))
  {
    InPrefixes(w.expand(Buildroot), []);
  }

  ghost function ExpandAll(expand: string -> Path, paths: set<Path>): set<Path>
  {
    set p | p in paths :: Expand(expand, p)
  }

  /** The section has put every artifact and link where `%files` looks for it, and nothing
      anywhere else, and has made every directory `%files` lists. */
  ghost predicate Installed(w: World, pkg: string, a: Artifacts, t: Tree<Thing>)
  {
    && t.items.Keys ==
      ExpandAll(w.expand, UnderBuildroot(Listed(FileLines(pkg, a)) + GlobPaths(Manpages(a.manpages))))
    && (forall c :: c in InstallLines(pkg, a) && c.Copy? ==>
          w.path(c.dest) in t.items && t.items[w.path(c.dest)] == Item(Copied(c.source), w.tree(c.source)))
    && (forall c :: c in InstallLines(pkg, a) && c.Symlink? ==>
          w.path(c.dest) in t.items && t.items[w.path(c.dest)] == Item(LinkTo(c.target), false))
    && (forall d :: Directory(d) in FileLines(pkg, a) ==> Expand(w.expand, [Buildroot] + Components(d)) in t.dirs)
  }

  lemma CreatedIsNamed(w: World, lines: seq<Command>)
    requires Resolves(w)
    ensures forall p :: p in ExpandAll(w.expand, Created(lines)) <==> Named(w, lines, p)
  {
    forall p ensures p in ExpandAll(w.expand, Created(lines)) <==> Named(w, lines, p) {
      if p in ExpandAll(w.expand, Created(lines)) {
        var q :| q in Created(lines) && p == Expand(w.expand, q);
        var c :| c in lines && (c.Copy? || c.Symlink?) && Components(c.dest) == q;
        assert w.path(c.dest) == p;
      }
      if Named(w, lines, p) {
        var c :| c in lines && (c.Copy? || c.Symlink?) && w.path(c.dest) == p;
        assert Components(c.dest) in Created(lines);
      }
    }
  }

  lemma LinesInstalled(w: World, lines: seq<Command>, entries: seq<Entry>, globbed: set<Path>, t: Tree<Thing>)
    requires Resolves(w) && Agree(lines, entries, globbed)
    requires DeliveredTo(OpsBy(w, lines), |OpsBy(w, lines)|, Begin(w), t)
    requires DirsTo(OpsBy(w, lines), |OpsBy(w, lines)|, Begin(w), t)
    ensures t.items.Keys == ExpandAll(w.expand, UnderBuildroot(Listed(entries) + globbed))
    ensures forall d :: Directory(d) in entries ==> Expand(w.expand, [Buildroot] + Components(d)) in t.dirs
  {
    DeliveredLines(w, lines, Begin(w), t);
    CreatedIsNamed(w, lines);
    assert t.items.Keys == ExpandAll(w.expand, Created(lines));
    forall d | Directory(d) in entries ensures Expand(w.expand, [Buildroot] + Components(d)) in t.dirs {
      var c :| c in lines && c.Mkdir? && Components(c.dir) == [Buildroot] + Components(d);
      MadeLines(w, lines, Begin(w), t, c);
    }
  }

  lemma PlainWhenFiles(w: World, lines: seq<Command>)
    requires forall s :: !w.tree(s)
    ensures Plain(OpsBy(w, lines))
  {
    var ops := OpsBy(w, lines);
    forall i | 0 <= i < |ops| && ops[i].Put? ensures !ops[i].tree {
      OpsHold(w, lines, ops[i]);
      var j :| 0 <= j < |lines| && ops[i] in OpOf(w, lines[j]);
    }
  }

  /** For every package of plain names that do not climb, and every expansion of the macros:
      when no expanded place equals another or is at or above a directory that is made,
      running `%install` puts every file and link exactly where `%files` looks for it. When
      none of the artifacts is a directory, that condition is also necessary. */
  lemma InstallDelivers(w: World, pkg: string, a: Artifacts)
    requires Resolves(w) && PlainPackage(pkg, a)
    ensures var ops, begin := OpsBy(w, InstallLines(pkg, a)), Begin(w);
      && (Uncrowded(ops, begin) ==> Run(ops, |ops|, begin).Done? && Installed(w, pkg, a, Run(ops, |ops|, begin).tree))
      && ((forall s :: !w.tree(s)) ==> (Delivered(ops, begin) <==> Uncrowded(ops, begin)))
  {
    var lines := InstallLines(pkg, a);
    var ops, begin := OpsBy(w, lines), Begin(w);
    SectionNeat(w, pkg, a);
    NeatClear(ops, begin);
    BeginSettled(w);
    if forall s :: !w.tree(s) {
      PlainWhenFiles(w, lines);
      DeliversExactly(ops, begin);
    }
    if Uncrowded(ops, begin) {
      ClearDelivers(ops, |ops|, begin);
      InstallIsFiles(pkg, a);
      LinesInstalled(w, lines, FileLines(pkg, a), GlobPaths(Manpages(a.manpages)), Run(ops, |ops|, begin).tree);
      DeliveredLines(w, lines, begin, Run(ops, |ops|, begin).tree);
    }
  }

  // ---------- what `%files` covers ----------

  predicate Hidden(c: string)
  {
    c != "" && c[0] == '.'
  }

  /** The manpage glob takes two names below the manual directory, neither of them hidden, and
      all that is below a directory it finds. */
  predicate MatchesManGlob(man: Path, q: Path)
  {
    |q| >= |man| + 2 && man <= q && !Hidden(q[|man|]) && !Hidden(q[|man| + 1])
  }

  ghost predicate Covers(w: World, e: Entry, q: Path)
  {
    || (e.File? && Expand(w.expand, Components(e.path)) <= q)
    || (e == ManGlob && MatchesManGlob(w.expand(ManDir), q))
  }

  ghost predicate Covered(w: World, entries: seq<Entry>, q: Path)
  {
    exists e :: e in entries && Covers(w, e, q)
  }

  ghost predicate ListedAbove(w: World, entries: seq<Entry>, q: Path)
  {
    exists p :: p in Listed(entries) && Expand(w.expand, p) <= q
  }

  lemma ManpagesAny(m: ArtifactMap, q: Path)
    requires q in GlobPaths(Manpages(m))
    ensures |m| > 0
  {
    var keys := SortedKeys(m.Keys);
    var e :| e in ListAll("", [ManDir], m) && e.File?;
    InFlatMap(keys, ListOne("", [ManDir], m), e);
  }

  lemma GlobListed(pkg: string, a: Artifacts)
    ensures ManGlob in FileLines(pkg, a) <== |a.manpages| > 0
  {
    if |a.manpages| > 0 {
      assert FileParts(pkg, a)[1] == Globs(a.manpages);
      InFlatMap(FileParts(pkg, a), FileLinesOf, ManGlob);
      assert ManGlob in FileLinesOf(Globs(a.manpages));
    }
  }

  /** Of what `%install` leaves in the build root, `%files` misses exactly the manpages that do
      not match the glob, unless something it lists is at or above them. */
  lemma CoveredExactly(w: World, pkg: string, a: Artifacts, t: Tree<Thing>, q: Path)
    requires Resolves(w) && Installed(w, pkg, a, t) && w.expand(Buildroot) + q in t.items
    ensures !Covered(w, FileLines(pkg, a), q) <==>
      && q in ExpandAll(w.expand, GlobPaths(Manpages(a.manpages)))
      && !MatchesManGlob(w.expand(ManDir), q)
      && !ListedAbove(w, FileLines(pkg, a), q)
  {
    var entries, globbed := FileLines(pkg, a), GlobPaths(Manpages(a.manpages));
    ItemFrom(w, Listed(entries) + globbed, q);
    if q in ExpandAll(w.expand, globbed) {
      var r :| r in globbed && q == Expand(w.expand, r);
      ManpagesAny(a.manpages, r);
      GlobListed(pkg, a);
    }
    CoveredBy(w, entries, globbed, q);
  }

  lemma ItemFrom(w: World, paths: set<Path>, q: Path)
    requires w.expand(Buildroot) + q in ExpandAll(w.expand, UnderBuildroot(paths))
    ensures q in ExpandAll(w.expand, paths)
  {
    var u :| u in UnderBuildroot(paths) && Expand(w.expand, u) == w.expand(Buildroot) + q;
    var r :| r in paths && u == [Buildroot] + r;
    ExpandBelow(w.expand, Buildroot, r);
    var root := w.expand(Buildroot);
    assert (root + Expand(w.expand, r))[|root|..] == Expand(w.expand, r) && (root + q)[|root|..] == q;
  }

  lemma CoveredBy(w: World, entries: seq<Entry>, globbed: set<Path>, q: Path)
    requires q in ExpandAll(w.expand, Listed(entries) + globbed)
    requires q in ExpandAll(w.expand, globbed) ==> ManGlob in entries
    ensures !Covered(w, entries, q) <==>
      q in ExpandAll(w.expand, globbed) && !MatchesManGlob(w.expand(ManDir), q) && !ListedAbove(w, entries, q)
  {
    if Covered(w, entries, q) {
      var e :| e in entries && Covers(w, e, q);
      if e.File? { assert Components(e.path) in Listed(entries); }
    }
    if ListedAbove(w, entries, q) {
      var p :| p in Listed(entries) && Expand(w.expand, p) <= q;
      var e :| e in entries && e.File? && Components(e.path) == p;
      assert Covers(w, e, q);
    }
    if q in ExpandAll(w.expand, globbed) && MatchesManGlob(w.expand(ManDir), q) { assert Covers(w, ManGlob, q); }
    if q !in ExpandAll(w.expand, globbed) {
      var r :| r in Listed(entries) + globbed && Expand(w.expand, r) == q;
      assert Expand(w.expand, r) <= q;
      assert ListedAbove(w, entries, q);
    }
  }

  /** The place of a manpage matches when its sub-path and name make at least two names, the
      first two of them visible. */
  lemma ManpageMatches(w: World, m: ArtifactMap, p: string)
    requires Tame([], m) && p in m
    ensures var rel := Relative([] + [m[p].subPath, m[p].ResolveName(p)]);
      var q := Expand(w.expand, [ManDir] + rel);
      var names := Expand(w.expand, rel);
      && [ManDir] + rel in GlobPaths(Manpages(m))
      && (MatchesManGlob(w.expand(ManDir), q) <==> |names| >= 2 && !Hidden(names[0]) && !Hidden(names[1]))
  {
    ManDirPlain();
    PlaceListed(ManDir, m, p);
    ExpandBelow(w.expand, ManDir, Relative([] + [m[p].subPath, m[p].ResolveName(p)]));
  }

  lemma PlaceListed(dir: string, m: ArtifactMap, p: string)
    requires PlainComponent(dir) && Tame([], m) && p in m
    ensures [dir] + Relative([] + [m[p].subPath, m[p].ResolveName(p)]) in Listed(ListAll("", [dir], m))
  {
    OneRoot(dir);
    ListsOne("", dir, dir, [], m, p);
    assert [dir] + [] == [dir];
    ListedByKey(SortedKeys(m.Keys), ListOne("", [dir], m), p, PlaceOf(dir, [], m)(p));
  }

  lemma ListedByKey(keys: seq<string>, f: string -> seq<Entry>, p: string, q: Path)
    requires p in keys && Listed(f(p)) == {q}
    ensures q in Listed(FlatMap(keys, f))
  {
    assert q in Listed(f(p));
    var e :| e in f(p) && e.File? && Components(e.path) == q;
    InFlatMap(keys, f, e);
  }

  // ---------- where it goes wrong ----------

  lemma CrowdedLines(w: World, lines: seq<Command>, start: Tree<Thing>, c: Command, d: Command)
    requires c in lines && d in lines && c.Mkdir? && d.Copy? && w.path(c.dir) == w.path(d.dest)
    ensures !Uncrowded(OpsBy(w, lines), start)
  {
    var ops := OpsBy(w, lines);
    OpsHold(w, lines, OpOf(w, c)[0]);
    OpsHold(w, lines, OpOf(w, d)[0]);
    var i :| 0 <= i < |ops| && ops[i] == OpOf(w, d)[0];
    var j :| 0 <= j < |ops| && ops[j] == OpOf(w, c)[0];
    assert ops[i].at <= ops[j].dir;
    assert !Free(ops, start, i);
  }

  lemma SharedPlace(w: World, lines: seq<Command>, start: Tree<Thing>, c: Command, d: Command)
    requires c in lines && d in lines && c.Copy? && d.Symlink? && w.path(c.dest) == w.path(d.dest)
    ensures !Uncrowded(OpsBy(w, lines), start)
  {
    var ops := OpsBy(w, lines);
    OpsHold(w, lines, OpOf(w, c)[0]);
    OpsHold(w, lines, OpOf(w, d)[0]);
    var i :| 0 <= i < |ops| && ops[i] == OpOf(w, c)[0];
    var j :| 0 <= j < |ops| && ops[j] == OpOf(w, d)[0];
    assert if i < j then !Apart(ops, i, j) else !Apart(ops, j, i);
  }

  lemma DataDirLines(pkg: string, a: Artifacts, c: Command)
    requires c in CopyAll(Under(DataDir), a.dataDirs)
    ensures c in InstallLines(pkg, a)
  {
    FifthPart(pkg, a);
    CopiesLines(Under(DataDir), a.dataDirs);
    InPart(InstallParts(pkg, a), 4, c);
  }

  lemma FifthPart(pkg: string, a: Artifacts)
    ensures |InstallParts(pkg, a)| > 4 && InstallParts(pkg, a)[4] == Copies(Under(DataDir), a.dataDirs)
  {}

  lemma BinaryLines(pkg: string, a: Artifacts, c: Command)
    requires c in CopyAll(Under(BinDir), a.binaries)
    ensures c in InstallLines(pkg, a)
  {
    FirstPart(pkg, a);
    CopiesLines(Under(BinDir), a.binaries);
    InPart(InstallParts(pkg, a), 0, c);
  }

  lemma FirstPart(pkg: string, a: Artifacts)
    ensures |InstallParts(pkg, a)| > 0 && InstallParts(pkg, a)[0] == Copies(Under(BinDir), a.binaries)
  {}

  lemma LinkLines(pkg: string, a: Artifacts, l: Link)
    requires l in a.links
    ensures Symlink(l.source, Under(l.dest)) in InstallLines(pkg, a)
  {
    var c := Symlink(l.source, Under(l.dest));
    LinksPart(pkg, a);
    assert LinkOne(l)[1] == c;
    InFlatMap(a.links, LinkOne, c);
    LinksLines(a.links, c);
    InPart(InstallParts(pkg, a), 12, c);
  }

  lemma LinksLines(links: seq<Link>, c: Command)
    requires c in FlatMap(links, LinkOne)
    ensures c in InstallLinesOf(MakesLinks(links))
  {}

  lemma LinksPart(pkg: string, a: Artifacts)
    ensures |InstallParts(pkg, a)| > 12 && InstallParts(pkg, a)[12] == MakesLinks(a.links)
  {}

  lemma CopiesLines(root: string, m: ArtifactMap)
    ensures InstallLinesOf(Copies(root, m)) == CopyAll(root, m)
  {}

  lemma InPart(parts: seq<InstallPart>, i: nat, c: Command)
    requires i < |parts| && c in InstallLinesOf(parts[i])
    ensures c in FlatMap(parts, InstallLinesOf)
  {
    InFlatMap(parts, InstallLinesOf, c);
  }

  lemma CopiesIt(root: string, m: ArtifactMap, p: string)
    requires p in m && '*' !in m[p].ResolveName(p)
    ensures Copy(p, Join([Join([root, m[p].subPath]), m[p].ResolveName(p)])) in CopyAll(root, m)
  {
    CopyOneLines(root, m, p);
    CopyIsIn(root, m, p, Join([root, m[p].subPath]), Join([Join([root, m[p].subPath]), m[p].ResolveName(p)]));
  }

  lemma CopyIsIn(root: string, m: ArtifactMap, p: string, dir: string, target: string)
    requires p in m
    requires CopyOne(root, m)(p) == [Mkdir(0, dir), Copy(p, target)]
      + (if m[p].perm != 0 then [Chmod(m[p].perm, target)] else [])
    ensures Copy(p, target) in CopyAll(root, m)
  {
    assert CopyOne(root, m)(p)[1] == Copy(p, target);
    InFlatMap(SortedKeys(m.Keys), CopyOne(root, m), Copy(p, target));
  }

  /** An artifact that is to be where another one has its sub-path lands inside that
      directory instead. */
  lemma CrowdedSubPath(w: World, pkg: string, a: Artifacts, start: Tree<Thing>, p: string, q: string)
    requires Resolves(w) && p in a.dataDirs && q in a.dataDirs && Tame([], a.dataDirs)
    requires Relative([a.dataDirs[p].subPath]) == Relative([] + [a.dataDirs[q].subPath, a.dataDirs[q].ResolveName(q)])
    ensures !Uncrowded(OpsBy(w, InstallLines(pkg, a)), start)
  {
    var m := a.dataDirs;
    var root := Under(DataDir);
    var c, d := Mkdir(0, Join([root, m[p].subPath])), Copy(q, Join([Join([root, m[q].subPath]), m[q].ResolveName(q)]));
    MakesDir(root, m, p);
    CopiesIt(root, m, q);
    DataDirLines(pkg, a, c);
    DataDirLines(pkg, a, d);
    SamePlaces(root, DataDir, m[p].subPath, m[p].ResolveName(p), m[q].subPath, m[q].ResolveName(q));
    CrowdedLines(w, InstallLines(pkg, a), start, c, d);
  }

  /** A link whose place is that of a binary, once the macro is expanded, takes its place. */
  lemma LinkOverBinary(w: World, pkg: string, a: Artifacts, start: Tree<Thing>, p: string, l: Link)
    requires Resolves(w) && p in a.binaries && Tame([], a.binaries) && l in a.links && Below([l.dest])
    requires var m := a.binaries;
      Expand(w.expand, [BinDir] + Relative([] + [m[p].subPath, m[p].ResolveName(p)]))
        == Expand(w.expand, Relative([l.dest]))
    ensures !Uncrowded(OpsBy(w, InstallLines(pkg, a)), start)
  {
    var m, root := a.binaries, Under(BinDir);
    var c, d := Copy(p, Join([Join([root, m[p].subPath]), m[p].ResolveName(p)])), Symlink(l.source, Under(l.dest));
    CopiesIt(root, m, p);
    BinaryLines(pkg, a, c);
    LinkLines(pkg, a, l);
    BinaryPlace(w, m[p].subPath, m[p].ResolveName(p), c.dest);
    DestPlace(w, l.dest);
    SharedPlace(w, InstallLines(pkg, a), start, c, d);
  }

  lemma BinaryPlace(w: World, sub: string, file: string, text: string)
    requires Resolves(w) && Below([] + [sub, file]) && text == Join([Join([Under(BinDir), sub]), file])
    ensures w.path(text) == w.expand(Buildroot) + Expand(w.expand, [BinDir] + Relative([] + [sub, file]))
  {
    var rel := Relative([] + [sub, file]);
    BuildrootPlain();
    BinDirPlain();
    TwoRoot(Buildroot, BinDir);
    JoinBelow(Under(BinDir), [Buildroot, BinDir], [], sub, file);
    BelowTwo(w, Buildroot, BinDir, rel, text);
  }

  lemma BelowTwo(w: World, root: string, dir: string, rel: Path, text: string)
    requires Resolves(w) && Components(text) == [root, dir] + rel
    ensures w.path(text) == w.expand(root) + Expand(w.expand, [dir] + rel)
  {
    assert [root, dir] + rel == [root] + ([dir] + rel);
    ExpandBelow(w.expand, root, [dir] + rel);
  }

  lemma DestPlace(w: World, dest: string)
    requires Resolves(w) && Below([dest])
    ensures w.path(Under(dest)) == w.expand(Buildroot) + Expand(w.expand, Relative([dest]))
  {
    BuildrootPlain();
    DestBelow(Buildroot, dest);
    ExpandBelow(w.expand, Buildroot, Relative([dest]));
  }

  lemma BinDirPlain()
    ensures PlainComponent(BinDir)
  {}

  lemma SamePlaces(root: string, dir: string, sub: string, file: string, sub': string, file': string)
    requires root == Under(dir) && dir == DataDir && Below([] + [sub, file]) && Below([] + [sub', file'])
    requires Relative([sub]) == Relative([] + [sub', file'])
    ensures Components(Join([root, sub])) == Components(Join([Join([root, sub']), file']))
  {
    DataDirPlain();
    BuildrootPlain();
    TwoRoot(Buildroot, dir);
    assert [] + [sub, file] == [sub] + [file];
    BelowPrefix([sub], [file]);
    JoinOneBelow(root, [Buildroot, dir], sub);
    JoinBelow(root, [Buildroot, dir], [], sub', file');
  }

  lemma DataDirPlain()
    ensures PlainComponent(DataDir)
  {}

  function Only(binaries: ArtifactMap, dataDirs: ArtifactMap, links: seq<Link>): Artifacts
  {
    Artifacts(binaries, map[], map[], map[], dataDirs, map[], map[], map[], map[], map[], map[], map[], links, map[])
  }

  /** Such as `x` in the sub-path `d`, beside an artifact called `d`. */
  lemma CrowdedExample(w: World, pkg: string, m: ArtifactMap, a: Artifacts)
    requires Resolves(w) && m == map["a/x" := ArtifactConfig("d", "x", 0), "b/d" := ArtifactConfig("", "d", 0)]
    requires a == Only(map[], m, [])
    ensures PlainPackage(pkg, a) && !Uncrowded(OpsBy(w, InstallLines(pkg, a)), Begin(w))
  {
    ExampleTame(m);
    OnlyPlain(pkg, map[], m, []);
    CrowdedSubPath(w, pkg, a, Begin(w), "a/x", "b/d");
  }

  /** Such as the binary `foo` and a link to be at `/usr/bin/foo`, which is where it is. */
  lemma LinkOverExample(w: World, pkg: string, m: ArtifactMap, l: Link, a: Artifacts)
    requires Resolves(w) && w.expand(BinDir) == ["usr", "bin"]
    requires m == map["foo" := ArtifactConfig("", "foo", 0)] && l.dest == "/usr/bin/foo" && a == Only(m, map[], [l])
    ensures PlainPackage(pkg, a) && !Uncrowded(OpsBy(w, InstallLines(pkg, a)), Begin(w))
  {
    BinaryTame(m);
    UsrLink(l);
    OnlyPlain(pkg, m, map[], [l]);
    UsrPlace(w);
    LinkOverBinary(w, pkg, a, Begin(w), "foo", l);
  }

  lemma BinaryTame(m: ArtifactMap)
    requires m == map["foo" := ArtifactConfig("", "foo", 0)]
    ensures Tame([], m) && PlainName("foo") && Relative([] + [m["foo"].subPath, m["foo"].ResolveName("foo")]) == ["foo"]
  {
    TwoNames("", "foo");
  }

  lemma UsrLink(l: Link)
    requires l.dest == "/usr/bin/foo"
    ensures PlainLink(l) && Relative([l.dest]) == ["usr", "bin", "foo"]
  {
    ThreeNames("usr", "bin", "foo", l.dest);
  }

  lemma ThreeNames(a: string, b: string, c: string, text: string)
    requires PlainComponent(a) && PlainComponent(b) && PlainName(c) && text == "/" + a + "/" + b + "/" + c
    ensures Below([text]) && Relative([text]) == [a, b, c] && text == UpToSlash(text) + c
  {
    SplitEachOne(text);
    SplitPlain(a);
    SplitPlain(b);
    SplitPlain(c);
    SplitPlain("");
    assert text == "" + "/" + (a + "/" + (b + "/" + c));
    SplitConcat(b, c);
    SplitConcat(a, b + "/" + c);
    SplitConcat("", a + "/" + (b + "/" + c));
    assert Split(text) == ["", a, b, c];
    PushThree(a, b, c);
    var u := "/" + a + "/" + b + "/";
    assert text == u + c;
    UpToName(u, c);
  }

  lemma PushThree(a: string, b: string, c: string)
    requires PlainComponent(a) && PlainComponent(b) && PlainComponent(c)
    ensures PushAll(false, [], ["", a, b, c]) == [a, b, c] && StaysBelow(["", a, b, c])
  {
    var cs := ["", a, b, c];
    assert cs[1..] == [a, b, c] && [a, b, c][1..] == [b, c] && [b, c][1..] == [c] && [c][1..] == [];
    assert Normal(false, [a, b, c]) && [] + [a, b, c] == [a, b, c];
    PushAllIdentity(false, [], [a, b, c]);
    assert Push(false, [], "") == [];
  }

  lemma {:induction false} UpToName(u: string, c: string)
    requires u != "" && u[|u| - 1] == '/' && '/' !in c
    ensures UpToSlash(u + c) == u
  {
    if c == "" {
      assert u + c == u;
    } else {
      assert (u + c)[..|u + c| - 1] == u + c[..|c| - 1];
      UpToName(u, c[..|c| - 1]);
    }
  }

  lemma UsrPlace(w: World)
    requires Resolves(w) && w.expand(BinDir) == ["usr", "bin"]
    ensures Expand(w.expand, [BinDir] + ["foo"]) == Expand(w.expand, ["usr", "bin", "foo"])
  {
    assert Stands(w.expand, "usr") && Stands(w.expand, "bin") && Stands(w.expand, "foo");
    DirExpands(w.expand, BinDir, "usr", "bin", "foo");
  }

  lemma DirExpands(expand: string -> Path, dir: string, a: string, b: string, c: string)
    requires expand(dir) == [a, b] && expand(a) == [a] && expand(b) == [b] && expand(c) == [c]
    ensures Expand(expand, [dir] + [c]) == Expand(expand, [a, b, c])
  {
    ExpandOne(expand, c);
    ExpandBelow(expand, dir, [c]);
    ExpandBelow(expand, a, [b, c]);
    ExpandBelow(expand, b, [c]);
    assert [a, b, c] == [a] + [b, c] && [b, c] == [b] + [c];
  }

  lemma ExpandOne(expand: string -> Path, c: string)
    ensures Expand(expand, [c]) == expand(c)
  {
    assert [c][..0] == [];
  }

  lemma OnlyPlain(pkg: string, bin: ArtifactMap, data: ArtifactMap, links: seq<Link>)
    requires Tame([], bin) && Tame([], data) && forall l :: l in links ==> PlainLink(l)
    requires forall p :: p in bin ==> PlainName(bin[p].ResolveName(p))
    requires forall p :: p in data ==> PlainName(data[p].ResolveName(p))
    ensures PlainPackage(pkg, Only(bin, data, links))
  {
    var a := Only(bin, data, links);
    forall part | part in Parts(pkg, a) ensures TamePart(part) {
      var i :| 0 <= i < |Parts(pkg, a)| && Parts(pkg, a)[i] == part;
      EachPart(pkg, bin, data, links, a, i);
      QuietTame(bin, data, links, part);
    }
    RootsNonEmpty(pkg);
    forall part | part in InstallParts(pkg, a) ensures PlainNames(part) {
      OnlyNames(pkg, bin, data, links, a, part);
    }
  }

  lemma RootsNonEmpty(pkg: string)
    ensures Join([Under(DocDir), pkg]) != "" && Join([Under(LicenseDir), pkg]) != "" && Join([Under(LibDir)]) != ""
  {
    JoinNonEmpty(Under(DocDir), pkg);
    JoinNonEmpty(Under(LicenseDir), pkg);
    LibDirText();
  }

  lemma OnlyNames(pkg: string, bin: ArtifactMap, data: ArtifactMap, links: seq<Link>, a: Artifacts, part: InstallPart)
    requires a == Only(bin, data, links) && part in InstallParts(pkg, a) && forall l :: l in links ==> PlainLink(l)
    requires forall p :: p in bin ==> PlainName(bin[p].ResolveName(p))
    requires forall p :: p in data ==> PlainName(data[p].ResolveName(p))
    requires Join([Under(DocDir), pkg]) != "" && Join([Under(LicenseDir), pkg]) != "" && Join([Under(LibDir)]) != ""
    ensures PlainNames(part)
  {
    var docs, licenses, libs := Join([Under(DocDir), pkg]), Join([Under(LicenseDir), pkg]), Join([Under(LibDir)]);
    InstallPartsList(pkg, a, docs, licenses, libs);
    var parts := PartList(a, docs, licenses, libs);
    var i :| 0 <= i < |parts| && parts[i] == part;
    EachInstallPart(bin, data, links, a, docs, licenses, libs, i);
  }

  /** The part has a root, and is about nothing or about these artifacts alone. */
  lemma EachInstallPart(bin: ArtifactMap, data: ArtifactMap, links: seq<Link>, a: Artifacts,
    docs: string, licenses: string, libs: string, i: nat)
    requires a == Only(bin, data, links) && docs != "" && licenses != "" && libs != ""
    requires i < |PartList(a, docs, licenses, libs)|
    ensures var part := PartList(a, docs, licenses, libs)[i];
      && (part.Copies? ==> part.root != "" && (part.m == map[] || part.m == bin || part.m == data))
      && (part.MakesLinks? ==> part.links == links)
  {}

  /** The part is about nothing, or about these artifacts alone. */
  ghost predicate Quiet(bin: ArtifactMap, data: ArtifactMap, links: seq<Link>, part: Part)
  {
    match part
    case Kind(_, _, _, pkg, n) => n == map[] || ((n == bin || n == data) && pkg == [])
    case Manpages(n) => n == map[]
    case Dirs(_, dirs) => dirs == map[]
    case Dropins(dropins) => dropins == map[]
    case Links(ls) => ls == links
  }

  lemma EachPart(pkg: string, bin: ArtifactMap, data: ArtifactMap, links: seq<Link>, a: Artifacts, i: nat)
    requires a == Only(bin, data, links) && i < |Parts(pkg, a)|
    ensures Quiet(bin, data, links, Parts(pkg, a)[i])
  {}

  lemma QuietTame(bin: ArtifactMap, data: ArtifactMap, links: seq<Link>, part: Part)
    requires Tame([], bin) && Tame([], data) && (forall l :: l in links ==> PlainLink(l))
    requires Quiet(bin, data, links, part)
    ensures TamePart(part)
  {}

  lemma ExampleTame(m: ArtifactMap)
    requires m == map["a/x" := ArtifactConfig("d", "x", 0), "b/d" := ArtifactConfig("", "d", 0)]
    ensures Tame([], m)
      && Relative([m["a/x"].subPath]) == Relative([] + [m["b/d"].subPath, m["b/d"].ResolveName("b/d")])
  {
    TwoNames("d", "x");
    TwoNames("", "d");
    OneName("d");
  }

  lemma OneName(a: string)
    requires PlainComponent(a)
    ensures Relative([a]) == [a]
  {
    SplitEachOne(a);
    NameInside(a);
  }

  lemma TwoNames(a: string, b: string)
    requires (a == "" || PlainComponent(a)) && PlainComponent(b)
    ensures Relative([] + [a, b]) == (if a == "" then [b] else [a, b]) && Below([] + [a, b])
  {
    assert [] + [a, b] == [a, b];
    SplitEachPair(a, b);
    SplitPlain(a);
    SplitPlain(b);
    PushAllAppend(false, [], [a], [b]);
    PushOne([], a);
    PushOne(if a == "" then [] else [a], b);
  }
}
