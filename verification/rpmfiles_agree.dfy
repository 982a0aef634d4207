/** What `%install` creates is what `%files` lists. */
module RpmFilesAgree {
  import opened Order
  import opened Paths
  import opened RpmFiles

  /** The paths of the files and links the commands create. */
  ghost function Created(lines: seq<Command>): set<seq<string>>
  {
    set c | c in lines && (c.Copy? || c.Symlink?) :: Components(c.dest)
  }

  /** The paths of the entries that are neither `%dir` nor the manpage glob. */
  ghost function Listed(lines: seq<Entry>): set<seq<string>>
  {
    set e | e in lines && e.File? :: Components(e.path)
  }

  ghost function UnderBuildroot(paths: set<seq<string>>): set<seq<string>>
  {
    set q | q in paths :: [Buildroot] + q
  }

  /** Every `%dir` entry has its `mkdir`. */
  ghost predicate DirectoriesMade(lines: seq<Command>, entries: seq<Entry>)
  {
    forall d :: Directory(d) in entries ==>
      exists c :: c in lines && c.Mkdir? && Components(c.dir) == [Buildroot] + Components(d)
  }

  // ---------- paths below a root ----------

  /** `elems`, joined below a directory, do not climb out of it. */
  ghost predicate Below(elems: seq<string>)
  {
    StaysBelow(SplitEach(elems))
  }

  ghost function Relative(elems: seq<string>): seq<string>
  {
    PushAll(false, [], SplitEach(elems))
  }

  /** `root` is the directory of this macro under the build root, `extra` further down. */
  ghost predicate RootOf(root: string, dir: seq<string>, extra: seq<string>)
  {
    root != "" && !Rooted(root) && Components(root) == PushAll(false, dir, SplitEach(extra))
  }

  lemma JoinBelow(root: string, dir: seq<string>, extra: seq<string>, sub: string, file: string)
    requires RootOf(root, dir, extra) && Below(extra + [sub, file])
    ensures Components(Join([Join([root, sub]), file])) == dir + Relative(extra + [sub, file])
  {
    JoinOnto(root, sub);
    JoinNonEmpty(root, sub);
    JoinOnto(Join([root, sub]), file);
    PushAllAppend(false, Components(root), Split(sub), Split(file));
    SplitEachPair(sub, file);
    SplitEachAppend(extra, [sub, file]);
    PushAllAppend(false, dir, SplitEach(extra), Split(sub) + Split(file));
    SplitEachNoSlash(extra + [sub, file]);
    LandsBelow(false, dir, SplitEach(extra + [sub, file]));
  }

  lemma JoinNonEmpty(a: string, b: string)
    requires a != ""
    ensures Join([a, b]) != ""
  {
    CleanNonEmpty(Unsplit([a, b]));
  }

  /** The same artifact listed below its macro. */
  lemma ListBelow(macro: string, dir: string, elems: seq<string>)
    requires RootOf(macro, [dir], []) && Below(elems)
    ensures Components(Join([macro] + elems)) == [dir] + Relative(elems)
  {
    JoinComponents([macro] + elems);
    assert ([macro] + elems)[1..] == elems;
    PushAllAppend(false, [], Split(macro), SplitEach(elems));
    assert SplitEach([]) == [];
    SplitEachNoSlash(elems);
    LandsBelow(false, [dir], SplitEach(elems));
  }

  // ---------- one kind of artifact ----------

  /** No `*` in the file names and no climbing. */
  ghost predicate Tame(extra: seq<string>, m: ArtifactMap)
  {
    forall p :: p in m ==> '*' !in m[p].ResolveName(p) && Below(extra + [m[p].subPath, m[p].ResolveName(p)])
  }

  /** Where the artifact `p` goes below the directory of its kind. */
  ghost function PlaceOf(dir: string, extra: seq<string>, m: ArtifactMap): string -> seq<string>
  {
    p => if p in m then [dir] + Relative(extra + [m[p].subPath, m[p].ResolveName(p)]) else []
  }

  lemma CopiesOne(root: string, dir: string, extra: seq<string>, m: ArtifactMap, p: string)
    requires RootOf(root, [Buildroot, dir], extra) && Tame(extra, m) && p in m
    ensures Created(CopyOne(root, m)(p)) == {[Buildroot] + PlaceOf(dir, extra, m)(p)}
  {
    var sub, file := m[p].subPath, m[p].ResolveName(p);
    CopyOneLines(root, m, p);
    OneCopy(p, Join([root, sub]), Join([Join([root, sub]), file]), m[p].perm);
    JoinBelow(root, [Buildroot, dir], extra, sub, file);
    AssocPlace(dir, Relative(extra + [sub, file]));
  }

  lemma AssocPlace(dir: string, rest: seq<string>)
    ensures [Buildroot, dir] + rest == [Buildroot] + ([dir] + rest)
  {}

  lemma CopyOneLines(root: string, m: ArtifactMap, p: string)
    requires p in m && '*' !in m[p].ResolveName(p)
    ensures var dir := Join([root, m[p].subPath]);
      var target := Join([dir, m[p].ResolveName(p)]);
      CopyOne(root, m)(p) == [Mkdir(0, dir), Copy(p, target)]
        + (if m[p].perm != 0 then [Chmod(m[p].perm, target)] else [])
  {}

  lemma OneCopy(p: string, dir: string, target: string, perm: nat)
    ensures Created([Mkdir(0, dir), Copy(p, target)] + (if perm != 0 then [Chmod(perm, target)] else []))
      == {Components(target)}
  {
    var lines := [Mkdir(0, dir), Copy(p, target)] + (if perm != 0 then [Chmod(perm, target)] else []);
    assert lines[1] == Copy(p, target) && lines[1] in lines;
  }

  lemma ListsOne(attr: string, macro: string, dir: string, extra: seq<string>, m: ArtifactMap, p: string)
    requires RootOf(macro, [dir], []) && Tame(extra, m) && p in m
    ensures Listed(ListOne(attr, [macro] + extra, m)(p)) == {PlaceOf(dir, extra, m)(p)}
    ensures forall d :: Directory(d) !in ListOne(attr, [macro] + extra, m)(p)
  {
    var elems := extra + [m[p].subPath, m[p].ResolveName(p)];
    assert [macro] + extra + [m[p].subPath, m[p].ResolveName(p)] == [macro] + elems;
    ListBelow(macro, dir, elems);
    OneFile(attr, Join([macro] + elems));
  }

  lemma OneFile(attr: string, path: string)
    ensures Listed([File(attr, path)]) == {Components(path)}
  {
    assert File(attr, path) in [File(attr, path)];
  }

  /** One kind: copied under the build root and listed below its macro. */
  lemma KindAgrees(attr: string, root: string, macro: string, dir: string, extra: seq<string>, m: ArtifactMap)
    requires RootOf(root, [Buildroot, dir], extra) && RootOf(macro, [dir], []) && Tame(extra, m)
    ensures Created(CopyAll(root, m)) == UnderBuildroot(Listed(ListAll(attr, [macro] + extra, m)))
    ensures forall d :: Directory(d) !in ListAll(attr, [macro] + extra, m)
  {
    var keys, place := SortedKeys(m.Keys), PlaceOf(dir, extra, m);
    forall p | p in keys
      ensures Created(CopyOne(root, m)(p)) == {[Buildroot] + place(p)}
      ensures Listed(ListOne(attr, [macro] + extra, m)(p)) == {place(p)}
      ensures forall d :: Directory(d) !in ListOne(attr, [macro] + extra, m)(p)
    {
      CopiesOne(root, dir, extra, m, p);
      ListsOne(attr, macro, dir, extra, m, p);
    }
    PartsAgree(keys, CopyOne(root, m), ListOne(attr, [macro] + extra, m), place);
  }

  // ---------- adding up ----------

  lemma CreatedAppend(a: seq<Command>, b: seq<Command>)
    ensures Created(a + b) == Created(a) + Created(b)
  {}

  lemma ListedAppend(a: seq<Entry>, b: seq<Entry>)
    ensures Listed(a + b) == Listed(a) + Listed(b)
  {}

  lemma UnderAppend(a: set<seq<string>>, b: set<seq<string>>)
    ensures UnderBuildroot(a + b) == UnderBuildroot(a) + UnderBuildroot(b)
  {}

  /** Two loops over the same keys that agree on each key agree. */
  lemma {:induction false} PartsAgree<K>(keys: seq<K>, f: K -> seq<Command>, g: K -> seq<Entry>,
    place: K -> seq<string>)
    requires forall k :: k in keys ==>
      && Created(f(k)) == {[Buildroot] + place(k)} && Listed(g(k)) == {place(k)}
      && forall d :: Directory(d) !in g(k)
    ensures Created(FlatMap(keys, f)) == UnderBuildroot(Listed(FlatMap(keys, g)))
    ensures forall d :: Directory(d) !in FlatMap(keys, g)
  {
    if keys != [] {
      PartsAgree(keys[..|keys| - 1], f, g, place);
      AddOneKey(keys[..|keys| - 1], keys[|keys| - 1], f, g, place);
      assert keys == keys[..|keys| - 1] + [keys[|keys| - 1]];
    }
  }

  lemma AddOneKey<K>(keys: seq<K>, k: K, f: K -> seq<Command>, g: K -> seq<Entry>, place: K -> seq<string>)
    requires Created(f(k)) == {[Buildroot] + place(k)} && Listed(g(k)) == {place(k)}
    requires Created(FlatMap(keys, f)) == UnderBuildroot(Listed(FlatMap(keys, g)))
    ensures FlatMap(keys + [k], g) == FlatMap(keys, g) + g(k)
    ensures Created(FlatMap(keys + [k], f)) == UnderBuildroot(Listed(FlatMap(keys + [k], g)))
  {
    assert (keys + [k])[..|keys + [k]| - 1] == keys;
    CreatedAppend(FlatMap(keys, f), f(k));
    ListedAppend(FlatMap(keys, g), g(k));
    UnderAppend(Listed(FlatMap(keys, g)), Listed(g(k)));
    assert UnderBuildroot({place(k)}) == {[Buildroot] + place(k)};
  }

  // ---------- the macros ----------

  lemma BuildrootPlain()
    ensures PlainComponent(Buildroot)
  {}

  lemma OneRoot(a: string)
    requires PlainComponent(a)
    ensures RootOf(a, [a], [])
  {
    assert SplitEach([]) == [];
    SplitPlain(a);
    assert PushAll(false, [], [a]) == PushAll(false, [a], []);
  }

  lemma SlashRoot(a: string)
    requires PlainComponent(a)
    ensures RootOf(a + "/", [a], [])
  {
    assert SplitEach([]) == [];
    SplitPlain(a);
    SplitConcat(a, "");
    assert a + "/" + "" == a + "/";
    assert [a] + [""] == [a, ""] && [a, ""][1..] == [""];
    assert PushAll(false, [], [a, ""]) == PushAll(false, [a], [""]) == PushAll(false, [a], []);
  }

  lemma TwoRoot(a: string, b: string)
    requires PlainComponent(a) && PlainComponent(b)
    ensures RootOf(a + "/" + b, [a, b], [])
  {
    assert SplitEach([]) == [];
    SplitPlain(a);
    SplitPlain(b);
    SplitConcat(a, b);
    assert [a] + [b] == [a, b] && [a, b][1..] == [b];
    assert Push(false, [], a) == [a] && Push(false, [a], b) == [a, b];
    assert PushAll(false, [a], [b]) == PushAll(false, [a, b], []);
    assert PushAll(false, [], [a, b]) == PushAll(false, [a], [b]);
  }

  lemma PackageRoot(root: string, dir: seq<string>, pkg: string)
    requires RootOf(root, dir, [])
    ensures RootOf(Join([root, pkg]), dir, [pkg])
  {
    JoinOnto(root, pkg);
    JoinNonEmpty(root, pkg);
    var none: seq<string> := [];
    assert SplitEach(none) == none && PushAll(false, dir, none) == dir;
    assert Components(root) == dir;
    assert [pkg][1..] == none;
    assert SplitEach([pkg]) == Split(pkg) + none == Split(pkg);
  }

  // ---------- directories, links and drop-ins ----------

  lemma JoinOneBelow(root: string, dir: seq<string>, p: string)
    requires RootOf(root, dir, []) && Below([p])
    ensures Components(Join([root, p])) == dir + Relative([p])
  {
    PackageRoot(root, dir, p);
    SplitEachNoSlash([p]);
    LandsBelow(false, dir, SplitEach([p]));
  }

  ghost predicate TameDirs(keys: set<string>)
  {
    forall p :: p in keys ==> Below([p])
  }

  /** Loops whose bodies create nothing, list nothing, and make their directories. */
  lemma {:induction false} DirPartsAgree<K>(keys: seq<K>, f: K -> seq<Command>, g: K -> seq<Entry>)
    requires forall k :: k in keys ==> Created(f(k)) == {} && Listed(g(k)) == {} && DirectoriesMade(f(k), g(k))
    ensures Created(FlatMap(keys, f)) == {} && Listed(FlatMap(keys, g)) == {}
    ensures DirectoriesMade(FlatMap(keys, f), FlatMap(keys, g))
  {
    if keys != [] {
      var rest, k := keys[..|keys| - 1], keys[|keys| - 1];
      DirPartsAgree(rest, f, g);
      CreatedAppend(FlatMap(rest, f), f(k));
      ListedAppend(FlatMap(rest, g), g(k));
      MadeAppend(FlatMap(rest, f), f(k), FlatMap(rest, g), g(k));
    }
  }

  lemma MadeAppend(a: seq<Command>, b: seq<Command>, c: seq<Entry>, d: seq<Entry>)
    requires DirectoriesMade(a, c) && DirectoriesMade(b, d)
    ensures DirectoriesMade(a + b, c + d)
  {
    forall p | Directory(p) in c + d
      ensures exists m :: m in a + b && m.Mkdir? && Components(m.dir) == [Buildroot] + Components(p)
    {
      var m :| (m in a || m in b) && m.Mkdir? && Components(m.dir) == [Buildroot] + Components(p);
      assert m in a + b;
    }
  }

  lemma OneDir(mode: nat, dir: string, listed: string)
    requires Components(dir) == [Buildroot] + Components(listed)
    ensures Created([Mkdir(mode, dir)]) == {} && Listed([Directory(listed)]) == {}
    ensures DirectoriesMade([Mkdir(mode, dir)], [Directory(listed)])
  {
    assert Mkdir(mode, dir) in [Mkdir(mode, dir)];
  }

  lemma DirAgrees(root: string, macro: string, m: map<string, nat>, p: string)
    requires RootOf(root, [Buildroot, macro], []) && RootOf(macro, [macro], []) && Below([p]) && p in m
    ensures Created(MkdirOne(root, m)(p)) == {} && Listed(DirOne(macro)(p)) == {}
    ensures DirectoriesMade(MkdirOne(root, m)(p), DirOne(macro)(p))
  {
    JoinOneBelow(root, [Buildroot, macro], p);
    JoinOneBelow(macro, [macro], p);
    AssocPlace(macro, Relative([p]));
    OneDir(m[p], Join([root, p]), Join([macro, p]));
  }

  lemma DirsAgree(root: string, macro: string, m: map<string, nat>)
    requires RootOf(root, [Buildroot, macro], []) && RootOf(macro, [macro], []) && TameDirs(m.Keys)
    ensures Created(MkdirAll(root, m)) == {} && Listed(DirAll(macro, m.Keys)) == {}
    ensures DirectoriesMade(MkdirAll(root, m), DirAll(macro, m.Keys))
  {
    var keys := SortedKeys(m.Keys);
    forall p | p in keys
      ensures Created(MkdirOne(root, m)(p)) == {} && Listed(DirOne(macro)(p)) == {}
      ensures DirectoriesMade(MkdirOne(root, m)(p), DirOne(macro)(p))
    {
      DirAgrees(root, macro, m, p);
    }
    DirPartsAgree(keys, MkdirOne(root, m), DirOne(macro));
  }

  lemma SplitEachOne(p: string)
    ensures SplitEach([p]) == Split(p)
  {
    var none: seq<string> := [];
    assert [p][1..] == none && SplitEach(none) == none;
    assert Split(p) + none == Split(p);
  }

  lemma DestBelow(a: string, dest: string)
    requires PlainComponent(a) && Below([dest])
    ensures Components(a + "/" + dest) == [a] + Relative([dest])
    ensures Components(dest) == Relative([dest])
  {
    SplitEachOne(dest);
    SplitNoSlash(dest);
    LandsBelow(Rooted(dest), [], Split(dest));
    LandsBelow(false, [a], Split(dest));
    SplitPlain(a);
    SplitConcat(a, dest);
    assert ([a] + Split(dest))[1..] == Split(dest);
    assert Push(false, [], a) == [a];
  }

  lemma LinkAgrees(l: Link)
    requires Below([l.dest])
    ensures Created(LinkOne(l)) == {[Buildroot] + Relative([l.dest])}
    ensures Listed(LinkEntry(l)) == {Relative([l.dest])}
  {
    BuildrootPlain();
    DestBelow(Buildroot, l.dest);
    OneFile(LinkAttr(l), l.dest);
    OneLink(Dir(Join([Buildroot, l.dest])), l.source, Under(l.dest));
  }

  lemma OneLink(dir: string, source: string, dest: string)
    ensures Created([Mkdir(0, dir), Symlink(source, dest)]) == {Components(dest)}
  {
    var lines := [Mkdir(0, dir), Symlink(source, dest)];
    assert lines[1] in lines;
  }

  lemma LinksAgree(links: seq<Link>)
    requires forall l :: l in links ==> Below([l.dest])
    ensures Created(FlatMap(links, LinkOne)) == UnderBuildroot(Listed(FlatMap(links, LinkEntry)))
    ensures forall d :: Directory(d) !in FlatMap(links, LinkEntry)
  {
    forall l | l in links
      ensures Created(LinkOne(l)) == {[Buildroot] + Relative([l.dest])} && Listed(LinkEntry(l)) == {Relative([l.dest])}
    {
      LinkAgrees(l);
    }
    PartsAgree(links, LinkOne, LinkEntry, (l: Link) => Relative([l.dest]));
  }

  /** Grouping the keys by unit neither loses an entry nor invents one. */
  lemma Grouping(keys: seq<string>, units: seq<string>, unitOf: string -> string, entry: string -> Entry,
      dir: string -> Entry, groups: map<string, seq<Entry>>, e: Entry)
    requires forall u :: u in units ==> u in groups && groups[u] == FlatMap(keys, Pick(u, unitOf, entry))
    requires forall k :: k in keys ==> unitOf(k) in units
    requires forall u :: u in units ==> exists k :: k in keys && unitOf(k) == u
    ensures e in FlatMap(units, UnitOne(dir, groups)) <==>
      exists k :: k in keys && (e == entry(k) || e == dir(unitOf(k)))
  {
    InFlatMap(units, UnitOne(dir, groups), e);
    if u :| u in units && e in UnitOne(dir, groups)(u) {
      InUnit(keys, unitOf, entry, u, e);
      assert e == dir(u) || e in groups[u];
    }
    if k :| k in keys && (e == entry(k) || e == dir(unitOf(k))) {
      InUnit(keys, unitOf, entry, unitOf(k), e);
      assert e in UnitOne(dir, groups)(unitOf(k));
    }
  }

  /** The files of a unit are the entries of its keys. */
  lemma InUnit(keys: seq<string>, unitOf: string -> string, entry: string -> Entry, u: string, e: Entry)
    ensures e in FlatMap(keys, Pick(u, unitOf, entry)) <==> exists k :: k in keys && unitOf(k) == u && e == entry(k)
  {
    InFlatMap(keys, Pick(u, unitOf, entry), e);
    if k :| k in keys && unitOf(k) == u && e == entry(k) {
      assert e in Pick(u, unitOf, entry)(k);
    }
  }

  /** The drop-in part of `%files` has the entry of every drop-in, the directory of its unit,
      and nothing else. */
  lemma DropinsComplete(dropins: map<string, Dropin>, e: Entry)
    ensures e in DropinAll(dropins) <==>
      exists d :: d in dropins && (e == DropinEntry(dropins)(d) || e == UnitDir()(dropins[d].unit))
  {
    var keys, groups := SortedKeys(dropins.Keys), Grouped(dropins);
    Grouping(keys, SortedKeys(groups.Keys), UnitOf(dropins), DropinEntry(dropins), UnitDir(), groups, e);
  }

  /** A drop-in's entry is the one its artifact would have as a unit file of its own. */
  lemma DropinIsArtifact(dropins: map<string, Dropin>, d: string)
    requires d in dropins
    ensures [DropinEntry(dropins)(d)] == ListOne("", [UnitFileDir], DropinArtifacts(dropins))(d)
  {
    var cfg := dropins[d].Artifact();
    assert [UnitFileDir] + [cfg.subPath, cfg.ResolveName(d)] == [UnitFileDir, cfg.subPath, cfg.ResolveName(d)];
  }

  lemma DropinsListed(dropins: map<string, Dropin>)
    ensures Listed(DropinAll(dropins)) == Listed(ListAll("", [UnitFileDir], DropinArtifacts(dropins)))
  {
    var m := DropinArtifacts(dropins);
    var keys, f := SortedKeys(m.Keys), ListOne("", [UnitFileDir], m);
    forall e: Entry | e.File? ensures e in DropinAll(dropins) <==> e in FlatMap(keys, f) {
      DropinsComplete(dropins, e);
      InFlatMap(keys, f, e);
      forall d | d in dropins ensures f(d) == [DropinEntry(dropins)(d)] {
        DropinIsArtifact(dropins, d);
      }
    }
  }

  /** The directory of a unit is made when any of its drop-ins is copied. */
  lemma UnitDirMade(root: string, dropins: map<string, Dropin>, d: string)
    requires RootOf(root, [Buildroot, UnitFileDir], []) && RootOf(UnitFileDir, [UnitFileDir], [])
    requires d in dropins && Tame([], DropinArtifacts(dropins))
    ensures var dir := Join([root, dropins[d].unit + ".d"]);
      && Mkdir(0, dir) in CopyAll(root, DropinArtifacts(dropins))
      && UnitDir()(dropins[d].unit).Directory?
      && Components(dir) == [Buildroot] + Components(UnitDir()(dropins[d].unit).path)
  {
    var m := DropinArtifacts(dropins);
    MakesDir(root, m, d);
    SubDirPlace(root, UnitFileDir, m[d].subPath, m[d].ResolveName(d));
  }

  lemma MakesDir(root: string, m: ArtifactMap, p: string)
    requires p in m
    ensures Mkdir(0, Join([root, m[p].subPath])) in CopyAll(root, m)
  {
    var c := Mkdir(0, Join([root, m[p].subPath]));
    assert CopyOne(root, m)(p)[0] == c;
    InFlatMap(SortedKeys(m.Keys), CopyOne(root, m), c);
  }

  lemma SubDirPlace(root: string, macro: string, sub: string, file: string)
    requires RootOf(root, [Buildroot, macro], []) && RootOf(macro, [macro], []) && Below([] + [sub, file])
    ensures Components(Join([root, sub])) == [Buildroot] + Components(Join([macro, sub]))
  {
    assert [] + [sub, file] == [sub] + [file];
    BelowPrefix([sub], [file]);
    JoinOneBelow(root, [Buildroot, macro], sub);
    JoinOneBelow(macro, [macro], sub);
    AssocPlace(macro, Relative([sub]));
  }

  /** A path that does not climb does not start by climbing. */
  lemma BelowPrefix(a: seq<string>, b: seq<string>)
    requires Below(a + b)
    ensures Below(a)
  {
    SplitEachAppend(a, b);
    SplitEachNoSlash(a);
    SplitEachNoSlash(b);
    PushAllAppend(false, [], SplitEach(a), SplitEach(b));
    PushAllNormal(false, [], SplitEach(a));
    if !Below(a) {
      ClimbPersists(PushAll(false, [], SplitEach(a)), SplitEach(b));
    }
  }

  lemma DropinsAgree(root: string, dropins: map<string, Dropin>)
    requires RootOf(root, [Buildroot, UnitFileDir], []) && RootOf(UnitFileDir, [UnitFileDir], [])
    requires Tame([], DropinArtifacts(dropins))
    ensures Created(CopyAll(root, DropinArtifacts(dropins))) == UnderBuildroot(Listed(DropinAll(dropins)))
    ensures DirectoriesMade(CopyAll(root, DropinArtifacts(dropins)), DropinAll(dropins))
  {
    var m := DropinArtifacts(dropins);
    assert [UnitFileDir] + [] == [UnitFileDir];
    KindAgrees("", root, UnitFileDir, UnitFileDir, [], m);
    DropinsListed(dropins);
    forall p | Directory(p) in DropinAll(dropins)
      ensures exists c :: c in CopyAll(root, m) && c.Mkdir? && Components(c.dir) == [Buildroot] + Components(p)
    {
      DropinsComplete(dropins, Directory(p));
      var d :| d in dropins && Directory(p) == UnitDir()(dropins[d].unit);
      UnitDirMade(root, dropins, d);
    }
  }

  // ---------- how the two sections face each other ----------

  /** One kind of artifact, as both sections treat it: below the directory of a macro, which
      `%files` may write with a slash and may follow with the package name. */
  datatype Part =
    | Kind(attr: string, dir: string, slash: bool, pkg: seq<string>, m: ArtifactMap)
    | Manpages(m: ArtifactMap)
    | Dirs(dir: string, dirs: map<string, nat>)
    | Dropins(dropins: map<string, Dropin>)
    | Links(links: seq<Link>)

  /** What each loop of `Install` and the loop of `Files` that faces it are about. */
  function Parts(pkg: string, a: Artifacts): seq<Part>
  {
    [ Kind("", BinDir, true, [], a.binaries),
      Manpages(a.manpages),
      Dirs(ConfDir, a.configDirs),
      Dirs(StateDir, a.stateDirs),
      Kind("", DataDir, false, [], a.dataDirs),
      Kind("", LibexecDir, false, [], a.libexec),
      Kind("%config(noreplace)", ConfDir, false, [], a.configFiles),
      Kind("", UnitFileDir, true, [], a.units),
      Dropins(a.dropins),
      Kind("%doc", DocDir, false, [pkg], a.docs),
      Kind("%license", LicenseDir, false, [pkg], a.licenses),
      Kind("", LibDir, false, [], a.libs),
      Links(a.links),
      Kind("", IncludeDir, false, [], a.headers) ]
  }

  /** The directory a kind is installed to, and the start of the paths it is listed by. */
  function InstallRoot(dir: string, pkg: seq<string>): string
  {
    if pkg == [] then Under(dir) else Join([Under(dir)] + pkg)
  }

  function ListPrefix(dir: string, slash: bool, pkg: seq<string>): seq<string>
  {
    [if slash then dir + "/" else dir] + pkg
  }

  /** The loop of `Install` that is about a part. */
  function InstallPartOf(part: Part): InstallPart
  {
    match part
    case Kind(_, dir, _, pkg, m) => Copies(InstallRoot(dir, pkg), m)
    case Manpages(m) => Copies(Under(ManDir), m)
    case Dirs(dir, dirs) => Makes(Under(dir), dirs)
    case Dropins(dropins) => Copies(Under(UnitFileDir), DropinArtifacts(dropins))
    case Links(links) => MakesLinks(links)
  }

  /** The loop of `Files` that is about a part. */
  function FilePartOf(part: Part): FilePart
  {
    match part
    case Kind(attr, dir, slash, pkg, m) => Lists(attr, ListPrefix(dir, slash, pkg), m)
    case Manpages(m) => Globs(m)
    case Dirs(dir, dirs) => ListsDirs(dir, dirs)
    case Dropins(dropins) => ListsDropins(dropins)
    case Links(links) => ListsLinks(links)
  }

  ghost function InstallSide(part: Part): seq<Command>
  {
    InstallLinesOf(InstallPartOf(part))
  }

  ghost function FileSide(part: Part): seq<Entry>
  {
    FileLinesOf(FilePartOf(part))
  }

  lemma {:induction false} FlatMapAlike<K, L, X>(xs: seq<K>, f: K -> seq<X>, ys: seq<L>, g: L -> seq<X>)
    requires |xs| == |ys| && forall i :: 0 <= i < |xs| ==> f(xs[i]) == g(ys[i])
    ensures FlatMap(xs, f) == FlatMap(ys, g)
  {
    if xs != [] { FlatMapAlike(xs[..|xs| - 1], f, ys[..|ys| - 1], g); }
  }

  /** Text that needs no cleaning. */
  lemma UnderIsClean(dir: string)
    requires PlainComponent(dir)
    ensures Join([Under(dir)]) == Under(dir)
  {
    BuildrootPlain();
    TwoRoot(Buildroot, dir);
    assert SplitEach([]) == [];
    assert Unsplit([Under(dir)]) == Under(dir);
    assert [Buildroot, dir][1..] == [dir];
    assert Unsplit([Buildroot, dir]) == Buildroot + "/" + dir;
  }

  /** The two-step path of libexec is the one-step path of the other kinds. */
  lemma TwoStepIsOne(dir: string, m: ArtifactMap)
    requires dir != ""
    ensures FlatMap(SortedKeys(m.Keys), ListTwoStep(dir, m)) == ListAll("", [dir], m)
  {
    var keys := SortedKeys(m.Keys);
    forall i | 0 <= i < |keys| ensures ListTwoStep(dir, m)(keys[i]) == ListOne("", [dir], m)(keys[i]) {
      TwoStepEntry(dir, m, keys[i]);
    }
    FlatMapAlike(keys, ListTwoStep(dir, m), keys, ListOne("", [dir], m));
  }

  lemma TwoStepEntry(dir: string, m: ArtifactMap, p: string)
    requires dir != "" && p in m
    ensures ListTwoStep(dir, m)(p) == ListOne("", [dir], m)(p)
  {
    JoinNested(dir, m[p].subPath, m[p].ResolveName(p));
    assert [dir] + [m[p].subPath, m[p].ResolveName(p)] == [dir, m[p].subPath, m[p].ResolveName(p)];
  }

  /** Every loop of `Install` is about what its part says. */
  lemma InstallFaces(pkg: string, a: Artifacts)
    ensures InstallLines(pkg, a) == FlatMap(Parts(pkg, a), InstallSide)
  {
    var ips, parts := InstallParts(pkg, a), Parts(pkg, a);
    InstallPartsFace(pkg, a);
    FlatMapAlike(ips, InstallLinesOf, parts, InstallSide);
  }

  lemma InstallPartsFace(pkg: string, a: Artifacts)
    ensures |InstallParts(pkg, a)| == |Parts(pkg, a)|
    ensures forall i :: 0 <= i < |Parts(pkg, a)| ==> InstallParts(pkg, a)[i] == InstallPartOf(Parts(pkg, a)[i])
  {
    var docs, licenses := InstallRoot(DocDir, [pkg]), InstallRoot(LicenseDir, [pkg]);
    PackageRootText(DocDir, pkg);
    PackageRootText(LicenseDir, pkg);
    LibDirText();
    InstallPartsList(pkg, a, docs, licenses, Under(LibDir));
    PartsList(pkg, a, docs, licenses);
  }

  /** The loops of `Install`, with the roots that take some joining given by name. */
  function PartList(a: Artifacts, docs: string, licenses: string, libs: string): seq<InstallPart>
  {
    [ Copies(Under(BinDir), a.binaries), Copies(Under(ManDir), a.manpages), Makes(Under(ConfDir), a.configDirs),
      Makes(Under(StateDir), a.stateDirs), Copies(Under(DataDir), a.dataDirs), Copies(Under(LibexecDir), a.libexec),
      Copies(Under(ConfDir), a.configFiles), Copies(Under(UnitFileDir), a.units),
      Copies(Under(UnitFileDir), DropinArtifacts(a.dropins)), Copies(docs, a.docs), Copies(licenses, a.licenses),
      Copies(libs, a.libs), MakesLinks(a.links), Copies(Under(IncludeDir), a.headers) ]
  }

  lemma InstallPartsList(pkg: string, a: Artifacts, docs: string, licenses: string, libs: string)
    requires docs == Join([Under(DocDir), pkg]) && licenses == Join([Under(LicenseDir), pkg])
      && libs == Join([Under(LibDir)])
    ensures InstallParts(pkg, a) == PartList(a, docs, licenses, libs)
  {}

  lemma PartsList(pkg: string, a: Artifacts, docs: string, licenses: string)
    requires docs == InstallRoot(DocDir, [pkg]) && licenses == InstallRoot(LicenseDir, [pkg])
    ensures |Parts(pkg, a)| == |PartList(a, docs, licenses, Under(LibDir))|
    ensures forall i :: 0 <= i < |Parts(pkg, a)| ==>
      InstallPartOf(Parts(pkg, a)[i]) == PartList(a, docs, licenses, Under(LibDir))[i]
  {
    FirstParts(pkg, a, docs, licenses);
    LastParts(pkg, a, docs, licenses);
  }

  lemma FirstParts(pkg: string, a: Artifacts, docs: string, licenses: string)
    ensures forall i :: 0 <= i < 7 ==>
      InstallPartOf(Parts(pkg, a)[i]) == PartList(a, docs, licenses, Under(LibDir))[i]
  {
    KindRoot("", BinDir, true, a.binaries);
    KindRoot("", DataDir, false, a.dataDirs);
    KindRoot("", LibexecDir, false, a.libexec);
    KindRoot("%config(noreplace)", ConfDir, false, a.configFiles);
  }

  lemma LastParts(pkg: string, a: Artifacts, docs: string, licenses: string)
    requires docs == InstallRoot(DocDir, [pkg]) && licenses == InstallRoot(LicenseDir, [pkg])
    ensures forall i :: 7 <= i < |Parts(pkg, a)| ==>
      InstallPartOf(Parts(pkg, a)[i]) == PartList(a, docs, licenses, Under(LibDir))[i]
  {
    KindRoot("", UnitFileDir, true, a.units);
    KindRoot("", LibDir, false, a.libs);
    KindRoot("", IncludeDir, false, a.headers);
  }

  lemma KindRoot(attr: string, dir: string, slash: bool, m: ArtifactMap)
    ensures InstallPartOf(Kind(attr, dir, slash, [], m)) == Copies(Under(dir), m)
  {}

  lemma LibDirText()
    ensures Join([Under(LibDir)]) == Under(LibDir)
  {
    MacrosPlain();
    UnderIsClean(LibDir);
  }

  lemma PackageRootText(dir: string, pkg: string)
    ensures InstallRoot(dir, [pkg]) == Join([Under(dir), pkg])
  {
    assert [Under(dir)] + [pkg] == [Under(dir), pkg];
  }

  /** Every loop of `Files` is about what its part says; libexec in two steps. */
  lemma FilesFace(pkg: string, a: Artifacts)
    ensures FileLines(pkg, a) == FlatMap(Parts(pkg, a), FileSide)
  {
    var fps, parts := FileParts(pkg, a), Parts(pkg, a);
    FilePartsFace(pkg, a);
    forall i | 0 <= i < |fps| ensures FileLinesOf(fps[i]) == FileSide(parts[i]) {
      if i == 5 { TwoStepIsOne(LibexecDir, a.libexec); }
    }
    FlatMapAlike(fps, FileLinesOf, parts, FileSide);
  }

  lemma FilePartsFace(pkg: string, a: Artifacts)
    ensures |FileParts(pkg, a)| == |Parts(pkg, a)| == 14
    ensures FileParts(pkg, a)[5] == ListsTwoStep(LibexecDir, a.libexec)
      && FilePartOf(Parts(pkg, a)[5]) == Lists("", [LibexecDir], a.libexec)
    ensures forall i :: 0 <= i < 14 && i != 5 ==> FileParts(pkg, a)[i] == FilePartOf(Parts(pkg, a)[i])
  {
    PrefixText(BinDir, true);
    PrefixText(UnitFileDir, true);
    PrefixText(DataDir, false);
    PrefixText(LibexecDir, false);
    PrefixText(ConfDir, false);
    PrefixText(LibDir, false);
    PrefixText(IncludeDir, false);
    assert ListPrefix(DocDir, false, [pkg]) == [DocDir, pkg];
    assert ListPrefix(LicenseDir, false, [pkg]) == [LicenseDir, pkg];
  }

  lemma PrefixText(dir: string, slash: bool)
    ensures ListPrefix(dir, slash, []) == [if slash then dir + "/" else dir]
  {}

  // ---------- the whole package ----------

  /** No `*` in a file name, and no path climbs out of the directory it belongs to. */
  ghost predicate TamePart(part: Part)
  {
    match part
    case Kind(_, _, _, pkg, m) => Tame(pkg, m)
    case Manpages(m) => Tame([], m)
    case Dirs(_, dirs) => TameDirs(dirs.Keys)
    case Dropins(dropins) => Tame([], DropinArtifacts(dropins))
    case Links(links) => forall l :: l in links ==> Below([l.dest])
  }

  ghost predicate TamePackage(pkg: string, a: Artifacts)
  {
    forall part :: part in Parts(pkg, a) ==> TamePart(part)
  }

  /** The files of a part that `%files` covers by the glob instead of listing them. */
  ghost function GlobPaths(part: Part): set<seq<string>>
  {
    if part.Manpages? then Listed(ListAll("", [ManDir], part.m)) else {}
  }

  /** A part of `%install` and the part of `%files` that faces it. */
  ghost predicate Agree(lines: seq<Command>, entries: seq<Entry>, globbed: set<seq<string>>)
  {
    Created(lines) == UnderBuildroot(Listed(entries) + globbed) && DirectoriesMade(lines, entries)
  }

  /** The macro of a part is a plain path component. */
  ghost predicate PlainPart(part: Part)
  {
    match part
    case Kind(_, dir, _, pkg, _) => PlainComponent(dir) && |pkg| <= 1
    case Dirs(dir, _) => PlainComponent(dir)
    case _ => true
  }

  lemma PartsPlain(pkg: string, a: Artifacts)
    ensures forall part :: part in Parts(pkg, a) ==> PlainPart(part)
  {
    MacrosPlain();
  }

  lemma MacrosPlain()
    ensures PlainComponent(BinDir) && PlainComponent(ManDir) && PlainComponent(ConfDir) && PlainComponent(StateDir)
    ensures PlainComponent(DataDir) && PlainComponent(LibexecDir) && PlainComponent(UnitFileDir)
      && PlainComponent(DocDir)
    ensures PlainComponent(LicenseDir) && PlainComponent(LibDir) && PlainComponent(IncludeDir)
  {}

  lemma KindPart(attr: string, dir: string, slash: bool, pkg: seq<string>, m: ArtifactMap)
    requires PlainComponent(dir) && |pkg| <= 1 && Tame(pkg, m)
    ensures Agree(CopyAll(InstallRoot(dir, pkg), m), ListAll(attr, ListPrefix(dir, slash, pkg), m), {})
  {
    KindRoots(dir, slash, pkg);
    KindAt(attr, InstallRoot(dir, pkg), if slash then dir + "/" else dir, dir, pkg, m);
  }

  /** Both roots lead to the directory of the macro. */
  lemma KindRoots(dir: string, slash: bool, pkg: seq<string>)
    requires PlainComponent(dir) && |pkg| <= 1
    ensures RootOf(InstallRoot(dir, pkg), [Buildroot, dir], pkg) && RootOf(if slash then dir + "/" else dir, [dir], [])
  {
    BuildrootPlain();
    OneRoot(dir);
    SlashRoot(dir);
    TwoRoot(Buildroot, dir);
    if pkg != [] {
      PackageRoot(Under(dir), [Buildroot, dir], pkg[0]);
      assert pkg == [pkg[0]] && [Under(dir)] + pkg == [Under(dir), pkg[0]];
    }
  }

  lemma KindAt(attr: string, root: string, macro: string, dir: string, pkg: seq<string>, m: ArtifactMap)
    requires RootOf(root, [Buildroot, dir], pkg) && RootOf(macro, [dir], []) && Tame(pkg, m)
    ensures Agree(CopyAll(root, m), ListAll(attr, [macro] + pkg, m), {})
  {
    KindAgrees(attr, root, macro, dir, pkg, m);
    assert Listed(ListAll(attr, [macro] + pkg, m)) + {} == Listed(ListAll(attr, [macro] + pkg, m));
  }

  lemma DirPart(dir: string, m: map<string, nat>)
    requires PlainComponent(dir) && TameDirs(m.Keys)
    ensures Agree(MkdirAll(Under(dir), m), DirAll(dir, m.Keys), {})
  {
    BuildrootPlain();
    OneRoot(dir);
    TwoRoot(Buildroot, dir);
    DirsAgree(Under(dir), dir, m);
  }

  lemma GlobbedKind(dir: string, m: ArtifactMap)
    requires PlainComponent(dir) && Tame([], m)
    ensures Created(CopyAll(Under(dir), m)) == UnderBuildroot(Listed(ListAll("", [dir], m)))
  {
    KindPart("", dir, false, [], m);
    assert [dir] + [] == [dir];
    assert Listed(ListAll("", [dir], m)) + {} == Listed(ListAll("", [dir], m));
  }

  lemma GlobOnly(lines: seq<Command>, any: bool, globbed: set<seq<string>>)
    requires Created(lines) == UnderBuildroot(globbed)
    ensures Agree(lines, if any then [ManGlob] else [], globbed)
  {
    var entries := if any then [ManGlob] else [];
    assert Listed(entries) + globbed == globbed;
  }

  lemma LinkPart(links: seq<Link>)
    requires forall l :: l in links ==> Below([l.dest])
    ensures Agree(LinkAll(links), LinkEntries(links), {})
  {
    LinksAgree(links);
  }

  lemma DropinPart(dropins: map<string, Dropin>)
    requires Tame([], DropinArtifacts(dropins))
    ensures Agree(CopyAll(Under(UnitFileDir), DropinArtifacts(dropins)), DropinAll(dropins), {})
  {
    MacrosPlain();
    BuildrootPlain();
    OneRoot(UnitFileDir);
    TwoRoot(Buildroot, UnitFileDir);
    DropinsAgree(Under(UnitFileDir), dropins);
  }

  lemma ManDirPlain()
    ensures PlainComponent(ManDir)
  {}

  lemma ManpagePart(m: ArtifactMap)
    requires Tame([], m)
    ensures Agree(CopyAll(Under(ManDir), m), if |m| > 0 then [ManGlob] else [], Listed(ListAll("", [ManDir], m)))
  {
    ManDirPlain();
    GlobbedKind(ManDir, m);
    GlobOnly(CopyAll(Under(ManDir), m), |m| > 0, Listed(ListAll("", [ManDir], m)));
  }

  lemma KindSides(attr: string, dir: string, slash: bool, pkg: seq<string>, m: ArtifactMap)
    ensures InstallSide(Kind(attr, dir, slash, pkg, m)) == CopyAll(InstallRoot(dir, pkg), m)
    ensures FileSide(Kind(attr, dir, slash, pkg, m)) == ListAll(attr, ListPrefix(dir, slash, pkg), m)
  {}

  lemma KindFaces(attr: string, dir: string, slash: bool, pkg: seq<string>, m: ArtifactMap)
    requires PlainComponent(dir) && |pkg| <= 1 && Tame(pkg, m)
    ensures Agree(InstallSide(Kind(attr, dir, slash, pkg, m)), FileSide(Kind(attr, dir, slash, pkg, m)), {})
  {
    var part := Kind(attr, dir, slash, pkg, m);
    KindPart(attr, dir, slash, pkg, m);
    KindSides(attr, dir, slash, pkg, m);
  }

  lemma ManpagesSides(m: ArtifactMap)
    ensures InstallSide(Manpages(m)) == CopyAll(Under(ManDir), m)
    ensures FileSide(Manpages(m)) == if |m| > 0 then [ManGlob] else []
  {}

  lemma ManpagesFace(m: ArtifactMap)
    requires Tame([], m)
    ensures Agree(InstallSide(Manpages(m)), FileSide(Manpages(m)), Listed(ListAll("", [ManDir], m)))
  {
    ManpagePart(m);
    ManpagesSides(m);
  }

  lemma DirsSides(dir: string, dirs: map<string, nat>)
    ensures InstallSide(Dirs(dir, dirs)) == MkdirAll(Under(dir), dirs)
      && FileSide(Dirs(dir, dirs)) == DirAll(dir, dirs.Keys)
  {}

  lemma DirsFace(dir: string, dirs: map<string, nat>)
    requires PlainComponent(dir) && TameDirs(dirs.Keys)
    ensures Agree(InstallSide(Dirs(dir, dirs)), FileSide(Dirs(dir, dirs)), {})
  {
    DirPart(dir, dirs);
    DirsSides(dir, dirs);
  }

  lemma DropinsSides(dropins: map<string, Dropin>)
    ensures InstallSide(Dropins(dropins)) == CopyAll(Under(UnitFileDir), DropinArtifacts(dropins))
    ensures FileSide(Dropins(dropins)) == DropinAll(dropins)
  {
    DropinsLines(Dropins(dropins), Under(UnitFileDir), DropinArtifacts(dropins), dropins);
  }

  lemma DropinsLines(part: Part, root: string, m: ArtifactMap, dropins: map<string, Dropin>)
    requires InstallPartOf(part) == Copies(root, m) && FilePartOf(part) == ListsDropins(dropins)
    ensures InstallSide(part) == CopyAll(root, m) && FileSide(part) == DropinAll(dropins)
  {}

  lemma DropinsFace(dropins: map<string, Dropin>)
    requires Tame([], DropinArtifacts(dropins))
    ensures Agree(InstallSide(Dropins(dropins)), FileSide(Dropins(dropins)), {})
  {
    DropinPart(dropins);
    DropinsSides(dropins);
  }

  lemma LinksSides(links: seq<Link>)
    ensures InstallSide(Links(links)) == LinkAll(links) && FileSide(Links(links)) == LinkEntries(links)
  {
    LinksLines(Links(links), links);
  }

  lemma LinksLines(part: Part, links: seq<Link>)
    requires InstallPartOf(part) == MakesLinks(links) && FilePartOf(part) == ListsLinks(links)
    ensures InstallSide(part) == LinkAll(links) && FileSide(part) == LinkEntries(links)
  {}

  lemma LinksFace(links: seq<Link>)
    requires forall l :: l in links ==> Below([l.dest])
    ensures Agree(InstallSide(Links(links)), FileSide(Links(links)), {})
  {
    LinkPart(links);
    LinksSides(links);
  }

  lemma PartAgrees(part: Part)
    requires TamePart(part) && PlainPart(part)
    ensures Agree(InstallSide(part), FileSide(part), GlobPaths(part))
  {
    match part
    case Kind(attr, dir, slash, pkg, m) => KindFaces(attr, dir, slash, pkg, m);
    case Manpages(m) => ManpagesFace(m);
    case Dirs(dir, dirs) => DirsFace(dir, dirs);
    case Dropins(dropins) => DropinsFace(dropins);
    case Links(links) => LinksFace(links);
  }

  ghost function Union<K(!new)>(keys: seq<K>, h: K -> set<seq<string>>): set<seq<string>>
  {
    set k, q | k in keys && q in h(k) :: q
  }

  lemma AgreeAppend(a: seq<Command>, b: seq<Command>, c: seq<Entry>, d: seq<Entry>, g: set<seq<string>>,
    h: set<seq<string>>)
    requires Agree(a, c, g) && Agree(b, d, h)
    ensures Agree(a + b, c + d, g + h)
  {
    CreatedAppend(a, b);
    ListedAppend(c, d);
    UnderAppend(Listed(c) + g, Listed(d) + h);
    assert Listed(c) + g + (Listed(d) + h) == Listed(c) + Listed(d) + (g + h);
    MadeAppend(a, b, c, d);
  }

  lemma {:induction false} PartsAddUp<K(!new)>(keys: seq<K>, f: K -> seq<Command>, g: K -> seq<Entry>,
    h: K -> set<seq<string>>)
    requires forall k :: k in keys ==> Agree(f(k), g(k), h(k))
    ensures Agree(FlatMap(keys, f), FlatMap(keys, g), Union(keys, h))
  {
    if keys == [] {
      assert Union(keys, h) == {};
    } else {
      var front, last := keys[..|keys| - 1], keys[|keys| - 1];
      PartsAddUp(front, f, g, h);
      UnionLast(keys, h);
      AgreeAppend(FlatMap(front, f), f(last), FlatMap(front, g), g(last), Union(front, h), h(last));
    }
  }

  lemma UnionLast<K(!new)>(keys: seq<K>, h: K -> set<seq<string>>)
    requires keys != []
    ensures Union(keys, h) == Union(keys[..|keys| - 1], h) + h(keys[|keys| - 1])
  {
    var front, last := keys[..|keys| - 1], keys[|keys| - 1];
    assert keys == front + [last];
  }

  lemma OnlyManpagesGlob(parts: seq<Part>, m: ArtifactMap)
    requires Manpages(m) in parts && forall part :: part in parts && part.Manpages? ==> part.m == m
    ensures Union(parts, GlobPaths) == GlobPaths(Manpages(m))
  {}

  lemma ManpagesOnce(pkg: string, a: Artifacts)
    ensures Manpages(a.manpages) in Parts(pkg, a)
    ensures forall part :: part in Parts(pkg, a) && part.Manpages? ==> part.m == a.manpages
  {
    assert Parts(pkg, a)[1] == Manpages(a.manpages);
  }

  /** The files and links `%install` creates are, minus the build root, exactly the paths
      `%files` lists and the manpages it leaves to the glob; and every directory `%files`
      lists is made. */
  lemma InstallIsFiles(pkg: string, a: Artifacts)
    requires TamePackage(pkg, a)
    ensures Created(InstallLines(pkg, a))
         == UnderBuildroot(Listed(FileLines(pkg, a)) + GlobPaths(Manpages(a.manpages)))
    ensures DirectoriesMade(InstallLines(pkg, a), FileLines(pkg, a))
  {
    InstallFaces(pkg, a);
    FilesFace(pkg, a);
    PartsFace(pkg, a);
  }

  lemma PartsFace(pkg: string, a: Artifacts)
    requires TamePackage(pkg, a)
    ensures Agree(FlatMap(Parts(pkg, a), InstallSide), FlatMap(Parts(pkg, a), FileSide),
      GlobPaths(Manpages(a.manpages)))
  {
    PartsPlain(pkg, a);
    ManpagesOnce(pkg, a);
    var parts := Parts(pkg, a);
    forall part | part in parts ensures Agree(InstallSide(part), FileSide(part), GlobPaths(part)) {
      PartAgrees(part);
    }
    PartsAddUp(parts, InstallSide, FileSide, GlobPaths);
    OnlyManpagesGlob(parts, a.manpages);
  }
}
