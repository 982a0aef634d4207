/**
 Where every artifact of an RPM package goes, under which name and with which permissions, told
 kind by kind in the words of the spec file, and that `%install` does that and nothing else.
 */
module RpmPlaces {
  import opened Values
  import opened Order
  import opened Paths
  import opened PathLaws
  import opened RpmFiles
  import opened RpmFilesAgree

  // ---------- what is asked for ----------

  /** The artifacts of one kind: the macro of their directory, what follows it, and the
      directive they are listed with; manpages are not listed one by one. */
  datatype Row = Row(m: ArtifactMap, macro: string, extra: seq<string>, listed: Option<string>)

  ghost function Goes(pkg: string, a: Artifacts): seq<Row>
  {
    [ Row(a.binaries, "%{_bindir}", [], Some("")),
      Row(a.manpages, "%{_mandir}", [], None),
      Row(a.dataDirs, "%{_datadir}", [], Some("")),
      Row(a.libexec, "%{_libexecdir}", [], Some("")),
      Row(a.configFiles, "%{_sysconfdir}", [], Some("%config(noreplace)")),
      Row(a.units, "%{_unitdir}", [], Some("")),
      Row(map d | d in a.dropins :: ArtifactConfig(a.dropins[d].unit + ".d", a.dropins[d].name, 0),
        "%{_unitdir}", [], Some("")),
      Row(a.docs, "%{_docdir}", [pkg], Some("%doc")),
      Row(a.licenses, "%{_licensedir}", [pkg], Some("%license")),
      Row(a.libs, "%{_libdir}", [], Some("")),
      Row(a.headers, "%{_includedir}", [], Some("")) ]
  }

  /** The artifact `p` is called `c`: by its own name, or else by the last element of `p`. */
  ghost predicate CalledAs(cfg: ArtifactConfig, p: string, c: string)
  {
    if cfg.name != "" then c == cfg.name
    else if p == "" then c == "."
    else if OnlySlashes(p) then c == "/"
    else IsLast(p, c)
  }

  /** The text ends in this element, and slashes after it. */
  ghost predicate IsLast(p: string, c: string)
  {
    c != "" && '/' !in c && exists u, z :: p == u + c + z && (u == "" || u[|u| - 1] == '/') && OnlySlashes(z)
  }

  lemma CalledIsResolved(cfg: ArtifactConfig, p: string, c: string)
    ensures CalledAs(cfg, p, c) <==> c == cfg.ResolveName(p)
  {
    BaseOtherwise(p);
    if IsLast(p, c) {
      var u, z :| p == u + c + z && (u == "" || u[|u| - 1] == '/') && OnlySlashes(z);
      BaseIsLast(u, c, z);
    }
    if !OnlySlashes(p) {
      var u, d, z := HasElement(p);
      BaseIsLast(u, d, z);
      assert IsLast(p, d);
    }
  }

  // ---------- the rows are the parts ----------

  ghost function RowOf(part: Part): Row
    requires !part.Dirs? && !part.Links?
  {
    match part
    case Kind(attr, dir, _, pkg, m) => Row(m, dir, pkg, Some(attr))
    case Manpages(m) => Row(m, ManDir, [], None)
    case Dropins(dropins) => Row(DropinArtifacts(dropins), UnitFileDir, [], Some(""))
  }

  /** The place of a row in the two sections. */
  function PartIndex(i: nat): nat
  {
    if i < 2 then i else if i < 10 then i + 2 else i + 3
  }

  lemma EarlyRow(pkg: string, a: Artifacts, i: nat)
    requires i < 6
    ensures var part := Parts(pkg, a)[PartIndex(i)]; !part.Dirs? && !part.Links? && RowOf(part) == Goes(pkg, a)[i]
  {}

  lemma LateRow(pkg: string, a: Artifacts, i: nat)
    requires 6 <= i < |Goes(pkg, a)|
    ensures var part := Parts(pkg, a)[PartIndex(i)]; !part.Dirs? && !part.Links? && RowOf(part) == Goes(pkg, a)[i]
  {
    if i == 6 {
      assert DropinArtifacts(a.dropins)
        == map d | d in a.dropins :: ArtifactConfig(a.dropins[d].unit + ".d", a.dropins[d].name, 0);
    }
  }

  lemma RowIsPart(pkg: string, a: Artifacts, i: nat) returns (part: Part)
    requires i < |Goes(pkg, a)|
    ensures part in Parts(pkg, a) && !part.Dirs? && !part.Links? && RowOf(part) == Goes(pkg, a)[i]
  {
    part := Parts(pkg, a)[PartIndex(i)];
    if i < 6 { EarlyRow(pkg, a, i); } else { LateRow(pkg, a, i); }
  }

  lemma PartIsRow(pkg: string, a: Artifacts, part: Part) returns (i: nat)
    requires part in Parts(pkg, a) && !part.Dirs? && !part.Links?
    ensures i < |Goes(pkg, a)| && RowOf(part) == Goes(pkg, a)[i]
  {
    var j :| 0 <= j < |Parts(pkg, a)| && Parts(pkg, a)[j] == part;
    i := if j < 2 then j else if j < 12 then j - 2 else j - 3;
    IndexOf(pkg, a, j);
    if i < 6 { EarlyRow(pkg, a, i); } else { LateRow(pkg, a, i); }
  }

  lemma IndexOf(pkg: string, a: Artifacts, j: nat)
    requires j < |Parts(pkg, a)| && !Parts(pkg, a)[j].Dirs? && !Parts(pkg, a)[j].Links?
    ensures var i := if j < 2 then j else if j < 12 then j - 2 else j - 3; 0 <= i < |Goes(pkg, a)| && PartIndex(i) == j
  {}

  lemma RowSide(part: Part)
    requires !part.Dirs? && !part.Links?
    ensures InstallSide(part) == CopyAll(InstallRoot(RowOf(part).macro, RowOf(part).extra), RowOf(part).m)
  {
    CopiesSide(part, InstallRoot(RowOf(part).macro, RowOf(part).extra), RowOf(part).m);
  }

  lemma CopiesSide(part: Part, root: string, m: ArtifactMap)
    requires InstallPartOf(part) == Copies(root, m)
    ensures InstallSide(part) == CopyAll(root, m)
  {}

  lemma RowTame(pkg: string, a: Artifacts, part: Part)
    requires TamePackage(pkg, a) && part in Parts(pkg, a) && !part.Dirs? && !part.Links?
    ensures PlainComponent(RowOf(part).macro) && |RowOf(part).extra| <= 1 && Tame(RowOf(part).extra, RowOf(part).m)
  {
    assert TamePart(part);
    PartsPlain(pkg, a);
    assert PlainPart(part);
    ManDirPlain();
    UnitFileDirPlain();
  }

  lemma UnitFileDirPlain()
    ensures PlainComponent(UnitFileDir)
  {}

  // ---------- blocks of lines ----------

  lemma {:induction false} BlockOf<K, X>(keys: seq<K>, f: K -> seq<X>, k: K) returns (pre: seq<X>, post: seq<X>)
    requires k in keys
    ensures FlatMap(keys, f) == pre + f(k) + post
  {
    var front, last := keys[..|keys| - 1], keys[|keys| - 1];
    if last == k {
      pre, post := FlatMap(front, f), [];
    } else {
      pre, post := BlockOf(front, f, k);
      assert pre + f(k) + post + f(last) == pre + f(k) + (post + f(last));
      post := post + f(last);
    }
  }

  lemma BlockWithin<X>(outer: seq<X>, pre: seq<X>, inner: seq<X>, post: seq<X>, pre': seq<X>, x: seq<X>, post': seq<X>)
    requires outer == pre + inner + post && inner == pre' + x + post'
    ensures outer == (pre + pre') + x + (post' + post)
  {}

  /** The place of an artifact below the root of the package. */
  ghost function PlaceIn(row: Row, p: string, c: string): seq<string>
    requires p in row.m
  {
    [row.macro] + Relative(row.extra + [row.m[p].subPath, c])
  }

  /** Copying one artifact: its directory is made, it is copied, and its permissions are set
      if it has any. */
  ghost predicate CopyBlock(row: Row, p: string, c: string, dir: string, dest: string, block: seq<Command>)
    requires p in row.m
  {
    && block == [Mkdir(0, dir), Copy(p, dest)] + (if row.m[p].perm != 0 then [Chmod(row.m[p].perm, dest)] else [])
    && Components(dest) == ["%{buildroot}"] + PlaceIn(row, p, c)
    && dest == Join([dir, c])
  }

  lemma CopiesAs(row: Row, p: string, c: string)
    requires PlainComponent(row.macro) && |row.extra| <= 1 && Tame(row.extra, row.m) && p in row.m
    requires CalledAs(row.m[p], p, c)
    ensures var root := InstallRoot(row.macro, row.extra);
      var dir := Join([root, row.m[p].subPath]);
      CopyBlock(row, p, c, dir, Join([dir, c]), CopyOne(root, row.m)(p))
  {
    CalledIsResolved(row.m[p], p, c);
    KindRoots(row.macro, false, row.extra);
    CopiesBelow(row, InstallRoot(row.macro, row.extra), p, c);
  }

  lemma CopiesBelow(row: Row, root: string, p: string, c: string)
    requires RootOf(root, [Buildroot, row.macro], row.extra) && Tame(row.extra, row.m) && p in row.m
    requires c == row.m[p].ResolveName(p)
    ensures var dir := Join([root, row.m[p].subPath]);
      CopyBlock(row, p, c, dir, Join([dir, c]), CopyOne(root, row.m)(p))
  {
    CopyOneLines(root, row.m, p);
    PlaceJoined(row, root, p, c);
  }

  lemma PlaceJoined(row: Row, root: string, p: string, c: string)
    requires RootOf(root, [Buildroot, row.macro], row.extra) && p in row.m && Below(row.extra + [row.m[p].subPath, c])
    ensures Components(Join([Join([root, row.m[p].subPath]), c])) == ["%{buildroot}"] + PlaceIn(row, p, c)
  {
    JoinBelow(root, [Buildroot, row.macro], row.extra, row.m[p].subPath, c);
    TwoInFront(Buildroot, row.macro, Relative(row.extra + [row.m[p].subPath, c]));
  }

  lemma TwoInFront(a: string, b: string, rest: seq<string>)
    ensures [a, b] + rest == [a] + ([b] + rest)
  {}

  /** Every artifact is copied to the directory of its kind, under its sub-path and by the name
      it is called. */
  lemma ArtifactInstalled(pkg: string, a: Artifacts, i: nat, p: string, c: string)
    returns (pre: seq<Command>, dir: string, dest: string, block: seq<Command>, post: seq<Command>)
    requires TamePackage(pkg, a) && i < |Goes(pkg, a)|
    requires p in Goes(pkg, a)[i].m && CalledAs(Goes(pkg, a)[i].m[p], p, c)
    ensures InstallLines(pkg, a) == pre + block + post && CopyBlock(Goes(pkg, a)[i], p, c, dir, dest, block)
  {
    var row := Goes(pkg, a)[i];
    var part := RowIsPart(pkg, a, i);
    RowTame(pkg, a, part);
    RowSide(part);
    var root := InstallRoot(row.macro, row.extra);
    dir := Join([root, row.m[p].subPath]);
    dest, block := Join([dir, c]), CopyOne(root, row.m)(p);
    CopiesAs(row, p, c);
    InstallFaces(pkg, a);
    var before, after := BlockOf(Parts(pkg, a), InstallSide, part);
    var before', after' := BlockOf(SortedKeys(row.m.Keys), CopyOne(root, row.m), p);
    BlockWithin(InstallLines(pkg, a), before, InstallSide(part), after, before', block, after');
    pre, post := before + before', after' + after;
  }

  /** Every artifact but a manpage is listed where it is copied to, with its directive. */
  lemma ArtifactListed(pkg: string, a: Artifacts, i: nat, p: string, c: string) returns (path: string)
    requires TamePackage(pkg, a) && i < |Goes(pkg, a)| && Goes(pkg, a)[i].listed.Some?
    requires p in Goes(pkg, a)[i].m && CalledAs(Goes(pkg, a)[i].m[p], p, c)
    ensures File(Goes(pkg, a)[i].listed.value, path) in FileLines(pkg, a)
    ensures Components(path) == PlaceIn(Goes(pkg, a)[i], p, c)
  {
    var row := Goes(pkg, a)[i];
    var part := RowIsPart(pkg, a, i);
    RowTame(pkg, a, part);
    CalledIsResolved(row.m[p], p, c);
    FilesFace(pkg, a);
    path := ListedAs(part, p);
    InFlatMap(Parts(pkg, a), FileSide, File(row.listed.value, path));
  }

  lemma ListedAs(part: Part, p: string) returns (path: string)
    requires part.Kind? || part.Dropins?
    requires p in RowOf(part).m && PlainComponent(RowOf(part).macro) && Tame(RowOf(part).extra, RowOf(part).m)
    ensures File(RowOf(part).listed.value, path) in FileSide(part)
    ensures Components(path) == PlaceIn(RowOf(part), p, RowOf(part).m[p].ResolveName(p))
  {
    match part
    case Kind(attr, dir, slash, pkg, m) => path := KindListedAs(attr, dir, slash, pkg, m, p);
    case Dropins(dropins) => path := DropinListedAs(dropins, p);
  }

  lemma KindListedAs(attr: string, dir: string, slash: bool, pkg: seq<string>, m: ArtifactMap, p: string)
    returns (path: string)
    requires PlainComponent(dir) && Tame(pkg, m) && p in m
    ensures File(attr, path) in FileSide(Kind(attr, dir, slash, pkg, m))
    ensures Components(path) == [dir] + Relative(pkg + [m[p].subPath, m[p].ResolveName(p)])
  {
    KindSides(attr, dir, slash, pkg, m);
    OneRoot(dir);
    SlashRoot(dir);
    path := KindListed(attr, if slash then dir + "/" else dir, dir, pkg, m, p);
  }

  lemma DropinListedAs(dropins: map<string, Dropin>, d: string) returns (path: string)
    requires d in dropins && Tame([], DropinArtifacts(dropins))
    ensures File("", path) in FileSide(Dropins(dropins))
    ensures var cfg := DropinArtifacts(dropins)[d];
      Components(path) == [UnitFileDir] + Relative([] + [cfg.subPath, cfg.ResolveName(d)])
  {
    var e := DropinEntry(dropins)(d);
    DropinsSides(dropins);
    DropinsComplete(dropins, e);
    DropinPlace(dropins, d);
    path := e.path;
  }

  lemma KindListed(attr: string, macro: string, dir: string, extra: seq<string>, m: ArtifactMap, p: string)
    returns (path: string)
    requires RootOf(macro, [dir], []) && Tame(extra, m) && p in m
    ensures File(attr, path) in ListAll(attr, [macro] + extra, m)
    ensures Components(path) == [dir] + Relative(extra + [m[p].subPath, m[p].ResolveName(p)])
  {
    var elems := extra + [m[p].subPath, m[p].ResolveName(p)];
    path := Join([macro] + elems);
    assert [macro] + extra + [m[p].subPath, m[p].ResolveName(p)] == [macro] + elems;
    ListBelow(macro, dir, elems);
    assert ListOne(attr, [macro] + extra, m)(p)[0] == File(attr, path);
    InFlatMap(SortedKeys(m.Keys), ListOne(attr, [macro] + extra, m), File(attr, path));
  }

  lemma DropinPlace(dropins: map<string, Dropin>, d: string)
    requires d in dropins && Tame([], DropinArtifacts(dropins))
    ensures var cfg := DropinArtifacts(dropins)[d];
      DropinEntry(dropins)(d).attr == ""
      && Components(DropinEntry(dropins)(d).path) == [UnitFileDir] + Relative([] + [cfg.subPath, cfg.ResolveName(d)])
  {
    UnitFileDirPlain();
    OneRoot(UnitFileDir);
    DropinIsArtifact(dropins, d);
    EntryPlace("", UnitFileDir, DropinArtifacts(dropins), d, DropinEntry(dropins)(d));
  }

  lemma EntryPlace(attr: string, dir: string, m: ArtifactMap, p: string, e: Entry)
    requires RootOf(dir, [dir], []) && Tame([], m) && p in m && ListOne(attr, [dir], m)(p) == [e]
    ensures e.File? && e.attr == attr
      && Components(e.path) == [dir] + Relative([] + [m[p].subPath, m[p].ResolveName(p)])
  {
    var elems := [] + [m[p].subPath, m[p].ResolveName(p)];
    ListBelow(dir, dir, elems);
    assert [dir] + [m[p].subPath, m[p].ResolveName(p)] == [dir] + elems;
    assert [e][0] == File(attr, Join([dir] + elems));
  }

  // ---------- directories and links ----------

  /** A directory asked for: its mode, its macro and its key. */
  ghost predicate DirAsked(a: Artifacts, macro: string, p: string, mode: nat)
  {
    || (macro == "%{_sysconfdir}" && p in a.configDirs && mode == a.configDirs[p])
    || (macro == "%{_sharedstatedir}" && p in a.stateDirs && mode == a.stateDirs[p])
  }

  lemma DirPartOf(pkg: string, a: Artifacts, macro: string, p: string, mode: nat) returns (dirs: map<string, nat>)
    requires DirAsked(a, macro, p, mode)
    ensures Dirs(macro, dirs) in Parts(pkg, a) && p in dirs && dirs[p] == mode
  {
    if macro == "%{_sysconfdir}" {
      dirs := a.configDirs;
      assert Parts(pkg, a)[2] == Dirs(macro, dirs);
    } else {
      dirs := a.stateDirs;
      assert Parts(pkg, a)[3] == Dirs(macro, dirs);
    }
  }

  lemma DirPlace(macro: string, p: string)
    requires PlainComponent(macro) && Below([p])
    ensures Components(Join([Under(macro), p])) == ["%{buildroot}", macro] + Relative([p])
    ensures Components(Join([macro, p])) == [macro] + Relative([p])
  {
    BuildrootPlain();
    OneRoot(macro);
    TwoRoot(Buildroot, macro);
    JoinOneBelow(Under(macro), [Buildroot, macro], p);
    JoinOneBelow(macro, [macro], p);
  }

  lemma DirTame(pkg: string, a: Artifacts, macro: string, dirs: map<string, nat>, p: string)
    requires TamePackage(pkg, a) && Dirs(macro, dirs) in Parts(pkg, a) && p in dirs
    ensures PlainComponent(macro) && Below([p])
  {
    PartsPlain(pkg, a);
    assert PlainPart(Dirs(macro, dirs)) && TamePart(Dirs(macro, dirs));
  }

  /** Every directory asked for is made below its macro, with its mode, and listed there. */
  lemma DirectoryMade(pkg: string, a: Artifacts, macro: string, p: string, mode: nat)
    returns (dir: string, path: string)
    requires TamePackage(pkg, a) && DirAsked(a, macro, p, mode)
    ensures Mkdir(mode, dir) in InstallLines(pkg, a) && Components(dir) == ["%{buildroot}", macro] + Relative([p])
    ensures Directory(path) in FileLines(pkg, a) && Components(path) == [macro] + Relative([p])
  {
    var dirs := DirPartOf(pkg, a, macro, p, mode);
    DirTame(pkg, a, macro, dirs, p);
    DirPlace(macro, p);
    dir, path := Join([Under(macro), p]), Join([macro, p]);
    DirsSides(macro, dirs);
    InstallFaces(pkg, a);
    FilesFace(pkg, a);
    assert MkdirOne(Under(macro), dirs)(p)[0] == Mkdir(mode, dir) && DirOne(macro)(p)[0] == Directory(path);
    InFlatMap(SortedKeys(dirs.Keys), MkdirOne(Under(macro), dirs), Mkdir(mode, dir));
    InFlatMap(SortedKeys(dirs.Keys), DirOne(macro), Directory(path));
    InFlatMap(Parts(pkg, a), InstallSide, Mkdir(mode, dir));
    InFlatMap(Parts(pkg, a), FileSide, Directory(path));
  }

  /** Who owns a link, if anyone is named: the one who is not is root. */
  function Owned(user: string, group: string): string
  {
    if user == "" && group == "" then ""
    else if user == "" then "%attr(-, root, " + group + ")"
    else if group == "" then "%attr(-, " + user + ", root)"
    else "%attr(-, " + user + ", " + group + ")"
  }

  lemma LinkOwned(l: Link)
    ensures LinkAttr(l) == Owned(l.user, l.group)
  {
    if l.user == "" && l.group != "" {
      assert "%attr(-, " + "root" + ", " + l.group + ")" == "%attr(-, root, " + l.group + ")";
    } else if l.user != "" && l.group == "" {
      assert "%attr(-, " + l.user + ", " + "root" + ")" == "%attr(-, " + l.user + ", root)";
    }
  }

  /** Every link is made at its destination below the build root, its directory before it, and
      listed at its destination with its owner. */
  lemma LinkInstalled(pkg: string, a: Artifacts, l: Link)
    returns (pre: seq<Command>, dir: string, dest: string, post: seq<Command>)
    requires TamePackage(pkg, a) && l in a.links
    ensures InstallLines(pkg, a) == pre + [Mkdir(0, dir), Symlink(l.source, dest)] + post
    ensures Components(dest) == ["%{buildroot}"] + Relative([l.dest])
    ensures File(Owned(l.user, l.group), l.dest) in FileLines(pkg, a)
  {
    var part := Links(a.links);
    assert Parts(pkg, a)[12] == part;
    assert TamePart(part);
    BuildrootPlain();
    DestBelow(Buildroot, l.dest);
    LinksSides(a.links);
    InstallFaces(pkg, a);
    FilesFace(pkg, a);
    dir, dest := Dir(Join([Buildroot, l.dest])), Under(l.dest);
    var before, after := BlockOf(Parts(pkg, a), InstallSide, part);
    var before', after' := BlockOf(a.links, LinkOne, l);
    BlockWithin(InstallLines(pkg, a), before, InstallSide(part), after, before', LinkOne(l), after');
    pre, post := before + before', after' + after;
    LinkOwned(l);
    var e := File(Owned(l.user, l.group), l.dest);
    assert LinkEntry(l)[0] == e;
    InFlatMap(a.links, LinkEntry, e);
    InFlatMap(Parts(pkg, a), FileSide, e);
  }

  // ---------- nothing else ----------

  ghost predicate ArtifactAt(pkg: string, a: Artifacts, i: nat, p: string, c: string, place: seq<string>)
  {
    && i < |Goes(pkg, a)| && p in Goes(pkg, a)[i].m && CalledAs(Goes(pkg, a)[i].m[p], p, c)
    && place == ["%{buildroot}"] + PlaceIn(Goes(pkg, a)[i], p, c)
  }

  /** The command is there for an artifact, a directory or a link. */
  ghost predicate CommandAsked(pkg: string, a: Artifacts, c: Command)
  {
    match c
    case Copy(source, dest) => exists i: nat, n :: ArtifactAt(pkg, a, i, source, n, Components(dest))
    case Chmod(mode, path) => mode != 0 && PermissionAsked(pkg, a, mode, Components(path))
    case Symlink(target, dest) =>
      exists l :: l in a.links && l.source == target && Components(dest) == ["%{buildroot}"] + Relative([l.dest])
    case Mkdir(mode, dir) => mode == 0 || ModeAsked(a, mode, Components(dir))
  }

  ghost predicate PermissionAsked(pkg: string, a: Artifacts, mode: nat, place: seq<string>)
  {
    exists i: nat, p, n :: ArtifactAt(pkg, a, i, p, n, place) && Goes(pkg, a)[i].m[p].perm == mode
  }

  ghost predicate ModeAsked(a: Artifacts, mode: nat, place: seq<string>)
  {
    exists macro, p :: DirAsked(a, macro, p, mode) && place == ["%{buildroot}", macro] + Relative([p])
  }

  lemma RowCommand(pkg: string, a: Artifacts, part: Part, c: Command)
    requires TamePackage(pkg, a) && part in Parts(pkg, a) && !part.Dirs? && !part.Links? && c in InstallSide(part)
    ensures CommandAsked(pkg, a, c)
  {
    var i := PartIsRow(pkg, a, part);
    var row := RowOf(part);
    RowTame(pkg, a, part);
    RowSide(part);
    var root := InstallRoot(row.macro, row.extra);
    InFlatMap(SortedKeys(row.m.Keys), CopyOne(root, row.m), c);
    var p :| p in SortedKeys(row.m.Keys) && c in CopyOne(root, row.m)(p);
    var n := row.m[p].ResolveName(p);
    CalledIsResolved(row.m[p], p, n);
    CopiesAs(row, p, n);
    var dir := Join([root, row.m[p].subPath]);
    assert ArtifactAt(pkg, a, i, p, n, Components(Join([dir, n])));
    BlockCommand(row, p, n, dir, Join([dir, n]), CopyOne(root, row.m)(p), c);
  }

  lemma BlockCommand(row: Row, p: string, n: string, dir: string, dest: string, block: seq<Command>, c: Command)
    requires p in row.m && CopyBlock(row, p, n, dir, dest, block) && c in block
    ensures c == Mkdir(0, dir) || c == Copy(p, dest) || (row.m[p].perm != 0 && c == Chmod(row.m[p].perm, dest))
  {}

  lemma DirCommand(pkg: string, a: Artifacts, macro: string, dirs: map<string, nat>, c: Command)
    requires TamePackage(pkg, a) && Dirs(macro, dirs) in Parts(pkg, a) && c in InstallSide(Dirs(macro, dirs))
    ensures CommandAsked(pkg, a, c)
  {
    DirsSides(macro, dirs);
    InFlatMap(SortedKeys(dirs.Keys), MkdirOne(Under(macro), dirs), c);
    var p :| p in SortedKeys(dirs.Keys) && c in MkdirOne(Under(macro), dirs)(p);
    DirTame(pkg, a, macro, dirs, p);
    DirsAreAsked(pkg, a, macro, dirs, p);
    DirLine(macro, dirs, p, c);
    ModeIsAsked(a, macro, p, c);
  }

  lemma DirLine(macro: string, dirs: map<string, nat>, p: string, c: Command)
    requires p in dirs && c in MkdirOne(Under(macro), dirs)(p) && PlainComponent(macro) && Below([p])
    ensures c.Mkdir? && c.mode == dirs[p] && Components(c.dir) == ["%{buildroot}", macro] + Relative([p])
  {
    DirPlace(macro, p);
  }

  lemma ModeIsAsked(a: Artifacts, macro: string, p: string, c: Command)
    requires c.Mkdir? && DirAsked(a, macro, p, c.mode)
    requires Components(c.dir) == ["%{buildroot}", macro] + Relative([p])
    ensures ModeAsked(a, c.mode, Components(c.dir))
  {}

  lemma DirsAreAsked(pkg: string, a: Artifacts, macro: string, dirs: map<string, nat>, p: string)
    requires Dirs(macro, dirs) in Parts(pkg, a) && p in dirs
    ensures DirAsked(a, macro, p, dirs[p])
  {
    var j :| 0 <= j < |Parts(pkg, a)| && Parts(pkg, a)[j] == Dirs(macro, dirs);
    TwoDirs(pkg, a, j);
  }

  lemma TwoDirs(pkg: string, a: Artifacts, j: nat)
    requires j < |Parts(pkg, a)| && Parts(pkg, a)[j].Dirs?
    ensures Parts(pkg, a)[j] == Dirs("%{_sysconfdir}", a.configDirs)
      || Parts(pkg, a)[j] == Dirs("%{_sharedstatedir}", a.stateDirs)
  {}

  lemma LinkCommand(pkg: string, a: Artifacts, links: seq<Link>, c: Command)
    requires TamePackage(pkg, a) && Links(links) in Parts(pkg, a) && c in InstallSide(Links(links))
    ensures CommandAsked(pkg, a, c)
  {
    LinksSides(links);
    InFlatMap(links, LinkOne, c);
    var l :| l in links && c in LinkOne(l);
    OnlyLinks(pkg, a, links);
    assert TamePart(Links(links));
    BuildrootPlain();
    DestBelow(Buildroot, l.dest);
    LinkLine(l, c);
  }

  lemma LinkLine(l: Link, c: Command)
    requires c in LinkOne(l)
    ensures c == Symlink(l.source, Under(l.dest)) || (c.Mkdir? && c.mode == 0)
  {}

  lemma OnlyLinks(pkg: string, a: Artifacts, links: seq<Link>)
    requires Links(links) in Parts(pkg, a)
    ensures links == a.links
  {
    var j :| 0 <= j < |Parts(pkg, a)| && Parts(pkg, a)[j] == Links(links);
    LinksAt(pkg, a, j);
  }

  lemma LinksAt(pkg: string, a: Artifacts, j: nat)
    requires j < |Parts(pkg, a)| && Parts(pkg, a)[j].Links?
    ensures Parts(pkg, a)[j] == Links(a.links)
  {}

  /** `%install` does nothing else: every copy and every change of permissions is that of an
      artifact, every link one that is asked for, and every directory with a mode too. */
  lemma OnlyAsked(pkg: string, a: Artifacts, c: Command)
    requires TamePackage(pkg, a) && c in InstallLines(pkg, a)
    ensures CommandAsked(pkg, a, c)
  {
    InstallFaces(pkg, a);
    InFlatMap(Parts(pkg, a), InstallSide, c);
    var part :| part in Parts(pkg, a) && c in InstallSide(part);
    match part
    case Dirs(macro, dirs) => DirCommand(pkg, a, macro, dirs, c);
    case Links(links) => LinkCommand(pkg, a, links, c);
    case _ => RowCommand(pkg, a, part, c);
  }

  /** An artifact without options: the last element of its key, in the directory of its kind. */
  lemma UnnamedPlace(row: Row, p: string, u: string, c: string)
    requires p in row.m && row.m[p].name == "" && row.m[p].subPath == "" && row.extra == []
    requires p == u + c && (u == "" || u[|u| - 1] == '/') && PlainComponent(c)
    ensures CalledAs(row.m[p], p, c) && PlaceIn(row, p, c) == [row.macro, c]
  {
    NameIsGivenOrLast("", u, c, "");
    assert u + c + "" == p;
    CalledIsResolved(row.m[p], p, c);
    assert row.extra + ["", c] == ["", c];
    NameAlone(c);
  }

  lemma NameAlone(c: string)
    requires PlainComponent(c)
    ensures Relative(["", c]) == [c]
  {
    SplitEachPair("", c);
    SplitPlain("");
    SplitPlain(c);
    PushAllAppend(false, [], [""], [c]);
    PushOne([], "");
    PushOne([], c);
  }
}
