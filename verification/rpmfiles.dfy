/**
 The RPM `%install` and `%files` sections. Two separate passes over a dozen kinds of
 artifacts: one writes the commands that put files under `%{buildroot}`, the other lists
 the paths to package. Lines are records here rather than text; their paths are text, and
 two paths are the same when they clean to the same components.
 */
module RpmFiles {
  import opened Order
  import opened Paths

  datatype ArtifactConfig = ArtifactConfig(subPath: string, name: string, perm: nat)
  {
    /** `ArtifactConfig.ResolveName`. */
    function ResolveName(path: string): string
    {
      Paths.ResolveName(name, path)
    }
  }

  type ArtifactMap = map<string, ArtifactConfig>

  datatype Dropin = Dropin(name: string, unit: string)
  {
    /** `SystemdDropinConfig.Artifact`. */
    function Artifact(): ArtifactConfig
    {
      ArtifactConfig(unit + ".d", name, 0)
    }
  }

  datatype Link = Link(source: string, dest: string, user: string, group: string)

  /** The artifacts of a package. An absent section is an empty one. Unit files come as the
      artifact that `SystemdUnitConfig.Artifact` makes of them. */
  datatype Artifacts = Artifacts(
    binaries: ArtifactMap, manpages: ArtifactMap, configDirs: map<string, nat>, stateDirs: map<string, nat>,
    dataDirs: ArtifactMap, libexec: ArtifactMap, configFiles: ArtifactMap, units: ArtifactMap,
    dropins: map<string, Dropin>, docs: ArtifactMap, licenses: ArtifactMap, libs: ArtifactMap,
    links: seq<Link>, headers: ArtifactMap)

  datatype Command =
    | Mkdir(mode: nat, dir: string)   // mkdir [-m mode] -p dir
    | Copy(source: string, dest: string)
    | Chmod(mode: nat, path: string)
    | Symlink(target: string, dest: string)

  datatype Entry =
    | File(attr: string, path: string)
    | Directory(path: string)         // %dir path
    | ManGlob                         // %{_mandir}/*/*

  const Buildroot := "%{buildroot}"

  const BinDir := "%{_bindir}"
  const ManDir := "%{_mandir}"
  const ConfDir := "%{_sysconfdir}"
  const StateDir := "%{_sharedstatedir}"
  const DataDir := "%{_datadir}"
  const LibexecDir := "%{_libexecdir}"
  const UnitFileDir := "%{_unitdir}"
  const DocDir := "%{_docdir}"
  const LicenseDir := "%{_licensedir}"
  const LibDir := "%{_libdir}"
  const IncludeDir := "%{_includedir}"

  /** `%{buildroot}/` followed by a path. */
  function Under(path: string): string
  {
    Buildroot + "/" + path
  }

  // ---------- loops that append lines ----------

  ghost function FlatMap<K, X>(keys: seq<K>, f: K -> seq<X>): seq<X>
  {
    if keys == [] then [] else FlatMap(keys[..|keys| - 1], f) + f(keys[|keys| - 1])
  }

  lemma {:induction false} InFlatMap<K, X>(keys: seq<K>, f: K -> seq<X>, x: X)
    ensures x in FlatMap(keys, f) <==> exists k :: k in keys && x in f(k)
  {
    if keys != [] {
      var last := keys[|keys| - 1];
      InFlatMap(keys[..|keys| - 1], f, x);
      assert keys == keys[..|keys| - 1] + [last];
      assert FlatMap(keys, f) == FlatMap(keys[..|keys| - 1], f) + f(last);
    }
  }

  /** `for _, k := range keys`, appending the lines of each. */
  method ForEach<K, X>(keys: seq<K>, f: K -> seq<X>) returns (lines: seq<X>)
    ensures lines == FlatMap(keys, f)
  {
    lines := [];
    for i := 0 to |keys|
      invariant lines == FlatMap(keys[..i], f)
    {
      assert keys[..i + 1][..i] == keys[..i];
      lines := lines + f(keys[i]);
    }
    assert keys[..|keys|] == keys;
  }

  /** The same over the sorted keys of a map. */
  method ForSorted<V, X>(m: map<string, V>, f: string -> seq<X>) returns (lines: seq<X>)
    ensures lines == FlatMap(SortedKeys(m.Keys), f)
  {
    var keys := SortMapKeys(m);
    SortedKeysUnique(keys, SortedKeys(m.Keys), m.Keys);
    lines := ForEach(keys, f);
  }

  // ---------- %install ----------

  /** `copyArtifact`. */
  function CopyOne(root: string, m: ArtifactMap): string -> seq<Command>
  {
    p => if p !in m then [] else
      var dir, file := Join([root, m[p].subPath]), m[p].ResolveName(p);
      var target := if '*' in file then dir + "/" else Join([dir, file]);
      [Mkdir(0, dir), Copy(p, target)] + (if m[p].perm != 0 then [Chmod(m[p].perm, target)] else [])
  }

  /** `createArtifactDir`. */
  function MkdirOne(root: string, m: map<string, nat>): string -> seq<Command>
  {
    p => if p !in m then [] else [Mkdir(m[p], Join([root, p]))]
  }

  function LinkOne(l: Link): seq<Command>
  {
    [Mkdir(0, Dir(Join([Buildroot, l.dest]))), Symlink(l.source, Under(l.dest))]
  }

  /** The drop-ins as the artifacts `copyArtifact` is given. */
  function DropinArtifacts(dropins: map<string, Dropin>): ArtifactMap
  {
    map d | d in dropins :: dropins[d].Artifact()
  }

  ghost function CopyAll(root: string, m: ArtifactMap): seq<Command>
  {
    FlatMap(SortedKeys(m.Keys), CopyOne(root, m))
  }

  ghost function MkdirAll(root: string, m: map<string, nat>): seq<Command>
  {
    FlatMap(SortedKeys(m.Keys), MkdirOne(root, m))
  }

  // ---------- %files ----------

  function ListOne(attr: string, prefix: seq<string>, m: ArtifactMap): string -> seq<Entry>
  {
    p => if p !in m then [] else [File(attr, Join(prefix + [m[p].subPath, m[p].ResolveName(p)]))]
  }

  function DirOne(root: string): string -> seq<Entry>
  {
    p => [Directory(Join([root, p]))]
  }

  function DropinPath(d: string, cfg: Dropin): string
  {
    Join([UnitFileDir, cfg.unit + ".d", cfg.Artifact().ResolveName(d)])
  }

  function UnitOf(dropins: map<string, Dropin>): string -> string
  {
    d => if d in dropins then dropins[d].unit else ""
  }

  function DropinEntry(dropins: map<string, Dropin>): string -> Entry
  {
    d => File("", if d in dropins then DropinPath(d, dropins[d]) else "")
  }

  /** The entry of one key, if it belongs to the unit. */
  function Pick(unit: string, unitOf: string -> string, entry: string -> Entry): string -> seq<Entry>
  {
    d => if unitOf(d) == unit then [entry(d)] else []
  }

  ghost function Units(keys: seq<string>, unitOf: string -> string): set<string>
  {
    set k | k in keys :: unitOf(k)
  }

  /** The `dropins` map of Files: the entries of each unit, in key order. */
  method GroupByUnit(keys: seq<string>, unitOf: string -> string, entry: string -> Entry)
    returns (groups: map<string, seq<Entry>>)
    ensures groups.Keys == Units(keys, unitOf)
    ensures forall u :: u in groups ==> groups[u] == FlatMap(keys, Pick(u, unitOf, entry))
  {
    groups := map[];
    for i := 0 to |keys|
      invariant groups.Keys == Units(keys[..i], unitOf)
      invariant forall u :: u in groups ==> groups[u] == FlatMap(keys[..i], Pick(u, unitOf, entry))
    {
      var unit := unitOf(keys[i]);
      assert keys[..i + 1][..i] == keys[..i];
      assert keys[..i + 1] == keys[..i] + [keys[i]];
      if unit !in groups {
        NoFiles(unit, keys[..i], unitOf, entry);
      }
      var files := if unit in groups then groups[unit] else [];
      groups := groups[unit := files + [entry(keys[i])]];
    }
    assert keys[..|keys|] == keys;
  }

  lemma NoFiles(unit: string, keys: seq<string>, unitOf: string -> string, entry: string -> Entry)
    requires unit !in Units(keys, unitOf)
    ensures FlatMap(keys, Pick(unit, unitOf, entry)) == []
  {
    FlatMapNothing(keys, Pick(unit, unitOf, entry));
  }

  lemma {:induction false} FlatMapNothing<K, X>(keys: seq<K>, f: K -> seq<X>)
    requires forall k :: k in keys ==> f(k) == []
    ensures FlatMap(keys, f) == []
  {
    if keys != [] {
      FlatMapNothing(keys[..|keys| - 1], f);
    }
  }

  function UnitDir(): string -> Entry
  {
    u => Directory(Join([UnitFileDir, u + ".d"]))
  }

  /** The directory entry of a unit, then its files. */
  function UnitOne(dir: string -> Entry, groups: map<string, seq<Entry>>): string -> seq<Entry>
  {
    u => [dir(u)] + (if u in groups then groups[u] else [])
  }

  ghost function Grouped(dropins: map<string, Dropin>): map<string, seq<Entry>>
  {
    var keys := SortedKeys(dropins.Keys);
    map u | u in Units(keys, UnitOf(dropins)) :: FlatMap(keys, Pick(u, UnitOf(dropins), DropinEntry(dropins)))
  }

  ghost function DropinAll(dropins: map<string, Dropin>): seq<Entry>
  {
    FlatMap(SortedKeys(Grouped(dropins).Keys), UnitOne(UnitDir(), Grouped(dropins)))
  }

  method ListDropins(dropins: map<string, Dropin>) returns (lines: seq<Entry>)
    ensures lines == DropinAll(dropins)
  {
    var keys := SortMapKeys(dropins);
    SortedKeysUnique(keys, SortedKeys(dropins.Keys), dropins.Keys);
    var groups := GroupByUnit(keys, UnitOf(dropins), DropinEntry(dropins));
    assert groups == Grouped(dropins);
    lines := ForSorted(groups, UnitOne(UnitDir(), groups));
  }

  /** The ownership prefix of a link's entry. */
  function LinkAttr(l: Link): string
  {
    if l.user == "" && l.group == "" then "" else
      "%attr(-, " + (if l.user == "" then "root" else l.user) + ", " + (if l.group == "" then "root" else l.group) + ")"
  }

  function LinkEntry(l: Link): seq<Entry>
  {
    [File(LinkAttr(l), l.dest)]
  }

  ghost function ListAll(attr: string, prefix: seq<string>, m: ArtifactMap): seq<Entry>
  {
    FlatMap(SortedKeys(m.Keys), ListOne(attr, prefix, m))
  }

  ghost function DirAll(root: string, keys: set<string>): seq<Entry>
  {
    FlatMap(SortedKeys(keys), DirOne(root))
  }

  /** The entries of libexec, whose path is joined in two steps. */
  function ListTwoStep(dir: string, m: ArtifactMap): string -> seq<Entry>
  {
    p => if p !in m then [] else [File("", Join([Join([dir, m[p].subPath]), m[p].ResolveName(p)]))]
  }

  ghost function LinkAll(links: seq<Link>): seq<Command>
  {
    FlatMap(links, LinkOne)
  }

  ghost function TwoStepAll(dir: string, m: ArtifactMap): seq<Entry>
  {
    FlatMap(SortedKeys(m.Keys), ListTwoStep(dir, m))
  }

  ghost function LinkEntries(links: seq<Link>): seq<Entry>
  {
    FlatMap(links, LinkEntry)
  }

  // ---------- the commands of `%install` ----------

  /** A stretch of `Install`: one loop over artifacts, directories or links. */
  datatype InstallPart =
    | Copies(root: string, m: ArtifactMap)
    | Makes(root: string, dirs: map<string, nat>)
    | MakesLinks(links: seq<Link>)

  /** The loops of `Install`, in order. */
  function InstallParts(pkg: string, a: Artifacts): seq<InstallPart>
  {
    [ Copies(Under(BinDir), a.binaries),
      Copies(Under(ManDir), a.manpages),
      Makes(Under(ConfDir), a.configDirs),
      Makes(Under(StateDir), a.stateDirs),
      Copies(Under(DataDir), a.dataDirs),
      Copies(Under(LibexecDir), a.libexec),
      Copies(Under(ConfDir), a.configFiles),
      Copies(Under(UnitFileDir), a.units),
      Copies(Under(UnitFileDir), DropinArtifacts(a.dropins)),
      Copies(Join([Under(DocDir), pkg]), a.docs),
      Copies(Join([Under(LicenseDir), pkg]), a.licenses),
      Copies(Join([Under(LibDir)]), a.libs),
      MakesLinks(a.links),
      Copies(Under(IncludeDir), a.headers) ]
  }

  ghost function InstallLinesOf(part: InstallPart): seq<Command>
  {
    match part
    case Copies(root, m) => CopyAll(root, m)
    case Makes(root, dirs) => MkdirAll(root, dirs)
    case MakesLinks(links) => LinkAll(links)
  }

  ghost function InstallLines(pkg: string, a: Artifacts): seq<Command>
  {
    FlatMap(InstallParts(pkg, a), InstallLinesOf)
  }

  method InstallOne(part: InstallPart) returns (lines: seq<Command>)
    ensures lines == InstallLinesOf(part)
  {
    match part {
      case Copies(root, m) => lines := ForSorted(m, CopyOne(root, m));
      case Makes(root, dirs) => lines := ForSorted(dirs, MkdirOne(root, dirs));
      case MakesLinks(links) => lines := ForEach(links, LinkOne);
    }
  }

  method InstallEach(parts: seq<InstallPart>) returns (lines: seq<Command>)
    ensures lines == FlatMap(parts, InstallLinesOf)
  {
    lines := [];
    for i := 0 to |parts|
      invariant lines == FlatMap(parts[..i], InstallLinesOf)
    {
      assert parts[..i + 1][..i] == parts[..i];
      var more := InstallOne(parts[i]);
      lines := lines + more;
    }
    assert parts[..|parts|] == parts;
  }

  /** `Install`. */
  method Install(pkg: string, a: Artifacts) returns (lines: seq<Command>)
    ensures lines == InstallLines(pkg, a)
  {
    lines := InstallEach(InstallParts(pkg, a));
  }

  // ---------- the entries of `%files` ----------

  /** A stretch of `Files`. */
  datatype FilePart =
    | Lists(attr: string, prefix: seq<string>, m: ArtifactMap)
    | ListsTwoStep(dir: string, m: ArtifactMap)
    | Globs(m: ArtifactMap)
    | ListsDirs(dir: string, dirs: map<string, nat>)
    | ListsDropins(dropins: map<string, Dropin>)
    | ListsLinks(links: seq<Link>)

  /** The loops of `Files`, in order. */
  function FileParts(pkg: string, a: Artifacts): seq<FilePart>
  {
    [ Lists("", [BinDir + "/"], a.binaries),
      Globs(a.manpages),
      ListsDirs(ConfDir, a.configDirs),
      ListsDirs(StateDir, a.stateDirs),
      Lists("", [DataDir], a.dataDirs),
      ListsTwoStep(LibexecDir, a.libexec),
      Lists("%config(noreplace)", [ConfDir], a.configFiles),
      Lists("", [UnitFileDir + "/"], a.units),
      ListsDropins(a.dropins),
      Lists("%doc", [DocDir, pkg], a.docs),
      Lists("%license", [LicenseDir, pkg], a.licenses),
      Lists("", [LibDir], a.libs),
      ListsLinks(a.links),
      Lists("", [IncludeDir], a.headers) ]
  }

  ghost function FileLinesOf(part: FilePart): seq<Entry>
  {
    match part
    case Lists(attr, prefix, m) => ListAll(attr, prefix, m)
    case ListsTwoStep(dir, m) => TwoStepAll(dir, m)
    case Globs(m) => if |m| > 0 then [ManGlob] else []
    case ListsDirs(dir, dirs) => DirAll(dir, dirs.Keys)
    case ListsDropins(dropins) => DropinAll(dropins)
    case ListsLinks(links) => LinkEntries(links)
  }

  ghost function FileLines(pkg: string, a: Artifacts): seq<Entry>
  {
    FlatMap(FileParts(pkg, a), FileLinesOf)
  }

  method ListPart(part: FilePart) returns (lines: seq<Entry>)
    ensures lines == FileLinesOf(part)
  {
    if part.Lists? || part.ListsTwoStep? {
      lines := ListKind(part);
    } else if part.ListsDirs? || part.ListsLinks? {
      lines := ListPlaces(part);
    } else {
      lines := ListOther(part);
    }
  }

  method ListKind(part: FilePart) returns (lines: seq<Entry>)
    requires part.Lists? || part.ListsTwoStep?
    ensures lines == FileLinesOf(part)
  {
    if part.Lists? {
      lines := ListArtifacts(part.attr, part.prefix, part.m);
    } else {
      lines := ListLibexec(part.dir, part.m);
    }
  }

  method ListPlaces(part: FilePart) returns (lines: seq<Entry>)
    requires part.ListsDirs? || part.ListsLinks?
    ensures lines == FileLinesOf(part)
  {
    if part.ListsDirs? {
      lines := ListDirs(part.dir, part.dirs);
    } else {
      lines := ListLinks(part.links);
    }
  }

  method ListOther(part: FilePart) returns (lines: seq<Entry>)
    requires part.Globs? || part.ListsDropins?
    ensures lines == FileLinesOf(part)
  {
    if part.Globs? {
      lines := if |part.m| > 0 then [ManGlob] else [];
    } else {
      lines := ListDropins(part.dropins);
    }
  }

  method ListArtifacts(attr: string, prefix: seq<string>, m: ArtifactMap) returns (lines: seq<Entry>)
    ensures lines == ListAll(attr, prefix, m)
  {
    lines := ForSorted(m, ListOne(attr, prefix, m));
  }

  method ListLibexec(dir: string, m: ArtifactMap) returns (lines: seq<Entry>)
    ensures lines == TwoStepAll(dir, m)
  {
    lines := ForSorted(m, ListTwoStep(dir, m));
  }

  method ListDirs(dir: string, dirs: map<string, nat>) returns (lines: seq<Entry>)
    ensures lines == DirAll(dir, dirs.Keys)
  {
    lines := ForSorted(dirs, DirOne(dir));
  }

  method ListLinks(links: seq<Link>) returns (lines: seq<Entry>)
    ensures lines == LinkEntries(links)
  {
    lines := ForEach(links, LinkEntry);
  }

  method ListEach(parts: seq<FilePart>) returns (lines: seq<Entry>)
    ensures lines == FlatMap(parts, FileLinesOf)
  {
    lines := [];
    for i := 0 to |parts|
      invariant lines == FlatMap(parts[..i], FileLinesOf)
    {
      assert parts[..i + 1][..i] == parts[..i];
      var more := ListPart(parts[i]);
      lines := lines + more;
    }
    assert parts[..|parts|] == parts;
  }

  /** `Files`. */
  method Files(pkg: string, a: Artifacts) returns (lines: seq<Entry>)
    ensures lines == FileLines(pkg, a)
  {
    lines := ListEach(FileParts(pkg, a));
  }
}
