/** The dependency lines of an RPM spec file, and their agreement with the Debian fields. */
module RpmDependencies {
  import opened Values
  import opened Order
  import opened Text
  import opened Constraints
  import opened Dependencies

  // ---------- the lines ----------

  function DepLine(kind: string, rest: string): string
  {
    kind + ": " + rest
  }

  /** The lines `writeDep` writes for one package, without any condition. */
  function BodyLines(kind: string, name: string, versions: seq<string>): seq<string>
  {
    if versions == [] then [DepLine(kind, name)]
    else seq(|versions|, i requires 0 <= i < |versions| => DepLine(kind, name + " " + FormatRpm(versions[i])))
  }

  function ArchBlock(arch: string, body: seq<string>): seq<string>
  {
    ["%ifarch " + arch] + body + ["%endif"]
  }

  function Concat(blocks: seq<seq<string>>): seq<string>
  {
    if blocks == [] then [] else Concat(blocks[..|blocks| - 1]) + blocks[|blocks| - 1]
  }

  lemma ConcatMore(blocks: seq<seq<string>>, n: nat)
    requires n < |blocks|
    ensures Concat(blocks[..n + 1]) == Concat(blocks[..n]) + blocks[n]
  {
    assert blocks[..n + 1][..n] == blocks[..n];
  }

  /** The body once for each architecture. */
  function ArchBlocks(arch: seq<string>, body: seq<string>): seq<seq<string>>
  {
    seq(|arch|, i requires 0 <= i < |arch| => ArchBlock(arch[i], body))
  }

  function DepLines(kind: string, name: string, pc: PackageConstraints): seq<string>
  {
    var body := BodyLines(kind, name, pc.version);
    if pc.arch == [] then body else Concat(ArchBlocks(pc.arch, body))
  }

  function DepBlocks(kind: string, deps: DependencyList, keys: seq<string>): seq<seq<string>>
    requires forall k :: k in keys ==> k in deps
  {
    seq(|keys|, i requires 0 <= i < |keys| => DepLines(kind, keys[i], deps[keys[i]]))
  }

  /** The lines of a list, in the order of the package names. */
  ghost function SectionLines(kind: string, deps: DependencyList): seq<string>
  {
    Concat(DepBlocks(kind, deps, SortedKeys(deps.Keys)))
  }

  method WriteBody(b: seq<string>, kind: string, name: string, versions: seq<string>) returns (b': seq<string>)
    ensures b' == b + BodyLines(kind, name, versions)
  {
    if |versions| == 0 {
      return b + [DepLine(kind, name)];
    }
    b' := b;
    ghost var body := BodyLines(kind, name, versions);
    for i := 0 to |versions|
      invariant b' == b + body[..i]
    {
      b' := b' + [DepLine(kind, name + " " + FormatRpm(versions[i]))];
    }
  }

  method WriteDep(b: seq<string>, kind: string, name: string, pc: PackageConstraints) returns (b': seq<string>)
    ensures b' == b + DepLines(kind, name, pc)
  {
    if |pc.arch| == 0 {
      b' := WriteBody(b, kind, name, pc.version);
      return;
    }
    b' := b;
    ghost var blocks := ArchBlocks(pc.arch, BodyLines(kind, name, pc.version));
    for i := 0 to |pc.arch|
      invariant b' == b + Concat(blocks[..i])
    {
      ConcatMore(blocks, i);
      b' := b' + ["%ifarch " + pc.arch[i]];
      b' := WriteBody(b', kind, name, pc.version);
      b' := b' + ["%endif"];
    }
    assert blocks[..|pc.arch|] == blocks;
  }

  method WriteSection(b: seq<string>, kind: string, deps: DependencyList) returns (b': seq<string>)
    ensures b' == b + SectionLines(kind, deps)
  {
    var keys := SortMapKeys(deps);
    SectionOf(kind, deps, keys);
    b' := WriteKeys(b, kind, deps, keys);
  }

  /** The block is what is written for the package. */
  ghost predicate IsBlock(kind: string, deps: DependencyList, name: string, block: seq<string>)
  {
    name in deps && block == DepLines(kind, name, deps[name])
  }

  method WriteBlock(b: seq<string>, kind: string, deps: DependencyList, name: string, ghost block: seq<string>)
    returns (b': seq<string>)
    requires name in deps && IsBlock(kind, deps, name, block)
    ensures b' == b + block
  {
    b' := WriteDep(b, kind, name, deps[name]);
  }

  lemma ConcatOnto(b: seq<string>, blocks: seq<seq<string>>, n: nat)
    requires n < |blocks|
    ensures b + Concat(blocks[..n + 1]) == b + Concat(blocks[..n]) + blocks[n]
  {
    ConcatMore(blocks, n);
  }

  method WriteBlocks(b: seq<string>, kind: string, deps: DependencyList, keys: seq<string>,
    ghost blocks: seq<seq<string>>)
    returns (b': seq<string>)
    requires |blocks| == |keys| && forall i :: 0 <= i < |keys| ==>
      keys[i] in deps && IsBlock(kind, deps, keys[i], blocks[i])
    ensures b' == b + Concat(blocks)
  {
    b' := b;
    for i := 0 to |keys|
      invariant b' == b + Concat(blocks[..i])
    {
      ConcatOnto(b, blocks, i);
      b' := WriteBlock(b', kind, deps, keys[i], blocks[i]);
    }
    assert blocks[..|keys|] == blocks;
  }

  method WriteKeys(b: seq<string>, kind: string, deps: DependencyList, keys: seq<string>) returns (b': seq<string>)
    requires forall k :: k in keys ==> k in deps
    ensures b' == b + Concat(DepBlocks(kind, deps, keys))
  {
    b' := WriteBlocks(b, kind, deps, keys, DepBlocks(kind, deps, keys));
  }

  lemma SectionOf(kind: string, deps: DependencyList, keys: seq<string>)
    requires IsSortedKeys(keys, deps.Keys)
    ensures SectionLines(kind, deps) == Concat(DepBlocks(kind, deps, keys))
  {
    SortedKeysUnique(keys, SortedKeys(deps.Keys), deps.Keys);
  }

  /** `Requires`, from the build and runtime lists on. */
  method Requires(build: DependencyList, runtime: DependencyList) returns (b: seq<string>)
    ensures b == RequiresLines(build, runtime)
  {
    b := [];
    if |build| == 0 && |runtime| == 0 {
      return;
    }
    b := WriteSection(b, "BuildRequires", build);
    ghost var first := SectionLines("BuildRequires", build);
    assert b == first;
    if |build| > 0 && |runtime| > 0 {
      b := b + [""];
    }
    b := WriteSection(b, "Requires", runtime);
    b := b + [""];
  }

  ghost function RequiresLines(build: DependencyList, runtime: DependencyList): seq<string>
  {
    if |build| == 0 && |runtime| == 0 then []
    else
      SectionLines("BuildRequires", build) + (if |build| > 0 && |runtime| > 0 then [""] else [])
      + SectionLines("Requires", runtime) + [""]
  }

  // ---------- reading the lines ----------

  datatype Line = IfArch(archs: seq<string>) | EndIf | Dep(tag: string, req: Requirement) | Other

  function ReadRpmRequirement(s: string): Requirement
  {
    match Cut(s, ' ')
    case Whole => Requirement(s, None)
    case Parts(name, b) => if ReadRpmBound(b).Some? then Requirement(name, ReadRpmBound(b)) else Unreadable
  }

  function ReadLine(s: string): Line
  {
    match Cut(s, ' ')
    case Whole => if s == "%endif" then EndIf else Other
    case Parts(word, rest) =>
      if word == "%ifarch" then IfArch(Fields(rest, ' ')) else Dep(word, ReadRpmRequirement(rest))
  }

  /** Whether lines are in force after this one. */
  function ActiveAfter(l: Line, host: string, active: bool): bool
  {
    if l.IfArch? then host in l.archs else if l.EndIf? then true else active
  }

  function ActiveAfterAll(lines: seq<string>, host: string, active: bool): bool
  {
    if lines == [] then active else ActiveAfterAll(lines[1..], host, ActiveAfter(ReadLine(lines[0]), host, active))
  }

  /** The requirements under one tag that the lines denote on a machine. The conditions
      written here do not nest. */
  function ReadRpm(lines: seq<string>, tag: string, host: string, active: bool): set<Requirement>
  {
    if lines == [] then {} else
      var l := ReadLine(lines[0]);
      (if active && l.Dep? && l.tag == tag then {l.req} else {})
      + ReadRpm(lines[1..], tag, host, ActiveAfter(l, host, active))
  }

  lemma {:induction false} ReadRpmAppend(a: seq<string>, b: seq<string>, tag: string, host: string, active: bool)
    ensures ActiveAfterAll(a + b, host, active) == ActiveAfterAll(b, host, ActiveAfterAll(a, host, active))
    ensures ReadRpm(a + b, tag, host, active)
         == ReadRpm(a, tag, host, active) + ReadRpm(b, tag, host, ActiveAfterAll(a, host, active))
  {
    if a == [] {
      assert a + b == b;
    } else {
      assert (a + b)[1..] == a[1..] + b;
      ReadRpmAppend(a[1..], b, tag, host, ActiveAfter(ReadLine(a[0]), host, active));
    }
  }

  /** What the blocks denote one by one. */
  ghost function ReadEach(blocks: seq<seq<string>>, read: seq<string> -> set<Requirement>): set<Requirement>
  {
    if blocks == [] then {} else ReadEach(blocks[..|blocks| - 1], read) + read(blocks[|blocks| - 1])
  }

  ghost function ReadOn(tag: string, host: string): seq<string> -> set<Requirement>
  {
    block => ReadRpm(block, tag, host, true)
  }

  lemma {:induction false} ReadEachHolds(blocks: seq<seq<string>>, read: seq<string> -> set<Requirement>,
    r: Requirement)
    ensures r in ReadEach(blocks, read) <==> exists i :: 0 <= i < |blocks| && r in read(blocks[i])
  {
    if blocks != [] {
      var front := blocks[..|blocks| - 1];
      ReadEachHolds(front, read, r);
      assert forall i :: 0 <= i < |front| ==> front[i] == blocks[i];
    }
  }

  lemma {:induction false} ConcatReads(blocks: seq<seq<string>>, tag: string, host: string)
    requires forall i :: 0 <= i < |blocks| ==> ActiveAfterAll(blocks[i], host, true)
    ensures ActiveAfterAll(Concat(blocks), host, true)
    ensures ReadRpm(Concat(blocks), tag, host, true) == ReadEach(blocks, ReadOn(tag, host))
  {
    if blocks != [] {
      var front, last := blocks[..|blocks| - 1], blocks[|blocks| - 1];
      ConcatReads(front, tag, host);
      ReadRpmAppend(Concat(front), last, tag, host, true);
    }
  }

  /** Blocks that leave the lines after them in force denote what each of them denotes. */
  lemma ConcatRead(blocks: seq<seq<string>>, tag: string, host: string)
    requires forall i :: 0 <= i < |blocks| ==> ActiveAfterAll(blocks[i], host, true)
    ensures ActiveAfterAll(Concat(blocks), host, true)
    ensures forall r ::
      (r in ReadRpm(Concat(blocks), tag, host, true) <==>
        exists i :: 0 <= i < |blocks| && r in ReadRpm(blocks[i], tag, host, true))
  {
    ConcatReads(blocks, tag, host);
    var read := ReadOn(tag, host);
    forall r
      ensures r in ReadEach(blocks, read) <==> exists i :: 0 <= i < |blocks| && r in read(blocks[i])
    {
      ReadEachHolds(blocks, read, r);
    }
  }

  /** The line states this requirement. */
  ghost predicate States(line: string, tag: string, r: Requirement)
  {
    ReadLine(line) == Dep(tag, r)
  }

  /** Plain dependency lines: all in force, or none. */
  lemma {:induction false} DepsRead(lines: seq<string>, tag: string, host: string, active: bool, r: Requirement)
    requires forall i :: 0 <= i < |lines| ==> ReadLine(lines[i]).Dep?
    ensures ActiveAfterAll(lines, host, active) == active
    ensures r in ReadRpm(lines, tag, host, active) <==>
      active && exists i :: 0 <= i < |lines| && States(lines[i], tag, r)
  {
    if lines != [] {
      DepsRead(lines[1..], tag, host, active, r);
      assert forall i :: 0 < i < |lines| ==> lines[i] == lines[1..][i - 1];
    }
  }

  lemma DepLineRead(kind: string, rest: string)
    requires ' ' !in kind
    ensures ReadLine(DepLine(kind, rest)) == Dep(kind + ":", ReadRpmRequirement(rest))
  {
    assert DepLine(kind, rest) == (kind + ":") + [' '] + rest;
    CutAt(kind + ":", ' ', rest);
    assert (kind + ":")[|kind|] == ':';
    if |kind| == 6 { assert "%ifarch"[6] == 'h'; }
  }

  lemma RequirementRead(name: string, v: string)
    requires PlainName(name) && PlainConstraint(v)
    ensures ReadRpmRequirement(name + " " + FormatRpm(v)) == Requirement(name, Some(Means(v)))
  {
    CutAt(name, ' ', FormatRpm(v));
    ConstraintRead(v);
  }

  lemma BodyRead(kind: string, name: string, pc: PackageConstraints, tag: string, host: string, active: bool)
    requires Readable(name, pc) && ' ' !in kind
    ensures var body := BodyLines(kind, name, pc.version);
      && ActiveAfterAll(body, host, active) == active
      && ReadRpm(body, tag, host, active) == if active && tag == kind + ":" then Required(name, pc.version) else {}
  {
    var body := BodyLines(kind, name, pc.version);
    forall i | 0 <= i < |body|
      ensures ReadLine(body[i]) ==
        Dep(kind + ":", Requirement(name, if pc.version == [] then None else Some(Means(pc.version[i]))))
    {
      if pc.version == [] {
        DepLineRead(kind, name);
      } else {
        DepLineRead(kind, name + " " + FormatRpm(pc.version[i]));
        RequirementRead(name, pc.version[i]);
      }
    }
    DepsRead(body, tag, host, active, Unreadable);
    forall r
      ensures r in ReadRpm(body, tag, host, active) <==> active && tag == kind + ":" && r in Required(name, pc.version)
    {
      DepsRead(body, tag, host, active, r);
      BodyStates(body, kind, name, pc.version, tag, r);
    }
  }

  lemma BodyStates(body: seq<string>, kind: string, name: string, versions: seq<string>, tag: string, r: Requirement)
    requires |body| == if versions == [] then 1 else |versions|
    requires forall i :: 0 <= i < |body| ==>
      ReadLine(body[i]) == Dep(kind + ":", Requirement(name, if versions == [] then None else Some(Means(versions[i]))))
    ensures (exists i :: 0 <= i < |body| && States(body[i], tag, r)) <==>
      tag == kind + ":" && r in Required(name, versions)
  {
    if tag == kind + ":" && r in Required(name, versions) {
      var i := 0;
      if versions != [] {
        var v :| v in versions && r == Requirement(name, Some(Means(v)));
        i :| 0 <= i < |versions| && versions[i] == v;
      }
      assert States(body[i], tag, r);
    }
  }

  lemma IfArchRead(arch: string)
    requires PlainArch(arch)
    ensures ReadLine("%ifarch " + arch) == IfArch([arch])
  {
    assert "%ifarch " + arch == "%ifarch" + [' '] + arch;
    CutAt("%ifarch", ' ', arch);
    assert Cut(arch, ' ').Whole?;
  }

  lemma EndIfRead(host: string, tag: string, active: bool)
    ensures ReadRpm(["%endif"], tag, host, active) == {} && ActiveAfterAll(["%endif"], host, active)
  {
    assert ReadLine("%endif") == EndIf;
    assert ["%endif"][1..] == [];
  }

  lemma IfArchLine(arch: string, host: string, tag: string)
    requires PlainArch(arch)
    ensures ReadRpm(["%ifarch " + arch], tag, host, true) == {}
    ensures ActiveAfterAll(["%ifarch " + arch], host, true) == (host == arch)
  {
    IfArchRead(arch);
    assert ["%ifarch " + arch][1..] == [];
  }

  lemma ArchBlockRead(arch: string, body: seq<string>, tag: string, host: string)
    requires PlainArch(arch) && ActiveAfterAll(body, host, false) == false && ReadRpm(body, tag, host, false) == {}
    ensures ActiveAfterAll(ArchBlock(arch, body), host, true)
    ensures ReadRpm(ArchBlock(arch, body), tag, host, true) ==
      if host == arch then ReadRpm(body, tag, host, true) else {}
  {
    IfArchLine(arch, host, tag);
    ReadRpmAppend(["%ifarch " + arch], body, tag, host, true);
    ReadRpmAppend(["%ifarch " + arch] + body, ["%endif"], tag, host, true);
    EndIfRead(host, tag, ActiveAfterAll(["%ifarch " + arch] + body, host, true));
  }

  lemma ArchBlocksRead(arch: seq<string>, body: seq<string>, tag: string, host: string)
    requires forall i :: 0 <= i < |arch| ==> PlainArch(arch[i])
    requires ActiveAfterAll(body, host, false) == false && ReadRpm(body, tag, host, false) == {}
    ensures ActiveAfterAll(Concat(ArchBlocks(arch, body)), host, true)
    ensures ReadRpm(Concat(ArchBlocks(arch, body)), tag, host, true) ==
      if host in arch then ReadRpm(body, tag, host, true) else {}
  {
    var blocks := ArchBlocks(arch, body);
    forall i | 0 <= i < |blocks|
      ensures ActiveAfterAll(blocks[i], host, true)
      ensures ReadRpm(blocks[i], tag, host, true) == if host == arch[i] then ReadRpm(body, tag, host, true) else {}
    {
      ArchBlockRead(arch[i], body, tag, host);
    }
    SomeArch(blocks, arch, ReadRpm(body, tag, host, true), tag, host);
  }

  lemma SomeArch(blocks: seq<seq<string>>, arch: seq<string>, body: set<Requirement>, tag: string, host: string)
    requires |blocks| == |arch|
    requires forall i :: 0 <= i < |blocks| ==> ActiveAfterAll(blocks[i], host, true)
    requires forall i :: 0 <= i < |blocks| ==>
      ReadRpm(blocks[i], tag, host, true) == if host == arch[i] then body else {}
    ensures ActiveAfterAll(Concat(blocks), host, true)
    ensures ReadRpm(Concat(blocks), tag, host, true) == if host in arch then body else {}
  {
    ConcatRead(blocks, tag, host);
    if host in arch {
      var i :| 0 <= i < |arch| && arch[i] == host;
      assert ReadRpm(blocks[i], tag, host, true) == body;
    }
  }

  /** The lines of one package denote its requirements, under their own tag only. */
  lemma DepLinesRead(kind: string, name: string, pc: PackageConstraints, tag: string, host: string)
    requires WellFormed(name, pc) && ' ' !in kind
    ensures ActiveAfterAll(DepLines(kind, name, pc), host, true)
    ensures ReadRpm(DepLines(kind, name, pc), tag, host, true) ==
      if tag == kind + ":" then RequiredOn(name, pc, host) else {}
  {
    WellFormedReadable(name, pc);
    DepLinesReads(kind, name, pc, tag, host);
  }

  lemma DepLinesReads(kind: string, name: string, pc: PackageConstraints, tag: string, host: string)
    requires Readable(name, pc) && ' ' !in kind
    ensures ActiveAfterAll(DepLines(kind, name, pc), host, true)
    ensures ReadRpm(DepLines(kind, name, pc), tag, host, true) ==
      if tag == kind + ":" then RequiredOn(name, pc, host) else {}
  {
    var body := BodyLines(kind, name, pc.version);
    BodyRead(kind, name, pc, tag, host, true);
    BodyRead(kind, name, pc, tag, host, false);
    if pc.arch != [] {
      ArchBlocksRead(pc.arch, body, tag, host);
    }
  }

  /** The lines under one tag denote the list. */
  lemma SectionRead(kind: string, deps: DependencyList, tag: string, host: string)
    requires AllReadable(deps) && ' ' !in kind
    ensures ActiveAfterAll(SectionLines(kind, deps), host, true)
    ensures ReadRpm(SectionLines(kind, deps), tag, host, true) == if tag == kind + ":" then Meaning(deps, host) else {}
  {
    KeysRead(kind, deps, SortedKeys(deps.Keys), tag, host);
  }

  lemma KeysRead(kind: string, deps: DependencyList, keys: seq<string>, tag: string, host: string)
    requires AllReadable(deps) && ' ' !in kind && forall k :: k in keys <==> k in deps
    ensures ActiveAfterAll(Concat(DepBlocks(kind, deps, keys)), host, true)
    ensures ReadRpm(Concat(DepBlocks(kind, deps, keys)), tag, host, true) ==
      if tag == kind + ":" then Meaning(deps, host) else {}
  {
    var blocks := DepBlocks(kind, deps, keys);
    forall i | 0 <= i < |blocks|
      ensures ActiveAfterAll(blocks[i], host, true)
      ensures ReadRpm(blocks[i], tag, host, true) ==
        if tag == kind + ":" then RequiredOn(keys[i], deps[keys[i]], host) else {}
    {
      DepLinesReads(kind, keys[i], deps[keys[i]], tag, host);
    }
    EachKeyRead(blocks, deps, keys, tag, host, tag == kind + ":");
  }

  lemma EachKeyRead(blocks: seq<seq<string>>, deps: DependencyList, keys: seq<string>, tag: string, host: string,
    tagged: bool)
    requires |blocks| == |keys| && forall k :: k in keys <==> k in deps
    requires forall i :: 0 <= i < |blocks| ==> ActiveAfterAll(blocks[i], host, true)
    requires forall i :: 0 <= i < |blocks| ==>
      ReadRpm(blocks[i], tag, host, true) == if tagged then RequiredOn(keys[i], deps[keys[i]], host) else {}
    ensures ActiveAfterAll(Concat(blocks), host, true)
    ensures ReadRpm(Concat(blocks), tag, host, true) == if tagged then Meaning(deps, host) else {}
  {
    ConcatRead(blocks, tag, host);
    if tagged {
      forall r | r in ReadRpm(Concat(blocks), tag, host, true) ensures r in Meaning(deps, host) {
        var i :| 0 <= i < |blocks| && r in ReadRpm(blocks[i], tag, host, true);
        assert keys[i] in deps;
      }
      forall r | r in Meaning(deps, host) ensures r in ReadRpm(Concat(blocks), tag, host, true) {
        var name :| name in deps && r in RequiredOn(name, deps[name], host);
        var i :| 0 <= i < |keys| && keys[i] == name;
        assert r in ReadRpm(blocks[i], tag, host, true);
      }
    }
  }

  lemma BlankRead(blank: seq<string>, tag: string, host: string)
    requires blank == [] || blank == [""]
    ensures ActiveAfterAll(blank, host, true) && ReadRpm(blank, tag, host, true) == {}
  {
    if blank != [] { assert blank[1..] == []; }
  }

  /** Two sections in a row, with blank lines after each. */
  lemma TwoSections(a: seq<string>, b: seq<string>, gap: seq<string>, end: seq<string>, tag: string, host: string)
    requires (gap == [] || gap == [""]) && (end == [] || end == [""])
    requires ActiveAfterAll(a, host, true) && ActiveAfterAll(b, host, true)
    ensures ReadRpm(a + gap + b + end, tag, host, true) == ReadRpm(a, tag, host, true) + ReadRpm(b, tag, host, true)
  {
    BlankRead(gap, tag, host);
    BlankRead(end, tag, host);
    ReadRpmAppend(a, gap, tag, host, true);
    ReadRpmAppend(a + gap, b, tag, host, true);
    ReadRpmAppend(a + gap + b, end, tag, host, true);
  }

  /** The section `Requires` writes denotes the build list under one tag and the runtime list
      under the other. */
  lemma RequiresDenotes(build: DependencyList, runtime: DependencyList, tag: string, host: string)
    requires AllWellFormed(build) && AllWellFormed(runtime)
    ensures ReadRpm(RequiresLines(build, runtime), tag, host, true)
         == (if tag == "BuildRequires" + ":" then Meaning(build, host) else {})
          + (if tag == "Requires" + ":" then Meaning(runtime, host) else {})
  {
    AllAreReadable(build);
    AllAreReadable(runtime);
    if |build| == 0 && |runtime| == 0 {
      assert Meaning(build, host) == {} && Meaning(runtime, host) == {};
    } else {
      SectionRead("BuildRequires", build, tag, host);
      SectionRead("Requires", runtime, tag, host);
      var gap := if |build| > 0 && |runtime| > 0 then [""] else [];
      TwoSections(SectionLines("BuildRequires", build), SectionLines("Requires", runtime), gap, [""], tag, host);
    }
  }

  /** For every list of well-formed constraints and every architecture, the Debian strings
      and the RPM lines denote the same requirements: those the list stands for. Either
      printer still denotes them after the Debian one has sorted the lists in place. */
  lemma SameDependencies(deps: DependencyList, kind: string, host: string)
    requires AllWellFormed(deps) && ' ' !in kind
    ensures ReadDeb(DebOut(deps), host) == Meaning(deps, host)
    ensures ReadRpm(SectionLines(kind, deps), kind + ":", host, true) == Meaning(deps, host)
    ensures ReadDeb(DebOut(SortAll(deps)), host) == Meaning(deps, host)
    ensures ReadRpm(SectionLines(kind, SortAll(deps)), kind + ":", host, true) == Meaning(deps, host)
  {
    AllAreReadable(deps);
    SortKeepsMeaning(deps, host);
    DebReads(deps, host);
    DebReads(SortAll(deps), host);
    SectionRead(kind, deps, kind + ":", host);
    SectionRead(kind, SortAll(deps), kind + ":", host);
  }
}
