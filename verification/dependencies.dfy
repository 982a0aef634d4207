/** Whole dependency lists: the Debian relationship fields and the RPM dependency lines. */
module Dependencies {
  import opened Values
  import opened Order
  import opened Text
  import opened Constraints

  datatype Requirement = Requirement(name: string, bound: Option<Bound>) | Unreadable

  // ---------- what a list means ----------

  /** What either format has in its names: Debian lower case letters, digits, `+`, `-` and `.`;
      RPM also the rest, with `/` in names that are paths. */
  predicate NameChar(c: char)
  {
    WordChar(c) || c == '+' || c == '-' || c == '.' || c == '_' || c == '/'
  }

  /** A package by its name alone: no alternatives, no qualifiers, no restrictions. */
  predicate GoodName(s: string)
  {
    s != "" && forall c :: c in s ==> NameChar(c)
  }

  /** An architecture by its name: no negation, and no wildcard of section 11.1 of the Debian
      Policy Manual. */
  predicate GoodArch(s: string)
  {
    s != "" && (forall c :: c in s ==> WordChar(c) || c == '-' || c == '_') && "any" !in Fields(s, '-')
  }

  /** A constraint with its space, or a version alone. */
  predicate GoodConstraint(v: string)
  {
    match Cut(v, ' ')
    case Whole => GoodVersion(v) && Digit(v[0])
    case Parts(op, ver) => op in Operators && GoodVersion(ver)
  }

  /** The characters of names, versions and architectures: all letters and digits, and the
      signs each may have; none has a separator of either syntax. */
  lemma UsualCharacters(c: char)
    ensures Digit('0') && Digit('1') && Digit('2') && Digit('3') && Digit('4')
    ensures Digit('5') && Digit('6') && Digit('7') && Digit('8') && Digit('9')
    ensures 'a' <= c <= 'z' || 'A' <= c <= 'Z' || '0' <= c <= '9' ==> NameChar(c) && VersionChar(c)
    ensures NameChar('-') && NameChar('+') && NameChar('.') && NameChar('_') && NameChar('/')
    ensures VersionChar('.') && VersionChar('-') && VersionChar('+') && VersionChar('~') && VersionChar('^')
    ensures VersionChar('_') && VersionChar(':')
    ensures c == ' ' || c == ',' || c == '(' || c == '[' || c == '|' || c == '<' || c == '!' || c == '\n' || c == '\t'
      ==> !NameChar(c) && !VersionChar(c)
    ensures !NameChar(':') && !VersionChar('/')
  {}

  function Means(v: string): Bound
  {
    match Cut(v, ' ')
    case Whole => Bound(EQ, v)
    case Parts(op, ver) => Bound(MeaningOf(op), ver)
  }

  /** Names, versions and architectures that stand for themselves in both syntaxes. */
  ghost predicate WellFormed(name: string, pc: PackageConstraints)
  {
    && GoodName(name)
    && (forall i :: 0 <= i < |pc.version| ==> GoodConstraint(pc.version[i]))
    && (forall i :: 0 <= i < |pc.arch| ==> GoodArch(pc.arch[i]))
  }

  /** The requirements of one package, on a machine the entry applies to. */
  ghost function Required(name: string, versions: seq<string>): set<Requirement>
  {
    if versions == [] then {Requirement(name, None)} else set v | v in versions :: Requirement(name, Some(Means(v)))
  }

  ghost function RequiredOn(name: string, pc: PackageConstraints, host: string): set<Requirement>
  {
    if pc.arch == [] || host in pc.arch then Required(name, pc.version) else {}
  }

  /** The conjunction a dependency list stands for on a machine. */
  ghost function Meaning(deps: DependencyList, host: string): set<Requirement>
  {
    set name, r | name in deps && r in RequiredOn(name, deps[name], host) :: r
  }

  // ---------- text without separators ----------

  predicate PlainName(s: string)
  {
    s != "" && ' ' !in s && ',' !in s && '(' !in s && '[' !in s
  }

  predicate PlainArch(s: string)
  {
    ' ' !in s && ',' !in s && ']' !in s
  }

  predicate PlainConstraint(v: string)
  {
    match Cut(v, ' ')
    case Whole => PlainVersion(v) && Digit(v[0])
    case Parts(op, ver) => op in Operators && PlainVersion(ver)
  }

  /** An entry in which the readers find the pieces again. */
  ghost predicate Readable(name: string, pc: PackageConstraints)
  {
    && PlainName(name)
    && (forall i :: 0 <= i < |pc.version| ==> PlainConstraint(pc.version[i]))
    && (forall i :: 0 <= i < |pc.arch| ==> PlainArch(pc.arch[i]))
  }

  lemma GoodIsPlain(v: string)
    requires GoodConstraint(v)
    ensures PlainConstraint(v)
  {
    match Cut(v, ' ')
    case Whole => VersionIsPlain(v);
    case Parts(op, ver) => VersionIsPlain(ver);
  }

  lemma ArchIsPlain(s: string)
    requires GoodArch(s)
    ensures PlainArch(s)
  {}

  lemma NameIsPlain(s: string)
    requires GoodName(s)
    ensures PlainName(s)
  {}

  lemma WellFormedReadable(name: string, pc: PackageConstraints)
    requires WellFormed(name, pc)
    ensures Readable(name, pc)
  {
    NameIsPlain(name);
    forall i | 0 <= i < |pc.version| ensures PlainConstraint(pc.version[i]) { GoodIsPlain(pc.version[i]); }
    forall i | 0 <= i < |pc.arch| ensures PlainArch(pc.arch[i]) { ArchIsPlain(pc.arch[i]); }
  }

  lemma ConstraintRead(v: string)
    requires PlainConstraint(v)
    ensures ReadDebBound(FormatDeb(v)) == ReadRpmBound(FormatRpm(v)) == Some(Means(v))
  {
    match Cut(v, ' ')
    case Whole => BareIsRead(v);
    case Parts(op, ver) =>
      assert v == op + " " + ver;
      SpacedForDeb(op, ver);
      SpacedForRpm(op, ver);
  }

  lemma OperatorsPlain(op: string, c: char)
    requires op in Operators && (c == ')' || c == '[' || c == ',')
    ensures c !in DebOp(op)
  {}

  lemma FormatDebPlain(v: string, c: char)
    requires PlainConstraint(v) && (c == ')' || c == '[' || c == ',')
    ensures c !in FormatDeb(v)
  {
    match Cut(v, ' ')
    case Whole => assert FormatDeb(v) == "=" + " " + v;
    case Parts(op, ver) => OperatorsPlain(op, c);
  }

  // ---------- the Debian text ----------

  /** A package name, with a bound in parentheses. */
  function Bounded(dep: string, bound: string): string
  {
    dep + " (" + bound + ")"
  }

  /** A relation, with the architectures it is for in brackets. */
  function Restricted(atom: string, arch: seq<string>): string
  {
    if arch == [] then atom else atom + " [" + Text.Join(arch, " ") + "]"
  }

  function VersionAtoms(dep: string, versions: seq<string>): seq<string>
  {
    if versions == [] then [dep]
    else seq(|versions|, i requires 0 <= i < |versions| => Bounded(dep, FormatDeb(versions[i])))
  }

  function RestrictAll(atoms: seq<string>, arch: seq<string>): seq<string>
  {
    seq(|atoms|, i requires 0 <= i < |atoms| => Restricted(atoms[i], arch))
  }

  /** The element of the field for one package, with the lists in the order they have. */
  ghost function DebText(dep: string, pc: PackageConstraints): string
  {
    Text.Join(RestrictAll(VersionAtoms(dep, pc.version), pc.arch), ", ")
  }

  function SortedLists(pc: PackageConstraints): PackageConstraints
  {
    PackageConstraints(Sort(pc.version), Sort(pc.arch))
  }

  method AddVersions(dep: string, versions: seq<string>) returns (atoms: seq<string>)
    ensures atoms == VersionAtoms(dep, versions)
  {
    if |versions| == 0 {
      return [dep];
    }
    atoms := [];
    for i := 0 to |versions|
      invariant |atoms| == i && forall j :: 0 <= j < i ==> atoms[j] == Bounded(dep, FormatDeb(versions[j]))
    {
      atoms := atoms + [Bounded(dep, FormatDeb(versions[i]))];
    }
  }

  method AddArchs(atoms0: seq<string>, arch: seq<string>) returns (atoms: seq<string>)
    ensures atoms == RestrictAll(atoms0, arch)
  {
    atoms := atoms0;
    if |arch| > 0 {
      for j := 0 to |atoms|
        invariant |atoms| == |atoms0|
        invariant forall i :: 0 <= i < j ==> atoms[i] == Restricted(atoms0[i], arch)
        invariant forall i :: j <= i < |atoms| ==> atoms[i] == atoms0[i]
      {
        atoms := atoms[j := Restricted(atoms[j], arch)];
      }
    }
  }

  /** The inner part of `AppendConstraints` for one package; the lists are sorted in place. */
  method AppendOne(dep: string, pc: PackageConstraints) returns (text: string, pc': PackageConstraints)
    ensures pc' == SortedLists(pc) && text == DebText(dep, pc')
  {
    pc' := SortedLists(pc);
    var atoms := AddVersions(dep, pc'.version);
    atoms := AddArchs(atoms, pc'.arch);
    text := Text.Join(atoms, ", ");
  }

  ghost function DebEntry(deps: DependencyList): string -> string
  {
    k => if k in deps then DebText(k, SortedLists(deps[k])) else ""
  }

  ghost function SortedEntry(deps: DependencyList): string -> PackageConstraints
  {
    k => if k in deps then SortedLists(deps[k]) else PackageConstraints([], [])
  }

  /** The list after its constraints were sorted in place. */
  ghost function SortAll(deps: DependencyList): DependencyList
  {
    map k | k in deps :: SortedEntry(deps)(k)
  }

  /** The output of `AppendConstraints`. */
  ghost function DebOut(deps: DependencyList): seq<string>
  {
    MapSeq(SortedKeys(deps.Keys), DebEntry(deps))
  }

  ghost function MapSeq(keys: seq<string>, f: string -> string): (r: seq<string>)
    ensures |r| == |keys| && forall i :: 0 <= i < |r| ==> r[i] == f(keys[i])
  {
    seq(|keys|, i requires 0 <= i < |keys| => f(keys[i]))
  }

  ghost predicate Names(deps: DependencyList, entry: string -> string, sorted: string -> PackageConstraints, k: string)
    requires k in deps
  {
    entry(k) == DebText(k, SortedLists(deps[k])) && sorted(k) == SortedLists(deps[k])
  }

  method AppendNamed(k: string, deps: DependencyList, ghost entry: string -> string,
    ghost sorted: string -> PackageConstraints)
    returns (text: string, pc: PackageConstraints)
    requires k in deps && Names(deps, entry, sorted, k)
    ensures text == entry(k) && pc == sorted(k)
  {
    text, pc := AppendOne(k, deps[k]);
  }

  /** The loop of `AppendConstraints`; `entry` and `sorted` name what it computes per key. */
  method AppendEach(keys: seq<string>, deps: DependencyList, ghost entry: string -> string,
    ghost sorted: string -> PackageConstraints)
    returns (out: seq<string>, deps': DependencyList)
    requires NoDuplicates(keys) && forall k :: k in keys <==> k in deps
    requires forall k {:trigger Names(deps, entry, sorted, k)} :: k in deps ==> Names(deps, entry, sorted, k)
    ensures |out| == |keys| && deps'.Keys == deps.Keys
    ensures forall j :: 0 <= j < |keys| ==> out[j] == entry(keys[j])
    ensures forall j :: 0 <= j < |keys| ==> deps'[keys[j]] == sorted(keys[j])
  {
    out, deps' := keys, deps;
    for i := 0 to |keys|
      invariant |out| == |keys| && deps'.Keys == deps.Keys
      invariant forall j :: 0 <= j < i ==> deps'[keys[j]] == sorted(keys[j]) && out[j] == entry(keys[j])
    {
      var text, pc := AppendNamed(keys[i], deps, entry, sorted);
      out, deps' := out[i := text], deps'[keys[i] := pc];
    }
  }

  lemma EachKey(keys: seq<string>, deps: DependencyList, deps': DependencyList, sorted: string -> PackageConstraints)
    requires forall k :: k in keys <==> k in deps
    requires deps'.Keys == deps.Keys && forall j :: 0 <= j < |keys| ==> deps'[keys[j]] == sorted(keys[j])
    ensures deps' == map k | k in deps :: sorted(k)
  {
    forall k | k in deps ensures deps'[k] == sorted(k) {
      var j :| 0 <= j < |keys| && keys[j] == k;
    }
  }

  lemma IsDebOut(keys: seq<string>, deps: DependencyList, out: seq<string>)
    requires IsSortedKeys(keys, deps.Keys)
    requires |out| == |keys| && forall j :: 0 <= j < |keys| ==> out[j] == DebEntry(deps)(keys[j])
    ensures out == DebOut(deps)
  {
    SortedKeysUnique(keys, SortedKeys(deps.Keys), deps.Keys);
    assert out == MapSeq(keys, DebEntry(deps));
  }

  /** `AppendConstraints`: one string per package, in the order of their names; the lists of
      the caller's constraints are left sorted. */
  method AppendConstraints(deps: DependencyList) returns (out: seq<string>, deps': DependencyList)
    ensures out == DebOut(deps) && deps' == SortAll(deps)
  {
    var keys := SortMapKeys(deps);
    out, deps' := AppendEach(keys, deps, DebEntry(deps), SortedEntry(deps));
    IsDebOut(keys, deps, out);
    EachKey(keys, deps, deps', SortedEntry(deps));
  }

  // ---------- reading the Debian text ----------

  datatype Atom = Atom(req: Requirement, archs: Option<seq<string>>)
  {
    predicate Applies(host: string)
    {
      archs.None? || host in archs.value
    }
  }

  function FirstWord(s: string): string
  {
    match Cut(s, ' ')
    case Parts(a, _) => a
    case Whole => s
  }

  function ReadDebBody(s: string): Requirement
  {
    match Cut(s, '(')
    case Whole => Requirement(FirstWord(s), None)
    case Parts(name, r) =>
      match Cut(r, ')')
      case Whole => Unreadable
      case Parts(inner, _) =>
        if ReadDebBound(inner).Some? then Requirement(FirstWord(name), ReadDebBound(inner)) else Unreadable
  }

  /** One relation of a field, section 7.1 of the Debian Policy Manual. */
  function ReadDebAtom(field: string): Atom
  {
    var s := TrimLeft(field);
    match Cut(s, '[')
    case Whole => Atom(ReadDebBody(s), None)
    case Parts(body, r) =>
      match Cut(r, ']')
      case Whole => Atom(Unreadable, None)
      case Parts(inner, _) => Atom(ReadDebBody(body), Some(Fields(inner, ' ')))
  }

  /** The requirements the relations of the strings denote on a machine. */
  ghost function ReadDeb(out: seq<string>, host: string): set<Requirement>
  {
    set s, f | s in out && f in Fields(s, ',') && ReadDebAtom(f).Applies(host) :: ReadDebAtom(f).req
  }

  lemma FirstWordOf(dep: string)
    requires PlainName(dep)
    ensures FirstWord(dep) == FirstWord(dep + " ") == dep
  {
    CutAt(dep, ' ', "");
    assert dep + [' '] + "" == dep + " ";
  }

  /** A name, possibly followed by a space, reads as the name without a bound. */
  lemma PlainBodyRead(dep: string)
    requires PlainName(dep)
    ensures ReadDebBody(dep) == ReadDebBody(dep + " ") == Requirement(dep, None)
  {
    FirstWordOf(dep);
    assert '(' !in dep + " ";
  }

  lemma BoundedBodyRead(dep: string, bound: string, tail: string)
    requires PlainName(dep) && ')' !in bound && ReadDebBound(bound).Some?
    ensures ReadDebBody(Bounded(dep, bound) + tail) == Requirement(dep, ReadDebBound(bound))
  {
    assert Bounded(dep, bound) + tail == (dep + " ") + ['('] + (bound + [')'] + tail);
    CutAt(dep + " ", '(', bound + [')'] + tail);
    CutAt(bound, ')', tail);
    FirstWordOf(dep);
  }

  lemma TrimLeftOf(s: string)
    requires s != "" && s[0] != ' '
    ensures TrimLeft(s) == TrimLeft(" " + s) == s
  {
    assert (" " + s)[1..] == s;
  }

  lemma PlainAtomRead(atom: string, lead: string)
    requires atom != "" && atom[0] != ' ' && '[' !in atom && (lead == "" || lead == " ")
    ensures ReadDebAtom(lead + atom) == Atom(ReadDebBody(atom), None)
  {
    TrimLeftOf(atom);
    assert "" + atom == atom;
  }

  lemma BracketRead(atom: string, inner: string, lead: string)
    requires atom != "" && atom[0] != ' ' && '[' !in atom && ']' !in inner && (lead == "" || lead == " ")
    ensures ReadDebAtom(lead + (atom + " [" + inner + "]")) == Atom(ReadDebBody(atom + " "), Some(Fields(inner, ' ')))
  {
    var s := atom + " [" + inner + "]";
    assert s[0] == atom[0];
    TrimLeftOf(s);
    assert "" + s == s;
    assert s == (atom + " ") + ['['] + (inner + [']'] + "");
    CutAt(atom + " ", '[', inner + [']'] + "");
    CutAt(inner, ']', "");
  }

  lemma ArchFields(arch: seq<string>)
    requires arch != [] && forall i :: 0 <= i < |arch| ==> PlainArch(arch[i])
    ensures Fields(Text.Join(arch, " "), ' ') == arch && ']' !in Text.Join(arch, " ")
  {
    JoinFree(arch, " ", ']');
    assert [' '] + "" == " ";
    FieldsOfJoin(arch, ' ', "");
    var r := Fields(Text.Join(arch, " "), ' ');
    forall i | 0 <= i < |arch| ensures r[i] == arch[i] {
      if i > 0 { assert "" + arch[i] == arch[i]; }
    }
  }

  /** A relation reads back as its body and its architectures. */
  lemma RestrictedRead(atom: string, arch: seq<string>, lead: string)
    requires atom != "" && atom[0] != ' ' && '[' !in atom && (lead == "" || lead == " ")
    requires forall i :: 0 <= i < |arch| ==> PlainArch(arch[i])
    ensures ReadDebAtom(lead + Restricted(atom, arch)) ==
      if arch == [] then Atom(ReadDebBody(atom), None) else Atom(ReadDebBody(atom + " "), Some(arch))
  {
    if arch == [] {
      PlainAtomRead(atom, lead);
    } else {
      ArchFields(arch);
      BracketRead(atom, Text.Join(arch, " "), lead);
    }
  }

  lemma BoundedAtomRead(dep: string, v: string)
    requires PlainName(dep) && PlainConstraint(v)
    ensures var atom := Bounded(dep, FormatDeb(v));
      && ReadDebBody(atom) == ReadDebBody(atom + " ") == Requirement(dep, Some(Means(v)))
      && atom[0] != ' ' && '[' !in atom
  {
    var bound := FormatDeb(v);
    var atom := Bounded(dep, bound);
    ConstraintRead(v);
    FormatDebPlain(v, ')');
    FormatDebPlain(v, '[');
    BoundedBodyRead(dep, bound, "");
    BoundedBodyRead(dep, bound, " ");
    assert atom + "" == atom;
    assert atom[0] in dep;
  }

  /** The relation of one version, or of none, reads back as what it means. */
  lemma AtomRead(dep: string, versions: seq<string>, arch: seq<string>, i: nat, lead: string)
    requires Readable(dep, PackageConstraints(versions, arch)) && i < |VersionAtoms(dep, versions)|
      && (lead == "" || lead == " ")
    ensures var a := ReadDebAtom(lead + Restricted(VersionAtoms(dep, versions)[i], arch));
      && a.req == Requirement(dep, if versions == [] then None else Some(Means(versions[i])))
      && (forall host :: a.Applies(host) <==> arch == [] || host in arch)
  {
    var atom := VersionAtoms(dep, versions)[i];
    if versions == [] {
      PlainBodyRead(dep);
      assert atom[0] in dep;
    } else {
      BoundedAtomRead(dep, versions[i]);
    }
    RestrictedRead(atom, arch, lead);
  }

  lemma {:induction false} FieldIsAtom(atoms: seq<string>, f: string)
    requires atoms != [] && forall i :: 0 <= i < |atoms| ==> ',' !in atoms[i]
    ensures f in Fields(Text.Join(atoms, ", "), ',') <==>
      exists i :: 0 <= i < |atoms| && f == (if i == 0 then "" else " ") + atoms[i]
  {
    assert [','] + " " == ", ";
    FieldsOfJoin(atoms, ',', " ");
    var r := Fields(Text.Join(atoms, ", "), ',');
    assert "" + atoms[0] == atoms[0];
    forall i | 0 <= i < |atoms| ensures r[i] == (if i == 0 then "" else " ") + atoms[i] {}
    if f in r {
      var i :| 0 <= i < |r| && r[i] == f;
    }
  }

  lemma AtomsPlain(dep: string, versions: seq<string>, arch: seq<string>)
    requires Readable(dep, PackageConstraints(versions, arch))
    ensures var atoms := RestrictAll(VersionAtoms(dep, versions), arch);
      atoms != [] && forall i :: 0 <= i < |atoms| ==> ',' !in atoms[i]
  {
    JoinFree(arch, " ", ',');
    forall i | 0 <= i < |versions| ensures ',' !in FormatDeb(versions[i]) {
      FormatDebPlain(versions[i], ',');
    }
  }

  /** The relation for one version, as it stands in the string of its package. */
  ghost function FieldAt(dep: string, pc: PackageConstraints, i: nat): string
    requires i < |VersionAtoms(dep, pc.version)|
  {
    (if i == 0 then "" else " ") + Restricted(VersionAtoms(dep, pc.version)[i], pc.arch)
  }

  lemma FieldAtRead(dep: string, pc: PackageConstraints, i: nat, host: string)
    requires Readable(dep, pc) && i < |VersionAtoms(dep, pc.version)|
    ensures var a := ReadDebAtom(FieldAt(dep, pc, i));
      && a.req == Requirement(dep, if pc.version == [] then None else Some(Means(pc.version[i])))
      && (a.Applies(host) <==> pc.arch == [] || host in pc.arch)
  {
    AtomRead(dep, pc.version, pc.arch, i, if i == 0 then "" else " ");
  }

  lemma FieldAtThere(dep: string, pc: PackageConstraints, i: nat)
    requires Readable(dep, pc) && i < |VersionAtoms(dep, pc.version)|
    ensures FieldAt(dep, pc, i) in Fields(DebText(dep, pc), ',')
  {
    AtomsPlain(dep, pc.version, pc.arch);
    FieldThere(RestrictAll(VersionAtoms(dep, pc.version), pc.arch), i);
  }

  lemma FieldThere(atoms: seq<string>, i: nat)
    requires i < |atoms| && forall i :: 0 <= i < |atoms| ==> ',' !in atoms[i]
    ensures (if i == 0 then "" else " ") + atoms[i] in Fields(Text.Join(atoms, ", "), ',')
  {
    FieldIsAtom(atoms, (if i == 0 then "" else " ") + atoms[i]);
  }

  lemma FieldOf(dep: string, pc: PackageConstraints, f: string) returns (i: nat)
    requires Readable(dep, pc) && f in Fields(DebText(dep, pc), ',')
    ensures i < |VersionAtoms(dep, pc.version)| && f == FieldAt(dep, pc, i)
  {
    var atoms := RestrictAll(VersionAtoms(dep, pc.version), pc.arch);
    AtomsPlain(dep, pc.version, pc.arch);
    FieldIsAtom(atoms, f);
    i :| 0 <= i < |atoms| && f == (if i == 0 then "" else " ") + atoms[i];
  }

  lemma RequiredAt(dep: string, pc: PackageConstraints, host: string, r: Requirement) returns (i: nat)
    requires r in RequiredOn(dep, pc, host)
    ensures i < |VersionAtoms(dep, pc.version)|
      && r == Requirement(dep, if pc.version == [] then None else Some(Means(pc.version[i])))
  {
    i := 0;
    if pc.version != [] {
      var v :| v in pc.version && r == Requirement(dep, Some(Means(v)));
      i :| 0 <= i < |pc.version| && pc.version[i] == v;
    }
  }

  /** The string of one package denotes its requirements. */
  lemma DebTextRead(dep: string, pc: PackageConstraints, host: string)
    requires WellFormed(dep, pc)
    ensures ReadDeb([DebText(dep, pc)], host) == RequiredOn(dep, pc, host)
  {
    WellFormedReadable(dep, pc);
    DebTextReads(dep, pc, host);
  }

  lemma DebTextReads(dep: string, pc: PackageConstraints, host: string)
    requires Readable(dep, pc)
    ensures ReadDeb([DebText(dep, pc)], host) == RequiredOn(dep, pc, host)
  {
    var text := DebText(dep, pc);
    forall r | r in ReadDeb([text], host) ensures r in RequiredOn(dep, pc, host) {
      var f :| f in Fields(text, ',') && ReadDebAtom(f).Applies(host) && r == ReadDebAtom(f).req;
      var i := FieldOf(dep, pc, f);
      FieldAtRead(dep, pc, i, host);
    }
    forall r | r in RequiredOn(dep, pc, host) ensures r in ReadDeb([text], host) {
      var i := RequiredAt(dep, pc, host, r);
      FieldAtRead(dep, pc, i, host);
      FieldAtThere(dep, pc, i);
      assert text in [text];
    }
  }

  lemma ReadDebInside(out: seq<string>, i: nat, host: string, r: Requirement)
    requires i < |out| && r in ReadDeb([out[i]], host)
    ensures r in ReadDeb(out, host)
  {
    var s, f :| s in [out[i]] && f in Fields(s, ',') && ReadDebAtom(f).Applies(host) && r == ReadDebAtom(f).req;
    assert s in out;
  }

  lemma ReadDebFrom(out: seq<string>, host: string, r: Requirement) returns (i: nat)
    requires r in ReadDeb(out, host)
    ensures i < |out| && r in ReadDeb([out[i]], host)
  {
    var s, f :| s in out && f in Fields(s, ',') && ReadDebAtom(f).Applies(host) && r == ReadDebAtom(f).req;
    i :| 0 <= i < |out| && out[i] == s;
    assert s in [out[i]];
  }

  ghost predicate AllReadable(deps: DependencyList)
  {
    forall name :: name in deps ==> Readable(name, deps[name])
  }

  lemma SortKeepsElements(s: seq<string>, x: string)
    ensures x in Sort(s) <==> x in s
  {
    assert x in multiset(Sort(s)) <==> x in multiset(s);
  }

  lemma SortKeepsAll(s: seq<string>, P: string -> bool)
    ensures Sort(s) == [] <==> s == []
    ensures (forall i :: 0 <= i < |s| ==> P(s[i])) ==> forall i :: 0 <= i < |Sort(s)| ==> P(Sort(s)[i])
  {
    assert |multiset(Sort(s))| == |multiset(s)|;
    forall i | 0 <= i < |Sort(s)| ensures Sort(s)[i] in s {
      SortKeepsElements(s, Sort(s)[i]);
    }
  }

  lemma SortKeepsRequired(name: string, versions: seq<string>)
    ensures Required(name, Sort(versions)) == Required(name, versions)
  {
    SortKeepsAll(versions, v => true);
    forall v ensures v in Sort(versions) <==> v in versions { SortKeepsElements(versions, v); }
  }

  lemma SortKeepsForm(name: string, pc: PackageConstraints)
    ensures WellFormed(name, pc) ==> WellFormed(name, SortedLists(pc))
  {
    SortKeepsAll(pc.version, v => GoodConstraint(v));
    SortKeepsAll(pc.arch, a => GoodArch(a));
  }

  /** Sorting the lists in place changes neither what an entry requires nor its form. */
  lemma SortKeepsEntry(name: string, pc: PackageConstraints, host: string)
    ensures RequiredOn(name, SortedLists(pc), host) == RequiredOn(name, pc, host)
    ensures Readable(name, pc) ==> Readable(name, SortedLists(pc))
    ensures WellFormed(name, pc) ==> WellFormed(name, SortedLists(pc))
  {
    SortKeepsForm(name, pc);
    SortKeepsRequired(name, pc.version);
    SortKeepsElements(pc.arch, host);
    SortKeepsAll(pc.version, v => PlainConstraint(v));
    SortKeepsAll(pc.arch, a => PlainArch(a));
  }

  lemma SortKeepsMeaning(deps: DependencyList, host: string)
    ensures Meaning(SortAll(deps), host) == Meaning(deps, host)
    ensures AllReadable(deps) ==> AllReadable(SortAll(deps))
    ensures AllWellFormed(deps) ==> AllWellFormed(SortAll(deps))
  {
    forall name | name in deps
      ensures RequiredOn(name, SortAll(deps)[name], host) == RequiredOn(name, deps[name], host)
      ensures WellFormed(name, deps[name]) ==> WellFormed(name, SortAll(deps)[name])
      ensures Readable(name, deps[name]) ==> Readable(name, SortAll(deps)[name])
    {
      SortKeepsEntry(name, deps[name], host);
    }
  }

  lemma DebEntryRead(deps: DependencyList, name: string, host: string)
    requires name in deps && Readable(name, deps[name])
    ensures ReadDeb([DebEntry(deps)(name)], host) == RequiredOn(name, deps[name], host)
  {
    SortKeepsEntry(name, deps[name], host);
    DebTextReads(name, SortedLists(deps[name]), host);
  }

  lemma DebEach(deps: DependencyList, keys: seq<string>, out: seq<string>, host: string)
    requires forall k :: k in keys <==> k in deps
    requires |out| == |keys| && forall i :: 0 <= i < |keys| ==>
      ReadDeb([out[i]], host) == RequiredOn(keys[i], deps[keys[i]], host)
    ensures ReadDeb(out, host) == Meaning(deps, host)
  {
    forall r | r in ReadDeb(out, host) ensures r in Meaning(deps, host) {
      var i := ReadDebFrom(out, host, r);
      assert keys[i] in deps;
    }
    forall r | r in Meaning(deps, host) ensures r in ReadDeb(out, host) {
      var name :| name in deps && r in RequiredOn(name, deps[name], host);
      var i :| 0 <= i < |keys| && keys[i] == name;
      ReadDebInside(out, i, host, r);
    }
  }

  ghost predicate AllWellFormed(deps: DependencyList)
  {
    forall name :: name in deps ==> WellFormed(name, deps[name])
  }

  lemma AllAreReadable(deps: DependencyList)
    requires AllWellFormed(deps)
    ensures AllReadable(deps)
  {
    forall name | name in deps ensures Readable(name, deps[name]) { WellFormedReadable(name, deps[name]); }
  }

  /** The Debian strings denote the list. */
  lemma DebDenotes(deps: DependencyList, host: string)
    requires AllWellFormed(deps)
    ensures ReadDeb(DebOut(deps), host) == Meaning(deps, host)
  {
    AllAreReadable(deps);
    DebReads(deps, host);
  }

  lemma DebReads(deps: DependencyList, host: string)
    requires AllReadable(deps)
    ensures ReadDeb(DebOut(deps), host) == Meaning(deps, host)
  {
    var keys, out := SortedKeys(deps.Keys), DebOut(deps);
    forall i | 0 <= i < |keys| ensures ReadDeb([out[i]], host) == RequiredOn(keys[i], deps[keys[i]], host) {
      DebEntryRead(deps, keys[i], host);
    }
    DebEach(deps, keys, out, host);
  }
}
