/**
 Enabling systemd units in a Debian package. debhelper works on unit base names, so a base
 name with enabled and disabled units is taken out of its hands and enabled by a postinst
 fragment. The fragment and the rules are written by two functions that group the units
 independently, each ranging over the map in an order of its own.
 */
module Systemd {
  import opened Order
  import opened Text
  import Paths

  datatype Unit = Unit(name: string, enable: bool, start: bool)

  type Units = map<string, Unit>

  /** Units by base name, then by full name. */
  type Index = map<string, Units>

  /** The name the unit file is installed under. */
  function ResolveName(key: string, u: Unit): string
  {
    Paths.ResolveName(u.name, key)
  }

  /** The part of a unit's file name debhelper goes by. */
  function BaseOf(file: string): string
  {
    match Cut(file, '.')
    case Whole => file
    case Parts(base, _) => base
  }

  /** The name the grouping gives a unit: its file name, if that has a dot. */
  function FullOf(file: string): (r: string)
    ensures '.' in file ==> r == file
    ensures '.' !in file ==> r == file + "."
  {
    match Cut(file, '.')
    case Whole => file + "." + ""
    case Parts(base, suffix) => base + "." + suffix
  }

  // ---------- grouping ----------

  ghost predicate Has(idx: Index, b: string, f: string)
  {
    b in idx && f in idx[b]
  }

  ghost predicate Occupied(idx: Index, b: string)
  {
    exists f :: Has(idx, b, f)
  }

  ghost predicate Entry(units: Units, k: string, b: string, f: string)
  {
    k in units && BaseOf(ResolveName(k, units[k])) == b && FullOf(ResolveName(k, units[k])) == f
  }

  /** The unit was entered under these names. */
  ghost predicate Justified(units: Units, b: string, f: string, u: Unit)
  {
    exists k :: Entry(units, k, b, f) && units[k] == u
  }

  /** The listed units are all entered, and nothing else is. A unit may have overwritten
      another of the same full name. */
  ghost predicate GroupsSome(idx: Index, units: Units, order: seq<string>)
  {
    && (forall k, b, f :: k in order && Entry(units, k, b, f) ==> Has(idx, b, f))
    && (forall b, f :: Has(idx, b, f) ==> Justified(units, b, f, idx[b][f]))
    && (forall b :: b in idx ==> Occupied(idx, b))
  }

  /** What grouping may leave. */
  ghost predicate Groups(idx: Index, units: Units)
  {
    && (forall k, b, f :: Entry(units, k, b, f) ==> Has(idx, b, f))
    && (forall b, f :: Has(idx, b, f) ==> Justified(units, b, f, idx[b][f]))
    && (forall b :: b in idx ==> Occupied(idx, b))
  }

  /** The index with one more unit. */
  function AddUnit(idx: Index, b: string, f: string, u: Unit): Index
  {
    idx[b := (if b in idx then idx[b] else map[])[f := u]]
  }

  lemma AddUnitGroups(idx: Index, units: Units, order: seq<string>, n: nat, b: string, f: string)
    requires n < |order| && Entry(units, order[n], b, f) && GroupsSome(idx, units, order[..n])
    ensures GroupsSome(AddUnit(idx, b, f, units[order[n]]), units, order[..n + 1])
  {
    var u := units[order[n]];
    var idx' := AddUnit(idx, b, f, u);
    AddUnitHas(idx, b, f, u);
    assert Justified(units, b, f, u);
    forall k, b', f' | k in order[..n + 1] && Entry(units, k, b', f') ensures Has(idx', b', f') {
      if k != order[n] { assert k in order[..n]; }
    }
    forall b', f' | Has(idx', b', f') ensures Justified(units, b', f', idx'[b'][f']) {
      if b' != b || f' != f { assert Has(idx, b', f'); }
    }
  }

  lemma AddUnitHas(idx: Index, b: string, f: string, u: Unit)
    ensures var idx' := AddUnit(idx, b, f, u);
      && (forall b', f' :: Has(idx', b', f') <==> Has(idx, b', f') || (b' == b && f' == f))
      && (forall b', f' :: Has(idx', b', f') ==> idx'[b'][f'] == if b' == b && f' == f then u else idx[b'][f'])
      && ((forall b' :: b' in idx ==> Occupied(idx, b')) ==> forall b' :: b' in idx' ==> Occupied(idx', b'))
  {
    var idx' := AddUnit(idx, b, f, u);
    assert Has(idx', b, f);
    if forall b' :: b' in idx ==> Occupied(idx, b') {
      forall b' | b' in idx' ensures Occupied(idx', b') {
        if b' != b {
          var f' :| Has(idx, b', f');
          assert Has(idx', b', f');
        }
      }
    }
  }

  /** `groupUnitsByBaseName`. */
  method GroupUnitsByBaseName(units: Units) returns (idx: Index)
    ensures Groups(idx, units)
  {
    var order := RangeKeys(units.Keys);
    idx := map[];
    for i := 0 to |order|
      invariant GroupsSome(idx, units, order[..i])
    {
      var k, v := order[i], units[order[i]];
      var b, f := BaseOf(ResolveName(k, v)), FullOf(ResolveName(k, v));
      AddUnitGroups(idx, units, order, i, b, f);
      idx := AddUnit(idx, b, f, v);
    }
    assert order[..|order|] == order;
  }

  // ---------- groups of enabled and disabled units ----------

  ghost predicate SomeEnabled(ls: Units)
  {
    exists f :: f in ls && ls[f].enable
  }

  ghost predicate SomeDisabled(ls: Units)
  {
    exists f :: f in ls && !ls[f].enable
  }

  ghost predicate Mixed(ls: Units)
  {
    SomeEnabled(ls) && SomeDisabled(ls)
  }

  ghost function EnabledIn(ls: Units, keys: seq<string>): set<string>
    requires forall k :: k in keys ==> k in ls
  {
    set k | k in keys && ls[k].enable
  }

  lemma EnabledInMore(ls: Units, order: seq<string>, n: nat)
    requires n < |order| && NoDuplicates(order) && forall k :: k in order ==> k in ls
    ensures |EnabledIn(ls, order[..n + 1])| == |EnabledIn(ls, order[..n])| + if ls[order[n]].enable then 1 else 0
  {
    var k := order[n];
    assert order[..n + 1] == order[..n] + [k];
    assert k !in order[..n];
    assert EnabledIn(ls, order[..n + 1]) == EnabledIn(ls, order[..n]) + if ls[k].enable then {k} else {};
  }

  lemma {:induction false} SubsetOfSameSize<T>(a: set<T>, b: set<T>)
    requires a <= b
    ensures |a| <= |b| && (|a| == |b| ==> a == b)
  {
    assert b == a + (b - a);
    assert |b| == |a| + |b - a|;
  }

  lemma CountDecides(ls: Units, order: seq<string>)
    requires Enumerates(order, ls.Keys)
    ensures var n := |EnabledIn(ls, order)|; (n != 0 && n != |ls|) == Mixed(ls)
  {
    var on := EnabledIn(ls, order);
    SubsetOfSameSize(on, ls.Keys);
    if SomeEnabled(ls) {
      var f :| f in ls && ls[f].enable;
      assert f in on;
    }
    if |on| != 0 {
      var f :| f in on;
      assert f in ls && ls[f].enable;
    }
    if SomeDisabled(ls) {
      var f :| f in ls && !ls[f].enable;
      assert f in ls.Keys && f !in on;
    }
    if on != ls.Keys {
      var f :| f in ls.Keys && f !in on;
      assert f in ls && !ls[f].enable;
    }
  }

  /** `requiresCustomEnable`: it counts, and decides whether the group is mixed. */
  method RequiresCustomEnable(ls: Units) returns (r: bool)
    ensures r <==> Mixed(ls)
  {
    var order := RangeKeys(ls.Keys);
    var enable := 0;
    for i := 0 to |order|
      invariant enable == |EnabledIn(ls, order[..i])|
    {
      EnabledInMore(ls, order, i);
      if ls[order[i]].enable { enable := enable + 1; }
    }
    assert order[..|order|] == order;
    CountDecides(ls, order);
    if enable == 0 { return false; }
    r := enable != |ls|;
  }

  // ---------- the rules ----------

  /** A line `dh_installsystemd --name=<base>`, with or without `--no-enable`. */
  datatype DhLine = DhLine(base: string, noEnable: bool)

  /** The lines, and whether the custom fragment is appended to the postinst. */
  datatype Rules = Rules(lines: seq<DhLine>, custom: bool)

  ghost function LineFor(idx: Index, b: string): DhLine
    requires b in idx
  {
    DhLine(b, SomeDisabled(idx[b]))
  }

  ghost predicate AnyMixed(idx: Index, keys: seq<string>)
    requires forall b :: b in keys ==> b in idx
  {
    exists b :: b in keys && Mixed(idx[b])
  }

  /** The rules for an index. */
  ghost predicate RulesFor(idx: Index, rules: Rules)
  {
    var keys := SortedKeys(idx.Keys);
    && |rules.lines| == |keys|
    && (forall i :: 0 <= i < |keys| ==> rules.lines[i] == LineFor(idx, keys[i]))
    && (rules.custom <==> AnyMixed(idx, keys))
  }

  /** One turn of the loop of `OverrideSystemd`. Any key may be taken as the first. */
  method OverrideGroup(basename: string, grouping: Units) returns (line: DhLine, needsCustomEnable: bool)
    requires exists k :: k in grouping
    ensures line == DhLine(basename, SomeDisabled(grouping)) && (needsCustomEnable <==> Mixed(grouping))
  {
    needsCustomEnable := RequiresCustomEnable(grouping);
    var firstKey :| firstKey in grouping;
    var enable := grouping[firstKey].enable;
    line := DhLine(basename, !enable || needsCustomEnable);
  }

  method OverrideEach(idx: Index, sorted: seq<string>) returns (rules: Rules)
    requires (forall b :: b in sorted ==> b in idx) && forall b :: b in idx ==> Occupied(idx, b)
    ensures |rules.lines| == |sorted| && forall i :: 0 <= i < |sorted| ==> rules.lines[i] == LineFor(idx, sorted[i])
    ensures rules.custom <==> AnyMixed(idx, sorted)
  {
    rules := Rules([], false);
    for i := 0 to |sorted|
      invariant |rules.lines| == i && forall j :: 0 <= j < i ==> rules.lines[j] == LineFor(idx, sorted[j])
      invariant rules.custom <==> exists j :: 0 <= j < i && Mixed(idx[sorted[j]])
    {
      assert Occupied(idx, sorted[i]);
      var line, needsCustomEnable := OverrideGroup(sorted[i], idx[sorted[i]]);
      rules := Rules(rules.lines + [line], rules.custom || needsCustomEnable);
    }
    assert AnyMixed(idx, sorted) ==> exists j :: 0 <= j < |sorted| && Mixed(idx[sorted[j]]);
  }

  /** What `OverrideSystemd` may write, for one grouping or another. */
  ghost predicate IsRules(units: Units, rules: Rules)
  {
    exists idx :: Groups(idx, units) && RulesFor(idx, rules)
  }

  /** `OverrideSystemd`. */
  method OverrideSystemd(units: Units) returns (rules: Rules)
    ensures IsRules(units, rules)
  {
    if |units| == 0 {
      rules := Rules([], false);
      NoUnits(units, rules);
      return;
    }
    var grouped := GroupUnitsByBaseName(units);
    var sorted := SortMapKeys(grouped);
    SortedKeysUnique(sorted, SortedKeys(grouped.Keys), grouped.Keys);
    rules := OverrideEach(grouped, sorted);
    assert RulesFor(grouped, rules);
  }

  lemma NoUnits(units: Units, rules: Rules)
    requires |units| == 0 && rules == Rules([], false)
    ensures IsRules(units, rules)
  {
    assert Groups(map[], units) && RulesFor(map[], rules);
  }

  // ---------- the custom postinst ----------

  datatype Part = Enable(unit: string) | NoEnable(unit: string) | Start(unit: string)

  function UnitParts(name: string, u: Unit): seq<Part>
  {
    [if u.enable then Enable(name) else NoEnable(name), Start(name)]
  }

  /** The parts for the first `n` units of a group. */
  function GroupParts(ls: Units, keys: seq<string>, n: nat): seq<Part>
    requires n <= |keys| && forall k :: k in keys ==> k in ls
  {
    if n == 0 then [] else GroupParts(ls, keys, n - 1) + UnitParts(keys[n - 1], ls[keys[n - 1]])
  }

  ghost function MixedParts(ls: Units): seq<Part>
  {
    if Mixed(ls) then GroupParts(ls, SortedKeys(ls.Keys), |SortedKeys(ls.Keys)|) else []
  }

  ghost function GroupOf(idx: Index): string -> seq<Part>
  {
    b => if b in idx then MixedParts(idx[b]) else []
  }

  ghost function PartsFor(idx: Index): seq<Part>
  {
    Gather(SortedKeys(idx.Keys), |SortedKeys(idx.Keys)|, GroupOf(idx))
  }

  lemma MixedPartsAre(ls: Units, keys: seq<string>)
    requires Mixed(ls) && IsSortedKeys(keys, ls.Keys)
    ensures MixedParts(ls) == GroupParts(ls, keys, |keys|)
  {
    SortedKeysUnique(keys, SortedKeys(ls.Keys), ls.Keys);
  }

  method WriteParts(buf: seq<Part>, ls: Units, sorted: seq<string>) returns (buf': seq<Part>)
    requires forall k :: k in sorted ==> k in ls
    ensures buf' == buf + GroupParts(ls, sorted, |sorted|)
  {
    buf' := buf;
    for i := 0 to |sorted|
      invariant buf' == buf + GroupParts(ls, sorted, i)
    {
      var cfg := ls[sorted[i]];
      buf' := buf' + [if cfg.enable then Enable(sorted[i]) else NoEnable(sorted[i])];
      buf' := buf' + [Start(sorted[i])];
    }
  }

  method GroupPostinst(buf: seq<Part>, ls: Units) returns (buf': seq<Part>)
    ensures buf' == buf + MixedParts(ls)
  {
    var custom := RequiresCustomEnable(ls);
    if !custom { return buf; }
    var sorted := SortMapKeys(ls);
    MixedPartsAre(ls, sorted);
    buf' := WriteParts(buf, ls, sorted);
  }

  ghost predicate Names(f: string -> seq<Part>, idx: Index, b: string)
  {
    b in idx && f(b) == MixedParts(idx[b])
  }

  method NamedPostinst(buf: seq<Part>, idx: Index, b: string, ghost f: string -> seq<Part>) returns (buf': seq<Part>)
    requires b in idx && Names(f, idx, b)
    ensures buf' == buf + f(b)
  {
    buf' := GroupPostinst(buf, idx[b]);
  }

  /** The loop of `customDHInstallSystemdPostinst`; `f` names what it writes per group. */
  method EachPostinst(idx: Index, sorted: seq<string>, ghost f: string -> seq<Part>) returns (buf: seq<Part>)
    requires forall b :: b in sorted ==> b in idx
    requires forall b {:trigger Names(f, idx, b)} :: b in idx ==> Names(f, idx, b)
    ensures buf == Gather(sorted, |sorted|, f)
  {
    buf := [];
    for i := 0 to |sorted|
      invariant buf == Gather(sorted, i, f)
    {
      buf := NamedPostinst(buf, idx, sorted[i], f);
    }
  }

  /** What the postinst fragment may be, for one grouping or another. */
  ghost predicate IsPostinst(units: Units, parts: seq<Part>)
  {
    exists idx :: Groups(idx, units) && parts == PartsFor(idx)
  }

  /** `customDHInstallSystemdPostinst`, as the list of templates it executes. */
  method CustomPostinst(units: Units) returns (buf: seq<Part>)
    ensures IsPostinst(units, buf)
  {
    var grouped := GroupUnitsByBaseName(units);
    var sorted := SortMapKeys(grouped);
    SortedKeysUnique(sorted, SortedKeys(grouped.Keys), grouped.Keys);
    buf := EachPostinst(grouped, sorted, GroupOf(grouped));
    assert buf == PartsFor(grouped);
  }

  function Render(parts: seq<Part>, template: Part -> string): string
  {
    if parts == [] then "" else template(parts[0]) + Render(parts[1..], template)
  }

  /** `Debroot` writes the fragment when it has any bytes. */
  predicate FragmentWritten(parts: seq<Part>, template: Part -> string)
  {
    |Render(parts, template)| > 0
  }

  // ---------- what the parts say ----------

  lemma {:induction false} GroupPartsEnable(ls: Units, keys: seq<string>, n: nat, f: string)
    requires n <= |keys| && forall k :: k in keys ==> k in ls
    ensures Enable(f) in GroupParts(ls, keys, n) <==> exists i :: 0 <= i < n && keys[i] == f && ls[f].enable
    ensures |GroupParts(ls, keys, n)| == 2 * n
  {
    if n > 0 {
      GroupPartsEnable(ls, keys, n - 1, f);
    }
  }

  lemma MixedPartsEnable(ls: Units, f: string)
    ensures Enable(f) in MixedParts(ls) <==> Mixed(ls) && f in ls && ls[f].enable
    ensures |MixedParts(ls)| > 0 <==> Mixed(ls)
  {
    if Mixed(ls) {
      var keys := SortedKeys(ls.Keys);
      GroupPartsEnable(ls, keys, |keys|, f);
      var g :| g in ls && ls[g].enable;
      assert g in keys;
      if f in ls {
        var i :| 0 <= i < |keys| && keys[i] == f;
      }
    }
  }

  /** The templates of a unit: whether to enable it, then starting it. */
  ghost predicate PartsOf(parts: seq<Part>, i: nat, f: string, u: Unit)
  {
    && 2 * i + 1 < |parts| && parts[2 * i] == (if u.enable then Enable(f) else NoEnable(f))
    && parts[2 * i + 1] == Start(f)
  }

  /** Of a mixed group every unit has its templates, in the order of the names. */
  lemma {:induction false} GroupPartsAt(ls: Units, keys: seq<string>, n: nat, i: nat)
    requires i < n <= |keys| && forall k :: k in keys ==> k in ls
    ensures |GroupParts(ls, keys, n)| == 2 * n && PartsOf(GroupParts(ls, keys, n), i, keys[i], ls[keys[i]])
  {
    if i < n - 1 { GroupPartsAt(ls, keys, n - 1, i); } else if n > 1 { GroupPartsAt(ls, keys, n - 1, 0); }
  }

  /** The unit is enabled by the fragment for this index. */
  ghost predicate Custom(idx: Index, b: string, f: string)
  {
    b in idx && Mixed(idx[b]) && f in idx[b] && idx[b][f].enable
  }

  lemma GroupOfEnable(idx: Index, b: string, p: string)
    requires b in idx
    ensures Enable(p) in GroupOf(idx)(b) <==> Custom(idx, b, p)
    ensures |GroupOf(idx)(b)| > 0 <==> Mixed(idx[b])
  {
    MixedPartsEnable(idx[b], p);
  }

  lemma GatherEnable(idx: Index, keys: seq<string>, f: string -> seq<Part>, p: string)
    requires forall b :: b in keys <==> b in idx
    requires forall b :: b in idx ==> (Enable(p) in f(b) <==> Custom(idx, b, p))
    ensures Enable(p) in Gather(keys, |keys|, f) <==> exists b :: Custom(idx, b, p)
  {
    GatherHolds(keys, |keys|, f, Enable(p));
    if exists b :: Custom(idx, b, p) {
      var b :| Custom(idx, b, p);
      var i :| 0 <= i < |keys| && keys[i] == b;
      assert Enable(p) in f(keys[i]);
    }
  }

  lemma PartsForEnable(idx: Index, p: string)
    ensures Enable(p) in PartsFor(idx) <==> exists b :: Custom(idx, b, p)
  {
    forall b | b in idx ensures Enable(p) in GroupOf(idx)(b) <==> Custom(idx, b, p) {
      GroupOfEnable(idx, b, p);
    }
    GatherEnable(idx, SortedKeys(idx.Keys), GroupOf(idx), p);
  }

  lemma GatherMixed(idx: Index, keys: seq<string>, f: string -> seq<Part>)
    requires forall b :: b in keys <==> b in idx
    requires forall b :: b in idx ==> (|f(b)| > 0 <==> Mixed(idx[b]))
    ensures |Gather(keys, |keys|, f)| > 0 <==> AnyMixed(idx, keys)
  {
    GatherSome(keys, |keys|, f);
    if AnyMixed(idx, keys) {
      var b :| b in keys && Mixed(idx[b]);
      var i :| 0 <= i < |keys| && keys[i] == b;
      assert |f(keys[i])| > 0;
    }
  }

  lemma PartsForSome(idx: Index)
    ensures |PartsFor(idx)| > 0 <==> AnyMixed(idx, SortedKeys(idx.Keys))
  {
    forall b | b in idx ensures |GroupOf(idx)(b)| > 0 <==> Mixed(idx[b]) {
      GroupOfEnable(idx, b, "");
    }
    GatherMixed(idx, SortedKeys(idx.Keys), GroupOf(idx));
  }

  lemma {:induction false} RenderLength(parts: seq<Part>, template: Part -> string)
    requires forall p :: |template(p)| > 0
    ensures FragmentWritten(parts, template) <==> |parts| > 0
  {
    if parts != [] { assert |template(parts[0])| > 0; }
  }

  // ---------- which units end up enabled ----------

  /** debhelper is taken to enable every unit file of a base name it was given without
      `--no-enable`, that is every file whose text before its first dot is the base name:
      `a.b.service` and a file without a dot are enabled with `a` too. */
  ghost predicate EnabledByDh(rules: Rules, file: string)
  {
    DhLine(BaseOf(file), false) in rules.lines
  }

  /** The fragment enables the units it names, once the rules have appended it. */
  ghost predicate EnabledByPostinst(rules: Rules, parts: seq<Part>, file: string)
  {
    rules.custom && Enable(file) in parts
  }

  ghost predicate Enabled(rules: Rules, parts: seq<Part>, file: string)
  {
    EnabledByDh(rules, file) || EnabledByPostinst(rules, parts, file)
  }

  /** What the two functions may have written: each grouped the units for itself. */
  ghost predicate Written(units: Units, rules: Rules, parts: seq<Part>)
  {
    IsRules(units, rules) && IsPostinst(units, parts)
  }

  ghost predicate SameFlag(units: Units, k: string, k': string)
    requires k in units && k' in units
  {
    FullOf(ResolveName(k, units[k])) == FullOf(ResolveName(k', units[k'])) ==> units[k].enable == units[k'].enable
  }

  /** No two units of one name ask for different things. */
  ghost predicate FlagsAgree(units: Units)
  {
    forall k, k' :: k in units && k' in units ==> SameFlag(units, k, k')
  }

  ghost predicate Satisfied(units: Units, rules: Rules, parts: seq<Part>, k: string)
    requires k in units
  {
    Enabled(rules, parts, ResolveName(k, units[k])) <==> units[k].enable
  }

  /** Some unit of this base name is disabled. */
  ghost predicate Disables(units: Units, b: string)
  {
    exists k :: k in units && BaseOf(ResolveName(k, units[k])) == b && !units[k].enable
  }

  /** With flags that agree, every index holds the flag of every unit. */
  lemma FlagKept(units: Units, idx: Index, k: string)
    requires Groups(idx, units) && FlagsAgree(units) && k in units
    ensures var file := ResolveName(k, units[k]);
      Has(idx, BaseOf(file), FullOf(file)) && idx[BaseOf(file)][FullOf(file)].enable == units[k].enable
  {
    var b, f := BaseOf(ResolveName(k, units[k])), FullOf(ResolveName(k, units[k]));
    assert Entry(units, k, b, f);
    assert Justified(units, b, f, idx[b][f]);
    var k' :| Entry(units, k', b, f) && units[k'] == idx[b][f];
    assert SameFlag(units, k, k');
  }

  lemma DisabledKept(units: Units, idx: Index, b: string)
    requires Groups(idx, units) && FlagsAgree(units) && b in idx
    ensures SomeDisabled(idx[b]) <==> Disables(units, b)
  {
    if Disables(units, b) {
      var k :| k in units && BaseOf(ResolveName(k, units[k])) == b && !units[k].enable;
      FlagKept(units, idx, k);
    }
    if SomeDisabled(idx[b]) {
      var f :| f in idx[b] && !idx[b][f].enable;
      assert Has(idx, b, f);
      var k :| Entry(units, k, b, f) && units[k] == idx[b][f];
    }
  }

  ghost predicate Enables(units: Units, b: string)
  {
    exists k :: k in units && BaseOf(ResolveName(k, units[k])) == b && units[k].enable
  }

  lemma EnabledKept(units: Units, idx: Index, b: string)
    requires Groups(idx, units) && FlagsAgree(units) && b in idx
    ensures SomeEnabled(idx[b]) <==> Enables(units, b)
  {
    if Enables(units, b) {
      var k :| k in units && BaseOf(ResolveName(k, units[k])) == b && units[k].enable;
      FlagKept(units, idx, k);
    }
    if SomeEnabled(idx[b]) {
      var f :| f in idx[b] && idx[b][f].enable;
      assert Has(idx, b, f);
      var k :| Entry(units, k, b, f) && units[k] == idx[b][f];
    }
  }

  lemma DhExactly(units: Units, idx: Index, rules: Rules, k: string)
    requires Groups(idx, units) && RulesFor(idx, rules) && FlagsAgree(units) && k in units
    ensures EnabledByDh(rules, ResolveName(k, units[k])) <==> !Disables(units, BaseOf(ResolveName(k, units[k])))
  {
    var b := BaseOf(ResolveName(k, units[k]));
    FlagKept(units, idx, k);
    DisabledKept(units, idx, b);
    DhLineOf(idx, rules, b);
  }

  /** debhelper is left to enable a base name when none of its units is disabled. */
  lemma DhLineOf(idx: Index, rules: Rules, b: string)
    requires RulesFor(idx, rules) && b in idx
    ensures DhLine(b, false) in rules.lines <==> !SomeDisabled(idx[b])
  {
    var keys := SortedKeys(idx.Keys);
    var i :| 0 <= i < |keys| && keys[i] == b;
    assert rules.lines[i] == LineFor(idx, b);
    if DhLine(b, false) in rules.lines {
      var j :| 0 <= j < |keys| && rules.lines[j] == DhLine(b, false);
      assert rules.lines[j] == LineFor(idx, keys[j]);
    }
  }

  lemma PostinstExactly(units: Units, idx: Index, k: string)
    requires Groups(idx, units) && FlagsAgree(units) && k in units
    ensures var file := ResolveName(k, units[k]);
      Enable(file) in PartsFor(idx) <==> '.' in file && units[k].enable && Disables(units, BaseOf(file))
  {
    var file := ResolveName(k, units[k]);
    var b := BaseOf(file);
    PartsForEnable(idx, file);
    FlagKept(units, idx, k);
    DisabledKept(units, idx, b);
    if exists b' :: Custom(idx, b', file) {
      var b' :| Custom(idx, b', file);
      assert Has(idx, b', file);
      var k' :| Entry(units, k', b', file);
      FullOfBase(ResolveName(k', units[k']));
      FullOfBase(file);
      assert b' == b;
    } else if '.' in file && units[k].enable && Disables(units, b) {
      assert Custom(idx, b, file);
    }
  }

  /** A full name has a dot and the base name of the file it stands for. */
  lemma FullOfBase(file: string)
    ensures '.' in FullOf(file) && BaseOf(FullOf(file)) == BaseOf(file)
  {
    if '.' !in file {
      CutAt(file, '.', "");
      assert file + ['.'] + "" == file + ".";
    }
  }

  lemma MixedKept(units: Units, idx: Index)
    requires Groups(idx, units) && FlagsAgree(units)
    ensures AnyMixed(idx, SortedKeys(idx.Keys)) <==> exists b :: Enables(units, b) && Disables(units, b)
  {
    var keys := SortedKeys(idx.Keys);
    if AnyMixed(idx, keys) {
      var b :| b in keys && Mixed(idx[b]);
      EnabledKept(units, idx, b);
      DisabledKept(units, idx, b);
    }
    if exists b :: Enables(units, b) && Disables(units, b) {
      var b :| Enables(units, b) && Disables(units, b);
      var k :| k in units && BaseOf(ResolveName(k, units[k])) == b && units[k].enable;
      FlagKept(units, idx, k);
      EnabledKept(units, idx, b);
      DisabledKept(units, idx, b);
      assert b in keys;
    }
  }

  /** The rules append the fragment exactly when `Debroot` writes it, whatever order either
      grouped the units in. */
  lemma AppendedIffWritten(units: Units, rules: Rules, parts: seq<Part>, template: Part -> string)
    requires Written(units, rules, parts) && FlagsAgree(units) && forall p :: |template(p)| > 0
    ensures rules.custom <==> FragmentWritten(parts, template)
  {
    var idx1 :| Groups(idx1, units) && RulesFor(idx1, rules);
    var idx2 :| Groups(idx2, units) && parts == PartsFor(idx2);
    MixedKept(units, idx1);
    MixedKept(units, idx2);
    PartsForSome(idx2);
    RenderLength(parts, template);
  }

  /** In every run, a unit ends up as asked unless it is an enabled one without a dot in its
      name whose base name has disabled units too. This is with the reading of debhelper in
      `EnabledByDh`, which goes by the text before the first dot alone. */
  lemma SatisfiedExactly(units: Units, rules: Rules, parts: seq<Part>, k: string)
    requires Written(units, rules, parts) && FlagsAgree(units) && k in units
    ensures var file := ResolveName(k, units[k]);
      Satisfied(units, rules, parts, k) <==> !('.' !in file && units[k].enable && Disables(units, BaseOf(file)))
  {
    var file := ResolveName(k, units[k]);
    var idx1 :| Groups(idx1, units) && RulesFor(idx1, rules);
    var idx2 :| Groups(idx2, units) && parts == PartsFor(idx2);
    DhExactly(units, idx1, rules, k);
    PostinstExactly(units, idx2, k);
    MixedKept(units, idx1);
    if units[k].enable { assert Enables(units, BaseOf(file)); } else { assert Disables(units, BaseOf(file)); }
  }

  /** Such as `foo`, enabled, beside `foo.socket`, disabled. */
  lemma DotlessUnit(units: Units, rules: Rules, parts: seq<Part>)
    requires units == map["foo" := Unit("foo", true, false), "foo.socket" := Unit("foo.socket", false, false)]
    requires Written(units, rules, parts)
    ensures !Enabled(rules, parts, "foo")
  {
    DotlessBase();
    DotlessPair(units, "foo", "foo.socket");
    SatisfiedExactly(units, rules, parts, "foo");
  }

  lemma DotlessPair(units: Units, k: string, k': string)
    requires k != k' && k != "" && k' != "" && units == map[k := Unit(k, true, false), k' := Unit(k', false, false)]
    requires FullOf(k) != FullOf(k') && BaseOf(k) == BaseOf(k')
    ensures FlagsAgree(units) && ResolveName(k, units[k]) == k && Disables(units, BaseOf(k))
  {
    assert k' in units && BaseOf(ResolveName(k', units[k'])) == BaseOf(k) && !units[k'].enable;
  }

  lemma DotlessBase()
    ensures BaseOf("foo.socket") == "foo" && BaseOf("foo") == "foo" && FullOf("foo") == "foo."
      && FullOf("foo.socket") == "foo.socket"
  {
    assert "foo" + ['.'] + "socket" == "foo.socket" && "foo" + "." == "foo.";
    NameParts("foo", "socket");
  }

  lemma NameParts(a: string, b: string)
    requires '.' !in a
    ensures BaseOf(a) == BaseOf(a + ['.'] + b) == a && FullOf(a) == a + "." && FullOf(a + ['.'] + b) == a + ['.'] + b
  {
    CutAt(a, '.', b);
    assert (a + ['.'] + b)[|a|] == '.';
  }

  ghost predicate Dotted(units: Units)
  {
    forall k :: k in units ==> '.' in ResolveName(k, units[k])
  }

  /** In every run, exactly the units asked for are enabled, precisely when no two units of
      one name ask for different things; distinct names are the usual way to get there. */
  lemma EnabledExactly(units: Units, rules: Rules, parts: seq<Part>)
    requires Written(units, rules, parts) && Dotted(units)
    ensures (forall k :: k in units ==> Satisfied(units, rules, parts, k)) <==> FlagsAgree(units)
  {
    if FlagsAgree(units) {
      forall k | k in units ensures Satisfied(units, rules, parts, k) {
        SatisfiedExactly(units, rules, parts, k);
      }
    }
    if forall k :: k in units ==> Satisfied(units, rules, parts, k) {
      forall k, k' | k in units && k' in units ensures SameFlag(units, k, k') {
        assert Satisfied(units, rules, parts, k) && Satisfied(units, rules, parts, k');
      }
    }
  }

  /** Units with distinct dotted names. */
  ghost predicate DistinctNames(units: Units)
  {
    Dotted(units) && forall k, k' :: k in units && k' in units && k != k' ==>
      ResolveName(k, units[k]) != ResolveName(k', units[k'])
  }

  lemma DistinctNamesEnabled(units: Units, rules: Rules, parts: seq<Part>, k: string)
    requires Written(units, rules, parts) && DistinctNames(units) && k in units
    ensures Enabled(rules, parts, ResolveName(k, units[k])) <==> units[k].enable
  {
    assert FlagsAgree(units);
    EnabledExactly(units, rules, parts);
    assert Satisfied(units, rules, parts, k);
  }

  // ---------- when the rules append what was written ----------

  /** Some unit of this full name has this flag. */
  ghost predicate Possible(units: Units, f: string, flag: bool)
  {
    exists k :: k in units && FullOf(ResolveName(k, units[k])) == f && units[k].enable == flag
  }

  ghost predicate IsFull(units: Units, f: string)
  {
    Possible(units, f, true) || Possible(units, f, false)
  }

  /** All units of this full name have this flag. */
  ghost predicate Forced(units: Units, f: string, flag: bool)
  {
    Possible(units, f, flag) && !Possible(units, f, !flag)
  }

  /** Some base name is mixed, whichever units overwrite which. */
  ghost predicate SurelyMixed(units: Units)
  {
    exists f, f' :: Forced(units, f, true) && Forced(units, f', false) && BaseOf(f) == BaseOf(f')
  }

  /** Some base name is mixed if the right units overwrite the others. */
  ghost predicate MaybeMixed(units: Units)
  {
    exists f, f' :: f != f' && Possible(units, f, true) && Possible(units, f', false) && BaseOf(f) == BaseOf(f')
  }

  lemma EntryIsPossible(units: Units, k: string, b: string, f: string)
    requires Entry(units, k, b, f)
    ensures Possible(units, f, units[k].enable) && BaseOf(f) == b
  {
    FullOfBase(ResolveName(k, units[k]));
  }

  lemma HasIsPossible(units: Units, idx: Index, b: string, f: string)
    requires Groups(idx, units) && Has(idx, b, f)
    ensures Possible(units, f, idx[b][f].enable) && BaseOf(f) == b
  {
    var k :| Entry(units, k, b, f) && units[k] == idx[b][f];
    EntryIsPossible(units, k, b, f);
  }

  lemma PossibleIsThere(units: Units, idx: Index, f: string)
    requires Groups(idx, units) && IsFull(units, f)
    ensures Has(idx, BaseOf(f), f)
  {
    var k :| k in units && FullOf(ResolveName(k, units[k])) == f;
    FullOfBase(ResolveName(k, units[k]));
    assert Entry(units, k, BaseOf(f), f);
  }

  lemma SurelyAnyMixed(units: Units, idx: Index)
    requires Groups(idx, units) && SurelyMixed(units)
    ensures AnyMixed(idx, SortedKeys(idx.Keys))
  {
    var f, f' :| Forced(units, f, true) && Forced(units, f', false) && BaseOf(f) == BaseOf(f');
    var b := BaseOf(f);
    PossibleIsThere(units, idx, f);
    PossibleIsThere(units, idx, f');
    HasIsPossible(units, idx, b, f);
    HasIsPossible(units, idx, b, f');
    assert Mixed(idx[b]);
    assert b in SortedKeys(idx.Keys);
  }

  lemma MixedIsMaybe(units: Units, idx: Index)
    requires Groups(idx, units) && AnyMixed(idx, SortedKeys(idx.Keys))
    ensures MaybeMixed(units)
  {
    var b :| b in SortedKeys(idx.Keys) && Mixed(idx[b]);
    GroupIsMaybe(units, idx, b);
  }

  lemma GroupIsMaybe(units: Units, idx: Index, b: string)
    requires Groups(idx, units) && b in idx && Mixed(idx[b])
    ensures MaybeMixed(units)
  {
    var ls := idx[b];
    var f, f' := PairOf(ls);
    HasIsPossible(units, idx, b, f);
    HasIsPossible(units, idx, b, f');
  }

  lemma PairOf(ls: Units) returns (f: string, f': string)
    requires Mixed(ls)
    ensures f in ls && f' in ls && f != f' && ls[f].enable && !ls[f'].enable
  {
    f :| f in ls && ls[f].enable;
    f' :| f' in ls && !ls[f'].enable;
  }

  // ---------- an index for every choice of flags ----------

  ghost predicate Chooses(units: Units, g: string -> bool)
  {
    forall f :: IsFull(units, f) ==> Possible(units, f, g(f))
  }

  ghost function Chosen(units: Units, g: string -> bool, f: string): (u: Unit)
    requires Chooses(units, g) && IsFull(units, f)
    ensures u.enable == g(f) && Justified(units, BaseOf(f), f, u)
  {
    assert Possible(units, f, g(f));
    var k :| k in units && FullOf(ResolveName(k, units[k])) == f && units[k].enable == g(f);
    FullOfBase(ResolveName(k, units[k]));
    assert Entry(units, k, BaseOf(f), f);
    units[k]
  }

  ghost function Fulls(units: Units): (s: set<string>)
    ensures forall f :: f in s <==> IsFull(units, f)
  {
    set k | k in units :: FullOf(ResolveName(k, units[k]))
  }

  ghost function BuildGroup(units: Units, g: string -> bool, b: string): Units
    requires Chooses(units, g)
  {
    map f | f in Fulls(units) && BaseOf(f) == b :: Chosen(units, g, f)
  }

  ghost function Build(units: Units, g: string -> bool): Index
    requires Chooses(units, g)
  {
    map b | b in (set f | f in Fulls(units) :: BaseOf(f)) :: BuildGroup(units, g, b)
  }

  lemma BuildHas(units: Units, g: string -> bool, b: string, f: string)
    requires Chooses(units, g)
    ensures Has(Build(units, g), b, f) <==> IsFull(units, f) && BaseOf(f) == b
    ensures Has(Build(units, g), b, f) ==> Build(units, g)[b][f] == Chosen(units, g, f)
  {
    GroupBuilt(units, g, b, f);
    assert b in Build(units, g) ==> Build(units, g)[b] == BuildGroup(units, g, b);
  }

  lemma GroupBuilt(units: Units, g: string -> bool, b: string, f: string)
    requires Chooses(units, g)
    ensures f in BuildGroup(units, g, b) <==> IsFull(units, f) && BaseOf(f) == b
    ensures f in BuildGroup(units, g, b) ==> b in Build(units, g) && BuildGroup(units, g, b)[f] == Chosen(units, g, f)
  {
    if IsFull(units, f) && BaseOf(f) == b { assert f in Fulls(units); }
  }

  /** Any choice of possible flags is what some grouping leaves. */
  lemma BuildGroups(units: Units, g: string -> bool)
    requires Chooses(units, g)
    ensures Groups(Build(units, g), units)
  {
    var idx := Build(units, g);
    forall k, b, f | Entry(units, k, b, f) ensures Has(idx, b, f) {
      EntryIsPossible(units, k, b, f);
      BuildHas(units, g, b, f);
    }
    forall b, f | Has(idx, b, f) ensures Justified(units, b, f, idx[b][f]) { BuildHas(units, g, b, f); }
    forall b | b in idx ensures Occupied(idx, b) {
      var f :| f in Fulls(units) && BaseOf(f) == b;
      BuildHas(units, g, b, f);
    }
  }

  /** The flags that leave no group mixed: all enabled where one must be, all disabled where
      none must. */
  ghost function Quiet(units: Units): string -> bool
  {
    f => exists f' :: Forced(units, f', true) && BaseOf(f') == BaseOf(f)
  }

  lemma QuietChooses(units: Units)
    requires !SurelyMixed(units)
    ensures Chooses(units, Quiet(units))
  {
    forall f | IsFull(units, f) ensures Possible(units, f, Quiet(units)(f)) {
      if Quiet(units)(f) {
        assert !Forced(units, f, false);
      } else {
        assert !Forced(units, f, true);
      }
    }
  }

  lemma QuietUnmixed(units: Units)
    requires !SurelyMixed(units)
    ensures Chooses(units, Quiet(units))
      && !AnyMixed(Build(units, Quiet(units)), SortedKeys(Build(units, Quiet(units)).Keys))
  {
    QuietChooses(units);
    var g, idx := Quiet(units), Build(units, Quiet(units));
    forall b, f, f' | Has(idx, b, f) && Has(idx, b, f') ensures idx[b][f].enable == idx[b][f'].enable {
      BuildHas(units, g, b, f);
      BuildHas(units, g, b, f');
    }
    forall b | b in idx ensures !Mixed(idx[b]) { Unmixed(idx, b); }
  }

  lemma Unmixed(idx: Index, b: string)
    requires b in idx && forall f, f' :: Has(idx, b, f) && Has(idx, b, f') ==> idx[b][f].enable == idx[b][f'].enable
    ensures !Mixed(idx[b])
  {
    forall f, f' | f in idx[b] && f' in idx[b] ensures idx[b][f].enable == idx[b][f'].enable {
      assert Has(idx, b, f) && Has(idx, b, f');
    }
  }

  ghost function Loud(units: Units, f: string, f': string): string -> bool
  {
    x => if x == f then true else if x == f' then false else Quiet(units)(x)
  }

  lemma LoudMixed(units: Units, f: string, f': string)
    requires !SurelyMixed(units) && f != f' && Possible(units, f, true) && Possible(units, f', false)
      && BaseOf(f) == BaseOf(f')
    ensures var g := Loud(units, f, f');
      Chooses(units, g) && AnyMixed(Build(units, g), SortedKeys(Build(units, g).Keys))
  {
    QuietChooses(units);
    var g := Loud(units, f, f');
    forall x | IsFull(units, x) ensures Possible(units, x, g(x)) {}
    var idx, b := Build(units, g), BaseOf(f);
    BuildHas(units, g, b, f);
    BuildHas(units, g, b, f');
    assert Mixed(idx[b]);
    assert b in SortedKeys(idx.Keys);
  }

  ghost function RulesOf(idx: Index): (r: Rules)
    ensures RulesFor(idx, r)
  {
    var keys := SortedKeys(idx.Keys);
    Rules(seq(|keys|, i requires 0 <= i < |keys| => LineFor(idx, keys[i])), AnyMixed(idx, keys))
  }

  ghost predicate AppendsWritten(units: Units, template: Part -> string)
  {
    forall rules, parts :: Written(units, rules, parts) ==> (rules.custom <==> FragmentWritten(parts, template))
  }

  /** In all runs the rules append the fragment exactly when Debroot writes it, if and only if
      some base name is mixed whichever units overwrite which, or none ever is. */
  lemma AppendedExactly(units: Units, template: Part -> string)
    requires forall p :: |template(p)| > 0
    ensures AppendsWritten(units, template) <==> SurelyMixed(units) || !MaybeMixed(units)
  {
    if SurelyMixed(units) || !MaybeMixed(units) {
      forall rules, parts | Written(units, rules, parts) ensures rules.custom <==> FragmentWritten(parts, template) {
        AppendedWhenSure(units, rules, parts, template);
      }
    } else {
      var f, f' :| f != f' && Possible(units, f, true) && Possible(units, f', false) && BaseOf(f) == BaseOf(f');
      LoudMixed(units, f, f');
      QuietUnmixed(units);
      BuildGroups(units, Loud(units, f, f'));
      BuildGroups(units, Quiet(units));
      RunsDisagree(units, Build(units, Loud(units, f, f')), Build(units, Quiet(units)), template);
    }
  }

  lemma AppendedWhenSure(units: Units, rules: Rules, parts: seq<Part>, template: Part -> string)
    requires Written(units, rules, parts) && (SurelyMixed(units) || !MaybeMixed(units)) && forall p :: |template(p)| > 0
    ensures rules.custom <==> FragmentWritten(parts, template)
  {
    var idx1 :| Groups(idx1, units) && RulesFor(idx1, rules);
    var idx2 :| Groups(idx2, units) && parts == PartsFor(idx2);
    PartsForSome(idx2);
    RenderLength(parts, template);
    if SurelyMixed(units) {
      SurelyAnyMixed(units, idx1);
      SurelyAnyMixed(units, idx2);
    } else {
      if AnyMixed(idx1, SortedKeys(idx1.Keys)) { MixedIsMaybe(units, idx1); }
      if AnyMixed(idx2, SortedKeys(idx2.Keys)) { MixedIsMaybe(units, idx2); }
    }
  }

  lemma RunsDisagree(units: Units, idx1: Index, idx2: Index, template: Part -> string)
    requires (forall p :: |template(p)| > 0) && AnyMixed(idx1, SortedKeys(idx1.Keys))
      && !AnyMixed(idx2, SortedKeys(idx2.Keys))
    requires Groups(idx1, units) && Groups(idx2, units)
    ensures !AppendsWritten(units, template)
  {
    var rules, parts := RulesOf(idx1), PartsFor(idx2);
    assert IsRules(units, rules) && IsPostinst(units, parts);
    PartsForSome(idx2);
    RenderLength(parts, template);
    assert Written(units, rules, parts);
  }

  // ---------- one unit, in all runs ----------

  /** What a pair of groupings makes of a unit. */
  lemma EnabledIs(units: Units, idx1: Index, idx2: Index, rules: Rules, k: string)
    requires Groups(idx1, units) && Groups(idx2, units) && RulesFor(idx1, rules) && k in units
    ensures var file := ResolveName(k, units[k]);
      var b, f := BaseOf(file), FullOf(file);
      && Has(idx1, b, f) && Has(idx2, b, f)
      && (Enabled(rules, PartsFor(idx2), file) <==>
            !SomeDisabled(idx1[b]) ||
              (AnyMixed(idx1, SortedKeys(idx1.Keys)) && '.' in file && Mixed(idx2[b]) && idx2[b][f].enable))
  {
    var file := ResolveName(k, units[k]);
    var b, f := BaseOf(file), FullOf(file);
    assert Entry(units, k, b, f);
    DhLineOf(idx1, rules, b);
    FragmentIs(units, idx2, file, b, f);
  }

  lemma FragmentIs(units: Units, idx: Index, file: string, b: string, f: string)
    requires Groups(idx, units) && b == BaseOf(file) && f == FullOf(file) && Has(idx, b, f)
    ensures Enable(file) in PartsFor(idx) <==> '.' in file && Mixed(idx[b]) && idx[b][f].enable
  {
    PartsForEnable(idx, file);
    if exists b' :: Custom(idx, b', file) {
      var b' :| Custom(idx, b', file);
      assert Has(idx, b', file);
      var k' :| Entry(units, k', b', file);
      FullOfBase(ResolveName(k', units[k']));
    }
    if '.' in file && Mixed(idx[b]) && idx[b][f].enable { assert Custom(idx, b, file); }
  }

  ghost predicate AlwaysSatisfied(units: Units, k: string)
    requires k in units
  {
    forall rules, parts :: Written(units, rules, parts) ==> Satisfied(units, rules, parts, k)
  }

  /** A name of this base is disabled, whichever units overwrite which. */
  ghost predicate SurelyDisables(units: Units, b: string)
  {
    exists f :: Forced(units, f, false) && BaseOf(f) == b
  }

  ghost predicate MaybeDisables(units: Units, b: string)
  {
    exists f :: Possible(units, f, false) && BaseOf(f) == b
  }

  /** An enabled unit: none of its base name can be disabled, or it is told apart by a dotted
      name all of whose units are enabled, and another name is surely disabled. A disabled
      one: a name of its base is surely disabled, its own if it is dotted. */
  ghost predicate WellAsked(units: Units, k: string)
    requires k in units
  {
    var file := ResolveName(k, units[k]);
    var b, f := BaseOf(file), FullOf(file);
    if units[k].enable then
      !MaybeDisables(units, b) || ('.' in file && Forced(units, f, true) && SurelyDisables(units, b))
    else SurelyDisables(units, b) && ('.' in file ==> Forced(units, f, false))
  }

  lemma DisabledOf(units: Units, idx: Index, b: string)
    requires Groups(idx, units) && b in idx
    ensures SurelyDisables(units, b) ==> SomeDisabled(idx[b])
    ensures SomeDisabled(idx[b]) ==> MaybeDisables(units, b)
  {
    if SurelyDisables(units, b) {
      var f :| Forced(units, f, false) && BaseOf(f) == b;
      PossibleIsThere(units, idx, f);
      HasIsPossible(units, idx, b, f);
    }
    if SomeDisabled(idx[b]) {
      var f :| f in idx[b] && !idx[b][f].enable;
      HasIsPossible(units, idx, b, f);
    }
  }

  lemma AskedIsSatisfied(units: Units, idx1: Index, idx2: Index, rules: Rules, k: string)
    requires Groups(idx1, units) && Groups(idx2, units) && RulesFor(idx1, rules) && k in units && WellAsked(units, k)
    ensures Satisfied(units, rules, PartsFor(idx2), k)
  {
    var file := ResolveName(k, units[k]);
    var b, f := BaseOf(file), FullOf(file);
    EnabledIs(units, idx1, idx2, rules, k);
    DisabledOf(units, idx1, b);
    DisabledOf(units, idx2, b);
    HasIsPossible(units, idx1, b, f);
    HasIsPossible(units, idx2, b, f);
    if Forced(units, f, true) {
      assert SomeEnabled(idx1[b]) && SomeEnabled(idx2[b]);
      assert b in SortedKeys(idx1.Keys);
    }
  }

  /** Flags that enable whatever can be enabled, but for one name. */
  ghost function AllBut(units: Units, f: string): string -> bool
  {
    x => x != f && Possible(units, x, true)
  }

  lemma AllButChooses(units: Units, f: string)
    requires Possible(units, f, false) || !IsFull(units, f)
    ensures Chooses(units, AllBut(units, f)) && Groups(Build(units, AllBut(units, f)), units)
  {
    forall x | IsFull(units, x) ensures Possible(units, x, AllBut(units, f)(x)) {}
    BuildGroups(units, AllBut(units, f));
  }

  lemma BuiltFlag(units: Units, f: string, b: string, x: string)
    requires Chooses(units, AllBut(units, f)) && IsFull(units, x) && BaseOf(x) == b
    ensures Has(Build(units, AllBut(units, f)), b, x)
    ensures Build(units, AllBut(units, f))[b][x].enable <==> x != f && Possible(units, x, true)
  {
    BuildHas(units, AllBut(units, f), b, x);
  }

  lemma BuiltDisabled(units: Units, f: string, b: string)
    requires Chooses(units, AllBut(units, f)) && b in Build(units, AllBut(units, f))
    requires SomeDisabled(Build(units, AllBut(units, f))[b])
    ensures exists x :: IsFull(units, x) && BaseOf(x) == b && !(x != f && Possible(units, x, true))
  {
    var idx: Index := Build(units, AllBut(units, f));
    var x :| x in idx[b] && !idx[b][x].enable;
    assert Has(idx, b, x);
    BuildHas(units, AllBut(units, f), b, x);
  }

  lemma RunWritten(units: Units, idx1: Index, idx2: Index)
    requires Groups(idx1, units) && Groups(idx2, units)
    ensures Written(units, RulesOf(idx1), PartsFor(idx2)) && RulesFor(idx1, RulesOf(idx1))
  {
    assert IsRules(units, RulesOf(idx1)) && IsPostinst(units, PartsFor(idx2));
  }

  /** An enabled unit that is not well asked is left disabled by some run. */
  lemma EnabledMissed(units: Units, k: string)
    requires k in units && units[k].enable && !WellAsked(units, k)
    ensures !AlwaysSatisfied(units, k)
  {
    var file := ResolveName(k, units[k]);
    var b, f := BaseOf(file), FullOf(file);
    EntryIsPossible(units, k, b, f);
    var f' :| Possible(units, f', false) && BaseOf(f') == b;
    var none := Absent(units);
    AllButChooses(units, f');
    var idx1 := Build(units, AllBut(units, f'));
    BuiltFlag(units, f', b, f');
    var x := if Forced(units, f, true) then none else f;
    AllButChooses(units, x);
    var idx2 := Build(units, AllBut(units, x));
    BuiltFlag(units, x, b, f);
    RunWritten(units, idx1, idx2);
    EnabledIs(units, idx1, idx2, RulesOf(idx1), k);
    if '.' in file && Forced(units, f, true) && SomeDisabled(idx2[b]) {
      BuiltDisabled(units, none, b);
      assert false;
    }
    assert !Satisfied(units, RulesOf(idx1), PartsFor(idx2), k);
  }

  /** A full name of no unit: all of them have a dot. */
  ghost function Absent(units: Units): (f: string)
    ensures !IsFull(units, f)
  {
    assert forall k :: k in units ==> FullOf(ResolveName(k, units[k])) != "" by {
      forall k | k in units ensures FullOf(ResolveName(k, units[k])) != "" { FullOfBase(ResolveName(k, units[k])); }
    }
    ""
  }

  /** A disabled unit that is not well asked is enabled by some run. */
  lemma DisabledMissed(units: Units, k: string)
    requires k in units && !units[k].enable && !WellAsked(units, k)
    ensures !AlwaysSatisfied(units, k)
  {
    var file := ResolveName(k, units[k]);
    var b, f := BaseOf(file), FullOf(file);
    EntryIsPossible(units, k, b, f);
    var none := Absent(units);
    AllButChooses(units, none);
    var idx := Build(units, AllBut(units, none));
    BuiltFlag(units, none, b, f);
    RunWritten(units, idx, idx);
    EnabledIs(units, idx, idx, RulesOf(idx), k);
    if SomeDisabled(idx[b]) {
      BuiltDisabled(units, none, b);
      assert SurelyDisables(units, b);
      assert idx[b][f].enable && b in SortedKeys(idx.Keys);
    }
    assert !Satisfied(units, RulesOf(idx), PartsFor(idx), k);
  }

  /** A unit ends up as asked in all runs, whichever units overwrite which in either grouping,
      if and only if it is well asked. */
  lemma AlwaysSatisfiedExactly(units: Units, k: string)
    requires k in units
    ensures AlwaysSatisfied(units, k) <==> WellAsked(units, k)
  {
    if WellAsked(units, k) {
      forall rules, parts | Written(units, rules, parts) ensures Satisfied(units, rules, parts, k) {
        var idx1 :| Groups(idx1, units) && RulesFor(idx1, rules);
        var idx2 :| Groups(idx2, units) && parts == PartsFor(idx2);
        AskedIsSatisfied(units, idx1, idx2, rules, k);
      }
    } else if units[k].enable {
      EnabledMissed(units, k);
    } else {
      DisabledMissed(units, k);
    }
  }
}
