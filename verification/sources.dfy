/**
 The tree of sources in a spec: what validation finds wrong with it, what defaults are filled
 in, and where filling them in panics.
 */
module Sources {
  import opened Values
  import opened Order

  // ---------- the tree ----------

  datatype GitAuth = GitAuth(header: string, token: string, ssh: string)

  datatype Ssh = Ssh(id: string, username: string)

  datatype GomodAuth = GomodAuth(header: string, token: string, ssh: Option<Ssh>)

  /** A generator: its gomod part, and whether it names another kind. */
  datatype Generator = Generator(gomod: Option<map<string, GomodAuth>>, other: bool)

  datatype InlineFile = InlineFile(contents: string, permissions: nat, uid: int, gid: int)

  datatype InlineDir = InlineDir(files: map<string, InlineFile>, permissions: nat, uid: int, gid: int)

  datatype Inline = Inline(file: Option<InlineFile>, dir: Option<InlineDir>)

  datatype Git = Git(url: string, commit: string, auth: GitAuth)

  datatype Http = Http(url: string, digest: string, permissions: nat)

  datatype Mount = Mount(dest: string, spec: Source)

  datatype Step = Step(command: string, mounts: seq<Mount>)

  datatype Command = Command(mounts: seq<Mount>, steps: seq<Step>)

  datatype Image = Image(ref: string, cmd: Option<Command>)

  datatype Build = Build(source: Source, dockerfile: string)

  datatype Source = Source(
    path: string, includes: Option<seq<string>>, excludes: Option<seq<string>>, generate: seq<Generator>,
    build: Option<Build>, context: Option<string>, image: Option<Image>, git: Option<Git>, http: Option<Http>,
    inline: Option<Inline>)

  /** Library calls: the host of a git URL, and whether a digest is well formed. */
  datatype World = World(host: string -> string, digest: string -> bool)

  // ---------- validation ----------

  datatype Problem =
    | NoVariant | ManyVariants | NoGenerator
    | RecursiveBuild
    | NoRef | NoImagePath | NoSteps | NoStepCommand | DuplicateDest | RootDest
    | NoUrl | NoCommit | BadDigest | HttpFilter
    | NoInline | FileAndDir | BadOwner | BadFileName | InlineFilter
    | NotAnImage

  function If(b: bool, p: Problem): seq<Problem>
  {
    if b then [p] else []
  }

  function Variants(s: Source): nat
  {
    (if s.build.Some? then 1 else 0) + (if s.context.Some? then 1 else 0) + (if s.image.Some? then 1 else 0)
    + (if s.git.Some? then 1 else 0) + (if s.http.Some? then 1 else 0) + (if s.inline.Some? then 1 else 0)
  }

  /** `validateSourceVariants`. */
  method ValidateVariants(s: Source) returns (errs: seq<Problem>)
    ensures errs == if Variants(s) == 0 then [NoVariant] else if Variants(s) == 1 then [] else [ManyVariants]
  {
    var count := 0;
    if s.build.Some? { count := count + 1; }
    if s.context.Some? { count := count + 1; }
    if s.image.Some? { count := count + 1; }
    if s.git.Some? { count := count + 1; }
    if s.http.Some? { count := count + 1; }
    if s.inline.Some? { count := count + 1; }
    if count == 0 { return [NoVariant]; }
    if count == 1 { return []; }
    return [ManyVariants];
  }

  function GeneratorProblems(gs: seq<Generator>): seq<Problem>
  {
    if gs == [] then [] else If(gs[0].gomod.None? && !gs[0].other, NoGenerator) + GeneratorProblems(gs[1..])
  }

  function GitProblems(g: Git): seq<Problem>
  {
    If(g.url == "", NoUrl) + If(g.commit == "", NoCommit)
  }

  function HttpProblems(w: World, s: Source, h: Http): seq<Problem>
  {
    If(h.url == "", NoUrl) + If(h.digest != "" && !w.digest(h.digest), BadDigest)
    + If(s.excludes.Some? && s.excludes.value != [], HttpFilter)
    + If(s.includes.Some? && s.includes.value != [], HttpFilter)
    + If(s.path != "", HttpFilter)
  }

  function OwnerProblems(uid: int, gid: int): seq<Problem>
  {
    If(uid < 0, BadOwner) + If(gid < 0, BadOwner)
  }

  predicate BadFile(d: InlineDir, k: string)
    requires k in d.files
  {
    '/' in k || d.files[k].uid < 0 || d.files[k].gid < 0
  }

  /** The files of a directory are ranged over in any order; one entry stands for them all. */
  ghost function DirProblems(d: InlineDir): seq<Problem>
  {
    OwnerProblems(d.uid, d.gid) + If(exists k :: k in d.files && BadFile(d, k), BadFileName)
  }

  function FileProblems(s: Source, f: InlineFile): seq<Problem>
  {
    If(s.path != "", InlineFilter) + If(s.includes.Some?, InlineFilter) + If(s.excludes.Some?, InlineFilter)
    + OwnerProblems(f.uid, f.gid)
  }

  ghost function InlineProblems(s: Source, i: Inline): seq<Problem>
  {
    If(i.file.None? && i.dir.None?, NoInline) + If(i.file.Some? && i.dir.Some?, FileAndDir)
    + (if i.dir.Some? then DirProblems(i.dir.value) else [])
    + (if i.file.Some? then FileProblems(s, i.file.value) else [])
  }

  function StepProblems(steps: seq<Step>): seq<Problem>
  {
    if steps == [] then [] else If(steps[0].command == "", NoStepCommand) + StepProblems(steps[1..])
  }

  predicate Repeated(ms: seq<Mount>, n: nat)
    requires n < |ms|
  {
    exists i :: 0 <= i < n && ms[i].dest == ms[n].dest
  }

  /** The first `n` mounts of a command; the mounts of its steps are not looked at. */
  ghost function MountProblems(w: World, c: Command, n: nat): seq<Problem>
    requires n <= |c.mounts|
    decreases c, n
  {
    if n == 0 then [] else
      MountProblems(w, c, n - 1) + If(Repeated(c.mounts, n - 1), DuplicateDest)
      + If(c.mounts[n - 1].dest == "/", RootDest) + Problems(w, c.mounts[n - 1].spec)
  }

  ghost function CommandProblems(w: World, c: Command): seq<Problem>
    decreases c, |c.mounts| + 1
  {
    If(c.steps == [], NoSteps) + StepProblems(c.steps) + MountProblems(w, c, |c.mounts|)
  }

  ghost function VariantProblems(w: World, s: Source): seq<Problem>
    decreases s, 0
  {
    if s.build.Some? then If(s.build.value.source.build.Some?, RecursiveBuild) + Problems(w, s.build.value.source)
    else if s.context.Some? then []
    else if s.image.Some? then
      If(s.image.value.ref == "", NoRef)
      + (if s.image.value.cmd.Some? then CommandProblems(w, s.image.value.cmd.value) else [])
      + If(s.path == "", NoImagePath)
    else if s.git.Some? then GitProblems(s.git.value)
    else if s.http.Some? then HttpProblems(w, s, s.http.value)
    else if s.inline.Some? then InlineProblems(s, s.inline.value)
    else []
  }

  /** The errors `Source.validate` joins, with nested ones taken apart. */
  ghost function Problems(w: World, s: Source): seq<Problem>
    decreases s, 1
  {
    GeneratorProblems(s.generate)
    + (if Variants(s) == 0 then [NoVariant] else if Variants(s) > 1 then [ManyVariants] else VariantProblems(w, s))
  }

  method ValidateDir(d: InlineDir) returns (errs: seq<Problem>)
    ensures errs == DirProblems(d)
  {
    errs := If(d.uid < 0, BadOwner) + If(d.gid < 0, BadOwner);
    var order := RangeKeys(d.files.Keys);
    var bad := false;
    for i := 0 to |order|
      invariant bad <==> exists j :: 0 <= j < i && BadFile(d, order[j])
    {
      if '/' in order[i] { bad := true; }
      if d.files[order[i]].uid < 0 || d.files[order[i]].gid < 0 { bad := true; }
    }
    if exists k :: k in d.files && BadFile(d, k) {
      ghost var k :| k in d.files && BadFile(d, k);
      assert k in order;
    }
    errs := errs + If(bad, BadFileName);
  }

  /** `Command.validate`: destinations already met are kept in a set. */
  method ValidateCommand(w: World, c: Command) returns (errs: seq<Problem>)
    ensures errs == CommandProblems(w, c)
    decreases c, 1
  {
    var mounts := ValidateMounts(w, c);
    errs := If(|c.steps| == 0, NoSteps) + StepProblems(c.steps) + mounts;
  }

  ghost predicate Met(dests: set<string>, c: Command, n: nat)
    requires n <= |c.mounts|
  {
    forall d :: d in dests <==> exists j :: 0 <= j < n && c.mounts[j].dest == d
  }

  method ValidateMounts(w: World, c: Command) returns (errs: seq<Problem>)
    ensures errs == MountProblems(w, c, |c.mounts|)
    decreases c, 0
  {
    errs := [];
    var dests: set<string> := {};
    for i := 0 to |c.mounts|
      invariant errs == MountProblems(w, c, i)
      invariant Met(dests, c, i)
    {
      var m := c.mounts[i];
      assert m.dest in dests <==> Repeated(c.mounts, i);
      errs := errs + If(m.dest in dests, DuplicateDest);
      dests := dests + {m.dest};
      var nested := ValidateSource(w, m.spec);
      errs := errs + If(m.dest == "/", RootDest);
      errs := errs + nested;
    }
  }

  /** `Source.validate`. */
  method ValidateSource(w: World, s: Source) returns (errs: seq<Problem>)
    ensures errs == Problems(w, s)
    decreases s, 3
  {
    errs := GeneratorProblems(s.generate);
    var variants := ValidateVariants(s);
    if variants == [] {
      var more := ValidateVariant(w, s);
      errs := errs + more;
    } else {
      errs := errs + variants;
    }
  }

  method ValidateVariant(w: World, s: Source) returns (errs: seq<Problem>)
    requires Variants(s) == 1
    ensures errs == VariantProblems(w, s)
    decreases s, 2
  {
    errs := [];
    if s.build.Some? {
      if s.build.value.source.build.Some? { errs := [RecursiveBuild]; }
      var nested := ValidateSource(w, s.build.value.source);
      errs := errs + nested;
    } else if s.context.Some? {
    } else if s.image.Some? {
      if s.image.value.ref == "" { errs := [NoRef]; }
      if s.image.value.cmd.Some? {
        var cmd := ValidateCommand(w, s.image.value.cmd.value);
        errs := errs + cmd;
      }
      if s.path == "" { errs := errs + [NoImagePath]; }
    } else if s.git.Some? {
      errs := GitProblems(s.git.value);
    } else if s.http.Some? {
      errs := HttpProblems(w, s, s.http.value);
    } else {
      var i := s.inline.value;
      errs := If(i.file.None? && i.dir.None?, NoInline) + If(i.file.Some? && i.dir.Some?, FileAndDir);
      if i.dir.Some? {
        var dir := ValidateDir(i.dir.value);
        errs := errs + dir;
      }
      if i.file.Some? { errs := errs + FileProblems(s, i.file.value); }
    }
  }

  // ---------- defaults ----------

  const DefaultFilePerms: nat := 420  // 0644
  const DefaultDirPerms: nat := 493  // 0755

  function FillFile(f: InlineFile): InlineFile
  {
    if f.permissions == 0 then f.(permissions := DefaultFilePerms) else f
  }

  function FillDir(d: InlineDir): InlineDir
  {
    d.(permissions := if d.permissions == 0 then DefaultDirPerms else d.permissions,
       files := map k | k in d.files :: FillFile(d.files[k]))
  }

  function FillInline(i: Inline): Inline
  {
    Inline(
      if i.file.Some? then Some(FillFile(i.file.value)) else None,
      if i.dir.Some? then Some(FillDir(i.dir.value)) else None)
  }

  /** What the git authentication of a source becomes for its go modules. */
  function AuthFor(a: GitAuth): Option<GomodAuth>
  {
    if a.token != "" then Some(GomodAuth("", a.token, None))
    else if a.header != "" then Some(GomodAuth(a.header, "", None))
    else if a.ssh != "" then Some(GomodAuth("", "", Some(Ssh(a.ssh, "git"))))
    else None
  }

  function FillGomod(auth: map<string, GomodAuth>, host: string, a: GitAuth): map<string, GomodAuth>
  {
    if host in auth || AuthFor(a).None? then auth else auth[host := AuthFor(a).value]
  }

  function FillGenerator(g: Generator, host: string, a: GitAuth): Generator
  {
    if g.gomod.None? then g else g.(gomod := Some(FillGomod(g.gomod.value, host, a)))
  }

  function FillGenerators(gs: seq<Generator>, host: string, a: GitAuth): seq<Generator>
  {
    if gs == [] then [] else [FillGenerator(gs[0], host, a)] + FillGenerators(gs[1..], host, a)
  }

  function FillMount(w: World, m: Mount): Mount
    decreases m, 2
  {
    m.(spec := Fill(w, m.spec))
  }

  function FillCommand(w: World, c: Command): Command
    decreases c, 3
  {
    c.(mounts := seq(|c.mounts|, i requires 0 <= i < |c.mounts| => FillMount(w, c.mounts[i])))
  }

  function FillImage(w: World, i: Image): Image
    decreases i, 4
  {
    if i.cmd.None? then i else i.(cmd := Some(FillCommand(w, i.cmd.value)))
  }

  /** What `Source.fillDefaults` leaves, when it does not panic. */
  function Fill(w: World, s: Source): Source
    decreases s, 1
  {
    if s.build.Some? then s.(build := Some(s.build.value.(source := Fill(w, s.build.value.source))))
    else if s.context.Some? then (if s.context.value == "" then s.(context := Some("context")) else s)
    else if s.image.Some? then s.(image := Some(FillImage(w, s.image.value)))
    else if s.git.Some? then s.(generate := FillGenerators(s.generate, w.host(s.git.value.url), s.git.value.auth))
    else if s.http.Some? then s
    else if s.inline.Some? then s.(inline := Some(FillInline(s.inline.value)))
    else s
  }

  /** Filling in defaults gets through: no source it comes to lacks a variant. */
  ghost predicate Safe(s: Source)
    decreases s, 1
  {
    && Variants(s) > 0
    && (s.build.Some? ==> Safe(s.build.value.source))
    && (s.build.None? && s.context.None? && s.image.Some? && s.image.value.cmd.Some? ==>
      SafeCommand(s.image.value.cmd.value))
  }

  ghost predicate SafeCommand(c: Command)
    decreases c, 0
  {
    forall i :: 0 <= i < |c.mounts| ==> Safe(c.mounts[i].spec)
  }

  // ---------- the recursion, step by step ----------

  method FillDirInPlace(d: InlineDir) returns (d': InlineDir)
    ensures d' == FillDir(d)
  {
    d' := d;
    if d'.permissions == 0 { d' := d'.(permissions := DefaultDirPerms); }
    var order := RangeKeys(d.files.Keys);
    var files := d.files;
    for i := 0 to |order|
      invariant files.Keys == d.files.Keys
      invariant forall j :: 0 <= j < i ==> files[order[j]] == FillFile(d.files[order[j]])
      invariant forall j :: i <= j < |order| ==> files[order[j]] == d.files[order[j]]
    {
      files := files[order[i] := FillFile(files[order[i]])];
    }
    EachFile(d.files, files, order);
    d' := d'.(files := files);
  }

  lemma EachFile(before: map<string, InlineFile>, after: map<string, InlineFile>, order: seq<string>)
    requires Enumerates(order, before.Keys) && after.Keys == before.Keys
    requires forall j :: 0 <= j < |order| ==> after[order[j]] == FillFile(before[order[j]])
    ensures after == map k | k in before :: FillFile(before[k])
  {
    forall k | k in before ensures after[k] == FillFile(before[k]) {
      var j :| 0 <= j < |order| && order[j] == k;
    }
  }

  method FillGeneratorsInPlace(gs: seq<Generator>, host: string, a: GitAuth) returns (gs': seq<Generator>)
    ensures gs' == FillGenerators(gs, host, a)
  {
    gs' := gs;
    for i := 0 to |gs|
      invariant |gs'| == |gs|
      invariant forall j :: 0 <= j < i ==> gs'[j] == FillGenerator(gs[j], host, a)
      invariant forall j :: i <= j < |gs| ==> gs'[j] == gs[j]
    {
      gs' := gs'[i := FillGenerator(gs'[i], host, a)];
    }
    FillGeneratorsEach(gs, host, a);
  }

  lemma {:induction false} FillGeneratorsEach(gs: seq<Generator>, host: string, a: GitAuth)
    ensures |FillGenerators(gs, host, a)| == |gs|
    ensures forall j :: 0 <= j < |gs| ==> FillGenerators(gs, host, a)[j] == FillGenerator(gs[j], host, a)
  {
    if gs != [] { FillGeneratorsEach(gs[1..], host, a); }
  }

  /** `Command.fillDefaults`, over each mount in turn. */
  method FillCommandInPlace(w: World, c: Command) returns (ok: bool, c': Command)
    ensures ok <==> SafeCommand(c)
    ensures ok ==> c' == FillCommand(w, c)
    decreases c, 1
  {
    ok, c' := true, c;
    for i := 0 to |c.mounts|
      invariant c'.steps == c.steps && |c'.mounts| == |c.mounts|
      invariant forall j :: 0 <= j < i ==> Safe(c.mounts[j].spec) && c'.mounts[j] == FillMount(w, c.mounts[j])
      invariant forall j :: i <= j < |c.mounts| ==> c'.mounts[j] == c.mounts[j]
    {
      var spec;
      ok, spec := FillInPlace(w, c.mounts[i].spec);
      if !ok { return; }
      c' := c'.(mounts := c'.mounts[i := c'.mounts[i].(spec := spec)]);
    }
    assert c'.mounts == FillCommand(w, c).mounts;
  }

  /** `Source.fillDefaults`: a panic ends it with `ok` false. */
  method FillInPlace(w: World, s: Source) returns (ok: bool, s': Source)
    ensures ok <==> Safe(s)
    ensures ok ==> s' == Fill(w, s)
    decreases s, 2
  {
    ok, s' := true, s;
    if s.build.Some? {
      var nested;
      ok, nested := FillInPlace(w, s.build.value.source);
      s' := s.(build := Some(s.build.value.(source := nested)));
    } else if s.context.Some? {
      if s.context.value == "" { s' := s.(context := Some("context")); }
    } else if s.image.Some? {
      if s.image.value.cmd.Some? {
        var cmd;
        ok, cmd := FillCommandInPlace(w, s.image.value.cmd.value);
        s' := s.(image := Some(s.image.value.(cmd := Some(cmd))));
      }
    } else if s.git.Some? {
      var gs := FillGeneratorsInPlace(s.generate, w.host(s.git.value.url), s.git.value.auth);
      s' := s.(generate := gs);
    } else if s.http.Some? {
    } else if s.inline.Some? {
      var i := s.inline.value;
      if i.file.Some? { i := i.(file := Some(FillFile(i.file.value))); }
      if i.dir.Some? {
        var dir := FillDirInPlace(i.dir.value);
        i := i.(dir := Some(dir));
      }
      s' := s.(inline := Some(i));
    } else {
      ok := false;
    }
  }

  // ---------- filling twice ----------

  lemma FillDirTwice(d: InlineDir)
    ensures FillDir(FillDir(d)) == FillDir(d)
  {
    assert FillDir(FillDir(d)).files == FillDir(d).files;
  }

  lemma {:induction false} FillGeneratorsTwice(gs: seq<Generator>, host: string, a: GitAuth)
    ensures FillGenerators(FillGenerators(gs, host, a), host, a) == FillGenerators(gs, host, a)
    ensures GeneratorProblems(FillGenerators(gs, host, a)) == GeneratorProblems(gs)
  {
    if gs != [] {
      FillGeneratorsTwice(gs[1..], host, a);
      assert FillGenerators(gs, host, a)[1..] == FillGenerators(gs[1..], host, a);
    }
  }

  lemma FillCommandAt(w: World, c: Command, i: nat)
    requires i < |c.mounts|
    ensures |FillCommand(w, c).mounts| == |c.mounts|
    ensures FillCommand(w, c).mounts[i] == Mount(c.mounts[i].dest, Fill(w, c.mounts[i].spec))
  {
    assert FillCommand(w, c).mounts[i] == FillMount(w, c.mounts[i]);
  }

  lemma {:induction false} FillCommandTwice(w: World, c: Command)
    ensures FillCommand(w, FillCommand(w, c)) == FillCommand(w, c)
    decreases c, 0
  {
    var f := FillCommand(w, c);
    forall i | 0 <= i < |c.mounts| ensures FillCommand(w, f).mounts[i] == f.mounts[i] {
      FillTwice(w, c.mounts[i].spec);
      FillCommandAt(w, c, i);
      FillCommandAt(w, f, i);
    }
    assert FillCommand(w, f).mounts == f.mounts;
  }

  /** Filling in defaults a second time changes nothing. */
  lemma {:induction false} FillTwice(w: World, s: Source)
    ensures Fill(w, Fill(w, s)) == Fill(w, s)
    decreases s, 1
  {
    if s.build.Some? {
      FillTwice(w, s.build.value.source);
    } else if s.context.Some? {
    } else if s.image.Some? {
      if s.image.value.cmd.Some? { FillCommandTwice(w, s.image.value.cmd.value); }
    } else if s.git.Some? {
      FillGeneratorsTwice(s.generate, w.host(s.git.value.url), s.git.value.auth);
    } else if s.inline.Some? && s.inline.value.dir.Some? {
      FillDirTwice(s.inline.value.dir.value);
    }
  }

  // ---------- nothing is left to default ----------

  ghost predicate CompleteDir(d: InlineDir)
  {
    d.permissions != 0 && forall k :: k in d.files ==> d.files[k].permissions != 0
  }

  ghost predicate CompleteInline(i: Inline)
  {
    (i.file.Some? ==> i.file.value.permissions != 0) && (i.dir.Some? ==> CompleteDir(i.dir.value))
  }

  /** Every gomod generator knows the host, if there is authentication to know. */
  ghost predicate CompleteGenerators(gs: seq<Generator>, host: string, a: GitAuth)
  {
    a.token != "" || a.header != "" || a.ssh != "" ==>
      forall i :: 0 <= i < |gs| && gs[i].gomod.Some? ==> host in gs[i].gomod.value
  }

  /** Nothing in the tree that filling comes to has been left to a default. */
  ghost predicate Complete(w: World, s: Source)
    decreases s, 1
  {
    if s.build.Some? then Complete(w, s.build.value.source)
    else if s.context.Some? then s.context.value != ""
    else if s.image.Some? then s.image.value.cmd.Some? ==> CompleteCommand(w, s.image.value.cmd.value)
    else if s.git.Some? then CompleteGenerators(s.generate, w.host(s.git.value.url), s.git.value.auth)
    else s.http.None? && s.inline.Some? ==> CompleteInline(s.inline.value)
  }

  ghost predicate CompleteCommand(w: World, c: Command)
    decreases c, 0
  {
    forall i :: 0 <= i < |c.mounts| ==> Complete(w, c.mounts[i].spec)
  }

  lemma FillDirChanges(d: InlineDir)
    ensures FillDir(d) == d <==> CompleteDir(d)
  {
    var f := FillDir(d);
    if CompleteDir(d) {
      assert f.files == d.files;
    }
    if f == d {
      forall k | k in d.files ensures d.files[k].permissions != 0 {
        assert f.files[k] == FillFile(d.files[k]);
      }
    }
  }

  lemma {:induction false} FillGeneratorsChange(gs: seq<Generator>, host: string, a: GitAuth)
    ensures FillGenerators(gs, host, a) == gs <==> CompleteGenerators(gs, host, a)
  {
    FillGeneratorsEach(gs, host, a);
    var f := FillGenerators(gs, host, a);
    forall i | 0 <= i < |gs|
      ensures f[i] == gs[i] <==> (gs[i].gomod.Some? && (a.token != "" || a.header != "" || a.ssh != "") ==>
        host in gs[i].gomod.value)
    {
      FillGeneratorChanges(gs[i], host, a);
    }
    assert f == gs <==> forall i :: 0 <= i < |gs| ==> f[i] == gs[i];
  }

  lemma FillGeneratorChanges(g: Generator, host: string, a: GitAuth)
    ensures FillGenerator(g, host, a) == g <==> (g.gomod.Some? && (a.token != "" || a.header != "" || a.ssh != "") ==>
      host in g.gomod.value)
  {
    if g.gomod.Some? && AuthFor(a).Some? && host !in g.gomod.value {
      assert host in FillGenerator(g, host, a).gomod.value;
    }
  }

  lemma {:induction false} FillCommandChanges(w: World, c: Command)
    ensures FillCommand(w, c) == c <==> CompleteCommand(w, c)
    decreases c, 0
  {
    var f := FillCommand(w, c);
    forall i | 0 <= i < |c.mounts| ensures f.mounts[i] == c.mounts[i] <==> Complete(w, c.mounts[i].spec) {
      FillChanges(w, c.mounts[i].spec);
      FillCommandAt(w, c, i);
    }
    assert f == c <==> f.mounts == c.mounts;
    assert f.mounts == c.mounts <==> forall i :: 0 <= i < |c.mounts| ==> f.mounts[i] == c.mounts[i];
  }

  /** Filling in defaults leaves a source as it is exactly when nothing in it was left to a
      default; so what was given explicitly is never overwritten, and with `FillTwice`
      nothing is left to a default afterwards. */
  lemma {:induction false} FillChanges(w: World, s: Source)
    ensures Fill(w, s) == s <==> Complete(w, s)
    decreases s, 1
  {
    if s.build.Some? {
      FillChanges(w, s.build.value.source);
    } else if s.context.Some? {
    } else if s.image.Some? {
      if s.image.value.cmd.Some? { FillCommandChanges(w, s.image.value.cmd.value); }
    } else if s.git.Some? {
      FillGeneratorsChange(s.generate, w.host(s.git.value.url), s.git.value.auth);
    } else if s.http.None? && s.inline.Some? && s.inline.value.dir.Some? {
      FillDirChanges(s.inline.value.dir.value);
    }
  }

  lemma FilledComplete(w: World, s: Source)
    ensures Complete(w, Fill(w, s))
  {
    FillTwice(w, s);
    FillChanges(w, Fill(w, s));
  }

  // ---------- validation after filling ----------

  lemma FillKeepsShape(w: World, s: Source)
    ensures var f := Fill(w, s);
      && f.path == s.path && f.includes == s.includes && f.excludes == s.excludes && Variants(f) == Variants(s)
      && f.build.Some? == s.build.Some? && f.image.Some? == s.image.Some?
  {}

  lemma {:induction false} MountProblemsKept(w: World, c: Command, n: nat)
    requires n <= |c.mounts|
    ensures MountProblems(w, FillCommand(w, c), n) == MountProblems(w, c, n)
    decreases c, n
  {
    if n > 0 {
      MountProblemsKept(w, c, n - 1);
      ProblemsKept(w, c.mounts[n - 1].spec);
      RepeatedKept(w, c, n - 1);
      FillCommandAt(w, c, n - 1);
    }
  }

  lemma RepeatedKept(w: World, c: Command, n: nat)
    requires n < |c.mounts|
    ensures Repeated(FillCommand(w, c).mounts, n) == Repeated(c.mounts, n)
  {
    forall i | 0 <= i < |c.mounts| ensures FillCommand(w, c).mounts[i].dest == c.mounts[i].dest {
      FillCommandAt(w, c, i);
    }
  }

  lemma InlineProblemsKept(s: Source, s': Source, i: Inline)
    requires s.path == s'.path && s.includes == s'.includes && s.excludes == s'.excludes
    ensures InlineProblems(s', FillInline(i)) == InlineProblems(s, i)
  {
    if i.dir.Some? {
      var d, d' := i.dir.value, FillDir(i.dir.value);
      assert forall k :: k in d.files ==> BadFile(d', k) == BadFile(d, k);
    }
  }

  lemma {:induction false} CommandProblemsKept(w: World, c: Command)
    ensures CommandProblems(w, FillCommand(w, c)) == CommandProblems(w, c)
    decreases c, |c.mounts| + 1
  {
    MountProblemsKept(w, c, |c.mounts|);
    assert FillCommand(w, c).steps == c.steps;
  }

  /** Validation finds the same after defaults are filled in. */
  lemma {:induction false} ProblemsKept(w: World, s: Source)
    ensures Problems(w, Fill(w, s)) == Problems(w, s)
    decreases s, 1
  {
    FillKeepsShape(w, s);
    if s.build.Some? {
      FillKeepsShape(w, s.build.value.source);
      ProblemsKept(w, s.build.value.source);
    } else if s.context.Some? {
    } else if s.image.Some? {
      if s.image.value.cmd.Some? {
        CommandProblemsKept(w, s.image.value.cmd.value);
      }
    } else if s.git.Some? {
      FillGeneratorsTwice(s.generate, w.host(s.git.value.url), s.git.value.auth);
    } else if s.http.Some? {
    } else if s.inline.Some? {
      InlineProblemsKept(s, Fill(w, s), s.inline.value);
    }
  }

  // ---------- where filling panics ----------

  /** Validation saw a source without exactly one variant. */
  ghost predicate Miscounted(ps: seq<Problem>)
  {
    NoVariant in ps || ManyVariants in ps
  }

  /** What is wrong with a mount is wrong with the command. */
  lemma MountReported(w: World, c: Command, n: nat, p: Problem, i: nat)
    requires i < n <= |c.mounts| && p in Problems(w, c.mounts[i].spec)
    ensures p in MountProblems(w, c, n)
  {
    LastReported(w, c, i, p);
    StillReported(w, c, i + 1, n, p);
  }

  lemma {:induction false} StillReported(w: World, c: Command, n: nat, m: nat, p: Problem)
    requires n <= m <= |c.mounts| && p in MountProblems(w, c, n)
    ensures p in MountProblems(w, c, m)
    decreases m - n
  {
    if n < m {
      EarlierReported(w, c, n, p);
      StillReported(w, c, n + 1, m, p);
    }
  }

  lemma LastReported(w: World, c: Command, i: nat, p: Problem)
    requires i < |c.mounts| && p in Problems(w, c.mounts[i].spec)
    ensures p in MountProblems(w, c, i + 1)
  {
    InParts(MountProblems(w, c, i), If(Repeated(c.mounts, i), DuplicateDest), If(c.mounts[i].dest == "/", RootDest),
      Problems(w, c.mounts[i].spec), p);
  }

  lemma EarlierReported(w: World, c: Command, n: nat, p: Problem)
    requires n < |c.mounts| && p in MountProblems(w, c, n)
    ensures p in MountProblems(w, c, n + 1)
  {
    InParts(MountProblems(w, c, n), If(Repeated(c.mounts, n), DuplicateDest), If(c.mounts[n].dest == "/", RootDest),
      Problems(w, c.mounts[n].spec), p);
  }

  lemma InParts(a: seq<Problem>, b: seq<Problem>, c: seq<Problem>, d: seq<Problem>, p: Problem)
    ensures p in a + b + c + d <==> p in a || p in b || p in c || p in d
  {}

  lemma MountCounted(w: World, c: Command, i: nat)
    requires i < |c.mounts| && !Miscounted(CommandProblems(w, c))
    ensures !Miscounted(Problems(w, c.mounts[i].spec))
  {
    var ps := Problems(w, c.mounts[i].spec);
    if NoVariant in ps { MountReported(w, c, |c.mounts|, NoVariant, i); }
    if ManyVariants in ps { MountReported(w, c, |c.mounts|, ManyVariants, i); }
  }

  lemma {:induction false} CountedCommandSafe(w: World, c: Command)
    requires !Miscounted(CommandProblems(w, c))
    ensures SafeCommand(c)
    decreases c, 0
  {
    forall i | 0 <= i < |c.mounts| ensures Safe(c.mounts[i].spec) {
      MountCounted(w, c, i);
      CountedSafe(w, c.mounts[i].spec);
    }
  }

  /** Where validation counts one variant everywhere, filling does not panic. */
  lemma {:induction false} CountedSafe(w: World, s: Source)
    requires !Miscounted(Problems(w, s))
    ensures Safe(s)
    decreases s, 1
  {
    if s.build.Some? {
      CountedSafe(w, s.build.value.source);
    } else if s.context.None? && s.image.Some? && s.image.value.cmd.Some? {
      CountedCommandSafe(w, s.image.value.cmd.value);
    }
  }

  lemma {:induction false} FillKeepsSafe(w: World, s: Source)
    ensures Safe(Fill(w, s)) == Safe(s)
    decreases s, 1
  {
    FillKeepsShape(w, s);
    if s.build.Some? {
      FillKeepsSafe(w, s.build.value.source);
    } else if s.context.None? && s.image.Some? && s.image.value.cmd.Some? {
      var c := s.image.value.cmd.value;
      forall i | 0 <= i < |c.mounts| ensures Safe(FillCommand(w, c).mounts[i].spec) == Safe(c.mounts[i].spec) {
        FillKeepsSafe(w, c.mounts[i].spec);
        FillCommandAt(w, c, i);
      }
      assert SafeCommand(FillCommand(w, c)) == SafeCommand(c) by {
        assert |FillCommand(w, c).mounts| == |c.mounts|;
      }
    }
  }
}
