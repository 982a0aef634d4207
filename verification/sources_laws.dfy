/**
 What is wrong with a source, told problem by problem from the tree itself, and which values
 its defaults are filled in with.
 */
module SourceLaws {
  import opened Values
  import opened Sources

  // ---------- what is wrong ----------

  datatype Variant = OfBuild | OfContext | OfImage | OfGit | OfHttp | OfInline

  predicate Has(s: Source, v: Variant)
  {
    match v
    case OfBuild => s.build.Some?
    case OfContext => s.context.Some?
    case OfImage => s.image.Some?
    case OfGit => s.git.Some?
    case OfHttp => s.http.Some?
    case OfInline => s.inline.Some?
  }

  /** The source is of this variant and of no other. */
  ghost predicate Is(s: Source, v: Variant)
  {
    Has(s, v) && forall v' :: Has(s, v') ==> v' == v
  }

  predicate NegativeOwner(uid: int, gid: int)
  {
    uid < 0 || gid < 0
  }

  /** A command of an image: it has steps, each with something to run, and mounts no two of
      which share a destination and none of which is mounted over the root. */
  ghost predicate WrongCommand(c: Command, p: Problem)
  {
    match p
    case NoSteps => |c.steps| == 0
    case NoStepCommand => exists i :: 0 <= i < |c.steps| && c.steps[i].command == ""
    case DuplicateDest => exists i, j :: 0 <= i < j < |c.mounts| && c.mounts[i].dest == c.mounts[j].dest
    case RootDest => exists i :: 0 <= i < |c.mounts| && c.mounts[i].dest == "/"
    case _ => false
  }

  predicate WrongFile(name: string, f: InlineFile)
  {
    '/' in name || NegativeOwner(f.uid, f.gid)
  }

  ghost predicate WrongInline(s: Source, i: Inline, p: Problem)
  {
    match p
    case NoInline => i.file.None? && i.dir.None?
    case FileAndDir => i.file.Some? && i.dir.Some?
    case BadOwner =>
      || (i.file.Some? && NegativeOwner(i.file.value.uid, i.file.value.gid))
      || (i.dir.Some? && NegativeOwner(i.dir.value.uid, i.dir.value.gid))
    case BadFileName => i.dir.Some? && exists k :: k in i.dir.value.files && WrongFile(k, i.dir.value.files[k])
    case InlineFilter => i.file.Some? && (s.path != "" || s.includes.Some? || s.excludes.Some?)
    case _ => false
  }

  /** What is wrong with the source itself. */
  ghost predicate WrongHere(w: World, s: Source, p: Problem)
  {
    || (p == NoVariant && forall v :: !Has(s, v))
    || (p == ManyVariants && exists v, v' :: v != v' && Has(s, v) && Has(s, v'))
    || (p == NoGenerator && exists i :: 0 <= i < |s.generate| && s.generate[i].gomod.None? && !s.generate[i].other)
    || WrongVariant(w, s, p)
  }

  /** What is wrong with the variant it is of. */
  ghost predicate WrongVariant(w: World, s: Source, p: Problem)
  {
    || (Is(s, OfBuild) && p == RecursiveBuild && s.build.value.source.build.Some?)
    || (Is(s, OfImage) && p == NoRef && s.image.value.ref == "")
    || (Is(s, OfImage) && p == NoImagePath && s.path == "")
    || (Is(s, OfImage) && s.image.value.cmd.Some? && WrongCommand(s.image.value.cmd.value, p))
    || (Is(s, OfGit) && p == NoUrl && s.git.value.url == "")
    || (Is(s, OfGit) && p == NoCommit && s.git.value.commit == "")
    || (Is(s, OfHttp) && p == NoUrl && s.http.value.url == "")
    || (Is(s, OfHttp) && p == BadDigest && s.http.value.digest != "" && !w.digest(s.http.value.digest))
    || (Is(s, OfHttp) && p == HttpFilter && (s.path != "" || Filters(s.includes) || Filters(s.excludes)))
    || (Is(s, OfInline) && WrongInline(s, s.inline.value, p))
  }

  predicate Filters(patterns: Option<seq<string>>)
  {
    patterns.Some? && |patterns.value| > 0
  }

  /** What is wrong with the source or with one it is made of: what a build is made from, or
      what is mounted for a command. */
  ghost predicate Wrong(w: World, s: Source, p: Problem)
    decreases s, 1
  {
    || WrongHere(w, s, p)
    || (Is(s, OfBuild) && Wrong(w, s.build.value.source, p))
    || (Is(s, OfImage) && s.image.value.cmd.Some? && WrongMount(w, s.image.value.cmd.value, p))
  }

  ghost predicate WrongMount(w: World, c: Command, p: Problem)
    decreases c, 0
  {
    exists i :: 0 <= i < |c.mounts| && Wrong(w, c.mounts[i].spec, p)
  }

  // ---------- the parts ----------

  lemma {:induction false} GeneratorsWrong(gs: seq<Generator>, p: Problem)
    ensures p in GeneratorProblems(gs) <==>
      p == NoGenerator && exists i :: 0 <= i < |gs| && gs[i].gomod.None? && !gs[i].other
  {
    if gs != [] {
      GeneratorsWrong(gs[1..], p);
      if exists i :: 0 <= i < |gs| && gs[i].gomod.None? && !gs[i].other {
        var i :| 0 <= i < |gs| && gs[i].gomod.None? && !gs[i].other;
        if i > 0 { assert gs[1..][i - 1] == gs[i]; }
      }
    }
  }

  lemma {:induction false} StepsWrong(steps: seq<Step>, p: Problem)
    ensures p in StepProblems(steps) <==> p == NoStepCommand && exists i :: 0 <= i < |steps| && steps[i].command == ""
  {
    if steps != [] {
      StepsWrong(steps[1..], p);
      if exists i :: 0 <= i < |steps| && steps[i].command == "" {
        var i :| 0 <= i < |steps| && steps[i].command == "";
        if i > 0 { assert steps[1..][i - 1] == steps[i]; }
      }
    }
  }

  lemma GitWrong(g: Git, p: Problem)
    ensures p in GitProblems(g) <==> (p == NoUrl && g.url == "") || (p == NoCommit && g.commit == "")
  {}

  lemma HttpWrong(w: World, s: Source, h: Http, p: Problem)
    ensures p in HttpProblems(w, s, h) <==>
      || (p == NoUrl && h.url == "")
      || (p == BadDigest && h.digest != "" && !w.digest(h.digest))
      || (p == HttpFilter && (s.path != "" || Filters(s.includes) || Filters(s.excludes)))
  {}

  lemma OwnersWrong(uid: int, gid: int, p: Problem)
    ensures p in OwnerProblems(uid, gid) <==> p == BadOwner && NegativeOwner(uid, gid)
  {}

  lemma InlineWrong(s: Source, i: Inline, p: Problem)
    ensures p in InlineProblems(s, i) <==> WrongInline(s, i, p)
  {
    var dir := if i.dir.Some? then DirProblems(i.dir.value) else [];
    var file := if i.file.Some? then FileProblems(s, i.file.value) else [];
    InParts(If(i.file.None? && i.dir.None?, NoInline), If(i.file.Some? && i.dir.Some?, FileAndDir), dir, file, p);
    if i.file.Some? { FileWrong(s, i.file.value, p); }
    if i.dir.Some? { DirWrong(i.dir.value, p); }
  }

  lemma FileWrong(s: Source, f: InlineFile, p: Problem)
    ensures p in FileProblems(s, f) <==>
      || (p == InlineFilter && (s.path != "" || s.includes.Some? || s.excludes.Some?))
      || (p == BadOwner && NegativeOwner(f.uid, f.gid))
  {
    OwnersWrong(f.uid, f.gid, p);
  }

  lemma DirWrong(d: InlineDir, p: Problem)
    ensures p in DirProblems(d) <==>
      || (p == BadOwner && NegativeOwner(d.uid, d.gid))
      || (p == BadFileName && exists k :: k in d.files && WrongFile(k, d.files[k]))
  {
    OwnersWrong(d.uid, d.gid, p);
    forall k | k in d.files ensures BadFile(d, k) <==> WrongFile(k, d.files[k]) {}
  }

  // ---------- commands ----------

  /** What validation finds in the first `n` mounts, those of the mounted sources being given. */
  ghost predicate MountFound(c: Command, n: nat, p: Problem, nested: nat -> bool)
    requires n <= |c.mounts|
  {
    || (p == DuplicateDest && exists i :: 0 <= i < n && Repeated(c.mounts, i))
    || (p == RootDest && exists i :: 0 <= i < n && c.mounts[i].dest == "/")
    || exists i: nat :: i < n && nested(i)
  }

  ghost function NestedIn(w: World, c: Command, p: Problem): nat -> bool
  {
    (i: nat) => i < |c.mounts| && p in Problems(w, c.mounts[i].spec)
  }

  ghost function FoundIn(w: World, c: Command, p: Problem): nat -> bool
  {
    (n: nat) => n <= |c.mounts| && p in MountProblems(w, c, n)
  }

  lemma MountsFound(w: World, c: Command, p: Problem)
    ensures p in MountProblems(w, c, |c.mounts|) <==> MountFound(c, |c.mounts|, p, NestedIn(w, c, p))
  {
    var found, nested := FoundIn(w, c, p), NestedIn(w, c, p);
    forall i: nat | i < |c.mounts| ensures FoundStep(c, p, found, nested, i) { OneMountFound(w, c, i, p); }
    FoundUpTo(c, |c.mounts|, p, found, nested);
  }

  /** One more mount. */
  ghost predicate FoundStep(c: Command, p: Problem, found: nat -> bool, nested: nat -> bool, i: nat)
    requires i < |c.mounts|
  {
    found(i + 1) <==>
      || found(i) || (p == DuplicateDest && Repeated(c.mounts, i)) || (p == RootDest && c.mounts[i].dest == "/")
      || nested(i)
  }

  lemma {:induction false} FoundUpTo(c: Command, n: nat, p: Problem, found: nat -> bool, nested: nat -> bool)
    requires n <= |c.mounts| && !found(0) && forall i: nat :: i < |c.mounts| ==> FoundStep(c, p, found, nested, i)
    ensures found(n) <==> MountFound(c, n, p, nested)
  {
    if n > 0 {
      FoundUpTo(c, n - 1, p, found, nested);
      assert FoundStep(c, p, found, nested, n - 1);
      FoundMore(c, n - 1, p, nested);
    }
  }

  lemma OneMountFound(w: World, c: Command, i: nat, p: Problem)
    requires i < |c.mounts|
    ensures p in MountProblems(w, c, i + 1) <==>
      || p in MountProblems(w, c, i) || (p == DuplicateDest && Repeated(c.mounts, i))
      || (p == RootDest && c.mounts[i].dest == "/") || NestedIn(w, c, p)(i)
  {
    InParts(MountProblems(w, c, i), If(Repeated(c.mounts, i), DuplicateDest), If(c.mounts[i].dest == "/", RootDest),
      Problems(w, c.mounts[i].spec), p);
  }

  lemma FoundMore(c: Command, i: nat, p: Problem, nested: nat -> bool)
    requires i < |c.mounts|
    ensures MountFound(c, i + 1, p, nested) <==>
      || MountFound(c, i, p, nested) || (p == DuplicateDest && Repeated(c.mounts, i))
      || (p == RootDest && c.mounts[i].dest == "/") || nested(i)
  {}

  lemma RepeatedIsShared(ms: seq<Mount>)
    ensures (exists i :: 0 <= i < |ms| && Repeated(ms, i)) <==>
      exists i, j :: 0 <= i < j < |ms| && ms[i].dest == ms[j].dest
  {
    if exists i, j :: 0 <= i < j < |ms| && ms[i].dest == ms[j].dest {
      var i, j :| 0 <= i < j < |ms| && ms[i].dest == ms[j].dest;
      assert Repeated(ms, j);
    }
  }

  lemma CommandFound(w: World, c: Command, p: Problem)
    ensures p in CommandProblems(w, c) <==> WrongCommand(c, p) || AnyNested(c, NestedIn(w, c, p))
  {
    CommandParts(w, c, p);
    StepsWrong(c.steps, p);
    MountsFound(w, c, p);
    CommandAdds(c, p, NestedIn(w, c, p));
  }

  ghost predicate AnyNested(c: Command, nested: nat -> bool)
  {
    exists i: nat :: i < |c.mounts| && nested(i)
  }

  lemma CommandAdds(c: Command, p: Problem, nested: nat -> bool)
    ensures WrongCommand(c, p) || AnyNested(c, nested) <==>
      || (p == NoSteps && |c.steps| == 0)
      || (p == NoStepCommand && exists i :: 0 <= i < |c.steps| && c.steps[i].command == "")
      || MountFound(c, |c.mounts|, p, nested)
  {
    RepeatedIsShared(c.mounts);
  }

  lemma CommandParts(w: World, c: Command, p: Problem)
    ensures p in CommandProblems(w, c) <==>
      (p == NoSteps && |c.steps| == 0) || p in StepProblems(c.steps) || p in MountProblems(w, c, |c.mounts|)
  {
    ThreeParts(If(c.steps == [], NoSteps), StepProblems(c.steps), MountProblems(w, c, |c.mounts|), p);
  }

  lemma ThreeParts(a: seq<Problem>, b: seq<Problem>, c: seq<Problem>, p: Problem)
    ensures p in a + b + c <==> p in a || p in b || p in c
  {}

  // ---------- the whole tree ----------

  lemma VariantsCount(s: Source)
    ensures Variants(s) == 0 <==> forall v :: !Has(s, v)
    ensures Variants(s) > 1 <==> exists v, v' :: v != v' && Has(s, v) && Has(s, v')
    ensures Variants(s) == 1 ==>
      && (s.build.Some? <==> Is(s, OfBuild)) && (s.context.Some? <==> Is(s, OfContext))
      && (s.image.Some? <==> Is(s, OfImage)) && (s.git.Some? <==> Is(s, OfGit))
      && (s.http.Some? <==> Is(s, OfHttp)) && (s.inline.Some? <==> Is(s, OfInline))
    ensures Variants(s) != 1 ==> forall v :: !Is(s, v)
  {
    assert Has(s, OfBuild) == s.build.Some? && Has(s, OfContext) == s.context.Some? && Has(s, OfImage) == s.image.Some?;
    assert Has(s, OfGit) == s.git.Some? && Has(s, OfHttp) == s.http.Some? && Has(s, OfInline) == s.inline.Some?;
  }

  /** What validation finds in the variant, that of nested sources being given. */
  ghost predicate VariantFound(w: World, s: Source, p: Problem)
  {
    || WrongVariant(w, s, p)
    || (Is(s, OfBuild) && p in Problems(w, s.build.value.source))
    || (Is(s, OfImage) && s.image.value.cmd.Some?
      && AnyNested(s.image.value.cmd.value, NestedIn(w, s.image.value.cmd.value, p)))
  }

  lemma BuildFound(w: World, s: Source, p: Problem)
    requires Is(s, OfBuild)
    ensures p in VariantProblems(w, s) <==> VariantFound(w, s, p)
  {
    assert !Has(s, OfImage) && !Has(s, OfGit) && !Has(s, OfHttp) && !Has(s, OfInline);
    var nested := Problems(w, s.build.value.source);
    ThreeParts(If(s.build.value.source.build.Some?, RecursiveBuild), nested, [], p);
    assert If(s.build.value.source.build.Some?, RecursiveBuild) + nested + []
      == If(s.build.value.source.build.Some?, RecursiveBuild) + nested;
  }

  lemma ContextFound(w: World, s: Source, p: Problem)
    requires Is(s, OfContext)
    ensures p in VariantProblems(w, s) <==> VariantFound(w, s, p)
  {
    assert !Has(s, OfBuild) && !Has(s, OfImage) && !Has(s, OfGit) && !Has(s, OfHttp) && !Has(s, OfInline);
  }

  lemma ImageFound(w: World, s: Source, p: Problem)
    requires Is(s, OfImage)
    ensures p in VariantProblems(w, s) <==> VariantFound(w, s, p)
  {
    var cmd := s.image.value.cmd;
    var found := if cmd.Some? then CommandProblems(w, cmd.value) else [];
    ImageList(w, s, found);
    ThreeParts(If(s.image.value.ref == "", NoRef), found, If(s.path == "", NoImagePath), p);
    if cmd.Some? { CommandFound(w, cmd.value, p); }
    ImageWrong(w, s, p);
  }

  lemma ImageList(w: World, s: Source, found: seq<Problem>)
    requires Is(s, OfImage)
    requires found == if s.image.value.cmd.Some? then CommandProblems(w, s.image.value.cmd.value) else []
    ensures VariantProblems(w, s) == If(s.image.value.ref == "", NoRef) + found + If(s.path == "", NoImagePath)
  {
    assert !Has(s, OfBuild) && !Has(s, OfContext);
  }

  lemma ImageWrong(w: World, s: Source, p: Problem)
    requires Is(s, OfImage)
    ensures var cmd := s.image.value.cmd;
      VariantFound(w, s, p) <==>
        || (p == NoRef && s.image.value.ref == "") || (p == NoImagePath && s.path == "")
        || (cmd.Some? && (WrongCommand(cmd.value, p) || AnyNested(cmd.value, NestedIn(w, cmd.value, p))))
  {
    assert !Is(s, OfBuild) && !Is(s, OfGit) && !Is(s, OfHttp) && !Is(s, OfInline);
  }

  lemma GitFound(w: World, s: Source, p: Problem)
    requires Is(s, OfGit)
    ensures p in VariantProblems(w, s) <==> VariantFound(w, s, p)
  {
    assert !Has(s, OfBuild) && !Has(s, OfContext) && !Has(s, OfImage);
    assert VariantProblems(w, s) == GitProblems(s.git.value);
    GitWrong(s.git.value, p);
    OnlyGit(w, s, p);
  }

  lemma OnlyGit(w: World, s: Source, p: Problem)
    requires Is(s, OfGit)
    ensures VariantFound(w, s, p) <==>
      (p == NoUrl && s.git.value.url == "") || (p == NoCommit && s.git.value.commit == "")
  {
    assert !Is(s, OfBuild) && !Is(s, OfImage) && !Is(s, OfHttp) && !Is(s, OfInline);
  }

  lemma HttpFound(w: World, s: Source, p: Problem)
    requires Is(s, OfHttp)
    ensures p in VariantProblems(w, s) <==> VariantFound(w, s, p)
  {
    assert !Has(s, OfBuild) && !Has(s, OfContext) && !Has(s, OfImage) && !Has(s, OfGit);
    assert VariantProblems(w, s) == HttpProblems(w, s, s.http.value);
    HttpWrong(w, s, s.http.value, p);
    OnlyHttp(w, s, p);
  }

  lemma OnlyHttp(w: World, s: Source, p: Problem)
    requires Is(s, OfHttp)
    ensures var h := s.http.value;
      VariantFound(w, s, p) <==>
        || (p == NoUrl && h.url == "")
        || (p == BadDigest && h.digest != "" && !w.digest(h.digest))
        || (p == HttpFilter && (s.path != "" || Filters(s.includes) || Filters(s.excludes)))
  {
    assert !Is(s, OfBuild) && !Is(s, OfImage) && !Is(s, OfGit) && !Is(s, OfInline);
  }

  lemma InlineFound(w: World, s: Source, p: Problem)
    requires Is(s, OfInline)
    ensures p in VariantProblems(w, s) <==> VariantFound(w, s, p)
  {
    assert !Has(s, OfBuild) && !Has(s, OfContext) && !Has(s, OfImage) && !Has(s, OfGit) && !Has(s, OfHttp);
    assert VariantProblems(w, s) == InlineProblems(s, s.inline.value);
    InlineWrong(s, s.inline.value, p);
    OnlyInline(w, s, p);
  }

  lemma OnlyInline(w: World, s: Source, p: Problem)
    requires Is(s, OfInline)
    ensures VariantFound(w, s, p) <==> WrongInline(s, s.inline.value, p)
  {
    assert !Is(s, OfBuild) && !Is(s, OfImage) && !Is(s, OfGit) && !Is(s, OfHttp);
  }

  lemma OneVariantFound(w: World, s: Source, p: Problem)
    requires Variants(s) == 1
    ensures p in VariantProblems(w, s) <==> VariantFound(w, s, p)
  {
    VariantsCount(s);
    if s.build.Some? { BuildFound(w, s, p); }
    else if s.context.Some? { ContextFound(w, s, p); }
    else if s.image.Some? { ImageFound(w, s, p); }
    else if s.git.Some? { GitFound(w, s, p); }
    else if s.http.Some? { HttpFound(w, s, p); }
    else { InlineFound(w, s, p); }
  }

  /** What validation finds in the source, that of nested sources being given. */
  lemma Found(w: World, s: Source, p: Problem)
    ensures p in Problems(w, s) <==>
      || p in GeneratorProblems(s.generate)
      || (if Variants(s) == 0 then p == NoVariant
          else if Variants(s) > 1 then p == ManyVariants else p in VariantProblems(w, s))
  {}

  lemma SourceFound(w: World, s: Source, p: Problem)
    ensures p in Problems(w, s) <==> WrongHere(w, s, p) || VariantFound(w, s, p)
  {
    Found(w, s, p);
    GeneratorsWrong(s.generate, p);
    VariantsCount(s);
    if Variants(s) == 1 {
      OneVariantFound(w, s, p);
    } else {
      assert !VariantFound(w, s, p);
    }
  }

  /** Validation reports a problem if and only if the source, or one it is made of, has it. */
  lemma {:induction false} ReportedIsWrong(w: World, s: Source, p: Problem)
    ensures p in Problems(w, s) <==> Wrong(w, s, p)
    decreases s, 1
  {
    SourceFound(w, s, p);
    if Is(s, OfBuild) { ReportedIsWrong(w, s.build.value.source, p); }
    if Is(s, OfImage) && s.image.value.cmd.Some? { MountReportedIsWrong(w, s.image.value.cmd.value, p); }
  }

  lemma {:induction false} MountReportedIsWrong(w: World, c: Command, p: Problem)
    ensures AnyNested(c, NestedIn(w, c, p)) <==> WrongMount(w, c, p)
    decreases c, 0
  {
    forall i: nat | i < |c.mounts| ensures NestedIn(w, c, p)(i) <==> Wrong(w, c.mounts[i].spec, p) {
      ReportedIsWrong(w, c.mounts[i].spec, p);
    }
  }

  /** The source, or one it is made of, has the problem. */
  ghost predicate Flawed(w: World, s: Source, p: Problem)
  {
    Wrong(w, s, p)
  }

  /** A source is accepted if and only if nothing is wrong with it. */
  lemma AcceptedIsRight(w: World, s: Source)
    ensures Problems(w, s) == [] <==> forall p :: !Flawed(w, s, p)
  {
    forall p ensures p in Problems(w, s) <==> Flawed(w, s, p) { ReportedIsWrong(w, s, p); }
    NoneIn(Problems(w, s));
  }

  lemma NoneIn(ps: seq<Problem>)
    ensures ps == [] <==> forall p :: p !in ps
  {
    if ps != [] { assert ps[0] in ps; }
  }

  // ---------- what is filled in ----------

  /** Three octal digits of permissions. */
  function Octal(owner: nat, group: nat, other: nat): nat
  {
    owner * 64 + group * 8 + other
  }

  /** A file or directory without permissions gets these, and nothing else about it changes. */
  ghost predicate FileFilled(f: InlineFile, f': InlineFile)
  {
    && f'.contents == f.contents && f'.uid == f.uid && f'.gid == f.gid
    && f'.permissions == if f.permissions == 0 then Octal(6, 4, 4) else f.permissions
  }

  ghost predicate DirFilled(d: InlineDir, d': InlineDir)
  {
    && d'.uid == d.uid && d'.gid == d.gid && d'.files.Keys == d.files.Keys
    && d'.permissions == (if d.permissions == 0 then Octal(7, 5, 5) else d.permissions)
    && forall k :: k in d.files ==> FileFilled(d.files[k], d'.files[k])
  }

  ghost predicate InlineFilled(i: Inline, i': Inline)
  {
    && (if i.file.Some? then i'.file.Some? && FileFilled(i.file.value, i'.file.value) else i'.file.None?)
    && (if i.dir.Some? then i'.dir.Some? && DirFilled(i.dir.value, i'.dir.value) else i'.dir.None?)
  }

  /** A gomod generator without an entry for the host gets the token of the source; or, without
      one, its header; or, without that too, its SSH id, for the user `git`. */
  ghost predicate GeneratorFilled(g: Generator, host: string, a: GitAuth, g': Generator)
  {
    && g'.other == g.other
    && (if g.gomod.None? then g'.gomod.None? else
          g'.gomod.Some? && (
            if host in g.gomod.value || a == GitAuth("", "", "") then g'.gomod == g.gomod
            else
              && g'.gomod.value.Keys == g.gomod.value.Keys + {host}
              && (forall h :: h in g.gomod.value ==> g'.gomod.value[h] == g.gomod.value[h])
              && EntryFilled(a, g'.gomod.value[host])))
  }

  ghost predicate EntryFilled(a: GitAuth, e: GomodAuth)
  {
    && e.token == a.token
    && e.header == (if a.token == "" then a.header else "")
    && (if a.token == "" && a.header == "" then
          e.ssh.Some? && e.ssh.value.id == a.ssh && e.ssh.value.username == "git" else e.ssh.None?)
  }

  /** What a source is filled in to. */
  ghost predicate Filled(w: World, s: Source, s': Source)
    decreases s, 1
  {
    if s.build.Some? then
      && s'.build.Some? && s' == s.(build := s'.build) && s'.build.value.dockerfile == s.build.value.dockerfile
      && Filled(w, s.build.value.source, s'.build.value.source)
    else if s.context.Some? then
      s' == s.(context := Some(if s.context.value == "" then "context" else s.context.value))
    else if s.image.Some? then
      && s'.image.Some? && s' == s.(image := s'.image) && s'.image.value.ref == s.image.value.ref
      && (if s.image.value.cmd.Some? then
            s'.image.value.cmd.Some? && CommandFilled(w, s.image.value.cmd.value, s'.image.value.cmd.value)
          else s'.image.value.cmd.None?)
    else if s.git.Some? then
      && s' == s.(generate := s'.generate) && |s'.generate| == |s.generate|
      && forall i :: 0 <= i < |s.generate| ==>
        GeneratorFilled(s.generate[i], w.host(s.git.value.url), s.git.value.auth, s'.generate[i])
    else if s.http.None? && s.inline.Some? then
      s'.inline.Some? && s' == s.(inline := s'.inline) && InlineFilled(s.inline.value, s'.inline.value)
    else s' == s
  }

  /** Its mounts are filled in, in turn; the mounts of its steps are not. */
  ghost predicate CommandFilled(w: World, c: Command, c': Command)
    decreases c, 0
  {
    && c'.steps == c.steps && |c'.mounts| == |c.mounts|
    && forall i :: 0 <= i < |c.mounts| ==>
      c'.mounts[i].dest == c.mounts[i].dest && Filled(w, c.mounts[i].spec, c'.mounts[i].spec)
  }

  lemma GeneratorIsFilled(g: Generator, host: string, a: GitAuth)
    ensures GeneratorFilled(g, host, a, FillGenerator(g, host, a))
  {}

  lemma InlineIsFilled(i: Inline)
    ensures InlineFilled(i, FillInline(i))
  {}

  /** Filling in defaults gives every default its value, at every depth, and changes nothing
      else. */
  lemma {:induction false} FillIsFilled(w: World, s: Source)
    ensures Filled(w, s, Fill(w, s))
    decreases s, 1
  {
    if s.build.Some? {
      FillIsFilled(w, s.build.value.source);
    } else if s.context.Some? {
    } else if s.image.Some? {
      if s.image.value.cmd.Some? { CommandIsFilled(w, s.image.value.cmd.value); }
    } else if s.git.Some? {
      GeneratorsAreFilled(s.generate, w.host(s.git.value.url), s.git.value.auth);
    } else if s.http.None? && s.inline.Some? {
      InlineIsFilled(s.inline.value);
    }
  }

  lemma GeneratorsAreFilled(gs: seq<Generator>, host: string, a: GitAuth)
    ensures var gs' := FillGenerators(gs, host, a);
      |gs'| == |gs| && forall i :: 0 <= i < |gs| ==> GeneratorFilled(gs[i], host, a, gs'[i])
  {
    FillGeneratorsEach(gs, host, a);
    forall i | 0 <= i < |gs| ensures GeneratorFilled(gs[i], host, a, FillGenerators(gs, host, a)[i]) {
      GeneratorIsFilled(gs[i], host, a);
    }
  }

  lemma {:induction false} CommandIsFilled(w: World, c: Command)
    ensures CommandFilled(w, c, FillCommand(w, c))
    decreases c, 0
  {
    forall i | 0 <= i < |c.mounts|
      ensures FillCommand(w, c).mounts[i].dest == c.mounts[i].dest
      ensures Filled(w, c.mounts[i].spec, FillCommand(w, c).mounts[i].spec)
    {
      FillCommandAt(w, c, i);
      FillIsFilled(w, c.mounts[i].spec);
    }
  }
}
