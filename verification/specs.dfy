/**
 A whole spec: `Spec.Validate`, `Spec.FillDefaults`, and what the first promises the second.
 */
module Specs {
  import opened Values
  import opened Order
  import opened Sources
  import Symlinks
  import Paths

  // ---------- errors ----------

  /** An error with its wrappers. Only `Joined` has the list-valued `Unwrap`. */
  datatype Error = Leaf(p: Problem) | Wrapped(e: Error) | Joined(es: seq<Error>)

  /** `errors.Is`. */
  predicate Is(e: Error, p: Problem)
  {
    match e
    case Leaf(q) => q == p
    case Wrapped(inner) => Is(inner, p)
    case Joined(es) => exists i :: 0 <= i < |es| && Is(es[i], p)
  }

  function Matches(es: seq<Error>, p: Problem): nat
  {
    if es == [] then 0 else Matches(es[..|es| - 1], p) + if Is(es[|es| - 1], p) then 1 else 0
  }

  /** `errorIsOnly`: of joined errors exactly one matches, any other error merely contains a
      match. Neither asks that there be no further errors. */
  method ErrorIsOnly(e: Error, p: Problem) returns (r: bool)
    ensures r <==> OnlyMatch(e, p)
  {
    if !e.Joined? { return Is(e, p); }
    var count := 0;
    for i := 0 to |e.es|
      invariant count == Matches(e.es[..i], p) <= 1
    {
      assert e.es[..i + 1][..i] == e.es[..i];
      if Is(e.es[i], p) { count := count + 1; }
      if count > 1 {
        MatchesGrow(e.es, i + 1, p);
        return false;
      }
    }
    assert e.es[..|e.es|] == e.es;
    return count == 1;
  }

  predicate OnlyMatch(e: Error, p: Problem)
  {
    if e.Joined? then Matches(e.es, p) == 1 else Is(e, p)
  }

  lemma {:induction false} MatchesGrow(es: seq<Error>, n: nat, p: Problem)
    requires n <= |es|
    ensures Matches(es[..n], p) <= Matches(es, p)
    decreases |es| - n
  {
    if n < |es| {
      assert es[..n + 1][..n] == es[..n];
      MatchesGrow(es, n + 1, p);
    } else {
      assert es[..n] == es;
    }
  }

  function Leaves(ps: seq<Problem>): (es: seq<Error>)
    ensures |es| == |ps| && forall i :: 0 <= i < |ps| ==> es[i] == Leaf(ps[i])
  {
    seq(|ps|, i requires 0 <= i < |ps| => Leaf(ps[i]))
  }

  // ---------- base images ----------

  /** `BaseImage.validate`. What the source reports reaches the caller in a wrapper. */
  ghost function BaseError(w: World, b: Source): Option<Error>
  {
    if b.image.None? then Some(Leaf(NotAnImage))
    else if Problems(w, b) != [] then Some(Wrapped(Joined(Leaves(Problems(w, b)))))
    else None
  }

  /** What `ImageConfig.validate` lets pass. */
  ghost predicate BaseAccepted(w: World, b: Source)
  {
    BaseError(w, b).None? || OnlyMatch(BaseError(w, b).value, NoImagePath)
  }

  /** A base is accepted when nothing is wrong with it, or when its path is missing: then
      whatever else is wrong with it, or with anything mounted by its command, passes too. */
  lemma BaseAcceptedExactly(w: World, b: Source)
    ensures BaseAccepted(w, b) <==> b.image.Some? && (Problems(w, b) == [] || NoImagePath in Problems(w, b))
  {
    var ps := Problems(w, b);
    if b.image.Some? && ps != [] {
      assert Is(Joined(Leaves(ps)), NoImagePath) <==> NoImagePath in ps by {
        if NoImagePath in ps {
          var i :| 0 <= i < |ps| && ps[i] == NoImagePath;
          assert Is(Leaves(ps)[i], NoImagePath);
        }
      }
    }
  }

  /** What the tolerance is meant for. */
  ghost predicate OnlyPathMissing(w: World, b: Source)
  {
    b.image.Some? && forall p :: p in Problems(w, b) ==> p == NoImagePath
  }

  datatype ImageConfig = ImageConfig(base: string, bases: seq<Source>, post: Option<Symlinks.Links>)

  ghost predicate ImageAccepted(w: World, i: ImageConfig)
  {
    && !(i.base != "" && |i.bases| > 0)
    && (forall k :: 0 <= k < |i.bases| ==> BaseAccepted(w, i.bases[k]))
    && (i.post.Some? ==> Symlinks.Acceptable(i.post.value))
  }

  function MigratedBase(ref: string): Source
  {
    Source("", None, None, [], None, None, Some(Image(ref, None)), None, None, None)
  }

  function Migrated(i: ImageConfig): seq<Source>
  {
    i.bases + if i.base != "" then [MigratedBase(i.base)] else []
  }

  function FillAll(w: World, bs: seq<Source>): (r: seq<Source>)
    ensures |r| == |bs| && forall k :: 0 <= k < |bs| ==> r[k] == Fill(w, bs[k])
  {
    seq(|bs|, k requires 0 <= k < |bs| => Fill(w, bs[k]))
  }

  function FillConfig(w: World, i: ImageConfig): ImageConfig
  {
    ImageConfig("", FillAll(w, Migrated(i)), if i.post.Some? then Some(Symlinks.Normalized(i.post.value)) else None)
  }

  ghost predicate SafeConfig(i: ImageConfig)
  {
    forall k :: 0 <= k < |i.bases| ==> Safe(i.bases[k])
  }

  /** `ImageConfig.fillDefaults`. */
  method FillImageConfig(w: World, i: ImageConfig) returns (ok: bool, i': ImageConfig)
    ensures ok <==> SafeConfig(i)
    ensures ok ==> i' == FillConfig(w, i)
  {
    ok, i' := true, i;
    if i'.base != "" {
      i' := i'.(bases := i'.bases + [MigratedBase(i'.base)]);
      i' := i'.(base := "");
    }
    ghost var all := i'.bases;
    assert all == Migrated(i);
    MigratedSafe(i);
    for k := 0 to |i'.bases|
      invariant i'.base == "" && i'.post == i.post && |i'.bases| == |all|
      invariant forall j :: 0 <= j < k ==> Safe(all[j]) && i'.bases[j] == Fill(w, all[j])
      invariant forall j :: k <= j < |all| ==> i'.bases[j] == all[j]
    {
      var b;
      ok, b := FillInPlace(w, i'.bases[k]);
      if !ok {
        assert !Safe(all[k]);
        return;
      }
      i' := i'.(bases := i'.bases[k := b]);
    }
    assert i'.bases == FillAll(w, all);
    if i'.post.Some? { i' := i'.(post := Some(Symlinks.Normalized(i'.post.value))); }
  }

  lemma MigratedSafe(i: ImageConfig)
    ensures SafeConfig(i) <==> forall k :: 0 <= k < |Migrated(i)| ==> Safe(Migrated(i)[k])
  {
    var all := Migrated(i);
    assert forall k :: 0 <= k < |i.bases| ==> all[k] == i.bases[k];
    assert forall k :: |i.bases| <= k < |all| ==> Safe(all[k]);
  }

  lemma BaseKept(w: World, b: Source)
    ensures BaseAccepted(w, Fill(w, b)) <==> BaseAccepted(w, b)
  {
    ProblemsKept(w, b);
    FillKeepsShape(w, b);
  }

  lemma MigratedBaseAccepted(w: World, ref: string)
    requires ref != ""
    ensures BaseAccepted(w, MigratedBase(ref)) && Safe(MigratedBase(ref))
  {
    var b := MigratedBase(ref);
    assert Problems(w, b) == [NoImagePath];
    BaseAcceptedExactly(w, b);
  }

  /** Moving `base` to `bases` keeps the image accepted, and a second filling changes
      nothing. */
  lemma ConfigKept(w: World, i: ImageConfig)
    ensures ImageAccepted(w, i) ==> ImageAccepted(w, FillConfig(w, i))
    ensures FillConfig(w, FillConfig(w, i)) == FillConfig(w, i)
    ensures SafeConfig(FillConfig(w, i)) <==> SafeConfig(i)
  {
    var all, f := Migrated(i), FillConfig(w, i);
    forall k | 0 <= k < |all|
      ensures Fill(w, f.bases[k]) == f.bases[k] && (BaseAccepted(w, f.bases[k]) <==> BaseAccepted(w, all[k]))
        && Safe(f.bases[k]) == Safe(all[k])
    {
      FillTwice(w, all[k]);
      BaseKept(w, all[k]);
      FillKeepsSafe(w, all[k]);
    }
    if i.base != "" { MigratedBaseAccepted(w, i.base); }
    assert Migrated(f) == f.bases;
    assert FillAll(w, f.bases) == f.bases;
    if i.post.Some? { Symlinks.NormalizedSame(i.post.value); }
    assert forall k :: 0 <= k < |i.bases| ==> all[k] == i.bases[k];
  }

  // ---------- package repositories ----------

  datatype Repo = Repo(keys: map<string, Source>, config: map<string, Source>, data: seq<Mount>, envs: seq<string>)

  const AllEnvs: seq<string> := ["build", "install", "test"]

  const KeyPerms: nat := 420  // 0644

  /** Keys fetched over HTTP get the permissions apt wants. */
  function FillKey(w: World, s: Source): Source
  {
    var f := Fill(w, s);
    if f.http.Some? then f.(http := Some(f.http.value.(permissions := KeyPerms))) else f
  }

  function FillMap(w: World, m: map<string, Source>): map<string, Source>
  {
    map k | k in m :: Fill(w, m[k])
  }

  function FillKeys(w: World, m: map<string, Source>): map<string, Source>
  {
    map k | k in m :: FillKey(w, m[k])
  }

  function FillRepo(w: World, r: Repo): Repo
  {
    Repo(FillKeys(w, r.keys), FillMap(w, r.config), FillData(w, r.data), if |r.envs| == 0 then AllEnvs else r.envs)
  }

  function FillData(w: World, data: seq<Mount>): (r: seq<Mount>)
    ensures |r| == |data| && forall i :: 0 <= i < |data| ==> r[i] == Mount(data[i].dest, Fill(w, data[i].spec))
  {
    seq(|data|, i requires 0 <= i < |data| => Mount(data[i].dest, Fill(w, data[i].spec)))
  }

  ghost predicate MapAccepted(w: World, m: map<string, Source>)
  {
    forall k :: k in m ==> Problems(w, m[k]) == []
  }

  ghost predicate DataAccepted(w: World, data: seq<Mount>)
  {
    forall i :: 0 <= i < |data| ==> data[i].dest != "/" && Problems(w, data[i].spec) == []
  }

  ghost predicate RepoAccepted(w: World, r: Repo)
  {
    MapAccepted(w, r.keys) && MapAccepted(w, r.config) && DataAccepted(w, r.data)
  }

  ghost predicate SafeMap(m: map<string, Source>)
  {
    forall k :: k in m ==> Safe(m[k])
  }

  ghost predicate SafeData(data: seq<Mount>)
  {
    forall i :: 0 <= i < |data| ==> Safe(data[i].spec)
  }

  ghost predicate SafeRepo(r: Repo)
  {
    SafeMap(r.keys) && SafeMap(r.config) && SafeData(r.data)
  }

  lemma AcceptedSourceSafe(w: World, s: Source)
    requires Problems(w, s) == []
    ensures Safe(s)
  {
    CountedSafe(w, s);
  }

  lemma AcceptedRepoSafe(w: World, r: Repo)
    requires RepoAccepted(w, r)
    ensures SafeRepo(r)
  {
    forall k | k in r.keys ensures Safe(r.keys[k]) { AcceptedSourceSafe(w, r.keys[k]); }
    forall k | k in r.config ensures Safe(r.config[k]) { AcceptedSourceSafe(w, r.config[k]); }
    forall i | 0 <= i < |r.data| ensures Safe(r.data[i].spec) { AcceptedSourceSafe(w, r.data[i].spec); }
  }

  lemma MapKept(w: World, m: map<string, Source>)
    ensures FillMap(w, FillMap(w, m)) == FillMap(w, m)
    ensures MapAccepted(w, FillMap(w, m)) <==> MapAccepted(w, m)
  {
    var f := FillMap(w, m);
    forall k | k in m ensures Fill(w, f[k]) == f[k] && Problems(w, f[k]) == Problems(w, m[k]) {
      FillTwice(w, m[k]);
      ProblemsKept(w, m[k]);
    }
    assert FillMap(w, f) == f;
  }

  /** The permissions of an HTTP source are not validated. */
  lemma PermissionsUnchecked(w: World, s: Source, n: nat)
    requires s.http.Some?
    ensures var t := s.(http := Some(s.http.value.(permissions := n)));
      Problems(w, t) == Problems(w, s) && Variants(t) == Variants(s)
  {}

  lemma KeyKept(w: World, s: Source)
    ensures FillKey(w, FillKey(w, s)) == FillKey(w, s)
    ensures Problems(w, FillKey(w, s)) == Problems(w, s)
  {
    var f := Fill(w, s);
    FillTwice(w, s);
    ProblemsKept(w, s);
    if f.http.Some? {
      PermissionsUnchecked(w, f, KeyPerms);
      FillIgnoresPermissions(w, f, KeyPerms);
    }
  }

  lemma FillIgnoresPermissions(w: World, s: Source, n: nat)
    requires s.http.Some?
    ensures var t := s.(http := Some(s.http.value.(permissions := n)));
      Fill(w, t) == Fill(w, s).(http := t.http) && Fill(w, s).http == s.http
  {}

  lemma KeysKept(w: World, m: map<string, Source>)
    ensures FillKeys(w, FillKeys(w, m)) == FillKeys(w, m)
    ensures MapAccepted(w, FillKeys(w, m)) <==> MapAccepted(w, m)
  {
    var f := FillKeys(w, m);
    forall k | k in m ensures FillKey(w, f[k]) == f[k] && Problems(w, f[k]) == Problems(w, m[k]) {
      KeyKept(w, m[k]);
    }
    assert FillKeys(w, f) == f;
  }

  lemma DataKept(w: World, data: seq<Mount>)
    ensures FillData(w, FillData(w, data)) == FillData(w, data)
    ensures DataAccepted(w, FillData(w, data)) <==> DataAccepted(w, data)
  {
    var f := FillData(w, data);
    forall i | 0 <= i < |data|
      ensures Fill(w, f[i].spec) == f[i].spec && Problems(w, f[i].spec) == Problems(w, data[i].spec)
    {
      FillTwice(w, data[i].spec);
      ProblemsKept(w, data[i].spec);
    }
    assert FillData(w, f) == f;
  }

  lemma RepoKept(w: World, r: Repo)
    ensures FillRepo(w, FillRepo(w, r)) == FillRepo(w, r)
    ensures RepoAccepted(w, FillRepo(w, r)) <==> RepoAccepted(w, r)
  {
    KeysKept(w, r.keys);
    MapKept(w, r.config);
    DataKept(w, r.data);
  }

  // ---------- loops over sources ----------

  lemma EachSource(w: World, before: map<string, Source>, after: map<string, Source>, order: seq<string>, keys: bool)
    requires Enumerates(order, before.Keys) && after.Keys == before.Keys
    requires forall j :: 0 <= j < |order| ==> after[order[j]] == FillOf(w, before[order[j]], keys)
    ensures after == if keys then FillKeys(w, before) else FillMap(w, before)
  {
    forall k | k in before ensures after[k] == FillOf(w, before[k], keys) {
      var j :| 0 <= j < |order| && order[j] == k;
    }
  }

  lemma EachSafe(m: map<string, Source>, order: seq<string>)
    requires Enumerates(order, m.Keys) && forall j :: 0 <= j < |order| ==> Safe(m[order[j]])
    ensures SafeMap(m)
  {
    forall k | k in m ensures Safe(m[k]) {
      var j :| 0 <= j < |order| && order[j] == k;
    }
  }

  function FillOf(w: World, s: Source, key: bool): Source
  {
    if key then FillKey(w, s) else Fill(w, s)
  }

  method FillOne(w: World, s: Source, key: bool) returns (ok: bool, s': Source)
    ensures ok <==> Safe(s)
    ensures ok ==> s' == FillOf(w, s, key)
  {
    ok, s' := FillInPlace(w, s);
    if ok && key && s'.http.Some? {
      s' := s'.(http := Some(s'.http.value.(permissions := KeyPerms)));
    }
  }

  /** Fills in a map of sources; those of `keys` also get their permissions. */
  method FillSourceMap(w: World, m: map<string, Source>, keys: bool) returns (ok: bool, m': map<string, Source>)
    ensures ok <==> SafeMap(m)
    ensures ok ==> m' == if keys then FillKeys(w, m) else FillMap(w, m)
  {
    ok, m' := true, m;
    var order := RangeKeys(m.Keys);
    for i := 0 to |order|
      invariant m'.Keys == m.Keys
      invariant forall j :: 0 <= j < i ==> Safe(m[order[j]]) && m'[order[j]] == FillOf(w, m[order[j]], keys)
      invariant forall j :: i <= j < |order| ==> m'[order[j]] == m[order[j]]
    {
      var s;
      ok, s := FillOne(w, m'[order[i]], keys);
      if !ok {
        assert order[i] in m && !Safe(m[order[i]]);
        return;
      }
      m' := m'[order[i] := s];
    }
    EachSafe(m, order);
    EachSource(w, m, m', order, keys);
  }

  method FillRepoInPlace(w: World, r: Repo) returns (ok: bool, r': Repo)
    ensures ok <==> SafeRepo(r)
    ensures ok ==> r' == FillRepo(w, r)
  {
    ok, r' := true, r;
    if |r.envs| == 0 { r' := r'.(envs := AllEnvs); }
    var config, keys, data;
    ok, config := FillSourceMap(w, r.config, false);
    if !ok { return; }
    ok, keys := FillSourceMap(w, r.keys, true);
    if !ok { return; }
    ok, data := FillMounts(w, r.data);
    if !ok { return; }
    r' := r'.(config := config, keys := keys, data := data);
  }

  method FillMounts(w: World, data: seq<Mount>) returns (ok: bool, data': seq<Mount>)
    ensures ok <==> SafeData(data)
    ensures ok ==> data' == FillData(w, data)
  {
    ok, data' := true, data;
    for i := 0 to |data|
      invariant |data'| == |data|
      invariant forall j :: 0 <= j < i ==> Safe(data[j].spec) && data'[j] == Mount(data[j].dest, Fill(w, data[j].spec))
      invariant forall j :: i <= j < |data| ==> data'[j] == data[j]
    {
      var spec;
      ok, spec := FillInPlace(w, data'[i].spec);
      if !ok { return; }
      data' := data'[i := data'[i].(spec := spec)];
    }
    assert data' == FillData(w, data);
  }

  function FillRepos(w: World, rs: seq<Repo>): (r: seq<Repo>)
    ensures |r| == |rs| && forall k :: 0 <= k < |rs| ==> r[k] == FillRepo(w, rs[k])
  {
    seq(|rs|, k requires 0 <= k < |rs| => FillRepo(w, rs[k]))
  }

  /** Nil dependencies and images are left alone. */
  function FillDeps(w: World, d: Option<seq<Repo>>): Option<seq<Repo>>
  {
    if d.Some? then Some(FillRepos(w, d.value)) else None
  }

  function FillImageOpt(w: World, i: Option<ImageConfig>): Option<ImageConfig>
  {
    if i.Some? then Some(FillConfig(w, i.value)) else None
  }

  ghost predicate SafeDeps(d: Option<seq<Repo>>)
  {
    d.Some? ==> forall k :: 0 <= k < |d.value| ==> SafeRepo(d.value[k])
  }

  ghost predicate SafeImageOpt(i: Option<ImageConfig>)
  {
    i.Some? ==> SafeConfig(i.value)
  }

  method FillDepsInPlace(w: World, d: Option<seq<Repo>>) returns (ok: bool, d': Option<seq<Repo>>)
    ensures ok <==> SafeDeps(d)
    ensures ok ==> d' == FillDeps(w, d)
  {
    ok, d' := true, d;
    if d.None? { return; }
    var rs := d.value;
    for k := 0 to |d.value|
      invariant |rs| == |d.value|
      invariant forall j :: 0 <= j < k ==> SafeRepo(d.value[j]) && rs[j] == FillRepo(w, d.value[j])
      invariant forall j :: k <= j < |rs| ==> rs[j] == d.value[j]
    {
      var r;
      ok, r := FillRepoInPlace(w, rs[k]);
      if !ok { return; }
      rs := rs[k := r];
    }
    assert rs == FillRepos(w, d.value);
    d' := Some(rs);
  }

  method FillImageInPlace(w: World, i: Option<ImageConfig>) returns (ok: bool, i': Option<ImageConfig>)
    ensures ok <==> SafeImageOpt(i)
    ensures ok ==> i' == FillImageOpt(w, i)
  {
    ok, i' := true, i;
    if i.Some? {
      var filled;
      ok, filled := FillImageConfig(w, i.value);
      i' := Some(filled);
    }
  }

  // ---------- the spec ----------

  datatype Patch = Patch(source: string, path: string, strip: Option<int>)

  const DefaultPatchStrip: int := 1

  datatype Target = Target(deps: Option<seq<Repo>>, image: Option<ImageConfig>)

  datatype Content = Content(
    sources: map<string, Source>, patches: map<string, seq<Patch>>, deps: Option<seq<Repo>>,
    image: Option<ImageConfig>, targets: map<string, Target>)

  function FillPatch(p: Patch): Patch
  {
    if p.strip.None? then p.(strip := Some(DefaultPatchStrip)) else p
  }

  function FillPatchList(ps: seq<Patch>): (r: seq<Patch>)
    ensures |r| == |ps| && forall i :: 0 <= i < |ps| ==> r[i] == FillPatch(ps[i])
  {
    seq(|ps|, i requires 0 <= i < |ps| => FillPatch(ps[i]))
  }

  function FillPatches(m: map<string, seq<Patch>>): map<string, seq<Patch>>
  {
    map k | k in m :: FillPatchList(m[k])
  }

  function FillTarget(w: World, t: Target): Target
  {
    Target(FillDeps(w, t.deps), FillImageOpt(w, t.image))
  }

  function FillTargets(w: World, m: map<string, Target>): map<string, Target>
  {
    map k | k in m :: FillTarget(w, m[k])
  }

  /** What `Spec.FillDefaults` leaves, when it does not panic. */
  function FillSpec(w: World, c: Content): Content
  {
    Content(FillMap(w, c.sources), FillPatches(c.patches), FillDeps(w, c.deps), FillImageOpt(w, c.image),
      FillTargets(w, c.targets))
  }

  ghost predicate SafeTarget(t: Target)
  {
    SafeDeps(t.deps) && SafeImageOpt(t.image)
  }

  ghost predicate SafeTargets(m: map<string, Target>)
  {
    forall k :: k in m ==> SafeTarget(m[k])
  }

  ghost predicate SafeSpec(c: Content)
  {
    SafeMap(c.sources) && SafeDeps(c.deps) && SafeImageOpt(c.image) && SafeTargets(c.targets)
  }

  // ---------- Spec.Validate ----------

  /** `SourceIsDir`, for a source that has a variant. */
  predicate IsDir(s: Source)
  {
    s.build.Some? || s.context.Some? || s.image.Some? || s.git.Some?
      || (s.http.None? && s.inline.Some? && s.inline.value.dir.Some?)
  }

  /** `validatePatch`. */
  predicate PatchAccepted(p: Patch, s: Source)
  {
    if IsDir(s) then !Paths.IsRoot(p.path) else Paths.IsRoot(p.path)
  }

  /** A patch from a file may name it by `.`, which only says that it has no path. */
  lemma DotPathAccepted(p: Patch, s: Source)
    requires p.path == "."
    ensures PatchAccepted(p, s) <==> !IsDir(s)
  {}

  ghost predicate SourcesAccepted(w: World, m: map<string, Source>)
  {
    forall k :: k in m ==> '/' !in k && Problems(w, m[k]) == []
  }

  /** Asking whether a patch's source is a directory panics when it has no variant. */
  ghost predicate PatchesReadable(c: Content)
  {
    forall k, i :: k in c.patches && 0 <= i < |c.patches[k]| && c.patches[k][i].source in c.sources
      ==> Variants(c.sources[c.patches[k][i].source]) > 0
  }

  ghost predicate PatchesAccepted(c: Content)
  {
    forall k, i :: k in c.patches && 0 <= i < |c.patches[k]|
      ==> c.patches[k][i].source in c.sources && PatchAccepted(c.patches[k][i], c.sources[c.patches[k][i].source])
  }

  ghost predicate DepsAccepted(w: World, d: Option<seq<Repo>>)
  {
    d.Some? ==> forall k :: 0 <= k < |d.value| ==> RepoAccepted(w, d.value[k])
  }

  ghost predicate ImageOptAccepted(w: World, i: Option<ImageConfig>)
  {
    i.Some? ==> ImageAccepted(w, i.value)
  }

  ghost predicate TargetAccepted(w: World, t: Target)
  {
    DepsAccepted(w, t.deps) && ImageOptAccepted(w, t.image)
  }

  ghost predicate TargetsAccepted(w: World, m: map<string, Target>)
  {
    forall k :: k in m ==> TargetAccepted(w, m[k])
  }

  /** `Spec.Validate` returns, and finds nothing. */
  ghost predicate Accepted(w: World, c: Content)
  {
    && PatchesReadable(c) && SourcesAccepted(w, c.sources) && PatchesAccepted(c)
    && DepsAccepted(w, c.deps) && ImageOptAccepted(w, c.image) && TargetsAccepted(w, c.targets)
  }

  method ValidateSourceMap(w: World, m: map<string, Source>) returns (ok: bool)
    ensures ok <==> MapAccepted(w, m)
  {
    ok := true;
    var order := RangeKeys(m.Keys);
    for i := 0 to |order|
      invariant ok <==> forall j :: 0 <= j < i ==> Problems(w, m[order[j]]) == []
    {
      var errs := ValidateSource(w, m[order[i]]);
      if errs != [] { ok := false; }
    }
  }

  method ValidateRepo(w: World, r: Repo) returns (ok: bool)
    ensures ok <==> RepoAccepted(w, r)
  {
    var keys := ValidateSourceMap(w, r.keys);
    var config := ValidateSourceMap(w, r.config);
    ok := keys && config;
    for i := 0 to |r.data|
      invariant ok <==> keys && config && DataAccepted(w, r.data[..i])
    {
      var errs := ValidateSource(w, r.data[i].spec);
      if errs != [] || r.data[i].dest == "/" { ok := false; }
      assert r.data[..i + 1] == r.data[..i] + [r.data[i]];
    }
    assert r.data[..|r.data|] == r.data;
  }

  method ValidateDeps(w: World, d: Option<seq<Repo>>) returns (ok: bool)
    ensures ok <==> DepsAccepted(w, d)
  {
    ok := true;
    if d.None? { return; }
    for k := 0 to |d.value|
      invariant ok <==> forall j :: 0 <= j < k ==> RepoAccepted(w, d.value[j])
    {
      var good := ValidateRepo(w, d.value[k]);
      ok := ok && good;
    }
  }

  method ValidateBase(w: World, b: Source) returns (ok: bool)
    ensures ok <==> BaseAccepted(w, b)
  {
    if b.image.None? {
      ok := ErrorIsOnly(Leaf(NotAnImage), NoImagePath);
      return;
    }
    var errs := ValidateSource(w, b);
    if errs == [] { return true; }
    ok := ErrorIsOnly(Wrapped(Joined(Leaves(errs))), NoImagePath);
  }

  /** `ImageConfig.validate`. */
  method ValidateImageConfig(w: World, i: Option<ImageConfig>) returns (ok: bool)
    ensures ok <==> ImageOptAccepted(w, i)
  {
    if i.None? { return true; }
    var c := i.value;
    ok := !(c.base != "" && |c.bases| > 0);
    for k := 0 to |c.bases|
      invariant ok <==> !(c.base != "" && |c.bases| > 0) && forall j :: 0 <= j < k ==> BaseAccepted(w, c.bases[j])
    {
      var good := ValidateBase(w, c.bases[k]);
      ok := ok && good;
    }
    if c.post.Some? {
      var errs := Symlinks.ValidateSymlinks(c.post.value);
      ok := ok && errs == [];
    }
  }

  datatype Verdict = Panicked | Returned(ok: bool)

  ghost predicate ListReadable(c: Content, ps: seq<Patch>)
  {
    forall i :: 0 <= i < |ps| && ps[i].source in c.sources ==> Variants(c.sources[ps[i].source]) > 0
  }

  ghost predicate ListAccepted(c: Content, ps: seq<Patch>)
  {
    forall i :: 0 <= i < |ps| ==> ps[i].source in c.sources && PatchAccepted(ps[i], c.sources[ps[i].source])
  }

  method ValidatePatchList(c: Content, ps: seq<Patch>) returns (v: Verdict)
    ensures v.Panicked? <==> !ListReadable(c, ps)
    ensures v.Returned? ==> (v.ok <==> ListAccepted(c, ps))
  {
    var ok := true;
    for i := 0 to |ps|
      invariant forall j :: 0 <= j < i && ps[j].source in c.sources ==> Variants(c.sources[ps[j].source]) > 0
      invariant ok <==> forall j :: 0 <= j < i ==>
        ps[j].source in c.sources && PatchAccepted(ps[j], c.sources[ps[j].source])
    {
      if ps[i].source !in c.sources {
        ok := false;
      } else {
        if Variants(c.sources[ps[i].source]) == 0 { return Panicked; }
        if !PatchAccepted(ps[i], c.sources[ps[i].source]) { ok := false; }
      }
    }
    v := Returned(ok);
  }

  method ValidatePatches(c: Content) returns (v: Verdict)
    ensures v.Panicked? <==> !PatchesReadable(c)
    ensures v.Returned? ==> (v.ok <==> PatchesAccepted(c))
  {
    var ok := true;
    var order := RangeKeys(c.patches.Keys);
    for i := 0 to |order|
      invariant forall j :: 0 <= j < i ==> ListReadable(c, c.patches[order[j]])
      invariant ok <==> forall j :: 0 <= j < i ==> ListAccepted(c, c.patches[order[j]])
    {
      v := ValidatePatchList(c, c.patches[order[i]]);
      if v.Panicked? {
        assert order[i] in c.patches;
        return;
      }
      ok := ok && v.ok;
    }
    PatchesByList(c, order);
    v := Returned(ok);
  }

  lemma PatchesByList(c: Content, order: seq<string>)
    requires Enumerates(order, c.patches.Keys)
    ensures PatchesReadable(c) <==> forall j :: 0 <= j < |order| ==> ListReadable(c, c.patches[order[j]])
    ensures PatchesAccepted(c) <==> forall j :: 0 <= j < |order| ==> ListAccepted(c, c.patches[order[j]])
  {
    assert forall k :: k in c.patches <==> exists j :: 0 <= j < |order| && order[j] == k;
    assert PatchesReadable(c) <==> forall k :: k in c.patches ==> ListReadable(c, c.patches[k]);
    assert PatchesAccepted(c) <==> forall k :: k in c.patches ==> ListAccepted(c, c.patches[k]);
  }

  method ValidateTargets(w: World, m: map<string, Target>) returns (ok: bool)
    ensures ok <==> TargetsAccepted(w, m)
  {
    ok := true;
    var order := RangeKeys(m.Keys);
    for i := 0 to |order|
      invariant ok <==> forall j :: 0 <= j < i ==> TargetAccepted(w, m[order[j]])
    {
      var deps := ValidateDeps(w, m[order[i]].deps);
      var image := ValidateImageConfig(w, m[order[i]].image);
      ok := ok && deps && image;
    }
  }

  method ValidateSources(w: World, m: map<string, Source>) returns (ok: bool)
    ensures ok <==> SourcesAccepted(w, m)
  {
    ok := true;
    var order := RangeKeys(m.Keys);
    for i := 0 to |order|
      invariant ok <==> forall j :: 0 <= j < i ==> '/' !in order[j] && Problems(w, m[order[j]]) == []
    {
      if '/' in order[i] { ok := false; }
      var errs := ValidateSource(w, m[order[i]]);
      if errs != [] { ok := false; }
    }
  }

  /** `Spec.Validate`, up to the errors it reports. */
  method Validate(w: World, c: Content) returns (v: Verdict)
    ensures v.Panicked? <==> !PatchesReadable(c)
    ensures v == Returned(true) <==> Accepted(w, c)
  {
    var sources := ValidateSources(w, c.sources);
    v := ValidatePatches(c);
    if v.Panicked? { return; }
    var deps := ValidateDeps(w, c.deps);
    var image := ValidateImageConfig(w, c.image);
    var targets := ValidateTargets(w, c.targets);
    v := Returned(sources && v.ok && deps && image && targets);
  }

  /** The spec as loading has it. */
  class Spec {
    var sources: map<string, Source>
    var patches: map<string, seq<Patch>>
    var deps: Option<seq<Repo>>
    var image: Option<ImageConfig>
    var targets: map<string, Target>

    ghost function Contents(): Content
      reads this
    {
      Content(sources, patches, deps, image, targets)
    }

    /** `Spec.FillDefaults`. It goes through the image twice. */
    method FillDefaults(w: World) returns (ok: bool)
      modifies this
      ensures ok <==> SafeSpec(old(Contents()))
      ensures ok ==> Contents() == FillSpec(w, old(Contents()))
    {
      ok, sources := FillSourceMap(w, sources, false);
      if !ok { return; }
      patches := FillPatchMap(patches);
      ok, deps := FillDepsInPlace(w, deps);
      if !ok { return; }
      ghost var before := image;
      ok, image := FillImageInPlace(w, image);
      if !ok { return; }
      ok, targets := FillTargetMap(w, targets);
      if !ok { return; }
      ImageSafeTwice(w, before);
      ImageKept(w, before);
      ok, image := FillImageInPlace(w, image);
    }
  }

  lemma ImageSafeTwice(w: World, i: Option<ImageConfig>)
    ensures SafeImageOpt(FillImageOpt(w, i)) <==> SafeImageOpt(i)
  {
    if i.Some? { ConfigKept(w, i.value); }
  }

  method FillPatchMap(m: map<string, seq<Patch>>) returns (m': map<string, seq<Patch>>)
    ensures m' == FillPatches(m)
  {
    m' := m;
    var order := RangeKeys(m.Keys);
    for i := 0 to |order|
      invariant m'.Keys == m.Keys
      invariant forall j :: 0 <= j < i ==> m'[order[j]] == FillPatchList(m[order[j]])
      invariant forall j :: i <= j < |order| ==> m'[order[j]] == m[order[j]]
    {
      var list := FillStrips(m'[order[i]]);
      m' := m'[order[i] := list];
    }
    EachPatchList(m, m', order);
  }

  method FillStrips(ps: seq<Patch>) returns (ps': seq<Patch>)
    ensures ps' == FillPatchList(ps)
  {
    ps' := ps;
    for i := 0 to |ps|
      invariant |ps'| == |ps|
      invariant forall j :: 0 <= j < i ==> ps'[j] == FillPatch(ps[j])
      invariant forall j :: i <= j < |ps| ==> ps'[j] == ps[j]
    {
      if ps'[i].strip.None? {
        ps' := ps'[i := ps'[i].(strip := Some(DefaultPatchStrip))];
      }
    }
    assert ps' == FillPatchList(ps);
  }

  lemma EachPatchList(m: map<string, seq<Patch>>, m': map<string, seq<Patch>>, order: seq<string>)
    requires Enumerates(order, m.Keys) && m'.Keys == m.Keys
    requires forall j :: 0 <= j < |order| ==> m'[order[j]] == FillPatchList(m[order[j]])
    ensures m' == FillPatches(m)
  {
    forall k | k in m ensures m'[k] == FillPatchList(m[k]) {
      var j :| 0 <= j < |order| && order[j] == k;
    }
  }

  method FillTargetMap(w: World, m: map<string, Target>) returns (ok: bool, m': map<string, Target>)
    ensures ok <==> SafeTargets(m)
    ensures ok ==> m' == FillTargets(w, m)
  {
    ok, m' := true, m;
    var order := RangeKeys(m.Keys);
    for i := 0 to |order|
      invariant m'.Keys == m.Keys
      invariant forall j :: 0 <= j < i ==> SafeTarget(m[order[j]]) && m'[order[j]] == FillTarget(w, m[order[j]])
      invariant forall j :: i <= j < |order| ==> m'[order[j]] == m[order[j]]
    {
      var deps, image;
      ok, deps := FillDepsInPlace(w, m'[order[i]].deps);
      if ok { ok, image := FillImageInPlace(w, m'[order[i]].image); } else { image := None; }
      if !ok {
        assert order[i] in m && !SafeTarget(m[order[i]]);
        return;
      }
      m' := m'[order[i] := Target(deps, image)];
    }
    EachTarget(w, m, m', order);
  }

  lemma EachTarget(w: World, m: map<string, Target>, m': map<string, Target>, order: seq<string>)
    requires Enumerates(order, m.Keys) && m'.Keys == m.Keys
    requires forall j :: 0 <= j < |order| ==> SafeTarget(m[order[j]]) && m'[order[j]] == FillTarget(w, m[order[j]])
    ensures SafeTargets(m) && m' == FillTargets(w, m)
  {
    forall k | k in m ensures SafeTarget(m[k]) && m'[k] == FillTarget(w, m[k]) {
      var j :| 0 <= j < |order| && order[j] == k;
    }
  }

  // ---------- what Validate promises FillDefaults ----------

  lemma DepsKept(w: World, d: Option<seq<Repo>>)
    ensures FillDeps(w, FillDeps(w, d)) == FillDeps(w, d)
    ensures DepsAccepted(w, FillDeps(w, d)) <==> DepsAccepted(w, d)
  {
    if d.Some? {
      var f := FillRepos(w, d.value);
      forall k | 0 <= k < |d.value|
        ensures FillRepo(w, f[k]) == f[k] && (RepoAccepted(w, f[k]) <==> RepoAccepted(w, d.value[k]))
      {
        RepoKept(w, d.value[k]);
      }
      assert FillRepos(w, f) == f;
    }
  }

  lemma ImageKept(w: World, i: Option<ImageConfig>)
    ensures FillImageOpt(w, FillImageOpt(w, i)) == FillImageOpt(w, i)
    ensures ImageOptAccepted(w, i) ==> ImageOptAccepted(w, FillImageOpt(w, i))
  {
    if i.Some? { ConfigKept(w, i.value); }
  }

  lemma TargetsKept(w: World, m: map<string, Target>)
    ensures FillTargets(w, FillTargets(w, m)) == FillTargets(w, m)
    ensures TargetsAccepted(w, m) ==> TargetsAccepted(w, FillTargets(w, m))
  {
    var f := FillTargets(w, m);
    forall k | k in m ensures FillTarget(w, f[k]) == f[k] && (TargetAccepted(w, m[k]) ==> TargetAccepted(w, f[k])) {
      DepsKept(w, m[k].deps);
      ImageKept(w, m[k].image);
    }
    assert FillTargets(w, f) == f;
  }

  lemma PatchesTwice(m: map<string, seq<Patch>>)
    ensures FillPatches(FillPatches(m)) == FillPatches(m)
  {
    var f := FillPatches(m);
    forall k | k in m ensures FillPatchList(f[k]) == f[k] {}
    assert FillPatches(f) == f;
  }

  /** Filling in the defaults of a spec a second time changes nothing. */
  lemma FillSpecTwice(w: World, c: Content)
    ensures FillSpec(w, FillSpec(w, c)) == FillSpec(w, c)
  {
    MapKept(w, c.sources);
    PatchesTwice(c.patches);
    DepsKept(w, c.deps);
    ImageKept(w, c.image);
    TargetsKept(w, c.targets);
  }

  lemma SourcesKept(w: World, m: map<string, Source>)
    ensures SourcesAccepted(w, FillMap(w, m)) <==> SourcesAccepted(w, m)
  {
    forall k | k in m ensures Problems(w, FillMap(w, m)[k]) == Problems(w, m[k]) {
      ProblemsKept(w, m[k]);
    }
  }

  lemma DirKept(w: World, s: Source)
    ensures IsDir(Fill(w, s)) == IsDir(s) && Variants(Fill(w, s)) == Variants(s)
  {}

  lemma PatchesKept(w: World, c: Content)
    requires PatchesReadable(c) && PatchesAccepted(c)
    ensures PatchesReadable(FillSpec(w, c)) && PatchesAccepted(FillSpec(w, c))
  {
    var f := FillSpec(w, c);
    forall k, i | k in f.patches && 0 <= i < |f.patches[k]|
      ensures f.patches[k][i].source in f.sources && PatchAccepted(f.patches[k][i], f.sources[f.patches[k][i].source])
        && Variants(f.sources[f.patches[k][i].source]) > 0
    {
      var p := c.patches[k][i];
      assert f.patches[k][i] == FillPatch(p);
      assert p.source in c.sources && PatchAccepted(p, c.sources[p.source]);
      DirKept(w, c.sources[p.source]);
    }
  }

  /** A spec that is accepted is still accepted with its defaults filled in. */
  lemma AcceptedKept(w: World, c: Content)
    requires Accepted(w, c)
    ensures Accepted(w, FillSpec(w, c))
  {
    SourcesKept(w, c.sources);
    PatchesKept(w, c);
    DepsKept(w, c.deps);
    ImageKept(w, c.image);
    TargetsKept(w, c.targets);
  }

  /** The base images of the spec and of its targets. */
  ghost predicate IsBase(c: Content, b: Source)
  {
    || (c.image.Some? && b in c.image.value.bases)
    || (exists k :: k in c.targets && c.targets[k].image.Some? && b in c.targets[k].image.value.bases)
  }

  lemma ConfigSafeExactly(i: Option<ImageConfig>)
    ensures SafeImageOpt(i) <==> (i.Some? ==> forall b :: b in i.value.bases ==> Safe(b))
  {
    if i.Some? { assert forall k :: 0 <= k < |i.value.bases| ==> i.value.bases[k] in i.value.bases; }
  }

  lemma AcceptedDepsSafe(w: World, d: Option<seq<Repo>>)
    requires DepsAccepted(w, d)
    ensures SafeDeps(d)
  {
    if d.Some? {
      forall k | 0 <= k < |d.value| ensures SafeRepo(d.value[k]) { AcceptedRepoSafe(w, d.value[k]); }
    }
  }

  /** On an accepted spec, filling in defaults can panic only inside a base image: it gets
      through exactly when no base leads to a source without a variant. */
  lemma SafeExactly(w: World, c: Content)
    requires Accepted(w, c)
    ensures SafeSpec(c) <==> forall b :: IsBase(c, b) ==> Safe(b)
  {
    forall k | k in c.sources ensures Safe(c.sources[k]) { AcceptedSourceSafe(w, c.sources[k]); }
    AcceptedDepsSafe(w, c.deps);
    ConfigSafeExactly(c.image);
    forall k | k in c.targets ensures SafeDeps(c.targets[k].deps) {
      assert TargetAccepted(w, c.targets[k]);
      AcceptedDepsSafe(w, c.targets[k].deps);
    }
    if forall b :: IsBase(c, b) ==> Safe(b) {
      forall k | k in c.targets ensures SafeTarget(c.targets[k]) {
        if c.targets[k].image.Some? {
          forall b | b in c.targets[k].image.value.bases ensures Safe(b) { assert IsBase(c, b); }
        }
        ConfigSafeExactly(c.targets[k].image);
      }
    }
    if SafeSpec(c) {
      forall b | IsBase(c, b) ensures Safe(b) {
        if !(c.image.Some? && b in c.image.value.bases) {
          var k :| k in c.targets && c.targets[k].image.Some? && b in c.targets[k].image.value.bases;
          assert SafeTarget(c.targets[k]);
          ConfigSafeExactly(c.targets[k].image);
        }
      }
    }
  }

  /** With bases that lack nothing but their path, an accepted spec is filled in without a
      panic. */
  lemma PromisedSafe(w: World, c: Content)
    requires Accepted(w, c) && forall b :: IsBase(c, b) ==> OnlyPathMissing(w, b)
    ensures SafeSpec(c)
  {
    forall b | IsBase(c, b) ensures Safe(b) {
      assert OnlyPathMissing(w, b);
      CountedSafe(w, b);
    }
    SafeExactly(w, c);
  }

  /** The tolerance is wider than that: this spec is accepted, and panics. */
  lemma AcceptedPanics(w: World)
    ensures exists c :: Accepted(w, c) && !SafeSpec(c)
  {
    var hollow := Source("", None, None, [], None, None, None, None, None, None);
    var cmd := Command([Mount("/in", hollow)], [Step("true", [])]);
    var base := MigratedBase("r").(image := Some(Image("r", Some(cmd))));
    assert !Safe(hollow);
    HollowBase(w, cmd, base);
    var config := ImageConfig("", [base], None);
    var c := Content(map[], map[], None, Some(config), map[]);
    assert !Safe(config.bases[0]);
    assert Accepted(w, c) && !SafeSpec(c);
  }

  /** A base with only its path missing but for a command that cannot be filled in. */
  lemma HollowBase(w: World, cmd: Command, base: Source)
    requires base == MigratedBase("r").(image := Some(Image("r", Some(cmd))))
    requires |cmd.mounts| == 1 && !Safe(cmd.mounts[0].spec)
    ensures !Safe(base) && BaseAccepted(w, base)
  {
    assert !SafeCommand(cmd);
    assert Variants(base) == 1;
    assert VariantProblems(w, base)[|VariantProblems(w, base)| - 1] == NoImagePath;
    assert NoImagePath in Problems(w, base);
    BaseAcceptedExactly(w, base);
  }
}
