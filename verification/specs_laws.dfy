/**
 Which values the defaults of a spec are filled in with, and which patches are accepted for
 which sources.
 */
module SpecLaws {
  import opened Values
  import opened Sources
  import opened SourceLaws
  import Specs
  import Symlinks

  // ---------- what is filled in ----------

  /** A patch that does not say how many elements to strip strips one. */
  ghost predicate PatchFilled(p: Specs.Patch, p': Specs.Patch)
  {
    && p'.source == p.source && p'.path == p.path
    && p'.strip == if p.strip.Some? then p.strip else Some(1)
  }

  ghost predicate PatchesFilled(m: map<string, seq<Specs.Patch>>, m': map<string, seq<Specs.Patch>>)
  {
    && m'.Keys == m.Keys
    && forall k :: k in m ==>
      |m'[k]| == |m[k]| && forall i :: 0 <= i < |m[k]| ==> PatchFilled(m[k][i], m'[k][i])
  }

  ghost predicate SourcesFilled(w: World, m: map<string, Source>, m': map<string, Source>)
  {
    m'.Keys == m.Keys && forall k :: k in m ==> Filled(w, m[k], m'[k])
  }

  /** A key that is fetched over HTTP is made readable for all, whatever it had. */
  ghost predicate KeyFilled(w: World, s: Source, s': Source)
  {
    exists f :: Filled(w, s, f) &&
      if f.http.Some? then
        s' == f.(http := Some(Http(f.http.value.url, f.http.value.digest, Octal(6, 4, 4)))) else s' == f
  }

  ghost predicate RepoFilled(w: World, r: Specs.Repo, r': Specs.Repo)
  {
    && r'.keys.Keys == r.keys.Keys && (forall k :: k in r.keys ==> KeyFilled(w, r.keys[k], r'.keys[k]))
    && SourcesFilled(w, r.config, r'.config)
    && |r'.data| == |r.data|
    && (forall i :: 0 <= i < |r.data| ==>
      r'.data[i].dest == r.data[i].dest && Filled(w, r.data[i].spec, r'.data[i].spec))
    && r'.envs == if r.envs == [] then ["build", "install", "test"] else r.envs
  }

  /** What `base` says is moved behind the bases, as an image to take whole. */
  ghost predicate ImageFilled(w: World, i: Specs.ImageConfig, i': Specs.ImageConfig)
  {
    var more := if i.base == "" then 0 else 1;
    && i'.base == "" && |i'.bases| == |i.bases| + more
    && (forall k :: 0 <= k < |i.bases| ==> Filled(w, i.bases[k], i'.bases[k]))
    && (more == 1 ==> IsReference(i'.bases[|i.bases|], i.base))
    && (if i.post.Some? then i'.post.Some? && Moved(i.post.value, i'.post.value) else i'.post.None?)
  }

  /** Nothing but an image reference. */
  ghost predicate IsReference(s: Source, ref: string)
  {
    && Is(s, OfImage) && s.image.value.ref == ref && s.image.value.cmd.None?
    && s.path == "" && s.includes.None? && s.excludes.None? && s.generate == []
  }

  /** The single path of a link is moved behind its paths. */
  ghost predicate Moved(m: Symlinks.Links, m': Symlinks.Links)
  {
    && m'.Keys == m.Keys
    && forall k :: k in m ==>
      && m'[k].path == "" && m'[k].user == m[k].user && m'[k].group == m[k].group
      && m'[k].paths == m[k].paths + if m[k].path == "" then [] else [m[k].path]
  }

  ghost predicate DepsFilled(w: World, d: Option<seq<Specs.Repo>>, d': Option<seq<Specs.Repo>>)
  {
    if d.None? then d'.None? else
      && d'.Some? && |d'.value| == |d.value|
      && forall k :: 0 <= k < |d.value| ==> RepoFilled(w, d.value[k], d'.value[k])
  }

  ghost predicate ImageOptFilled(w: World, i: Option<Specs.ImageConfig>, i': Option<Specs.ImageConfig>)
  {
    if i.None? then i'.None? else i'.Some? && ImageFilled(w, i.value, i'.value)
  }

  /** What a spec is filled in to. */
  ghost predicate SpecFilled(w: World, c: Specs.Content, c': Specs.Content)
  {
    && SourcesFilled(w, c.sources, c'.sources) && PatchesFilled(c.patches, c'.patches)
    && DepsFilled(w, c.deps, c'.deps) && ImageOptFilled(w, c.image, c'.image)
    && c'.targets.Keys == c.targets.Keys
    && forall k :: k in c.targets ==>
      && DepsFilled(w, c.targets[k].deps, c'.targets[k].deps)
      && ImageOptFilled(w, c.targets[k].image, c'.targets[k].image)
  }

  lemma MapIsFilled(w: World, m: map<string, Source>)
    ensures SourcesFilled(w, m, Specs.FillMap(w, m))
  {
    forall k | k in m ensures Filled(w, m[k], Specs.FillMap(w, m)[k]) { FillIsFilled(w, m[k]); }
  }

  lemma KeyIsFilled(w: World, s: Source)
    ensures KeyFilled(w, s, Specs.FillKey(w, s))
  {
    FillIsFilled(w, s);
    assert Filled(w, s, Fill(w, s));
  }

  lemma RepoIsFilled(w: World, r: Specs.Repo)
    ensures RepoFilled(w, r, Specs.FillRepo(w, r))
  {
    var r' := Specs.FillRepo(w, r);
    forall k | k in r.keys ensures KeyFilled(w, r.keys[k], r'.keys[k]) { KeyIsFilled(w, r.keys[k]); }
    MapIsFilled(w, r.config);
    forall i | 0 <= i < |r.data| ensures Filled(w, r.data[i].spec, r'.data[i].spec) { FillIsFilled(w, r.data[i].spec); }
  }

  lemma ReferenceIsFilled(w: World, ref: string)
    ensures IsReference(Fill(w, Specs.MigratedBase(ref)), ref)
  {}

  lemma ImageIsFilled(w: World, i: Specs.ImageConfig)
    ensures ImageFilled(w, i, Specs.FillConfig(w, i))
  {
    var i' := Specs.FillConfig(w, i);
    forall k | 0 <= k < |i.bases| ensures Filled(w, i.bases[k], i'.bases[k]) {
      FillIsFilled(w, i.bases[k]);
      assert Specs.Migrated(i)[k] == i.bases[k];
    }
    if i.base != "" {
      ReferenceIsFilled(w, i.base);
      assert Specs.Migrated(i)[|i.bases|] == Specs.MigratedBase(i.base);
    }
    if i.post.Some? { LinksAreMoved(i.post.value); }
  }

  lemma LinksAreMoved(m: Symlinks.Links)
    ensures Moved(m, Symlinks.Normalized(m))
  {
    forall k | k in m
      ensures Symlinks.Normalized(m)[k].paths == m[k].paths + if m[k].path == "" then [] else [m[k].path]
    {
      assert m[k].paths + [] == m[k].paths;
    }
  }

  lemma DepsAreFilled(w: World, d: Option<seq<Specs.Repo>>)
    ensures DepsFilled(w, d, Specs.FillDeps(w, d))
  {
    if d.Some? {
      forall k | 0 <= k < |d.value| ensures RepoFilled(w, d.value[k], Specs.FillDeps(w, d).value[k]) {
        RepoIsFilled(w, d.value[k]);
      }
    }
  }

  lemma ImageOptIsFilled(w: World, i: Option<Specs.ImageConfig>)
    ensures ImageOptFilled(w, i, Specs.FillImageOpt(w, i))
  {
    if i.Some? { ImageIsFilled(w, i.value); }
  }

  lemma PatchesAreFilled(m: map<string, seq<Specs.Patch>>)
    ensures PatchesFilled(m, Specs.FillPatches(m))
  {}

  /** Filling in the defaults of a spec gives every one its value and changes nothing else. */
  lemma SpecIsFilled(w: World, c: Specs.Content)
    ensures SpecFilled(w, c, Specs.FillSpec(w, c))
  {
    MapIsFilled(w, c.sources);
    PatchesAreFilled(c.patches);
    DepsAreFilled(w, c.deps);
    ImageOptIsFilled(w, c.image);
    forall k | k in c.targets
      ensures DepsFilled(w, c.targets[k].deps, Specs.FillTargets(w, c.targets)[k].deps)
      ensures ImageOptFilled(w, c.targets[k].image, Specs.FillTargets(w, c.targets)[k].image)
    {
      DepsAreFilled(w, c.targets[k].deps);
      ImageOptIsFilled(w, c.targets[k].image);
    }
  }

  // ---------- patches ----------

  /** The source is a directory: anything but a single file fetched or written inline. */
  ghost predicate Directory(s: Source)
  {
    || Is(s, OfBuild) || Is(s, OfContext) || Is(s, OfImage) || Is(s, OfGit)
    || (Is(s, OfInline) && s.inline.value.dir.Some?)
  }

  /** A patch in a directory must say where, a patch that is a file must not. */
  lemma PatchRule(p: Specs.Patch, s: Source, v: Variant)
    requires Is(s, v)
    ensures Specs.PatchAccepted(p, s) <==>
      (Directory(s) <==> p.path != "" && p.path != "/" && p.path != ".")
  {
    assert forall x :: Has(s, x) ==> x == v;
    assert Has(s, OfBuild) == s.build.Some? && Has(s, OfContext) == s.context.Some? && Has(s, OfImage) == s.image.Some?;
    assert Has(s, OfGit) == s.git.Some? && Has(s, OfHttp) == s.http.Some? && Has(s, OfInline) == s.inline.Some?;
  }
}
