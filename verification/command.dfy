/**
 Commands run to produce a source from an image. `Command.baseState` threads two states
 through the steps: the image root, and an output that is mounted at the path to extract.
 This module gives the states a file system each, lets every step be any function on the
 file system it sees, and shows that together the two behave like one.
 */
module Commands {
  import opened Values
  import opened Paths

  type Path = seq<string>
  type Fs<C> = map<Path, C>

  /** A source mounted for a step; `specOk` says whether its own spec validates. */
  datatype SourceMount<C> = SourceMount(dest: string, content: Fs<C>, specOk: bool)

  /** A step runs on the file system it sees and leaves another; the command line, the
      environment and the working directory are part of `run`. */
  datatype Step<!C> = Step(run: Fs<C> -> Fs<C>, mounts: seq<SourceMount<C>>)

  datatype Command<!C> = Command(mounts: seq<SourceMount<C>>, steps: seq<Step<C>>)

  // ---------- validation ----------

  /** `SourceMount.validateInRoot` accepts. */
  predicate ValidInRoot<C>(m: SourceMount<C>, root: string)
  {
    m.dest != "/" && m.specOk && (IsRoot(root) || !PathHasPrefix(m.dest, root))
  }

  ghost predicate AllValid<C>(ms: seq<SourceMount<C>>, root: string)
  {
    forall i :: 0 <= i < |ms| ==> ValidInRoot(ms[i], root)
  }

  /** For every extract path that leads somewhere, and every destination: one that starts as
      the extract path does passes exactly when it lies outside, any other wherever it lies. */
  lemma ValidExactly<C>(m: SourceMount<C>, root: string)
    requires !IsRoot(root) && Place(root) != []
    ensures ValidInRoot(m, root) <==>
      m.dest != "/" && m.specOk && !(SameStartOf(m.dest, root) && Place(root) <= Place(m.dest))
  {
    PathHasPrefixByPlace(m.dest, root);
  }

  /** Validation can tell where the destination lies: it starts as the extract path does, or
      would also be accepted if both were written absolute. */
  predicate Recognised(dest: string, root: string)
  {
    Place(root) != [] && (SameStartOf(dest, root) || !PathHasPrefix("/" + dest, "/" + root))
  }

  /** An accepted mount lies outside the extract path exactly when validation can tell. */
  lemma OutsideExactly<C>(m: SourceMount<C>, root: string)
    requires !IsRoot(root) && ValidInRoot(m, root)
    ensures !(Place(root) <= Place(m.dest)) <==> Recognised(m.dest, root)
  {
    if Place(root) != [] {
      ValidExactly(m, root);
      AbsoluteHasPrefix(m.dest, root);
    }
  }

  /** A relative extract path and an absolute destination, and the other way round, and a
      destination that climbs first: accepted, and below the extract path. */
  lemma MissedMounts<C>(content: Fs<C>)
    ensures ValidInRoot(SourceMount("/usr/x", content, true), "usr") && Place("usr") <= Place("/usr/x")
    ensures ValidInRoot(SourceMount("usr/x", content, true), "/usr") && Place("/usr") <= Place("usr/x")
    ensures ValidInRoot(SourceMount("../usr/x", content, true), "usr") && Place("usr") <= Place("../usr/x")
  {
    UsrPlaces();
    ValidExactly(SourceMount("/usr/x", content, true), "usr");
    ValidExactly(SourceMount("usr/x", content, true), "/usr");
    ValidExactly(SourceMount("../usr/x", content, true), "usr");
  }

  lemma UsrPlaces()
    ensures Place("usr") == Place("/usr") == ["usr"]
    ensures Place("/usr/x") == Place("usr/x") == Place("../usr/x") == ["usr", "x"]
    ensures Climbs(Components("usr")) == 0 && Climbs(Components("../usr/x")) == 1
  {
    assert "usr" + "/" + "x" == "usr/x" && ".." + "/" + "usr/x" == "../usr/x" && "/" + "usr" == "/usr"
      && "/" + "usr/x" == "/usr/x";
    OnePlace("usr");
    TwoPlaces("usr", "x");
    ClimbedPlace("usr", "x");
  }

  lemma OnePlace(c: string)
    requires PlainComponent(c)
    ensures Place(c) == Place("/" + c) == [c] && Climbs(Components(c)) == 0
  {
    NameInside(c);
    PlainInside(c);
    PlainInside("/" + c);
    PlaceIsStripped(c);
    PlaceIsStripped("/" + c);
  }

  lemma TwoPlaces(a: string, b: string)
    requires PlainComponent(a) && PlainComponent(b)
    ensures Place(a + "/" + b) == Place("/" + (a + "/" + b)) == [a, b] && Split(a + "/" + b) == [a, b]
  {
    SplitPlain(a);
    SplitPlain(b);
    SplitConcat(a, b);
    var p := a + "/" + b;
    ListComponents(p, [a, b]);
    PlaceIsStripped(p);
    assert Place(p) == [a, b];
    PlaceIsStripped("/" + p);
  }

  lemma ClimbedPlace(a: string, b: string)
    requires PlainComponent(a) && PlainComponent(b)
    ensures Place(".." + "/" + (a + "/" + b)) == [a, b] && Climbs(Components(".." + "/" + (a + "/" + b))) == 1
  {
    var p := ".." + "/" + (a + "/" + b);
    TwoPlaces(a, b);
    SplitPlain("..");
    SplitConcat("..", a + "/" + b);
    ListComponents(p, ["..", a, b]);
    PlaceIsStripped(p);
    assert ["..", a, b][1..] == [a, b];
  }

  lemma ListComponents(p: string, cs: seq<string>)
    requires !Rooted(p) && Split(p) == cs && Normal(false, cs)
    ensures Components(p) == cs
  {
    assert [] + cs == cs;
    PushAllIdentity(false, [], cs);
  }

  // ---------- layers of mounts ----------

  /** A file system mounted at a path. */
  datatype Layer<C> = Layer(at: Path, content: Fs<C>)

  function Get<C>(fs: Fs<C>, p: Path): Option<C>
  {
    if p in fs then Some(fs[p]) else None
  }

  lemma SameFs<C>(a: Fs<C>, b: Fs<C>)
    requires forall p :: Get(a, p) == Get(b, p)
    ensures a == b
  {
    assert forall p :: p in a <==> Get(a, p).Some?;
    assert forall p :: p in b <==> Get(b, p).Some?;
    assert forall p :: p in a ==> Get(a, p) == Some(a[p]) && Get(b, p) == Some(b[p]);
  }

  /** The layer that shows at `p`: the deepest one mounted at or above it. */
  function Top<C>(layers: seq<Layer<C>>, p: Path): (r: Option<Layer<C>>)
    ensures r.Some? ==> r.value in layers && r.value.at <= p
  {
    if layers == [] then None else
      var l, rest := layers[|layers| - 1], Top(layers[..|layers| - 1], p);
      if l.at <= p && (rest.None? || |rest.value.at| <= |l.at|) then Some(l) else rest
  }

  /** What a step finds at `p`. */
  function See<C>(root: Fs<C>, layers: seq<Layer<C>>, p: Path): Option<C>
  {
    match Top(layers, p)
    case Some(l) => Get(l.content, p[|l.at|..])
    case None => Get(root, p)
  }

  function Placed<C>(l: Layer<C>): set<Path>
  {
    set q | q in l.content :: l.at + q
  }

  function AllPlaced<C>(layers: seq<Layer<C>>): (r: set<Path>)
    ensures forall l, q :: l in layers && q in l.content ==> l.at + q in r
  {
    if layers == [] then {} else
      var l := layers[|layers| - 1];
      assert forall k :: k in layers ==> k == l || k in layers[..|layers| - 1];
      AllPlaced(layers[..|layers| - 1]) + Placed(l)
  }

  /** The file system a step runs on. */
  function View<C>(root: Fs<C>, layers: seq<Layer<C>>): Fs<C>
  {
    map p | p in root.Keys + AllPlaced(layers) && See(root, layers, p).Some? :: See(root, layers, p).value
  }

  lemma ViewIsSee<C>(root: Fs<C>, layers: seq<Layer<C>>, p: Path)
    ensures Get(View(root, layers), p) == See(root, layers, p)
  {
    if See(root, layers, p).Some? && Top(layers, p).Some? {
      var l := Top(layers, p).value;
      assert p == l.at + p[|l.at|..];
    }
  }

  /** What a step wrote where no layer hides the root. */
  function RootAfter<C>(root: Fs<C>, layers: seq<Layer<C>>, r: Fs<C>): Fs<C>
  {
    map p | p in root.Keys + r.Keys && (if Top(layers, p).Some? then p in root else p in r) ::
      if Top(layers, p).Some? then root[p] else r[p]
  }

  /** The part of a file system at and below `at`, relative to it. */
  function Under<C>(fs: Fs<C>, at: Path): Fs<C>
  {
    map q | q in (set p | p in fs && at <= p :: p[|at|..]) && at + q in fs :: fs[at + q]
  }

  lemma UnderGet<C>(fs: Fs<C>, at: Path, q: Path)
    ensures Get(Under(fs, at), q) == Get(fs, at + q)
  {
    if at + q in fs {
      assert (at + q)[|at|..] == q && at <= at + q;
      assert q in set p | p in fs && at <= p :: p[|at|..];
    }
  }

  function Layers<C>(ms: seq<SourceMount<C>>): (r: seq<Layer<C>>)
    ensures |r| == |ms|
    ensures forall i :: 0 <= i < |ms| ==> r[i] == Layer(Place(ms[i].dest), ms[i].content)
  {
    seq(|ms|, i requires 0 <= i < |ms| => Layer(Place(ms[i].dest), ms[i].content))
  }

  // ---------- baseState ----------

  /** The output shows at this path: no source mounted deeper hides it. */
  predicate ShowsOutput<C>(ms: seq<Layer<C>>, sub: Path, p: Path)
  {
    sub <= p && (Top(ms, p).None? || |Top(ms, p).value.at| <= |sub|)
  }

  /** What a step wrote where the output shows; the rest of the output stays. */
  function OutputAfter<C>(out: Fs<C>, sub: Path, ms: seq<Layer<C>>, r: Fs<C>): Fs<C>
  {
    map q | q in out.Keys + Under(r, sub).Keys
      && (if ShowsOutput(ms, sub, sub + q) then q in Under(r, sub) else q in out) ::
      if ShowsOutput(ms, sub, sub + q) then Under(r, sub)[q] else out[q]
  }

  /** The states after a step: of the image root, and of the output mounted at `sub`. */
  function ThreadStep<C>(img: Fs<C>, out: Fs<C>, sub: Path, ms: seq<Layer<C>>, run: Fs<C> -> Fs<C>): (Fs<C>, Fs<C>)
  {
    var layers := ms + [Layer(sub, out)];
    var r := run(View(img, layers));
    (RootAfter(img, layers, r), OutputAfter(out, sub, ms, r))
  }

  /** The image root after a step without an output mount. */
  function RootStep<C>(img: Fs<C>, ms: seq<Layer<C>>, run: Fs<C> -> Fs<C>): Fs<C>
  {
    RootAfter(img, ms, run(View(img, ms)))
  }

  /** A step with the source mounts it runs under. */
  datatype Stage<!C> = Stage(layers: seq<Layer<C>>, run: Fs<C> -> Fs<C>)

  function StageOf<C>(cmd: Command<C>, step: Step<C>): Stage<C>
  {
    Stage(Layers(cmd.mounts + step.mounts), step.run)
  }

  function Stages<C>(cmd: Command<C>): (r: seq<Stage<C>>)
    ensures |r| == |cmd.steps| && forall i :: 0 <= i < |r| ==> r[i] == StageOf(cmd, cmd.steps[i])
  {
    seq(|cmd.steps|, i requires 0 <= i < |cmd.steps| => StageOf(cmd, cmd.steps[i]))
  }

  /** Both states after the stages. The output starts from scratch; when the whole root is to
      be extracted, the first step has no output mount and its root becomes the output. */
  ghost function Threaded<C>(img: Fs<C>, stages: seq<Stage<C>>, sub: Path, root: bool): (Fs<C>, Fs<C>)
    decreases |stages|
  {
    if stages == [] then (img, map[]) else
      var last := stages[|stages| - 1];
      StageStep(Threaded(img, stages[..|stages| - 1], sub, root), last, sub, root && |stages| == 1)
  }

  /** One stage; `first` is for the first one of a root that is extracted whole. */
  function StageStep<C>(states: (Fs<C>, Fs<C>), stage: Stage<C>, sub: Path, first: bool): (Fs<C>, Fs<C>)
  {
    if first then (RootStep(states.0, stage.layers, stage.run), RootStep(states.0, stage.layers, stage.run))
    else ThreadStep(states.0, states.1, sub, stage.layers, stage.run)
  }

  method RunStage<C>(img: Fs<C>, out: Fs<C>, stage: Stage<C>, sub: Path, first: bool) returns (img': Fs<C>, out': Fs<C>)
    ensures (img', out') == StageStep((img, out), stage, sub, first)
  {
    if first {
      img' := RootStep(img, stage.layers, stage.run);
      out' := img';
    } else {
      var next := ThreadStep(img, out, sub, stage.layers, stage.run);
      img', out' := next.0, next.1;
    }
  }

  datatype BaseState<C> = Failed | Output(fs: Fs<C>)

  ghost predicate EverythingValid<C>(cmd: Command<C>, subPath: string)
  {
    AllValid(cmd.mounts, subPath) && forall n :: 0 <= n < |cmd.steps| ==> AllValid(cmd.steps[n].mounts, subPath)
  }

  method CheckMounts<C>(ms: seq<SourceMount<C>>, root: string) returns (ok: bool)
    ensures ok <==> AllValid(ms, root)
  {
    for i := 0 to |ms|
      invariant forall j :: 0 <= j < i ==> ValidInRoot(ms[j], root)
    {
      if !ValidInRoot(ms[i], root) {
        return false;
      }
    }
    ok := true;
  }

  lemma ThreadedMore<C>(img: Fs<C>, stages: seq<Stage<C>>, n: nat, sub: Path, root: bool)
    requires n < |stages|
    ensures Threaded(img, stages[..n + 1], sub, root)
      == StageStep(Threaded(img, stages[..n], sub, root), stages[n], sub, root && n == 0)
  {
    assert stages[..n + 1][..n] == stages[..n];
  }

  /** The loop of `Command.baseState` over the steps. */
  method RunStages<C>(img0: Fs<C>, stages: seq<Stage<C>>, sub: Path, root: bool) returns (out: Fs<C>)
    ensures out == Threaded(img0, stages, sub, root).1
  {
    var img := img0;
    out := map[];
    for n := 0 to |stages|
      invariant (img, out) == Threaded(img0, stages[..n], sub, root)
    {
      ThreadedMore(img0, stages, n, sub, root);
      img, out := RunStage(img, out, stages[n], sub, root && n == 0);
    }
    assert stages[..|stages|] == stages;
  }

  /** `Command.baseState`: an error when any mount is rejected, otherwise the output of the
      steps. An empty path stands for the root. */
  method RunCommand<C>(img: Fs<C>, cmd: Command<C>, path: string) returns (result: BaseState<C>)
    ensures result.Failed? <==> !EverythingValid(cmd, path)
    ensures result.Output? ==> result.fs == Threaded(img, Stages(cmd), Place(path), IsRoot(path)).1
  {
    var ok := CheckMounts(cmd.mounts, path);
    if !ok {
      return Failed;
    }
    for n := 0 to |cmd.steps|
      invariant forall i :: 0 <= i < n ==> AllValid(cmd.steps[i].mounts, path)
    {
      ok := CheckMounts(cmd.steps[n].mounts, path);
      if !ok {
        return Failed;
      }
    }
    var out := RunStages(img, Stages(cmd), Place(path), IsRoot(path));
    result := Output(out);
  }

  // ---------- one file system ----------

  /** The extract path starts empty. */
  ghost function Cleared<C>(img: Fs<C>, sub: Path): Fs<C>
  {
    map p | p in img && !(sub <= p) :: img[p]
  }

  /** What a step sees when everything lives in one file system: the mounts of sources, and
      the file system itself elsewhere and at the extract path. */
  ghost function AloneView<C>(g: Fs<C>, sub: Path, ms: seq<Layer<C>>): Fs<C>
  {
    map p | p in g.Keys + AllPlaced(ms) && (if sub <= p then Get(g, p) else See(g, ms, p)).Some? ::
      (if sub <= p then Get(g, p) else See(g, ms, p)).value
  }

  /** What the step wrote stays, except into the mounted sources. */
  ghost function AloneStep<C>(g: Fs<C>, sub: Path, ms: seq<Layer<C>>, run: Fs<C> -> Fs<C>): Fs<C>
  {
    var r := run(AloneView(g, sub, ms));
    map p | p in g.Keys + r.Keys && (if sub <= p || Top(ms, p).None? then p in r else p in g) ::
      if sub <= p || Top(ms, p).None? then r[p] else g[p]
  }

  ghost function Alone<C>(img: Fs<C>, stages: seq<Stage<C>>, sub: Path): Fs<C>
    decreases |stages|
  {
    if stages == [] then Cleared(img, sub) else
      var last := stages[|stages| - 1];
      AloneStep(Alone(img, stages[..|stages| - 1], sub), sub, last.layers, last.run)
  }

  /** The one file system that two threaded states amount to. */
  ghost predicate Amounts<C>(img: Fs<C>, out: Fs<C>, sub: Path, g: Fs<C>)
  {
    forall p :: Get(g, p) == if sub <= p then Get(out, p[|sub|..]) else Get(img, p)
  }

  ghost predicate Outside<C>(ms: seq<Layer<C>>, sub: Path)
  {
    forall l :: l in ms ==> !(sub < l.at)
  }

  /** With no mount below the extract path, the output shows there and only there; a mount at
      the extract path itself is hidden by it. */
  lemma TopWithOutput<C>(ms: seq<Layer<C>>, sub: Path, out: Fs<C>, p: Path)
    requires Outside(ms, sub)
    ensures Top(ms + [Layer(sub, out)], p) == if sub <= p then Some(Layer(sub, out)) else Top(ms, p)
    ensures ShowsOutput(ms, sub, p) <==> sub <= p
  {
    var layers, rest := ms + [Layer(sub, out)], Top(ms, p);
    assert layers[..|layers| - 1] == ms;
    if sub <= p && rest.Some? {
      PrefixesNest(sub, rest.value.at, p);
    }
  }

  lemma PrefixesNest(a: Path, b: Path, p: Path)
    requires a <= p && b <= p
    ensures |a| <= |b| ==> a <= b
  {}

  lemma SameView<C>(img: Fs<C>, out: Fs<C>, sub: Path, g: Fs<C>, ms: seq<Layer<C>>)
    requires Amounts(img, out, sub, g) && Outside(ms, sub)
    ensures View(img, ms + [Layer(sub, out)]) == AloneView(g, sub, ms)
  {
    var layers := ms + [Layer(sub, out)];
    forall p ensures Get(View(img, layers), p) == Get(AloneView(g, sub, ms), p) {
      ViewIsSee(img, layers, p);
      TopWithOutput(ms, sub, out, p);
      AloneViewGet(g, sub, ms, p);
    }
    SameFs(View(img, layers), AloneView(g, sub, ms));
  }

  lemma AloneViewGet<C>(g: Fs<C>, sub: Path, ms: seq<Layer<C>>, p: Path)
    ensures Get(AloneView(g, sub, ms), p) == if sub <= p then Get(g, p) else See(g, ms, p)
  {
    if !(sub <= p) && See(g, ms, p).Some? && Top(ms, p).Some? {
      var l := Top(ms, p).value;
      assert p == l.at + p[|l.at|..];
    }
  }

  lemma OutputAfterGet<C>(out: Fs<C>, sub: Path, ms: seq<Layer<C>>, r: Fs<C>, q: Path)
    ensures Get(OutputAfter(out, sub, ms, r), q) ==
      if ShowsOutput(ms, sub, sub + q) then Get(r, sub + q) else Get(out, q)
  {
    UnderGet(r, sub, q);
  }

  lemma RootAfterGet<C>(root: Fs<C>, layers: seq<Layer<C>>, r: Fs<C>, p: Path)
    ensures Get(RootAfter(root, layers, r), p) == if Top(layers, p).Some? then Get(root, p) else Get(r, p)
  {}

  lemma AloneStepGet<C>(g: Fs<C>, sub: Path, ms: seq<Layer<C>>, run: Fs<C> -> Fs<C>, p: Path)
    ensures Get(AloneStep(g, sub, ms, run), p) ==
      if sub <= p || Top(ms, p).None? then Get(run(AloneView(g, sub, ms)), p) else Get(g, p)
  {}

  lemma StepAmounts<C>(img: Fs<C>, out: Fs<C>, sub: Path, g: Fs<C>, ms: seq<Layer<C>>, run: Fs<C> -> Fs<C>)
    requires Amounts(img, out, sub, g) && Outside(ms, sub)
    ensures var (im, o) := ThreadStep(img, out, sub, ms, run); Amounts(im, o, sub, AloneStep(g, sub, ms, run))
  {
    SameView(img, out, sub, g, ms);
    var (im, o) := ThreadStep(img, out, sub, ms, run);
    forall p ensures Get(AloneStep(g, sub, ms, run), p) == if sub <= p then Get(o, p[|sub|..]) else Get(im, p) {
      StepAmountsAt(img, out, sub, g, ms, run, run(AloneView(g, sub, ms)), p);
    }
  }

  lemma StepAmountsAt<C>(img: Fs<C>, out: Fs<C>, sub: Path, g: Fs<C>, ms: seq<Layer<C>>, run: Fs<C> -> Fs<C>,
    r: Fs<C>, p: Path)
    requires Amounts(img, out, sub, g) && Outside(ms, sub) && r == run(AloneView(g, sub, ms))
    ensures Get(AloneStep(g, sub, ms, run), p) ==
      if sub <= p then Get(OutputAfter(out, sub, ms, r), p[|sub|..])
      else Get(RootAfter(img, ms + [Layer(sub, out)], r), p)
  {
    TopWithOutput(ms, sub, out, p);
    AloneStepGet(g, sub, ms, run, p);
    RootAfterGet(img, ms + [Layer(sub, out)], r, p);
    if sub <= p {
      assert sub + p[|sub|..] == p;
      OutputAfterGet(out, sub, ms, r, p[|sub|..]);
    }
  }

  lemma {:induction false} AllStepsAmount<C>(img: Fs<C>, stages: seq<Stage<C>>, sub: Path)
    requires forall i :: 0 <= i < |stages| ==> Outside(stages[i].layers, sub)
    ensures var (im, o) := Threaded(img, stages, sub, false); Amounts(im, o, sub, Alone(img, stages, sub))
    decreases |stages|
  {
    if stages != [] {
      var rest, last := stages[..|stages| - 1], stages[|stages| - 1];
      AllStepsAmount(img, rest, sub);
      var (im, o) := Threaded(img, rest, sub, false);
      StepAmounts(im, o, sub, Alone(img, rest, sub), last.layers, last.run);
    }
  }

  /** Accepted by validation, or not below the extract path where validation cannot tell. */
  ghost predicate NotMissed<C>(m: SourceMount<C>, path: string)
  {
    (Place(path) != [] && SameStartOf(m.dest, path)) || !(Place(path) < Place(m.dest))
  }

  lemma MountsOutside<C>(ms: seq<SourceMount<C>>, path: string)
    requires !IsRoot(path) && AllValid(ms, path) && forall i :: 0 <= i < |ms| ==> NotMissed(ms[i], path)
    ensures Outside(Layers(ms), Place(path))
  {
    forall l | l in Layers(ms) ensures !(Place(path) < l.at) {
      var i :| 0 <= i < |ms| && Layers(ms)[i] == l;
      if Place(path) != [] { ValidExactly(ms[i], path); }
    }
  }

  /** For every extract path but the root, running all the steps through the two threaded
      states extracts what running them on one file system, whose extract path starts empty,
      leaves at that path; as long as no mount that validation misses is below it. */
  lemma ThreadedIsAlone<C>(img: Fs<C>, cmd: Command<C>, path: string)
    requires !IsRoot(path) && EverythingValid(cmd, path)
    requires forall i :: 0 <= i < |cmd.mounts| ==> NotMissed(cmd.mounts[i], path)
    requires forall n, i :: 0 <= n < |cmd.steps| && 0 <= i < |cmd.steps[n].mounts| ==>
      NotMissed(cmd.steps[n].mounts[i], path)
    ensures Threaded(img, Stages(cmd), Place(path), false).1 == Under(Alone(img, Stages(cmd), Place(path)), Place(path))
  {
    var stages, sub := Stages(cmd), Place(path);
    forall i | 0 <= i < |stages| ensures Outside(stages[i].layers, sub) {
      MountsOutside(cmd.mounts + cmd.steps[i].mounts, path);
    }
    AllStepsAmount(img, stages, sub);
    OutputIsUnder(img, stages, sub);
  }

  lemma OutputIsUnder<C>(img: Fs<C>, stages: seq<Stage<C>>, sub: Path)
    requires var (im, o) := Threaded(img, stages, sub, false); Amounts(im, o, sub, Alone(img, stages, sub))
    ensures Threaded(img, stages, sub, false).1 == Under(Alone(img, stages, sub), sub)
  {
    var o, g := Threaded(img, stages, sub, false).1, Alone(img, stages, sub);
    forall q ensures Get(o, q) == Get(Under(g, sub), q) {
      UnderGet(g, sub, q);
      assert (sub + q)[|sub|..] == q;
      assert Get(g, sub + q) == Get(o, q);
    }
    SameFs(o, Under(g, sub));
  }

  // ---------- why no mount may be below ----------

  /** A step that leaves nothing. */
  function Nothing<C>(): Fs<C> -> Fs<C>
  {
    fs => map[]
  }

  /** A step that leaves one file. */
  function Leaves<C>(file: Path, mark: C): Fs<C> -> Fs<C>
  {
    fs => map[file := mark]
  }

  /** A step that changes nothing. */
  function Idle<C>(): Fs<C> -> Fs<C>
  {
    fs => fs
  }

  /** The first `n` steps leave nothing, the next leaves a file, and the others are idle. */
  function Marking<C>(layers: seq<seq<Layer<C>>>, n: nat, file: Path, mark: C): (r: seq<Stage<C>>)
    ensures |r| == |layers| && forall i :: 0 <= i < |r| ==> r[i].layers == layers[i]
  {
    seq(|layers|, i requires 0 <= i < |layers| =>
      Stage(layers[i], if i < n then Nothing() else if i == n then Leaves(file, mark) else Idle()))
  }

  lemma DeepMountHides<C>(ms: seq<Layer<C>>, l: Layer<C>)
    requires l in ms
    ensures Top(ms, l.at).Some? && |Top(ms, l.at).value.at| >= |l.at|
  {
    var last := ms[|ms| - 1];
    if l != last { DeepMountHides(ms[..|ms| - 1], l); }
  }

  /** A file left in a mount below the extract path does not reach the output. */
  lemma MarkLost<C>(img: Fs<C>, out: Fs<C>, sub: Path, ms: seq<Layer<C>>, l: Layer<C>, mark: C)
    requires l in ms && sub < l.at
    ensures Get(ThreadStep(img, out, sub, ms, Leaves(l.at, mark)).1, l.at[|sub|..]) == Get(out, l.at[|sub|..])
  {
    DeepMountHides(ms, l);
    assert sub + l.at[|sub|..] == l.at;
    OutputAfterGet(out, sub, ms, map[l.at := mark], l.at[|sub|..]);
  }

  lemma NothingLeft<C>(img: Fs<C>, out: Fs<C>, sub: Path, ms: seq<Layer<C>>, q: Path)
    requires Get(out, q) == None
    ensures Get(ThreadStep(img, out, sub, ms, Nothing()).1, q) == None
  {
    var none: Fs<C> := map[];
    OutputAfterGet(out, sub, ms, none, q);
  }

  lemma IdleOutput<C>(img: Fs<C>, out: Fs<C>, sub: Path, ms: seq<Layer<C>>, q: Path)
    ensures Get(ThreadStep(img, out, sub, ms, Idle()).1, q) == Get(out, q)
  {
    var layers := ms + [Layer(sub, out)];
    OutputAfterGet(out, sub, ms, View(img, layers), q);
    ViewIsSee(img, layers, sub + q);
    assert layers[..|layers| - 1] == ms && (sub + q)[|sub|..] == q;
  }

  lemma IdleAlone<C>(g: Fs<C>, sub: Path, ms: seq<Layer<C>>, p: Path)
    requires sub <= p
    ensures Get(AloneStep(g, sub, ms, Idle()), p) == Get(g, p)
  {
    AloneStepGet(g, sub, ms, Idle(), p);
    AloneViewGet(g, sub, ms, p);
  }

  lemma MarkingAt<C>(layers: seq<seq<Layer<C>>>, n: nat, file: Path, mark: C, i: nat)
    requires i < |layers|
    ensures Marking(layers, n, file, mark)[i] ==
      Stage(layers[i], if i < n then Nothing() else if i == n then Leaves(file, mark) else Idle())
  {}

  /** The step leaves nothing, changes nothing, or leaves its file in the mount. */
  ghost predicate Harmless<C>(stage: Stage<C>, l: Layer<C>, mark: C)
  {
    stage.run == Nothing<C>() || stage.run == Idle<C>() || (stage.run == Leaves(l.at, mark) && l in stage.layers)
  }

  /** No such step brings the file into the output. */
  lemma StaysOut<C>(states: (Fs<C>, Fs<C>), stage: Stage<C>, sub: Path, l: Layer<C>, mark: C)
    requires sub < l.at && Get(states.1, l.at[|sub|..]) == None && Harmless(stage, l, mark)
    ensures Get(StageStep(states, stage, sub, false).1, l.at[|sub|..]) == None
  {
    if stage.run == Nothing<C>() {
      NothingLeft(states.0, states.1, sub, stage.layers, l.at[|sub|..]);
    } else if stage.run == Idle<C>() {
      IdleOutput(states.0, states.1, sub, stage.layers, l.at[|sub|..]);
    } else {
      MarkLost(states.0, states.1, sub, stage.layers, l, mark);
    }
  }

  lemma {:induction false} MarkNeverOut<C>(stages: seq<Stage<C>>, l: Layer<C>, sub: Path, mark: C, k: nat)
    requires k <= |stages| && sub < l.at && forall i :: 0 <= i < |stages| ==> Harmless(stages[i], l, mark)
    ensures Get(Threaded(map[], stages[..k], sub, false).1, l.at[|sub|..]) == None
  {
    if k == 0 {
      NoStageYet<C>(stages, sub);
    } else {
      MarkNeverOut(stages, l, sub, mark, k - 1);
      OutNext(stages, k - 1, sub, l, mark, Threaded(map[], stages[..k - 1], sub, false));
    }
  }

  lemma NoStageYet<C>(stages: seq<Stage<C>>, sub: Path)
    ensures Threaded(map[], stages[..0], sub, false).1 == map[]
  {
    assert stages[..0] == [];
  }

  lemma OutNext<C>(stages: seq<Stage<C>>, k: nat, sub: Path, l: Layer<C>, mark: C, states: (Fs<C>, Fs<C>))
    requires k < |stages| && states == Threaded(map[], stages[..k], sub, false) && Harmless(stages[k], l, mark)
    requires sub < l.at && Get(states.1, l.at[|sub|..]) == None
    ensures Get(Threaded(map[], stages[..k + 1], sub, false).1, l.at[|sub|..]) == None
  {
    ThreadedMore(map[], stages, k, sub, false);
    StaysOut(states, stages[k], sub, l, mark);
  }

  lemma MarkingHarmless<C>(layers: seq<seq<Layer<C>>>, n: nat, l: Layer<C>, mark: C)
    requires n < |layers| && l in layers[n]
    ensures forall i :: 0 <= i < |layers| ==> Harmless(Marking(layers, n, l.at, mark)[i], l, mark)
  {
    forall i | 0 <= i < |layers| ensures Harmless(Marking(layers, n, l.at, mark)[i], l, mark) {
      MarkingAt(layers, n, l.at, mark, i);
    }
  }

  lemma {:induction false} MarkKeptAlone<C>(layers: seq<seq<Layer<C>>>, n: nat, file: Path, sub: Path, mark: C, k: nat)
    requires n < k <= |layers| && sub <= file
    ensures Get(Alone(map[], Marking(layers, n, file, mark)[..k], sub), file) == Some(mark)
  {
    var stages := Marking(layers, n, file, mark);
    assert stages[..k][..k - 1] == stages[..k - 1];
    var g := Alone(map[], stages[..k - 1], sub);
    if k - 1 == n {
      AloneStepGet(g, sub, layers[n], Leaves(file, mark), file);
    } else {
      MarkKeptAlone(layers, n, file, sub, mark, k - 1);
      IdleAlone(g, sub, layers[k - 1], file);
    }
  }

  /** With a mount below the extract path there are steps that tell the threaded states from
      one file system. */
  lemma InsideDiffers<C>(layers: seq<seq<Layer<C>>>, n: nat, l: Layer<C>, sub: Path, mark: C)
    requires n < |layers| && l in layers[n] && sub < l.at
    ensures var stages := Marking(layers, n, l.at, mark);
      Threaded(map[], stages, sub, false).1 != Under(Alone(map[], stages, sub), sub)
  {
    var stages := Marking(layers, n, l.at, mark);
    assert stages[..|layers|] == stages;
    MarkingHarmless(layers, n, l, mark);
    MarkNeverOut(stages, l, sub, mark, |layers|);
    MarkKeptAlone(layers, n, l.at, sub, mark, |layers|);
    DifferAt(Threaded(map[], stages, sub, false).1, Alone(map[], stages, sub), sub, l.at);
  }

  lemma DifferAt<C>(out: Fs<C>, g: Fs<C>, sub: Path, file: Path)
    requires sub <= file && Get(out, file[|sub|..]) != Get(g, file)
    ensures out != Under(g, sub)
  {
    assert sub + file[|sub|..] == file;
    UnderGet(g, sub, file[|sub|..]);
  }

  /** The stages run under these mounts, step by step. */
  ghost predicate RunsUnder<C>(stages: seq<Stage<C>>, layers: seq<seq<Layer<C>>>)
  {
    |stages| == |layers| && forall i :: 0 <= i < |stages| ==> stages[i].layers == layers[i]
  }

  /** Whatever the steps do and whatever the image holds, the output is what one file system
      has at the extract path. */
  ghost predicate AloneAlways<C(!new)>(layers: seq<seq<Layer<C>>>, sub: Path)
  {
    forall img: Fs<C>, stages: seq<Stage<C>> | RunsUnder(stages, layers) ::
      Threaded(img, stages, sub, false).1 == Under(Alone(img, stages, sub), sub)
  }

  /** That is so if and only if no mount is strictly below the extract path. */
  lemma AloneExactly<C(!new)>(layers: seq<seq<Layer<C>>>, sub: Path, mark: C)
    ensures AloneAlways(layers, sub) <==> forall i :: 0 <= i < |layers| ==> Outside(layers[i], sub)
  {
    if forall i :: 0 <= i < |layers| ==> Outside(layers[i], sub) {
      forall img: Fs<C>, stages: seq<Stage<C>> | RunsUnder(stages, layers)
        ensures Threaded(img, stages, sub, false).1 == Under(Alone(img, stages, sub), sub)
      {
        AllStepsAmount(img, stages, sub);
        OutputIsUnder(img, stages, sub);
      }
    }
    if AloneAlways(layers, sub) {
      forall i, l | 0 <= i < |layers| && l in layers[i] ensures !(sub < l.at) {
        if sub < l.at {
          InsideDiffers(layers, i, l, sub, mark);
          assert RunsUnder(Marking(layers, i, l.at, mark), layers);
          assert false;
        }
      }
    }
  }

  // ---------- extracting the whole root ----------

  /** All steps on one file system, with the sources mounted over it. */
  ghost function AloneRoot<C>(img: Fs<C>, stages: seq<Stage<C>>): Fs<C>
    decreases |stages|
  {
    if stages == [] then img else
      var last := stages[|stages| - 1];
      RootStep(AloneRoot(img, stages[..|stages| - 1]), last.layers, last.run)
  }

  ghost predicate NoneAtRoot<C>(ms: seq<Layer<C>>)
  {
    forall l :: l in ms ==> l.at != []
  }

  lemma TopOverRoot<C>(ms: seq<Layer<C>>, out: Fs<C>, p: Path)
    requires NoneAtRoot(ms)
    ensures Top(ms + [Layer([], out)], p) == if Top(ms, p).Some? then Top(ms, p) else Some(Layer([], out))
    ensures ShowsOutput(ms, [], p) <==> Top(ms, p).None?
  {
    var layers := ms + [Layer([], out)];
    assert layers[..|layers| - 1] == ms;
  }

  /** The output mounted over the root is the root. */
  lemma OutputIsRoot<C>(img: Fs<C>, out: Fs<C>, ms: seq<Layer<C>>, run: Fs<C> -> Fs<C>)
    requires NoneAtRoot(ms)
    ensures ThreadStep(img, out, [], ms, run).1 == RootStep(out, ms, run)
  {
    var layers := ms + [Layer([], out)];
    forall p ensures Get(View(img, layers), p) == Get(View(out, ms), p) {
      ViewIsSee(img, layers, p);
      ViewIsSee(out, ms, p);
      TopOverRoot(ms, out, p);
    }
    SameFs(View(img, layers), View(out, ms));
    var r := run(View(out, ms));
    forall q ensures Get(OutputAfter(out, [], ms, r), q) == Get(RootAfter(out, ms, r), q) {
      OutputAfterGet(out, [], ms, r, q);
      RootAfterGet(out, ms, r, q);
      TopOverRoot(ms, out, q);
      assert [] + q == q;
    }
    SameFs(OutputAfter(out, [], ms, r), RootAfter(out, ms, r));
  }

  /** When the whole root is extracted, any number of steps, at least one, leave what running
      them on the one image leaves. */
  lemma {:induction false} RootIsAlone<C>(img: Fs<C>, stages: seq<Stage<C>>)
    requires stages != [] && forall i :: 1 <= i < |stages| ==> NoneAtRoot(stages[i].layers)
    ensures Threaded(img, stages, [], true).1 == AloneRoot(img, stages)
    decreases |stages|
  {
    var rest, last := stages[..|stages| - 1], stages[|stages| - 1];
    if rest == [] {
      assert Threaded(img, rest, [], true) == (img, map[]);
      assert AloneRoot(img, rest) == img;
    } else {
      RootIsAlone(img, rest);
      OutputIsRoot(Threaded(img, rest, [], true).0, AloneRoot(img, rest), last.layers, last.run);
    }
  }

  /** A step under a mount at the root cannot change the one image there. */
  lemma RootHidden<C>(img: Fs<C>, ms: seq<Layer<C>>, run: Fs<C> -> Fs<C>, l: Layer<C>)
    requires l in ms && l.at == []
    ensures Get(RootStep(img, ms, run), []) == Get(img, [])
  {
    DeepMountHides(ms, l);
    RootAfterGet(img, ms, run(View(img, ms)), []);
  }

  lemma RootUnmarked<C>(img: Fs<C>, ms: seq<Layer<C>>, run: Fs<C> -> Fs<C>)
    requires Get(img, []) == None && (run == Nothing<C>() || run == Idle<C>())
    ensures Get(RootStep(img, ms, run), []) == None
  {
    RootAfterGet(img, ms, run(View(img, ms)), []);
    ViewIsSee(img, ms, []);
  }

  lemma RootStays<C>(img: Fs<C>, stage: Stage<C>, l: Layer<C>, mark: C)
    requires Get(img, []) == None && l.at == [] && Harmless(stage, l, mark)
    ensures Get(RootStep(img, stage.layers, stage.run), []) == None
  {
    if l in stage.layers {
      RootHidden(img, stage.layers, stage.run, l);
    } else {
      RootUnmarked(img, stage.layers, stage.run);
    }
  }

  lemma {:induction false} RootNeverMarked<C>(stages: seq<Stage<C>>, l: Layer<C>, mark: C, k: nat)
    requires k <= |stages| && l.at == [] && forall i :: 0 <= i < |stages| ==> Harmless(stages[i], l, mark)
    ensures Get(AloneRoot(map[], stages[..k]), []) == None
  {
    if k > 0 {
      RootNeverMarked(stages, l, mark, k - 1);
      RootNext(stages, k - 1, l, mark, AloneRoot(map[], stages[..k - 1]));
    }
  }

  lemma RootNext<C>(stages: seq<Stage<C>>, k: nat, l: Layer<C>, mark: C, g: Fs<C>)
    requires k < |stages| && g == AloneRoot(map[], stages[..k]) && Harmless(stages[k], l, mark)
    requires l.at == [] && Get(g, []) == None
    ensures Get(AloneRoot(map[], stages[..k + 1]), []) == None
  {
    assert stages[..k + 1][..k] == stages[..k];
    RootStays(g, stages[k], l, mark);
  }

  /** What a step leaves at the extract path itself is in the output, over any mount there. */
  lemma OutputMarked<C>(img: Fs<C>, out: Fs<C>, sub: Path, ms: seq<Layer<C>>, mark: C)
    ensures Get(ThreadStep(img, out, sub, ms, Leaves(sub, mark)).1, []) == Some(mark)
  {
    assert sub + [] == sub;
    OutputAfterGet(out, sub, ms, map[sub := mark], []);
  }

  lemma StaysIn<C>(states: (Fs<C>, Fs<C>), stage: Stage<C>, sub: Path, mark: C)
    requires stage.run == Leaves(sub, mark) || (stage.run == Idle<C>() && Get(states.1, []) == Some(mark))
    ensures Get(StageStep(states, stage, sub, false).1, []) == Some(mark)
  {
    if stage.run == Leaves(sub, mark) {
      OutputMarked(states.0, states.1, sub, stage.layers, mark);
    } else {
      IdleOutput(states.0, states.1, sub, stage.layers, []);
    }
  }

  lemma {:induction false} MarkKept<C>(stages: seq<Stage<C>>, n: nat, sub: Path, mark: C, root: bool, k: nat)
    requires 0 < n < k <= |stages| && stages[n].run == Leaves(sub, mark)
    requires forall i :: n < i < |stages| ==> stages[i].run == Idle<C>()
    ensures Get(Threaded(map[], stages[..k], sub, root).1, []) == Some(mark)
  {
    if k - 1 > n { MarkKept(stages, n, sub, mark, root, k - 1); }
    var states := Threaded(map[], stages[..k - 1], sub, root);
    StaysIn(states, stages[k - 1], sub, mark);
    LaterStage(stages, k - 1, sub, root, states);
  }

  lemma LaterStage<C>(stages: seq<Stage<C>>, k: nat, sub: Path, root: bool, states: (Fs<C>, Fs<C>))
    requires 0 < k < |stages| && states == Threaded(map[], stages[..k], sub, root)
    ensures Threaded(map[], stages[..k + 1], sub, root) == StageStep(states, stages[k], sub, false)
  {
    ThreadedMore(map[], stages, k, sub, root);
  }

  ghost predicate RootAlways<C(!new)>(layers: seq<seq<Layer<C>>>)
  {
    forall img: Fs<C>, stages: seq<Stage<C>> | RunsUnder(stages, layers) ::
      Threaded(img, stages, [], true).1 == AloneRoot(img, stages)
  }

  /** Extracting the root, the steps behave as on the one image, whatever they do, if and only
      if none but the first has a mount at the root. */
  lemma RootExactly<C(!new)>(layers: seq<seq<Layer<C>>>, mark: C)
    requires layers != []
    ensures RootAlways(layers) <==> forall i :: 1 <= i < |layers| ==> NoneAtRoot(layers[i])
  {
    if forall i :: 1 <= i < |layers| ==> NoneAtRoot(layers[i]) {
      forall img: Fs<C>, stages: seq<Stage<C>> | RunsUnder(stages, layers)
        ensures Threaded(img, stages, [], true).1 == AloneRoot(img, stages)
      {
        RootIsAlone(img, stages);
      }
    }
    if RootAlways(layers) {
      forall i, l | 1 <= i < |layers| && l in layers[i] ensures l.at != [] {
        if l.at == [] {
          var stages := Marking(layers, i, [], mark);
          assert stages[..|layers|] == stages && RunsUnder(stages, layers);
          forall j | i <= j < |layers|
            ensures stages[j].run == if j == i then Leaves([], mark) else Idle<C>()
          {
            MarkingAt(layers, i, [], mark, j);
          }
          MarkKept(stages, i, [], mark, true, |layers|);
          MarkingHarmless(layers, i, l, mark);
          RootNeverMarked(stages, l, mark, |layers|);
          assert false;
        }
      }
    }
  }

  // ---------- what a step sees, and where what it leaves goes ----------

  /** The mount that shows at `p`: of those at or above it a deepest one, and of these the last. */
  ghost predicate Shows<C>(ms: seq<SourceMount<C>>, i: nat, p: Path)
  {
    && i < |ms| && Place(ms[i].dest) <= p
    && forall j :: 0 <= j < |ms| && Place(ms[j].dest) <= p ==>
      |Place(ms[j].dest)| < |Place(ms[i].dest)| || (|Place(ms[j].dest)| == |Place(ms[i].dest)| && j <= i)
  }

  ghost predicate NoMount<C>(ms: seq<SourceMount<C>>, p: Path)
  {
    forall j :: 0 <= j < |ms| ==> !(Place(ms[j].dest) <= p)
  }

  /** The output, mounted at `sub`, shows at `p`: no mount at or above `p` is deeper. */
  ghost predicate OutputShows<C>(ms: seq<SourceMount<C>>, sub: Path, p: Path)
  {
    sub <= p && forall j :: 0 <= j < |ms| && Place(ms[j].dest) <= p ==> |Place(ms[j].dest)| <= |sub|
  }

  /** What a step finds at `p`: what the output has there where it shows, else what the mounted
      source has there, else what the image has. `output` says whether there is an output. */
  ghost predicate FindsAt<C>(v: Fs<C>, img: Fs<C>, out: Fs<C>, ms: seq<SourceMount<C>>, sub: Path, output: bool,
    p: Path)
  {
    if output && OutputShows(ms, sub, p) then Get(v, p) == Get(out, p[|sub|..])
    else
      && (forall i: nat :: Shows(ms, i, p) ==> Get(v, p) == Get(ms[i].content, p[|Place(ms[i].dest)|..]))
      && (NoMount(ms, p) ==> Get(v, p) == Get(img, p))
  }

  ghost predicate Finds<C>(v: Fs<C>, img: Fs<C>, out: Fs<C>, ms: seq<SourceMount<C>>, sub: Path, output: bool)
  {
    forall p :: FindsAt(v, img, out, ms, sub, output, p)
  }

  /** What the step left at `p` goes to the output where that shows, to the image where nothing
      is mounted, and is lost in a mounted source. */
  ghost predicate LeavesAt<C>(r: Fs<C>, img: Fs<C>, out: Fs<C>, img': Fs<C>, out': Fs<C>, ms: seq<SourceMount<C>>,
    sub: Path, p: Path)
  {
    && Get(img', p) == (if NoMount(ms, p) && !(sub <= p) then Get(r, p) else Get(img, p))
    && (sub <= p ==>
      Get(out', p[|sub|..]) == if OutputShows(ms, sub, p) then Get(r, p) else Get(out, p[|sub|..]))
  }

  /** Step `n` of a command, from the states before it to those after it: it runs under the
      mounts of the command and its own. The first step of a command from which the whole
      root is extracted runs without an output, and its root becomes the output. */
  ghost predicate StepTaken<C(!new)>(cmd: Command<C>, n: nat, sub: Path, first: bool, img: Fs<C>, out: Fs<C>,
    img': Fs<C>, out': Fs<C>)
    requires n < |cmd.steps|
  {
    var ms := cmd.mounts + cmd.steps[n].mounts;
    exists v ::
      && Finds(v, img, out, ms, sub, !first)
      && (if first then
            && out' == img'
            && forall p :: Get(img', p) == if NoMount(ms, p) then Get(cmd.steps[n].run(v), p) else Get(img, p)
          else forall p :: LeavesAt(cmd.steps[n].run(v), img, out, img', out', ms, sub, p))
  }

  /** The layer of the mount that shows. */
  ghost predicate TopIs<C>(ms: seq<SourceMount<C>>, p: Path, l: Layer<C>)
  {
    exists i: nat :: Shows(ms, i, p) && l == Layer(Place(ms[i].dest), ms[i].content)
  }

  lemma LastShows<C>(ms: seq<SourceMount<C>>, p: Path)
    requires ms != [] && Place(ms[|ms| - 1].dest) <= p
    requires forall j :: 0 <= j < |ms| && Place(ms[j].dest) <= p ==> |Place(ms[j].dest)| <= |Place(ms[|ms| - 1].dest)|
    ensures TopIs(ms, p, Layer(Place(ms[|ms| - 1].dest), ms[|ms| - 1].content))
  {
    assert Shows(ms, |ms| - 1, p);
  }

  lemma ShowsBefore<C>(front: seq<SourceMount<C>>, last: SourceMount<C>, p: Path, l: Layer<C>)
    requires TopIs(front, p, l) && (Place(last.dest) <= p ==> |Place(last.dest)| < |l.at|)
    ensures TopIs(front + [last], p, l)
  {
    var i: nat :| Shows(front, i, p) && l == Layer(Place(front[i].dest), front[i].content);
    assert Shows(front + [last], i, p);
  }

  lemma {:induction false} TopShows<C>(ms: seq<SourceMount<C>>, p: Path)
    ensures Top(Layers(ms), p).None? <==> NoMount(ms, p)
    ensures Top(Layers(ms), p).Some? ==> TopIs(ms, p, Top(Layers(ms), p).value)
    decreases |ms|
  {
    if ms != [] {
      var front, last := ms[..|ms| - 1], ms[|ms| - 1];
      assert ms == front + [last];
      TopShows(front, p);
      TopOneMore(front, last, p);
    }
  }

  lemma TopOneMore<C>(front: seq<SourceMount<C>>, last: SourceMount<C>, p: Path)
    requires var rest := Top(Layers(front), p);
      (rest.None? <==> NoMount(front, p)) && (rest.Some? ==> TopIs(front, p, rest.value))
    ensures var top := Top(Layers(front + [last]), p);
      (top.None? <==> NoMount(front + [last], p)) && (top.Some? ==> TopIs(front + [last], p, top.value))
  {
    var ms, rest, l := front + [last], Top(Layers(front), p), Layer(Place(last.dest), last.content);
    assert Layers(ms) == Layers(front) + [l];
    assert (Layers(front) + [l])[..|front|] == Layers(front);
    if l.at <= p && (rest.None? || |rest.value.at| <= |l.at|) {
      forall j | 0 <= j < |ms| && Place(ms[j].dest) <= p ensures |Place(ms[j].dest)| <= |l.at| {
        if j < |front| { assert ms[j] == front[j]; }
      }
      LastShows(ms, p);
      assert ms[|front|] == last;
    } else if rest.Some? {
      ShowsBefore(front, last, p, rest.value);
      var i: nat :| Shows(ms, i, p);
    } else {
      assert forall j :: 0 <= j < |front| ==> ms[j] == front[j];
    }
  }

  lemma ShowsUnique<C>(ms: seq<SourceMount<C>>, i: nat, j: nat, p: Path)
    requires Shows(ms, i, p) && Shows(ms, j, p)
    ensures i == j
  {}

  lemma OutputShowsTop<C>(ms: seq<SourceMount<C>>, sub: Path, out: Fs<C>, p: Path)
    ensures ShowsOutput(Layers(ms), sub, p) <==> OutputShows(ms, sub, p)
    ensures Top(Layers(ms) + [Layer(sub, out)], p) ==
      if OutputShows(ms, sub, p) then Some(Layer(sub, out)) else Top(Layers(ms), p)
  {
    var layers := Layers(ms) + [Layer(sub, out)];
    assert layers[..|layers| - 1] == Layers(ms);
    TopShows(ms, p);
    if Top(Layers(ms), p).Some? {
      var i: nat :| Shows(ms, i, p) && Top(Layers(ms), p).value == Layer(Place(ms[i].dest), ms[i].content);
      assert sub <= p ==> (OutputShows(ms, sub, p) <==> |Place(ms[i].dest)| <= |sub|);
    }
  }

  lemma ViewFinds<C>(img: Fs<C>, out: Fs<C>, ms: seq<SourceMount<C>>, sub: Path, p: Path)
    ensures FindsAt(View(img, Layers(ms) + [Layer(sub, out)]), img, out, ms, sub, true, p)
    ensures FindsAt(View(img, Layers(ms)), img, out, ms, sub, false, p)
  {
    ViewIsSee(img, Layers(ms) + [Layer(sub, out)], p);
    ViewIsSee(img, Layers(ms), p);
    OutputShowsTop(ms, sub, out, p);
    MountFinds(img, ms, p);
  }

  lemma MountFinds<C>(img: Fs<C>, ms: seq<SourceMount<C>>, p: Path)
    ensures forall i: nat :: Shows(ms, i, p) ==>
      See(img, Layers(ms), p) == Get(ms[i].content, p[|Place(ms[i].dest)|..]) && Top(Layers(ms), p).Some?
    ensures NoMount(ms, p) ==> See(img, Layers(ms), p) == Get(img, p)
  {
    TopShows(ms, p);
    forall i: nat | Shows(ms, i, p)
      ensures See(img, Layers(ms), p) == Get(ms[i].content, p[|Place(ms[i].dest)|..]) && Top(Layers(ms), p).Some?
    {
      assert !NoMount(ms, p);
      var j: nat :| Shows(ms, j, p) && Top(Layers(ms), p).value == Layer(Place(ms[j].dest), ms[j].content);
      ShowsUnique(ms, i, j, p);
    }
  }

  lemma StepLeaves<C>(img: Fs<C>, out: Fs<C>, ms: seq<SourceMount<C>>, sub: Path, r: Fs<C>, p: Path)
    ensures LeavesAt(r, img, out, RootAfter(img, Layers(ms) + [Layer(sub, out)], r),
      OutputAfter(out, sub, Layers(ms), r), ms, sub, p)
  {
    OutputShowsTop(ms, sub, out, p);
    TopShows(ms, p);
    RootAfterGet(img, Layers(ms) + [Layer(sub, out)], r, p);
    if sub <= p {
      assert sub + p[|sub|..] == p;
      OutputAfterGet(out, sub, Layers(ms), r, p[|sub|..]);
    }
  }

  lemma StageTaken<C(!new)>(cmd: Command<C>, n: nat, sub: Path, first: bool, img: Fs<C>, out: Fs<C>)
    requires n < |cmd.steps|
    ensures var (img', out') := StageStep((img, out), Stages(cmd)[n], sub, first);
      StepTaken(cmd, n, sub, first, img, out, img', out')
  {
    var ms := cmd.mounts + cmd.steps[n].mounts;
    if first {
      var v := View(img, Layers(ms));
      forall p ensures FindsAt(v, img, out, ms, sub, false, p) { ViewFinds(img, out, ms, sub, p); }
      forall p ensures Get(RootAfter(img, Layers(ms), cmd.steps[n].run(v)), p) ==
        if NoMount(ms, p) then Get(cmd.steps[n].run(v), p) else Get(img, p)
      {
        TopShows(ms, p);
        RootAfterGet(img, Layers(ms), cmd.steps[n].run(v), p);
      }
    } else {
      var v := View(img, Layers(ms) + [Layer(sub, out)]);
      forall p ensures FindsAt(v, img, out, ms, sub, true, p) { ViewFinds(img, out, ms, sub, p); }
      var r := cmd.steps[n].run(v);
      var (img', out') := ThreadStep(img, out, sub, Layers(ms), cmd.steps[n].run);
      forall p ensures LeavesAt(r, img, out, img', out', ms, sub, p) { StepLeaves(img, out, ms, sub, r, p); }
    }
  }

  /** The states before, between and after the steps of a command. */
  ghost predicate Ran<C(!new)>(img: Fs<C>, cmd: Command<C>, sub: Path, root: bool, imgs: seq<Fs<C>>, outs: seq<Fs<C>>)
  {
    && |imgs| == |outs| == |cmd.steps| + 1 && imgs[0] == img && outs[0] == map[]
    && forall n :: 0 <= n < |cmd.steps| ==>
      StepTaken(cmd, n, sub, root && n == 0, imgs[n], outs[n], imgs[n + 1], outs[n + 1])
  }

  ghost function StatesAt<C>(img: Fs<C>, cmd: Command<C>, sub: Path, root: bool, n: nat): (Fs<C>, Fs<C>)
    requires n <= |cmd.steps|
  {
    Threaded(img, Stages(cmd)[..n], sub, root)
  }

  lemma NextStates<C(!new)>(img: Fs<C>, cmd: Command<C>, sub: Path, root: bool, n: nat)
    requires n < |cmd.steps|
    ensures var (im, o) := StatesAt(img, cmd, sub, root, n);
      var (im', o') := StatesAt(img, cmd, sub, root, n + 1);
      StepTaken(cmd, n, sub, root && n == 0, im, o, im', o')
  {
    var (im, o) := StatesAt(img, cmd, sub, root, n);
    ThreadedMore(img, Stages(cmd), n, sub, root);
    StageTaken(cmd, n, sub, root && n == 0, im, o);
  }

  lemma EndStates<C>(img: Fs<C>, cmd: Command<C>, sub: Path, root: bool)
    ensures StatesAt(img, cmd, sub, root, 0) == (img, map[])
    ensures StatesAt(img, cmd, sub, root, |cmd.steps|) == Threaded(img, Stages(cmd), sub, root)
  {
    assert Stages(cmd)[..0] == [] && Stages(cmd)[..|cmd.steps|] == Stages(cmd);
  }

  lemma StepsRun<C(!new)>(img: Fs<C>, cmd: Command<C>, sub: Path, root: bool, imgs: seq<Fs<C>>, outs: seq<Fs<C>>)
    requires |imgs| == |outs| == |cmd.steps| + 1
    requires forall n :: 0 <= n <= |cmd.steps| ==> (imgs[n], outs[n]) == StatesAt(img, cmd, sub, root, n)
    ensures Ran(img, cmd, sub, root, imgs, outs)
  {
    EndStates(img, cmd, sub, root);
    forall n | 0 <= n < |cmd.steps|
      ensures StepTaken(cmd, n, sub, root && n == 0, imgs[n], outs[n], imgs[n + 1], outs[n + 1])
    {
      NextStates(img, cmd, sub, root, n);
    }
  }

  /** `Command.baseState` runs every step in turn, each under the mounts of the command and its
      own, starting from the image and an empty output; the last output is the result. */
  lemma CommandRuns<C(!new)>(img: Fs<C>, cmd: Command<C>, path: string) returns (imgs: seq<Fs<C>>, outs: seq<Fs<C>>)
    ensures Ran(img, cmd, Place(path), IsRoot(path), imgs, outs)
    ensures outs[|cmd.steps|] == Threaded(img, Stages(cmd), Place(path), IsRoot(path)).1
  {
    var sub, root := Place(path), IsRoot(path);
    imgs := seq(|cmd.steps| + 1, n requires 0 <= n <= |cmd.steps| => StatesAt(img, cmd, sub, root, n).0);
    outs := seq(|cmd.steps| + 1, n requires 0 <= n <= |cmd.steps| => StatesAt(img, cmd, sub, root, n).1);
    StepsRun(img, cmd, sub, root, imgs, outs);
    EndStates(img, cmd, sub, root);
  }
}
