/**
 BuildMux handlers that are BuildMuxes themselves, to any depth: each level trims the part
 of the target it matched before calling the handler, and puts it back in front of the
 target of a not-found error that comes out.
 */
module NestedRouting {
  import opened Values
  import opened Paths
  import opened Routing

  /** A handler is a build function of its own, or another BuildMux. */
  datatype BuildFunc = Leaf(id: nat) | Nested(handlers: map<string, BuildFunc>, def: Option<BuildFunc>)

  lemma {:induction false} LongestExists(keys: set<string>, matches: string -> bool)
    requires exists k :: k in keys && matches(k)
    ensures exists k :: Longest(keys, matches, k)
    decreases |keys|
  {
    var k :| k in keys && matches(k);
    var rest := keys - {k};
    if exists j :: j in rest && matches(j) {
      LongestExists(rest, matches);
      var j :| Longest(rest, matches, j);
      if |j| <= |k| {
        assert Longest(keys, matches, k);
      } else {
        assert Longest(keys, matches, j);
      }
    } else {
      assert Longest(keys, matches, k);
    }
  }

  /** The result of `lookupTarget`, which is unique. */
  ghost function Look(mux: BuildFunc, target: string): (r: Lookup<BuildFunc>)
    requires mux.Nested?
    ensures IsLookup(mux.handlers, mux.def, target, r)
    ensures r.Found? ==>
      || (r.matched in mux.handlers && r.handler == mux.handlers[r.matched])
      || (mux.def.Some? && r.handler == mux.def.value)
  {
    if target in mux.handlers then Found(target, mux.handlers[target])
    else if target == "" && mux.def.Some? then Found("", mux.def.value)
    else if exists k :: k in mux.handlers && Below(target)(k) then
      LongestExists(mux.handlers.Keys, Below(target));
      var k :| Longest(mux.handlers.Keys, Below(target), k);
      Found(k, mux.handlers[k])
    else NotRegistered
  }

  /** `trimTargetOpt`: drop the matched part, then one slash. */
  function Trim(target: string, matched: string): string
  {
    var rest := if matched <= target then target[|matched|..] else target;
    if rest != "" && rest[0] == '/' then rest[1..] else rest
  }

  /** `maybeSetDalecTargetKey`: only an empty `dalec.target` is set. */
  function SetTargetKey(dalecTarget: string, matched: string): string
  {
    if dalecTarget != "" then dalecTarget else matched
  }

  /** The leaf that ran, with the options it saw, or the error that came out. */
  datatype Outcome =
    | Ran(id: nat, target: string, dalecTarget: string)
    | NoSuchHandler(target: string, available: set<string>)

  /** `injectPathsToNotFoundError`. */
  ghost function Inject(matched: string, o: Outcome): Outcome
  {
    match o
    case Ran(_, _, _) => o
    case NoSuchHandler(t, available) => NoSuchHandler(Join([matched, t]), set v | v in available :: Join([matched, v]))
  }

  /** `Handle`, through all levels. */
  ghost function Handle(f: BuildFunc, target: string, dalecTarget: string): Outcome
    decreases f
  {
    match f
    case Leaf(id) => Ran(id, target, dalecTarget)
    case Nested(handlers, def) =>
      match Look(f, target)
      case NotRegistered => NoSuchHandler(target, handlers.Keys)
      case Found(matched, h) => Inject(matched, Handle(h, Trim(target, matched), SetTargetKey(dalecTarget, matched)))
  }

  /** The patterns matched on the way down. */
  ghost function Trail(f: BuildFunc, target: string): seq<string>
    decreases f
  {
    if f.Leaf? then [] else
      match Look(f, target)
      case NotRegistered => []
      case Found(matched, h) => [matched] + Trail(h, Trim(target, matched))
  }

  /** Putting matched patterns back in front, innermost first, as the errors do. */
  function Rejoin(trail: seq<string>, rest: string): string
  {
    if trail == [] then rest else Join([trail[0], Rejoin(trail[1..], rest)])
  }

  /** A target that is written the clean way: empty, or its own Clean. */
  predicate CleanTarget(t: string)
  {
    t == "" || Clean(t) == t
  }

  // ---------- one level ----------

  lemma UnsplitSplit(p: string)
    ensures Unsplit(Split(p)) == p
  {
    if p != "" {
      UnsplitSplit(p[1..]);
      var r := Split(p[1..]);
      if p[0] == '/' {
        assert ([""] + r)[1..] == r;
        assert "" + "/" + p[1..] == p;
      } else {
        assert p == [p[0]] + p[1..];
        if |r| > 1 { assert ([[p[0]] + r[0]] + r[1..])[1..] == r[1..]; }
      }
    }
  }

  /** The pieces of a clean relative target are its components. */
  lemma CleanPieces(t: string)
    requires t != "" && t != "." && Clean(t) == t && !Rooted(t)
    ensures Split(t) == Components(t) && Normal(false, Split(t))
  {
    ComponentsNormal(t);
    if Components(t) != [] {
      SplitUnsplit(Components(t));
    }
  }

  /** Pieces that are clean make a clean target. */
  lemma PiecesClean(t: string)
    requires t != "" && !Rooted(t) && Normal(false, Split(t))
    ensures Clean(t) == t
  {
    assert [] + Split(t) == Split(t);
    PushAllIdentity(false, [], Split(t));
    UnsplitSplit(t);
  }

  /** Cutting a clean relative target at a slash leaves a clean relative rest. */
  lemma RestIsClean(k: string, rest: string)
    requires CleanTarget(k + "/" + rest) && !Rooted(k + "/" + rest)
    ensures k != "" && rest != "" && CleanTarget(rest) && !Rooted(rest)
  {
    var t := k + "/" + rest;
    assert |t| >= 1 && t[|k|] == '/';
    assert t != ".";
    CleanPieces(t);
    SplitConcat(k, rest);
    var cs := Split(t);
    assert cs == Split(k) + Split(rest);
    assert forall i :: 0 <= i < |Split(rest)| ==> Split(rest)[i] == cs[|Split(k)| + i];
    assert Split(rest)[0] != "";
    RootedPieces(rest);
    PiecesClean(rest);
  }

  lemma RootedPieces(p: string)
    ensures Rooted(p) || p == "" <==> Split(p)[0] == ""
  {}

  /** A match and the rest it leaves rejoin to the target. */
  lemma MatchRejoins(k: string, rest: string)
    requires k != "" && CleanTarget(k + "/" + rest)
    ensures Join([k, rest]) == k + "/" + rest
  {
    assert Unsplit([k, rest]) == k + "/" + rest by {
      assert [k, rest][1..] == [rest];
    }
  }

  lemma ExactRejoins(t: string)
    requires CleanTarget(t)
    ensures Join([t, ""]) == t
  {
    if t == "" {
      assert [t, ""][1..] == [""] && [""][1..] == [];
    } else {
      assert [t, ""][1..] == [""];
      assert Unsplit([t, ""]) == t + "/" + "";
      SplitConcat(t, "");
      assert Split("") == [""];
      PushAllAppend(Rooted(t), [], Split(t), [""]);
      assert PushAll(Rooted(t), Components(t), [""]) == PushAll(Rooted(t), Components(t), []);
      assert Components(t + "/" + "") == Components(t);
    }
  }

  /** After its leading slash, a clean rooted target is a clean relative one. */
  lemma RootedRest(t: string)
    requires Rooted(t) && Clean(t) == t
    ensures CleanTarget(t[1..]) && !Rooted(t[1..])
    ensures t != "/" ==> t[1..] != "" && Split(t) == [""] + Split(t[1..]) && Normal(false, Split(t[1..]))
  {
    ComponentsNormal(t);
    var cs := Components(t);
    if cs != [] {
      assert t[1..] == Unsplit(cs);
      UnsplitRooted(cs);
      SplitUnsplit(cs);
      PiecesClean(t[1..]);
    }
  }

  /** Cutting a clean rooted target anywhere but at its first slash leaves a clean relative rest. */
  lemma RootedCut(k: string, rest: string)
    requires k != "" && Rooted(k + "/" + rest) && CleanTarget(k + "/" + rest)
    ensures rest != "" && CleanTarget(rest) && !Rooted(rest)
  {
    RestPieces(k, rest, k + "/" + rest);
    RootedPieces(rest);
    PiecesClean(rest);
  }

  lemma RestPieces(k: string, rest: string, t: string)
    requires k != "" && t == k + "/" + rest && Rooted(t) && CleanTarget(t)
    ensures Normal(false, Split(rest)) && Split(rest)[0] != ""
  {
    assert t[0] == k[0] && |t| >= 2;
    RootedRest(t);
    SplitConcat(k, rest);
    RootedSplit(k);
    TailNormal(Split(k)[1..], Split(rest), Split(t[1..]));
  }

  lemma RootedSplit(k: string)
    requires Rooted(k)
    ensures |Split(k)| >= 2 && Split(k)[0] == ""
  {}

  lemma TailNormal(a: seq<string>, b: seq<string>, cs: seq<string>)
    requires cs == a + b && Normal(false, cs) && b != []
    ensures Normal(false, b) && b[0] != ""
  {
    assert forall i :: 0 <= i < |b| ==> b[i] == cs[|a| + i];
  }

  lemma TrimAt(k: string, rest: string)
    ensures Trim(k + "/" + rest, k) == rest
  {
    var t := k + "/" + rest;
    assert t[|k|..] == "/" + rest;
  }

  /** Cutting a clean target at a slash: the rest is clean and relative, and rejoins. */
  lemma CutRejoins(k: string, rest: string)
    requires CleanTarget(k + "/" + rest) && k != ""
    ensures CleanTarget(rest) && !Rooted(rest) && Join([k, rest]) == k + "/" + rest
    ensures Trim(k + "/" + rest, k) == rest
  {
    if Rooted(k + "/" + rest) { RootedCut(k, rest); } else { RestIsClean(k, rest); }
    MatchRejoins(k, rest);
    TrimAt(k, rest);
  }

  /** One level: what is left is clean and relative, and rejoins with the match. */
  lemma LevelRejoins(f: BuildFunc, t: string)
    requires f.Nested? && CleanTarget(t) && Look(f, t).Found?
    requires Rooted(t) ==> Look(f, t).matched != ""
    ensures var m := Look(f, t).matched;
      var rest := Trim(t, m);
      CleanTarget(rest) && !Rooted(rest) && Join([m, rest]) == t
  {
    var m := Look(f, t).matched;
    assert m == t || Below(t)(m);
    MatchedRejoins(m, t);
  }

  lemma MatchedRejoins(m: string, t: string)
    requires CleanTarget(t) && (m == t || m + "/" <= t) && (Rooted(t) ==> m != "")
    ensures CleanTarget(Trim(t, m)) && !Rooted(Trim(t, m)) && Join([m, Trim(t, m)]) == t
  {
    if m == t {
      assert t[|m|..] == "";
      ExactRejoins(t);
    } else {
      var rest := t[|m| + 1..];
      assert t == m + "/" + rest;
      CutRejoins(m, rest);
    }
  }

  // ---------- all levels ----------

  /** The condition under which a target can be put together again. */
  ghost predicate Routable(f: BuildFunc, t: string)
  {
    CleanTarget(t) && (Rooted(t) && f.Nested? && Look(f, t).Found? ==> Look(f, t).matched != "")
  }

  /** At any depth, the matched patterns and the rest the leaf sees rejoin to the target, and
      a not-found error names the whole target. */
  lemma {:induction false} TargetRejoins(f: BuildFunc, t: string, d: string)
    requires Routable(f, t)
    ensures match Handle(f, t, d)
      case Ran(_, rest, _) => Rejoin(Trail(f, t), rest) == t && CleanTarget(rest)
      case NoSuchHandler(t', _) => t' == t
    decreases f
  {
    if f.Nested? && Look(f, t).Found? {
      var m, h := Look(f, t).matched, Look(f, t).handler;
      LevelRejoins(f, t);
      TargetRejoins(h, Trim(t, m), SetTargetKey(d, m));
      assert ([m] + Trail(h, Trim(t, m)))[1..] == Trail(h, Trim(t, m));
    }
  }

  function FirstNonEmpty(s: seq<string>): string
  {
    if s == [] then "" else if s[0] != "" then s[0] else FirstNonEmpty(s[1..])
  }

  /** `dalec.target` reaches the leaf as it was set from outside, or else as the first
      non-empty pattern matched; later matches never change it. */
  lemma {:induction false} TargetKeySetOnce(f: BuildFunc, t: string, d: string)
    ensures var o := Handle(f, t, d);
      o.Ran? ==> o.dalecTarget == if d != "" then d else FirstNonEmpty(Trail(f, t))
    decreases f
  {
    if f.Nested? && Look(f, t).Found? {
      var m, h := Look(f, t).matched, Look(f, t).handler;
      TargetKeySetOnce(h, Trim(t, m), SetTargetKey(d, m));
      assert ([m] + Trail(h, Trim(t, m)))[1..] == Trail(h, Trim(t, m));
    }
  }

  /** The mux that had no handler. */
  ghost function Refusing(f: BuildFunc, target: string): BuildFunc
    decreases f
  {
    if f.Nested? && Look(f, target).Found? then
      Refusing(Look(f, target).handler, Trim(target, Look(f, target).matched))
    else f
  }

  /** The error offers the routes of the mux that refused, each with its full path. */
  lemma {:induction false} AvailableRoutes(f: BuildFunc, t: string, d: string)
    requires Handle(f, t, d).NoSuchHandler?
    ensures Refusing(f, t).Nested?
    ensures Handle(f, t, d).available == set k | k in Refusing(f, t).handlers :: Rejoin(Trail(f, t), k)
    decreases f
  {
    if Look(f, t).Found? {
      var m, h := Look(f, t).matched, Look(f, t).handler;
      AvailableRoutes(h, Trim(t, m), SetTargetKey(d, m));
      RejoinInjects(m, Trail(h, Trim(t, m)), Refusing(h, Trim(t, m)).handlers.Keys);
    } else {
      assert Trail(f, t) == [];
    }
  }

  lemma RejoinInjects(m: string, trail: seq<string>, keys: set<string>)
    ensures (set v | v in (set k | k in keys :: Rejoin(trail, k)) :: Join([m, v]))
      == set k | k in keys :: Rejoin([m] + trail, k)
  {
    assert ([m] + trail)[1..] == trail;
    assert forall k :: Rejoin([m] + trail, k) == Join([m, Rejoin(trail, k)]);
    forall k | k in keys
      ensures Join([m, Rejoin(trail, k)]) in set v | v in (set k | k in keys :: Rejoin(trail, k)) :: Join([m, v])
    {
      assert Rejoin(trail, k) in set k | k in keys :: Rejoin(trail, k);
    }
  }

  lemma {:induction false} JoinIsClean(elems: seq<string>)
    ensures CleanTarget(Join(elems))
  {
    if elems != [] {
      if elems[0] == "" {
        JoinIsClean(elems[1..]);
      } else {
        var p := Unsplit(elems);
        CleanCanonical(p, p);
        assert Join(elems) == Clean(p);
      }
    } else {
      assert Join(elems) == "";
    }
  }

  lemma JoinEmptyFirst(x: string)
    requires CleanTarget(x)
    ensures Join(["", x]) == x
  {
    assert ["", x][1..] == [x];
    assert Join(["", x]) == Join([x]);
    if x == "" {
      assert [x][1..] == [] && Join([x]) == Join([]);
    } else {
      assert Unsplit([x]) == x;
    }
  }

  /** Once a first level has matched, a not-found error names the original target exactly
      when that target is clean, and, if it starts with a slash, was not matched by the
      empty pattern. */
  lemma NotFoundNamesTarget(f: BuildFunc, t: string, d: string)
    requires f.Nested? && Look(f, t).Found? && Handle(f, t, d).NoSuchHandler?
    ensures Handle(f, t, d).target == t <==> Routable(f, t)
  {
    var m, h := Look(f, t).matched, Look(f, t).handler;
    var inner := Handle(h, Trim(t, m), SetTargetKey(d, m));
    JoinIsClean([m, inner.target]);
    if Routable(f, t) {
      TargetRejoins(f, t, d);
    } else if CleanTarget(t) {
      assert t[0..] == t && Trim(t, "") == t[1..];
      RootedRest(t);
      TargetRejoins(h, t[1..], SetTargetKey(d, m));
      JoinEmptyFirst(t[1..]);
    }
  }

  /** A router whose empty route leads to a router without routes loses the leading slash. */
  lemma LeadingSlashLost(f: BuildFunc, d: string)
    requires f == Nested(map["" := Nested(map[], None)], None)
    ensures Handle(f, "/x", d).NoSuchHandler? && Handle(f, "/x", d).target != "/x"
  {
    var inner: BuildFunc := Nested(map[], None);
    assert Below("/x")("") by { assert "" + "/" <= "/x"; }
    assert Look(f, "/x") == Found("", inner);
    assert Trim("/x", "") == "x";
    assert Look(inner, "x") == NotRegistered;
    assert Handle(inner, "x", SetTargetKey(d, "")).NoSuchHandler?;
    NotFoundNamesTarget(f, "/x", d);
  }

  // ---------- which handler runs ----------

  /** The target is the route, with nothing left, or goes on below it with `rest`. */
  predicate GoesOn(target: string, route: string, rest: string)
  {
    (target == route && rest == "") || target == route + "/" + rest
  }

  /** The route is followed: the exact one; else, for the empty target, the default; else the
      longest one the target goes on below. */
  ghost predicate Follows(handlers: map<string, BuildFunc>, def: Option<BuildFunc>, target: string, route: string,
    rest: string)
  {
    && GoesOn(target, route, rest)
    && (target in handlers ==> route == target && rest == "")
    && (target !in handlers && target == "" && def.Some? ==> route == "" && rest == "")
    && (target !in handlers && !(target == "" && def.Some?) ==>
      route in handlers && forall k, r :: k in handlers && target == k + "/" + r ==> |k| <= |route|)
  }

  /** From `f` the target leads along the trail to the leaf `id`, which sees `seen`. */
  ghost predicate Leads(f: BuildFunc, target: string, trail: seq<string>, id: nat, seen: string)
    decreases f
  {
    match f
    case Leaf(i) => trail == [] && id == i && seen == target
    case Nested(handlers, def) =>
      trail != [] && exists rest ::
        && Follows(handlers, def, target, trail[0], rest)
        && (if trail[0] in handlers then Leads(handlers[trail[0]], rest, trail[1..], id, seen)
            else def.Some? && Leads(def.value, rest, trail[1..], id, seen))
  }

  lemma LookFollows(f: BuildFunc, t: string)
    requires f.Nested? && Look(f, t).Found?
    ensures var m := Look(f, t).matched;
      Follows(f.handlers, f.def, t, m, Trim(t, m))
    ensures var m := Look(f, t).matched;
      if m in f.handlers then Look(f, t).handler == f.handlers[m] else f.def.Some? && Look(f, t).handler == f.def.value
  {
    var m := Look(f, t).matched;
    if t == m {
      assert t[|m|..] == "";
    } else {
      assert Below(t)(m);
      var r := t[|m| + 1..];
      assert t == m + "/" + r;
      TrimAt(m, r);
      forall k, r' | k in f.handlers && t == k + "/" + r' ensures |k| <= |m| {
        assert k + "/" <= t;
        assert Below(t)(k);
      }
    }
  }

  lemma FollowsIsLook(f: BuildFunc, t: string, m: string, rest: string)
    requires f.Nested? && Follows(f.handlers, f.def, t, m, rest)
    ensures Look(f, t).Found? && Look(f, t).matched == m && Trim(t, m) == rest
  {
    if t in f.handlers || (t == "" && f.def.Some?) {
      assert t[|m|..] == "";
    } else {
      assert t != m && t == m + "/" + rest;
      assert m + "/" <= t;
      assert Below(t)(m);
      LookFollows(f, t);
      var m' := Look(f, t).matched;
      assert t == m' + "/" + Trim(t, m');
      assert |m| == |m'| && m == t[..|m|] == m';
      TrimAt(m, rest);
    }
  }

  /** The handler that runs, and the target it sees, are those that the target leads to by the
      routes alone; a target that leads nowhere is not found. */
  lemma {:induction false} HandlerReached(f: BuildFunc, t: string, d: string, trail: seq<string>, id: nat, seen: string)
    ensures Leads(f, t, trail, id, seen) <==>
      var o := Handle(f, t, d); o.Ran? && o.id == id && o.target == seen && trail == Trail(f, t)
    decreases f
  {
    if f.Nested? {
      if Leads(f, t, trail, id, seen) {
        var rest :| Follows(f.handlers, f.def, t, trail[0], rest)
          && (if trail[0] in f.handlers then Leads(f.handlers[trail[0]], rest, trail[1..], id, seen)
              else f.def.Some? && Leads(f.def.value, rest, trail[1..], id, seen));
        FollowsIsLook(f, t, trail[0], rest);
        LookFollows(f, t);
        HandlerReached(Look(f, t).handler, rest, SetTargetKey(d, trail[0]), trail[1..], id, seen);
      }
      if Handle(f, t, d).Ran? && Handle(f, t, d).id == id && Handle(f, t, d).target == seen && trail == Trail(f, t) {
        var m, h := Look(f, t).matched, Look(f, t).handler;
        LookFollows(f, t);
        assert trail[0] == m && trail[1..] == Trail(h, Trim(t, m));
        HandlerReached(h, Trim(t, m), SetTargetKey(d, m), trail[1..], id, seen);
      }
    }
  }
}
