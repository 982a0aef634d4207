/**
 Go's slash-separated paths: `filepath.Clean`, `filepath.Join` and `filepath.Base` as
 documented for the path packages, and the lexical checks dalec builds on them.

 Clean works on the list of components between slashes: empty and `.` components
 vanish, `..` removes the component before it, and a leading `..` stays in a
 relative path and vanishes in a rooted one.
 */
module Paths {
  import Text

  function Last(s: seq<string>): string
    requires s != []
  {
    s[|s| - 1]
  }

  /** The pieces of `p` between slashes: `strings.Split(p, "/")`. */
  function Split(p: string): (r: seq<string>)
    ensures r != []
  {
    if p == "" then [""] else Prepend(p[0], Split(p[1..]))
  }

  /** One more character in front: a slash starts a new piece. */
  function Prepend(c: char, pieces: seq<string>): (r: seq<string>)
    requires pieces != []
    ensures r != []
  {
    if c == '/' then [""] + pieces else [[c] + pieces[0]] + pieces[1..]
  }

  /** `strings.Join(cs, "/")`. */
  function Unsplit(cs: seq<string>): string
  {
    if cs == [] then ""
    else if |cs| == 1 then cs[0]
    else cs[0] + "/" + Unsplit(cs[1..])
  }

  predicate Rooted(p: string)
  {
    p != "" && p[0] == '/'
  }

  /** One component of the path is processed against those kept so far. */
  function Push(rooted: bool, kept: seq<string>, c: string): seq<string>
  {
    if c == "" || c == "." then kept
    else if c != ".." then kept + [c]
    else if kept != [] && Last(kept) != ".." then kept[..|kept| - 1]
    else if rooted then kept
    else kept + [".."]
  }

  function PushAll(rooted: bool, kept: seq<string>, cs: seq<string>): seq<string>
    decreases cs
  {
    if cs == [] then kept else PushAll(rooted, Push(rooted, kept, cs[0]), cs[1..])
  }

  /** The components of the cleaned path. */
  function Components(p: string): seq<string>
  {
    PushAll(Rooted(p), [], Split(p))
  }

  function Render(rooted: bool, cs: seq<string>): string
  {
    if rooted then "/" + Unsplit(cs) else if cs == [] then "." else Unsplit(cs)
  }

  /** `filepath.Clean`. */
  function Clean(p: string): string
  {
    Render(Rooted(p), Components(p))
  }

  /** `filepath.Join`: leading empty elements are ignored, the rest is joined and cleaned. */
  function Join(elems: seq<string>): string
  {
    if elems == [] then ""
    else if elems[0] == "" then Join(elems[1..])
    else Clean(Unsplit(elems))
  }

  /** `filepath.Base`. */
  function Base(p: string): string
  {
    if p == "" then "."
    else
      var cs := Text.NonEmpty(Split(p));
      if cs == [] then "/" else Last(cs)
  }

  /** The name a file is installed under: the one given, or else the last element of its key. */
  function ResolveName(name: string, path: string): string
  {
    if name != "" then name else Base(path)
  }

  /** `filepath.Dir`: all but the last element, cleaned. */
  function Dir(p: string): string
  {
    Clean(UpToSlash(p))
  }

  function UpToSlash(p: string): string
  {
    if p == "" || p[|p| - 1] == '/' then p else UpToSlash(p[..|p| - 1])
  }

  // ---------- normal component lists ----------

  predicate PlainComponent(c: string)
  {
    c != "" && c != "." && c != ".." && '/' !in c
  }

  /** What Clean can leave: plain components, after leading `..`s when the path is relative. */
  ghost predicate Normal(rooted: bool, cs: seq<string>)
  {
    && (forall i :: 0 <= i < |cs| ==> PlainComponent(cs[i]) || (!rooted && cs[i] == ".."))
    && (forall i, j :: 0 <= i < j < |cs| && cs[j] == ".." ==> cs[i] == "..")
  }

  lemma PushNormal(rooted: bool, kept: seq<string>, c: string)
    requires Normal(rooted, kept) && '/' !in c
    ensures Normal(rooted, Push(rooted, kept, c))
  {}

  lemma {:induction false} PushAllNormal(rooted: bool, kept: seq<string>, cs: seq<string>)
    requires Normal(rooted, kept)
    requires forall i :: 0 <= i < |cs| ==> '/' !in cs[i]
    ensures Normal(rooted, PushAll(rooted, kept, cs))
    decreases cs
  {
    if cs != [] {
      PushNormal(rooted, kept, cs[0]);
      PushAllNormal(rooted, Push(rooted, kept, cs[0]), cs[1..]);
    }
  }

  lemma {:induction false} SplitNoSlash(p: string)
    ensures forall i :: 0 <= i < |Split(p)| ==> '/' !in Split(p)[i]
  {
    if p != "" { SplitNoSlash(p[1..]); }
  }

  lemma ComponentsNormal(p: string)
    ensures Normal(Rooted(p), Components(p))
  {
    SplitNoSlash(p);
    PushAllNormal(Rooted(p), [], Split(p));
  }

  lemma {:induction false} PushAllAppend(rooted: bool, kept: seq<string>, a: seq<string>, b: seq<string>)
    ensures PushAll(rooted, kept, a + b) == PushAll(rooted, PushAll(rooted, kept, a), b)
    decreases a
  {
    if a == [] {
      assert a + b == b;
    } else {
      assert (a + b)[1..] == a[1..] + b;
      PushAllAppend(rooted, Push(rooted, kept, a[0]), a[1..], b);
    }
  }

  /** Processing components that are already clean keeps them as they are. */
  lemma {:induction false} PushAllIdentity(rooted: bool, kept: seq<string>, cs: seq<string>)
    requires Normal(rooted, kept + cs)
    ensures PushAll(rooted, kept, cs) == kept + cs
    decreases cs
  {
    if cs == [] {
      assert kept + cs == kept;
    } else {
      var c := cs[0];
      assert (kept + cs)[|kept|] == c;
      if c == ".." && kept != [] {
        assert (kept + cs)[|kept| - 1] == Last(kept);
        assert Last(kept) == "..";
      }
      assert Push(rooted, kept, c) == kept + [c];
      assert kept + cs == (kept + [c]) + cs[1..];
      PushAllIdentity(rooted, kept + [c], cs[1..]);
    }
  }

  // ---------- splitting and joining text ----------

  lemma {:induction false} SplitPlain(c: string)
    requires '/' !in c
    ensures Split(c) == [c]
  {
    if c != "" {
      SplitPlain(c[1..]);
      assert c == [c[0]] + c[1..];
    }
  }

  /** A slash is a boundary: what is before it and after it split separately. */
  lemma {:induction false} SplitConcat(a: string, b: string)
    ensures Split(a + "/" + b) == Split(a) + Split(b)
  {
    var s := a + "/" + b;
    if a == "" {
      assert s[1..] == b;
    } else {
      assert s[1..] == a[1..] + "/" + b;
      SplitConcat(a[1..], b);
      PrependAppend(a[0], Split(a[1..]), Split(b));
    }
  }

  lemma PrependAppend(c: char, pieces: seq<string>, more: seq<string>)
    requires pieces != []
    ensures Prepend(c, pieces + more) == Prepend(c, pieces) + more
  {
    if c == '/' {
      assert [""] + (pieces + more) == ([""] + pieces) + more;
    } else {
      assert (pieces + more)[0] == pieces[0] && (pieces + more)[1..] == pieces[1..] + more;
    }
  }

  lemma {:induction false} SplitUnsplit(cs: seq<string>)
    requires cs != [] && forall i :: 0 <= i < |cs| ==> '/' !in cs[i]
    ensures Split(Unsplit(cs)) == cs
  {
    SplitPlain(cs[0]);
    if |cs| > 1 {
      SplitUnsplit(cs[1..]);
      SplitConcat(cs[0], Unsplit(cs[1..]));
    }
  }

  /** The pieces of `cs` joined by slashes are the pieces of each element in turn. */
  function SplitEach(cs: seq<string>): seq<string>
  {
    if cs == [] then [] else Split(cs[0]) + SplitEach(cs[1..])
  }

  lemma {:induction false} SplitOfUnsplit(cs: seq<string>)
    requires cs != []
    ensures Split(Unsplit(cs)) == SplitEach(cs)
  {
    if |cs| > 1 {
      SplitOfUnsplit(cs[1..]);
      SplitConcat(cs[0], Unsplit(cs[1..]));
    } else {
      assert SplitEach(cs[1..]) == [];
    }
  }

  lemma UnsplitRooted(cs: seq<string>)
    requires cs != [] && cs[0] != ""
    ensures Rooted(Unsplit(cs)) == Rooted(cs[0]) && Unsplit(cs) != ""
  {}

  /** A cleaned path is rooted as before and has the components it was rendered from. */
  lemma RenderComponents(rooted: bool, cs: seq<string>)
    requires Normal(rooted, cs)
    ensures Rooted(Render(rooted, cs)) == rooted
    ensures Components(Render(rooted, cs)) == cs
  {
    var p := Render(rooted, cs);
    if cs == [] {
      assert Unsplit(cs) == "";
      if rooted {
        assert p[1..] == "" && Split(p) == ["", ""];
        assert PushAll(true, [], ["", ""]) == PushAll(true, [], [""]) == [];
      } else {
        SplitPlain(".");
        assert PushAll(false, [], ["."]) == PushAll(false, [], []);
      }
    } else {
      SplitUnsplit(cs);
      UnsplitRooted(cs);
      assert [] + cs == cs;
      PushAllIdentity(rooted, [], cs);
      if rooted {
        assert p[1..] == Unsplit(cs);
        assert Split(p) == [""] + cs;
        assert ([""] + cs)[1..] == cs;
      }
    }
  }

  /** Cleaning changes neither where the path starts nor its components. */
  lemma CleanComponents(p: string)
    ensures Rooted(Clean(p)) == Rooted(p)
    ensures Components(Clean(p)) == Components(p)
  {
    ComponentsNormal(p);
    RenderComponents(Rooted(p), Components(p));
  }

  /** Clean is idempotent, and two paths clean to the same text exactly when they have
      the same start and the same components. */
  lemma CleanCanonical(p: string, q: string)
    ensures Clean(Clean(p)) == Clean(p)
    ensures Clean(p) == Clean(q) <==> Rooted(p) == Rooted(q) && Components(p) == Components(q)
  {
    CleanComponents(p);
    CleanComponents(q);
  }

  /** Join's result, component by component. */
  lemma JoinComponents(elems: seq<string>)
    requires elems != [] && elems[0] != ""
    ensures Rooted(Join(elems)) == Rooted(elems[0])
    ensures Components(Join(elems)) == PushAll(Rooted(elems[0]), [], SplitEach(elems))
  {
    UnsplitRooted(elems);
    CleanComponents(Unsplit(elems));
    SplitOfUnsplit(elems);
  }

  /** Joining a further element onto an already joined path pushes its components. */
  lemma JoinOnto(a: string, b: string)
    requires a != ""
    ensures Rooted(Join([a, b])) == Rooted(a)
    ensures Components(Join([a, b])) == PushAll(Rooted(a), Components(a), Split(b))
  {
    JoinComponents([a, b]);
    SplitEachPair(a, b);
    PushAllAppend(Rooted(a), [], Split(a), Split(b));
  }

  lemma {:induction false} SplitEachAppend(a: seq<string>, b: seq<string>)
    ensures SplitEach(a + b) == SplitEach(a) + SplitEach(b)
  {
    if a == [] {
      assert a + b == b;
    } else {
      assert (a + b)[1..] == a[1..] + b;
      SplitEachAppend(a[1..], b);
    }
  }

  lemma {:induction false} SplitEachNoSlash(cs: seq<string>)
    ensures forall i :: 0 <= i < |SplitEach(cs)| ==> '/' !in SplitEach(cs)[i]
  {
    if cs != [] {
      SplitNoSlash(cs[0]);
      SplitEachNoSlash(cs[1..]);
    }
  }

  lemma SplitEachPair(a: string, b: string)
    ensures SplitEach([a, b]) == Split(a) + Split(b)
  {
    assert [a, b][1..] == [b] && [b][1..] == [];
    assert SplitEach([b]) == Split(b) + [];
  }

  /** Joining in one step or in two gives the same text. */
  lemma JoinNested(a: string, b: string, c: string)
    requires a != ""
    ensures Join([Join([a, b]), c]) == Join([a, b, c])
  {
    var ab, abc := Join([a, b]), Unsplit([a, b, c]);
    JoinOnto(a, b);
    assert ab != "" by { CleanNonEmpty(Unsplit([a, b])); }
    JoinOnto(ab, c);
    SplitEachPair(b, c);
    assert [a, b, c][1..] == [b, c];
    JoinComponents([a, b, c]);
    PushAllAppend(Rooted(a), [], Split(a), Split(b) + Split(c));
    PushAllAppend(Rooted(a), Components(a), Split(b), Split(c));
    UnsplitRooted([a, b, c]);
    UnsplitRooted([ab, c]);
    CleanCanonical(Unsplit([ab, c]), abc);
    CleanComponents(Unsplit([ab, c]));
    CleanComponents(abc);
  }

  lemma CleanNonEmpty(p: string)
    ensures Clean(p) != ""
  {
    ComponentsNormal(p);
    if Components(p) != [] { UnsplitRooted(Components(p)); }
  }

  // ---------- paths that do not climb out ----------

  /** Read on its own, the list never climbs above where it starts. */
  predicate StaysBelow(cs: seq<string>)
  {
    var kept := PushAll(false, [], cs);
    kept == [] || kept[0] != ".."
  }

  lemma {:induction false} ClimbPersists(kept: seq<string>, cs: seq<string>)
    requires Normal(false, kept) && kept != [] && kept[0] == ".."
    requires forall i :: 0 <= i < |cs| ==> '/' !in cs[i]
    ensures PushAll(false, kept, cs) != [] && PushAll(false, kept, cs)[0] == ".."
    decreases cs
  {
    if cs != [] {
      PushNormal(false, kept, cs[0]);
      ClimbPersists(Push(false, kept, cs[0]), cs[1..]);
    }
  }

  /** A list that does not climb out lands below whatever directory it is pushed onto. */
  lemma {:induction false} PushBelow(rooted: bool, base: seq<string>, kept: seq<string>, cs: seq<string>)
    requires Normal(false, kept) && (kept == [] || kept[0] != "..")
    requires forall i :: 0 <= i < |cs| ==> '/' !in cs[i]
    requires var end := PushAll(false, kept, cs); end == [] || end[0] != ".."
    ensures PushAll(rooted, base + kept, cs) == base + PushAll(false, kept, cs)
    decreases cs
  {
    if cs != [] {
      var c := cs[0];
      var next := Push(false, kept, c);
      PushNormal(false, kept, c);
      if kept == [] && c == ".." {
        assert next == [".."];
        ClimbPersists(next, cs[1..]);
        assert false;
      }
      assert forall i :: 0 <= i < |kept| ==> kept[i] != "..";
      if kept != [] {
        assert Last(base + kept) == Last(kept);
        assert (base + kept)[..|base + kept| - 1] == base + kept[..|kept| - 1];
      }
      assert Push(rooted, base + kept, c) == base + next;
      PushBelow(rooted, base, next, cs[1..]);
    }
  }

  lemma LandsBelow(rooted: bool, base: seq<string>, cs: seq<string>)
    requires StaysBelow(cs)
    requires forall i :: 0 <= i < |cs| ==> '/' !in cs[i]
    ensures PushAll(rooted, base, cs) == base + PushAll(false, [], cs)
  {
    assert base + [] == base;
    PushBelow(rooted, base, [], cs);
  }

  // ---------- the directory of a path ----------

  /** What a path amounts to below a directory it does not climb out of. */
  function Inside(p: string): seq<string>
  {
    PushAll(false, [], Split(p))
  }

  lemma {:induction false} UpToSlashShape(p: string)
    ensures var u := UpToSlash(p); u <= p && '/' !in p[|u|..] && (u == "" || u[|u| - 1] == '/')
  {
    if p != "" && p[|p| - 1] != '/' {
      var front := p[..|p| - 1];
      UpToSlashShape(front);
      assert p[|UpToSlash(p)|..] == front[|UpToSlash(p)|..] + [p[|p| - 1]];
    }
  }

  /** The last element of a path, pushed onto what is before it. */
  lemma LastElement(p: string) returns (last: string)
    ensures '/' !in last && p == UpToSlash(p) + last && Inside(p) == Push(false, Inside(UpToSlash(p)), last)
  {
    var u := UpToSlash(p);
    UpToSlashShape(p);
    last := p[|u|..];
    LastPushed(p, u, last);
  }

  lemma LastPushed(p: string, u: string, last: string)
    requires p == u + last && '/' !in last && (u == "" || u[|u| - 1] == '/')
    ensures Inside(p) == Push(false, Inside(u), last)
  {
    SplitPlain(last);
    if u == "" {
      assert last == p;
      PushOne([], p);
      PushOne([], "");
    } else {
      var v := u[..|u| - 1];
      assert u == v + "/" + "" && p == v + "/" + last;
      SlashPushed(v, last);
    }
  }

  lemma SlashPushed(v: string, last: string)
    requires '/' !in last
    ensures Inside(v + "/" + last) == Push(false, Inside(v + "/" + ""), last)
  {
    SplitPlain(last);
    SplitConcat(v, "");
    SplitConcat(v, last);
    PushAllAppend(false, [], Split(v), [""]);
    PushAllAppend(false, [], Split(v), [last]);
    PushOne(Inside(v), "");
    PushOne(Inside(v), last);
  }

  lemma PushOne(kept: seq<string>, c: string)
    ensures PushAll(false, kept, [c]) == Push(false, kept, c)
  {
    assert [c][1..] == [];
  }

  lemma PlainInside(p: string)
    requires StaysBelow(Split(p))
    ensures forall i :: 0 <= i < |Inside(p)| ==> PlainComponent(Inside(p)[i])
    ensures Components(p) == Inside(p)
  {
    SplitNoSlash(p);
    PushAllNormal(false, [], Split(p));
    LandsBelow(Rooted(p), [], Split(p));
    assert [] + Inside(p) == Inside(p);
  }

  /** Cleaning does not change where a path leads. */
  lemma CleanInside(p: string)
    requires StaysBelow(Split(p))
    ensures Inside(Clean(p)) == Inside(p) && StaysBelow(Split(Clean(p)))
  {
    var cs := Inside(p);
    PlainInside(p);
    RenderInside(Rooted(p), cs);
  }

  lemma RenderInside(rooted: bool, cs: seq<string>)
    requires forall i :: 0 <= i < |cs| ==> PlainComponent(cs[i])
    ensures Inside(Render(rooted, cs)) == cs && StaysBelow(Split(Render(rooted, cs)))
  {
    if cs == [] {
      assert Unsplit(cs) == "";
      RootInside();
    } else {
      SplitUnsplit(cs);
      assert [] + cs == cs;
      PushAllIdentity(false, [], cs);
      if rooted { LeadingSlash(Unsplit(cs)); }
    }
  }

  lemma RootInside()
    ensures Inside("/" + "") == [] && Inside(".") == []
  {
    LeadingSlash("");
    PushOne([], "");
    SplitPlain(".");
    PushOne([], ".");
  }

  lemma LeadingSlash(p: string)
    ensures Split("/" + p) == [""] + Split(p) && Inside("/" + p) == Inside(p)
  {
    assert ("/" + p)[1..] == p;
    assert ([""] + Split(p))[1..] == Split(p);
  }

  /** The part of a path before its last element does not climb if the path does not. */
  lemma DirStaysBelow(p: string)
    requires StaysBelow(Split(p))
    ensures StaysBelow(Split(UpToSlash(p)))
  {
    var last := LastElement(p);
    SplitNoSlash(UpToSlash(p));
    PushAllNormal(false, [], Split(UpToSlash(p)));
  }

  /** A path joined below a directory, and its parent. */
  lemma JoinInside(root: string, p: string)
    requires root != "" && StaysBelow(Split(p))
    ensures Components(Join([root, p])) == Components(root) + Inside(p)
  {
    JoinOnto(root, p);
    SplitNoSlash(p);
    LandsBelow(Rooted(root), Components(root), Split(p));
  }

  lemma JoinDirInside(root: string, p: string)
    requires root != "" && StaysBelow(Split(p))
    ensures Components(Join([root, Dir(p)])) == Components(root) + Inside(UpToSlash(p))
  {
    DirStaysBelow(p);
    CleanInside(UpToSlash(p));
    JoinInside(root, Dir(p));
  }

  /** A name joined onto a directory. */
  lemma JoinName(dir: string, c: string)
    requires dir != "" && PlainComponent(c)
    ensures Components(Join([dir, c])) == Components(dir) + [c]
  {
    JoinOnto(dir, c);
    SplitPlain(c);
    assert [c][1..] == [];
  }

  /** The directory of clean relative text is all of it but the last name. */
  lemma DirOfNames(front: seq<string>, c: string, cs: seq<string>, text: string)
    requires cs == front + [c] && text == Unsplit(cs)
    requires PlainComponent(c) && forall i :: 0 <= i < |front| ==> PlainComponent(front[i])
    ensures Components(Dir(text)) == front
  {
    if front == [] {
      assert cs == [c];
      DirOfOne(c);
    } else {
      DirOfMore(front, c);
    }
  }

  lemma DirOfOne(c: string)
    requires PlainComponent(c)
    ensures Components(Dir(c)) == []
  {
    NoSlash("", c);
    assert "" + c == c;
    CleanComponents("");
    SplitPlain("");
    PushOne([], "");
  }

  lemma DirOfMore(front: seq<string>, c: string)
    requires front != [] && PlainComponent(c) && forall i :: 0 <= i < |front| ==> PlainComponent(front[i])
    ensures Components(Dir(Unsplit(front + [c]))) == front
  {
    var u := Unsplit(front) + "/";
    UnsplitAppend(front, [c]);
    assert Unsplit([c]) == c;
    assert Unsplit(front + [c]) == u + c;
    NoSlash(u, c);
    FrontComponents(front);
    CleanComponents(u);
  }

  lemma FrontComponents(cs: seq<string>)
    requires cs != [] && forall i :: 0 <= i < |cs| ==> PlainComponent(cs[i])
    ensures Components(Unsplit(cs) + "/") == cs
  {
    UnsplitRooted(cs);
    SlashPieces(cs, Unsplit(cs));
    PushFront(cs);
  }

  lemma SlashPieces(cs: seq<string>, t: string)
    requires cs != [] && t == Unsplit(cs) && forall i :: 0 <= i < |cs| ==> '/' !in cs[i]
    ensures Split(t + "/") == cs + [""]
  {
    assert t + "/" == t + "/" + "";
    SplitUnsplit(cs);
    SplitConcat(t, "");
    SplitPlain("");
  }

  lemma PushFront(cs: seq<string>)
    requires forall i :: 0 <= i < |cs| ==> PlainComponent(cs[i])
    ensures PushAll(false, [], cs + [""]) == cs
  {
    assert [] + cs == cs;
    PushAllIdentity(false, [], cs);
    PushAllAppend(false, [], cs, [""]);
    PushOne(cs, "");
  }

  /** A name by itself, with and without a slash in front. */
  lemma NameInside(c: string)
    requires PlainComponent(c)
    ensures Inside(c) == [c] && Inside("/" + c) == [c]
    ensures StaysBelow(Split(c)) && StaysBelow(Split("/" + c))
    ensures UpToSlash(c) == "" && UpToSlash("/" + c) == "/" && Inside("") == [] && Inside("/") == []
  {
    SplitPlain(c);
    PushOne([], c);
    LeadingSlash(c);
    NoSlash("", c);
    NoSlash("/", c);
    assert "" + c == c;
    SplitPlain("");
    PushOne([], "");
    RootInside();
    assert "/" + "" == "/";
  }

  lemma {:induction false} NoSlash(u: string, c: string)
    requires '/' !in c && (u == "" || u[|u| - 1] == '/')
    ensures UpToSlash(u + c) == u
  {
    if c == "" {
      assert u + c == u;
    } else {
      var p := u + c;
      assert p[..|p| - 1] == u + c[..|c| - 1] && p[|p| - 1] == c[|c| - 1];
      NoSlash(u, c[..|c| - 1]);
    }
  }

  /** Two names, one below the other. */
  lemma NestedInside(a: string, b: string)
    requires PlainComponent(a) && PlainComponent(b)
    ensures var p := "/" + a + "/" + b;
      Inside(p) == [a, b] && StaysBelow(Split(p)) && UpToSlash(p) == "/" + a + "/" && Inside(UpToSlash(p)) == [a]
  {
    var p, u := "/" + a + "/" + b, "/" + a + "/";
    assert p == "/" + (a + "/" + b) && p == u + b && u == "/" + (a + "/" + "");
    LeadingSlash(a + "/" + b);
    LeadingSlash(a + "/" + "");
    SplitConcat(a, b);
    SplitConcat(a, "");
    SplitPlain(a);
    SplitPlain(b);
    NoSlash(u, b);
    PushAllAppend(false, [], [a], [b]);
    PushAllAppend(false, [], [a], [""]);
    PushOne([], a);
    PushOne([a], b);
    PushOne([a], "");
  }

  // ---------- the lexical checks ----------

  /** `pathHasPrefix`. */
  predicate PathHasPrefix(s: string, prefix: string)
  {
    || s == prefix
    || Clean(s) == Clean(prefix)
    || Clean(prefix) + "/" <= Clean(s)
  }

  /** `isRoot`. */
  predicate IsRoot(extract: string)
  {
    extract == "" || extract == "/" || extract == "."
  }

  /** Clean text that continues another clean text past a slash has more components. */
  lemma UnsplitPrefix(a: seq<string>, b: seq<string>)
    requires a != [] && b != []
    requires forall i :: 0 <= i < |a| ==> '/' !in a[i]
    requires forall i :: 0 <= i < |b| ==> '/' !in b[i]
    ensures Unsplit(a) + "/" <= Unsplit(b) <==> a < b
  {
    var x, y := Unsplit(a), Unsplit(b);
    SplitUnsplit(a);
    SplitUnsplit(b);
    if x + "/" <= y {
      var rest := y[|x| + 1..];
      assert y == x + "/" + rest;
      SplitConcat(x, rest);
      assert b == a + Split(rest);
    }
    if a < b {
      UnsplitAppend(a, b[|a|..]);
      assert b == a + b[|a|..];
    }
  }

  lemma {:induction false} UnsplitAppend(a: seq<string>, b: seq<string>)
    requires a != [] && b != []
    ensures Unsplit(a + b) == Unsplit(a) + "/" + Unsplit(b)
  {
    if |a| == 1 {
      assert (a + b)[1..] == b;
    } else {
      assert (a + b)[1..] == a[1..] + b;
      UnsplitAppend(a[1..], b);
    }
  }

  /** `pathHasPrefix` decides lexical descent: same start, and the components of `prefix`
      begin those of `s`. The one exception is a prefix that cleans to the root or to the
      current directory, which is found to contain only itself. */
  lemma PathHasPrefixIsDescent(s: string, prefix: string)
    ensures PathHasPrefix(s, prefix) <==>
            && Rooted(s) == Rooted(prefix)
            && Components(prefix) <= Components(s)
            && (Components(prefix) == [] ==> Components(s) == [])
  {
    CleanCanonical(s, prefix);
    CleanComponents(s);
    CleanComponents(prefix);
    ComponentsNormal(s);
    ComponentsNormal(prefix);
    if Rooted(s) == Rooted(prefix) {
      RenderPrefix(Rooted(s), Components(prefix), Components(s));
    } else {
      CleanNonEmpty(prefix);
      SameStart(Clean(prefix), Clean(s));
    }
  }

  lemma SameStart(x: string, y: string)
    requires x != ""
    ensures x + "/" <= y ==> Rooted(x) == Rooted(y)
  {}

  /** Of two clean texts with the same start, one continues the other past a slash exactly
      when its components continue the other's, which must not be none. */
  lemma RenderPrefix(rooted: bool, a: seq<string>, b: seq<string>)
    requires Normal(rooted, a) && Normal(rooted, b)
    ensures Render(rooted, a) + "/" <= Render(rooted, b) <==> a != [] && a < b
  {
    var x, y := Render(rooted, a), Render(rooted, b);
    if a == [] {
      DotNotPrefix(rooted, b);
    } else if b == [] {
      UnsplitRooted(a);
      assert |y| == 1 && |x| >= 1;
    } else {
      UnsplitPrefix(a, b);
      if rooted {
        assert x + "/" == "/" + (Unsplit(a) + "/") && y == "/" + Unsplit(b);
        assert x + "/" <= y <==> Unsplit(a) + "/" <= Unsplit(b) by {
          if x + "/" <= y { assert y[1..][..|x|] == Unsplit(a) + "/"; }
        }
      }
    }
  }

  lemma DotNotPrefix(rooted: bool, b: seq<string>)
    requires Normal(rooted, b)
    ensures !(Render(rooted, []) + "/" <= Render(rooted, b))
  {
    var x, y := Render(rooted, []) + "/", Render(rooted, b);
    assert Unsplit([]) == "";
    if b != [] {
      assert PlainComponent(b[0]) || b[0] == "..";
      UnsplitRooted(b);
      if rooted {
        assert y[1..] == Unsplit(b);
      } else if |b[0]| >= 2 {
        assert y[1] == b[0][1];
      } else {
        assert y[0] == b[0][0];
      }
    }
  }

  // ---------- where a path is mounted ----------

  /** Where a path lies when it is taken from the root, as a mount destination is. */
  function Place(p: string): seq<string>
  {
    Components("/" + p)
  }

  /** The components without the leading `..`s. */
  function Stripped(cs: seq<string>): seq<string>
  {
    if cs != [] && cs[0] == ".." then Stripped(cs[1..]) else cs
  }

  /** How far a path climbs at its start. */
  function Climbs(cs: seq<string>): nat
  {
    if cs != [] && cs[0] == ".." then 1 + Climbs(cs[1..]) else 0
  }

  lemma {:induction false} StrippedPush(kept: seq<string>, c: string)
    requires Normal(false, kept)
    ensures Push(true, Stripped(kept), c) == Stripped(Push(false, kept, c))
  {
    if kept != [] && kept[0] == ".." {
      var rest := kept[1..];
      assert Normal(false, rest);
      StrippedPush(rest, c);
      StrippedTail(kept, c);
    } else if kept != [] {
      assert forall i :: 0 <= i < |kept| ==> kept[i] != "..";
    }
  }

  lemma StrippedTail(kept: seq<string>, c: string)
    requires Normal(false, kept) && kept != [] && kept[0] == ".."
    ensures Stripped(Push(false, kept, c)) == Stripped(Push(false, kept[1..], c))
  {
    var next := Push(false, kept, c);
    if |kept| == 1 {
      assert kept == [".."] && kept[1..] == [];
      if c == ".." { assert next == ["..", ".."] && next[1..] == [".."] && [".."][1..] == []; }
      else if c != "" && c != "." { assert next[1..] == [c]; }
    } else {
      assert Last(kept[1..]) == Last(kept);
      assert next[1..] == Push(false, kept[1..], c);
    }
  }

  lemma {:induction false} StrippedPushAll(kept: seq<string>, cs: seq<string>)
    requires Normal(false, kept) && forall i :: 0 <= i < |cs| ==> '/' !in cs[i]
    ensures PushAll(true, Stripped(kept), cs) == Stripped(PushAll(false, kept, cs))
    decreases cs
  {
    if cs != [] {
      StrippedPush(kept, cs[0]);
      PushNormal(false, kept, cs[0]);
      StrippedPushAll(Push(false, kept, cs[0]), cs[1..]);
    }
  }

  /** A path is taken from the root without its climbing. */
  lemma PlaceIsStripped(p: string)
    ensures Place(p) == Stripped(Components(p))
  {
    LeadingPieces(p);
    if Rooted(p) {
      ComponentsNormal(p);
    } else {
      SplitNoSlash(p);
      StrippedPushAll([], Split(p));
    }
  }

  lemma LeadingPieces(p: string)
    ensures Components("/" + p) == PushAll(true, [], Split(p))
  {
    LeadingSlash(p);
    assert ([""] + Split(p))[1..] == Split(p);
  }

  /** One list of components begins another: when something is left of it after its climbing,
      both climb equally far and what is left begins what is left. */
  lemma {:induction false} PrefixStripped(a: seq<string>, b: seq<string>)
    requires Normal(false, a) && Normal(false, b)
    ensures a <= b <==>
      if Stripped(a) == [] then Climbs(a) <= Climbs(b)
      else Climbs(a) == Climbs(b) && Stripped(a) <= Stripped(b)
  {
    if a != [] && a[0] == ".." && b != [] && b[0] == ".." {
      assert Normal(false, a[1..]) && Normal(false, b[1..]);
      PrefixStripped(a[1..], b[1..]);
      assert a <= b <==> a[1..] <= b[1..];
    } else if a != [] && a[0] != ".." {
      assert Stripped(a) == a;
      if a <= b { assert b[0] == a[0]; }
    }
  }

  /** `pathHasPrefix` for every two paths, by where they lie when taken from the root: it sees
      a path below another only if both are written absolute or both relative, and climb
      equally far. */
  lemma PathHasPrefixByPlace(s: string, prefix: string)
    ensures Place(prefix) != [] ==>
      (PathHasPrefix(s, prefix) <==> SameStartOf(s, prefix) && Place(prefix) <= Place(s))
  {
    PathHasPrefixIsDescent(s, prefix);
    PlaceIsStripped(s);
    PlaceIsStripped(prefix);
    NormalComponents(s);
    NormalComponents(prefix);
    PrefixStripped(Components(prefix), Components(s));
  }

  /** Written absolute, a path below another is always seen as such. */
  lemma AbsoluteHasPrefix(s: string, prefix: string)
    requires Place(prefix) != []
    ensures PathHasPrefix("/" + s, "/" + prefix) <==> Place(prefix) <= Place(s)
  {
    AbsolutePlace(s);
    AbsolutePlace(prefix);
    PathHasPrefixByPlace("/" + s, "/" + prefix);
  }

  lemma AbsolutePlace(p: string)
    ensures Place("/" + p) == Place(p) && Climbs(Components("/" + p)) == 0
  {
    PlaceIsStripped("/" + p);
    ComponentsNormal("/" + p);
    assert Stripped(Place(p)) == Place(p);
  }

  lemma NormalComponents(p: string)
    ensures Normal(false, Components(p))
  {
    ComponentsNormal(p);
  }

  /** Both paths start at the root, or both climb equally far from where they are. */
  predicate SameStartOf(s: string, prefix: string)
  {
    Rooted(s) == Rooted(prefix) && Climbs(Components(s)) == Climbs(Components(prefix))
  }
}
