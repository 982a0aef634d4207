/**
 What the documentation of Go's path packages promises of Clean, Dir and Base, stated of text
 and not of components, and what it means for the name a file is installed under.
 */
module PathLaws {
  import opened Paths
  import Text

  // ---------- Clean ----------

  /** Text between two others, cut at the slashes around it. */
  lemma AroundSlashes(a: string, m: string, b: string)
    ensures Split(a + "/" + m + "/" + b) == Split(a) + Split(m) + Split(b)
    ensures Rooted(a + "/" + m + "/" + b) == Rooted(a + "/" + b)
  {
    assert a + "/" + m + "/" + b == a + "/" + (m + "/" + b);
    SplitConcat(m, b);
    SplitConcat(a, m + "/" + b);
    if a != "" { assert (a + "/" + b)[0] == a[0] == (a + "/" + m + "/" + b)[0]; }
  }

  /** The pieces change nothing in the components kept so far. */
  ghost predicate NoChange(rooted: bool, m: seq<string>)
  {
    forall kept :: PushAll(rooted, kept, m) == kept
  }

  lemma PushWithout(rooted: bool, a: seq<string>, m: seq<string>, b: seq<string>)
    requires NoChange(rooted, m)
    ensures PushAll(rooted, [], a + m + b) == PushAll(rooted, [], a + b)
  {
    PushAllAppend(rooted, [], a + m, b);
    PushAllAppend(rooted, [], a, m);
    PushAllAppend(rooted, [], a, b);
  }

  /** What changes nothing can be left out of a path. */
  lemma LeftOut(a: string, m: string, b: string)
    requires NoChange(Rooted(a + "/" + b), Split(m))
    ensures Clean(a + "/" + m + "/" + b) == Clean(a + "/" + b)
  {
    AroundSlashes(a, m, b);
    SplitConcat(a, b);
    PushWithout(Rooted(a + "/" + b), Split(a), Split(m), Split(b));
  }

  /** Rules 1 and 2: several slashes are one, and a `.` element goes. */
  lemma SlashesAndDots(a: string, b: string)
    ensures Clean(a + "//" + b) == Clean(a + "/./" + b) == Clean(a + "/" + b)
  {
    assert a + "//" + b == a + "/" + "" + "/" + b;
    assert a + "/./" + b == a + "/" + "." + "/" + b;
    SplitPlain("");
    SplitPlain(".");
    assert [""][1..] == [] && ["."][1..] == [];
    LeftOut(a, "", b);
    LeftOut(a, ".", b);
  }

  lemma InAndOut(rooted: bool, c: string)
    requires PlainComponent(c)
    ensures NoChange(rooted, [c, ".."])
  {
    assert [c, ".."][1..] == [".."] && [".."][1..] == [];
    forall kept ensures PushAll(rooted, kept, [c, ".."]) == kept {
      assert Push(rooted, kept, c) == kept + [c] && Push(rooted, kept + [c], "..") == kept;
      assert PushAll(rooted, kept + [c], [".."]) == PushAll(rooted, kept, []);
    }
  }

  /** Rule 3: a `..` element goes along with the name before it. */
  lemma ParentGoesAlong(a: string, c: string, b: string)
    requires PlainComponent(c)
    ensures Clean(a + "/" + c + "/../" + b) == Clean(a + "/" + b)
  {
    var m := c + "/" + "..";
    assert a + "/" + c + "/../" + b == a + "/" + m + "/" + b;
    SplitConcat(c, "..");
    SplitPlain(c);
    SplitPlain("..");
    assert Split(m) == [c, ".."];
    InAndOut(Rooted(a + "/" + b), c);
    LeftOut(a, m, b);
  }

  /** Rule 4: a `..` element at the start of an absolute path goes. */
  lemma NothingAboveRoot(b: string)
    ensures Clean("/../" + b) == Clean("/" + b)
  {
    assert "/../" + b == "/" + (".." + "/" + b) && Rooted("/../" + b);
    SplitConcat("..", b);
    SplitPlain("..");
    LeadingPieces(".." + "/" + b);
    LeadingPieces(b);
    assert [".."] + Split(b) == Split(".." + "/" + b) && ([".."] + Split(b))[1..] == Split(b);
  }

  /** None of the rules applies to names after leading `..` elements, which are left alone. */
  lemma NamesAreClean(cs: seq<string>, rooted: bool)
    requires Normal(rooted, cs) && cs != []
    ensures Clean((if rooted then "/" else "") + Unsplit(cs)) == (if rooted then "/" else "") + Unsplit(cs)
  {
    RenderComponents(rooted, cs);
    if !rooted { assert "" + Unsplit(cs) == Unsplit(cs); }
  }

  lemma NothingIsDot()
    ensures Clean("") == "." && Clean("/") == "/" && Clean(".") == "."
  {
    SplitPlain("");
    SplitPlain(".");
    assert [""][1..] == [] && ["."][1..] == [];
    assert "/" + "" == "/";
    LeadingPieces("");
  }

  // ---------- Dir ----------

  /** All but the last element, cleaned. */
  lemma DirDropsLast(u: string, c: string)
    requires (u == "" || u[|u| - 1] == '/') && '/' !in c
    ensures Dir(u + c) == Clean(u)
  {
    UpToLast(u, c);
  }

  lemma {:induction false} UpToLast(u: string, c: string)
    requires (u == "" || u[|u| - 1] == '/') && '/' !in c
    ensures UpToSlash(u + c) == u
  {
    if c == "" {
      assert u + c == u;
    } else {
      assert (u + c)[..|u + c| - 1] == u + c[..|c| - 1];
      UpToLast(u, c[..|c| - 1]);
    }
  }

  // ---------- Base ----------

  ghost predicate OnlySlashes(z: string)
  {
    forall i :: 0 <= i < |z| ==> z[i] == '/'
  }

  lemma {:induction false} SlashPieces(z: string)
    requires OnlySlashes(z)
    ensures Text.NonEmpty(Split(z)) == []
    ensures forall i :: 0 <= i < |Split(z)| ==> Split(z)[i] == ""
  {
    if z != "" { SlashPieces(z[1..]); }
    NoneLeft(Split(z));
  }

  lemma {:induction false} NoneLeft(ss: seq<string>)
    requires forall i :: 0 <= i < |ss| ==> ss[i] == ""
    ensures Text.NonEmpty(ss) == []
  {
    if ss != [] { NoneLeft(ss[..|ss| - 1]); }
  }

  lemma {:induction false} NonEmptyAppend(a: seq<string>, b: seq<string>)
    ensures Text.NonEmpty(a + b) == Text.NonEmpty(a) + Text.NonEmpty(b)
  {
    if b == [] {
      assert a + b == a;
    } else {
      assert (a + b)[..|a + b| - 1] == a + b[..|b| - 1];
      NonEmptyAppend(a, b[..|b| - 1]);
    }
  }

  /** The last element with slashes after it. */
  lemma LastPieces(c: string, z: string)
    requires c != "" && '/' !in c && OnlySlashes(z)
    ensures Text.NonEmpty(Split(c + z)) == [c]
  {
    SplitPlain(c);
    OneLeft(c);
    if z == "" {
      assert c + z == c;
    } else {
      var rest := z[1..];
      assert c + z == c + "/" + rest;
      SplitConcat(c, rest);
      SlashPieces(rest);
      NonEmptyAppend([c], Split(rest));
    }
  }

  lemma OneLeft(c: string)
    requires c != ""
    ensures Text.NonEmpty([c]) == [c]
  {
    assert [c][..0] == [];
  }

  /** `filepath.Base`: the last element, whatever comes before it and however many slashes
      come after it. */
  lemma BaseIsLast(u: string, c: string, z: string)
    requires (u == "" || u[|u| - 1] == '/') && c != "" && '/' !in c && OnlySlashes(z)
    ensures Base(u + c + z) == c
  {
    LastPieces(c, z);
    if u == "" {
      assert u + c + z == c + z;
    } else {
      var v := u[..|u| - 1];
      assert u + c + z == v + "/" + (c + z);
      SplitConcat(v, c + z);
      NonEmptyAppend(Split(v), Split(c + z));
    }
  }

  /** Nothing but slashes has the root for its last element, and no text the current
      directory; every other text has an element. */
  lemma BaseOtherwise(p: string)
    ensures Base("") == "."
    ensures p != "" && OnlySlashes(p) ==> Base(p) == "/"
  {
    if p != "" && OnlySlashes(p) { SlashPieces(p); }
  }

  lemma {:induction false} HasElement(p: string) returns (u: string, c: string, z: string)
    requires !OnlySlashes(p)
    ensures p == u + c + z && (u == "" || u[|u| - 1] == '/') && c != "" && '/' !in c && OnlySlashes(z)
  {
    var last := p[|p| - 1];
    var front := p[..|p| - 1];
    assert p == front + [last];
    if last == '/' {
      assert !OnlySlashes(front);
      u, c, z := HasElement(front);
      z := z + "/";
    } else {
      UpToSlashShape(p);
      u := UpToSlash(p);
      c, z := p[|u|..], "";
    }
  }

  // ---------- names of installed files ----------

  /** A file is installed under the name it is given, or else under the last element of its
      key. */
  lemma NameIsGivenOrLast(name: string, u: string, c: string, z: string)
    requires (u == "" || u[|u| - 1] == '/') && c != "" && '/' !in c && OnlySlashes(z)
    ensures ResolveName("", u + c + z) == c
    ensures name != "" ==> ResolveName(name, u + c + z) == name
  {
    BaseIsLast(u, c, z);
  }
}
