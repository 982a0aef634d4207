/**
 Package dependencies, printed for Debian control files and for RPM spec files. The two
 printers work on the same list of free-form version constraints. Here their text is read
 back the way the two package managers read it, and denotes the same requirements.
 */
module Constraints {
  import opened Values
  import opened Text

  datatype PackageConstraints = PackageConstraints(version: seq<string>, arch: seq<string>)

  type DependencyList = map<string, PackageConstraints>

  predicate Digit(c: char) { '0' <= c <= '9' }

  // ---------- the formatters ----------

  /** The operator the Debian printer writes for this one. */
  function DebOp(op: string): string
  {
    if op == "<" then "<<" else if op == ">" then ">>" else if op == "==" then "=" else op
  }

  /** The operator the RPM printer writes for this one. */
  function RpmOp(op: string): string
  {
    if op == "<<" then "<" else if op == ">>" then ">" else if op == "=" then "==" else op
  }

  /** `formatVersionConstraint` of the deb package. */
  function FormatDeb(v: string): string
  {
    match Cut(v, ' ')
    case Whole => if v != "" && Digit(v[0]) then "=" + " " + v else v
    case Parts(op, ver) => DebOp(op) + " " + ver
  }

  /** `FormatVersionConstraint` of the rpm package. */
  function FormatRpm(v: string): string
  {
    match Cut(v, ' ')
    case Whole => if v != "" && Digit(v[0]) then "==" + " " + v else v
    case Parts(op, ver) => RpmOp(op) + " " + ver
  }

  // ---------- how the package managers read a constraint ----------

  datatype Relation = LT | LE | EQ | GE | GT

  datatype Bound = Bound(rel: Relation, version: string)

  /** Section 7.1 of the Debian Policy Manual; the single signs are the deprecated spelling
      of the inclusive relations. */
  function DebRelation(op: string): Option<Relation>
  {
    if op == "<<" then Some(LT) else if op == "<=" || op == "<" then Some(LE) else if op == "=" then Some(EQ)
    else if op == ">=" || op == ">" then Some(GE) else if op == ">>" then Some(GT) else None
  }

  function RpmRelation(op: string): Option<Relation>
  {
    if op == "<" then Some(LT) else if op == "<=" then Some(LE) else if op == "=" || op == "==" then Some(EQ)
    else if op == ">=" then Some(GE) else if op == ">" then Some(GT) else None
  }

  predicate OpChar(c: char) { c == '<' || c == '=' || c == '>' }

  function OpPrefix(s: string): (r: string)
    ensures r <= s
  {
    if s != "" && OpChar(s[0]) then [s[0]] + OpPrefix(s[1..]) else ""
  }

  /** Between the parentheses of a Debian relation: an operator, optional spaces, a version. */
  function ReadDebBound(s: string): Option<Bound>
  {
    var op := OpPrefix(s);
    var ver := TrimLeft(s[|op|..]);
    if DebRelation(op).Some? && ver != "" then Some(Bound(DebRelation(op).value, ver)) else None
  }

  /** After the name in an RPM dependency: an operator and a version, as separate words. */
  function ReadRpmBound(s: string): Option<Bound>
  {
    match Cut(s, ' ')
    case Parts(op, ver) => if RpmRelation(op).Some? && ver != "" then Some(Bound(RpmRelation(op).value, ver)) else None
    case Whole => None
  }

  // ---------- constraints one by one ----------

  predicate WordChar(c: char)
  {
    'a' <= c <= 'z' || 'A' <= c <= 'Z' || Digit(c)
  }

  predicate VersionChar(c: char)
  {
    WordChar(c) || c == '.' || c == '+' || c == '-' || c == '~' || c == '^' || c == '_' || c == ':'
  }

  /** A version in the characters that both package managers have in theirs. */
  predicate GoodVersion(v: string)
  {
    v != "" && forall c :: c in v ==> VersionChar(c)
  }

  /** A version the readers take as one word. */
  predicate PlainVersion(v: string)
  {
    v != "" && !OpChar(v[0]) && ' ' !in v && ',' !in v && ')' !in v && '[' !in v
  }

  lemma VersionIsPlain(v: string)
    requires GoodVersion(v)
    ensures PlainVersion(v)
  {
    assert v[0] in v;
  }

  const Operators: set<string> := {"<<", "<", "<=", "=", "==", ">=", ">", ">>"}

  /** What an operator is meant to say, whichever package manager it was borrowed from. */
  function MeaningOf(op: string): Relation
  {
    if op == "<<" || op == "<" then LT else if op == "<=" then LE
    else if op == "=" || op == "==" then EQ else if op == ">=" then GE else GT
  }

  /** The shapes a constraint is written in: a version, an operator and a version with a
      space between them, or without one. */
  datatype Written = Bare(ver: string) | Spaced(op: string, ver: string) | Tight(op: string, ver: string)
  {
    predicate Good()
    {
      GoodVersion(ver) && (if Bare? then Digit(ver[0]) else op in Operators)
    }

    function Text(): string
    {
      match this
      case Bare(ver) => ver
      case Spaced(op, ver) => op + " " + ver
      case Tight(op, ver) => op + ver
    }

    /** What the spec's author means. */
    function Meaning(): Bound
    {
      Bound(if Bare? then EQ else MeaningOf(op), ver)
    }
  }

  lemma {:induction false} OpPrefixOf(op: string, rest: string)
    requires (forall i :: 0 <= i < |op| ==> OpChar(op[i])) && (rest != "" ==> !OpChar(rest[0]))
    ensures OpPrefix(op + rest) == op
  {
    if op == "" {
      assert op + rest == rest;
    } else {
      assert (op + rest)[1..] == op[1..] + rest;
      OpPrefixOf(op[1..], rest);
    }
  }

  lemma DebSpaced(op: string, ver: string)
    requires PlainVersion(ver) && DebRelation(op).Some?
    ensures ReadDebBound(op + " " + ver) == Some(Bound(DebRelation(op).value, ver))
    ensures ReadDebBound(op + ver) == Some(Bound(DebRelation(op).value, ver))
  {
    assert op + " " + ver == op + (" " + ver);
    OpPrefixOf(op, " " + ver);
    assert ver[0] != ' ' && TrimLeft(ver) == ver;
    assert TrimLeft(" " + ver) == TrimLeft((" " + ver)[1..]);
    assert (op + (" " + ver))[|op|..] == " " + ver;
    assert (" " + ver)[1..] == ver;
    OpPrefixOf(op, ver);
    assert (op + ver)[|op|..] == ver;
  }

  lemma RpmSpaced(op: string, ver: string)
    requires PlainVersion(ver) && RpmRelation(op).Some?
    ensures ReadRpmBound(op + " " + ver) == Some(Bound(RpmRelation(op).value, ver))
  {
    CutAt(op, ' ', ver);
  }

  lemma CutSpaced(op: string, ver: string)
    requires op in Operators
    ensures Cut(op + " " + ver, ' ') == Parts(op, ver)
  {
    CutAt(op, ' ', ver);
  }

  /** A constraint written with its space, or as a version alone, is printed so that both
      package managers read what was meant. */
  lemma WrittenIsRead(w: Written)
    requires w.Good() && !w.Tight?
    ensures ReadDebBound(FormatDeb(w.Text())) == Some(w.Meaning())
    ensures ReadRpmBound(FormatRpm(w.Text())) == Some(w.Meaning())
  {
    VersionIsPlain(w.ver);
    if w.Bare? {
      BareIsRead(w.ver);
    } else {
      SpacedForDeb(w.op, w.ver);
      SpacedForRpm(w.op, w.ver);
    }
  }

  lemma BareIsRead(ver: string)
    requires PlainVersion(ver) && Digit(ver[0])
    ensures ReadDebBound(FormatDeb(ver)) == Some(Bound(EQ, ver))
    ensures ReadRpmBound(FormatRpm(ver)) == Some(Bound(EQ, ver))
  {
    DebSpaced("=", ver);
    RpmSpaced("==", ver);
  }

  lemma OpsMean(op: string)
    requires op in Operators
    ensures DebRelation(DebOp(op)) == RpmRelation(RpmOp(op)) == Some(MeaningOf(op))
  {}

  lemma SpacedForDeb(op: string, ver: string)
    requires op in Operators && PlainVersion(ver)
    ensures ReadDebBound(FormatDeb(op + " " + ver)) == Some(Spaced(op, ver).Meaning())
  {
    CutSpaced(op, ver);
    OpsMean(op);
    DebSpaced(DebOp(op), ver);
  }

  lemma SpacedForRpm(op: string, ver: string)
    requires op in Operators && PlainVersion(ver)
    ensures ReadRpmBound(FormatRpm(op + " " + ver)) == Some(Spaced(op, ver).Meaning())
  {
    CutSpaced(op, ver);
    OpsMean(op);
    RpmSpaced(RpmOp(op), ver);
  }

  /** Without the space neither printer rewrites the constraint: RPM cannot read it, while
      Debian still can, with `<` and `>` in their inclusive sense. So both read the same
      requirement exactly when the constraint is not written that way. */
  lemma BothReadExactly(w: Written)
    requires w.Good()
    ensures var deb := ReadDebBound(FormatDeb(w.Text()));
      (deb.Some? && deb == ReadRpmBound(FormatRpm(w.Text()))) <==> !w.Tight?
  {
    if w.Tight? {
      var t := w.op + w.ver;
      VersionIsPlain(w.ver);
      assert ' ' !in t;
      assert t[0] == w.op[0];
      assert FormatRpm(t) == t;
    } else {
      WrittenIsRead(w);
    }
  }

  /** The example in the documentation of the field is written that way. */
  lemma DocumentedExample()
    ensures ReadDebBound(FormatDeb("<2.0.0")) == Some(Bound(LE, "2.0.0"))
    ensures ReadRpmBound(FormatRpm("<2.0.0")) == None
  {
    assert "<" + "2.0.0" == "<2.0.0";
    DebSpaced("<", "2.0.0");
    assert "<2.0.0"[0] == '<' && ' ' !in "<2.0.0";
  }
}
