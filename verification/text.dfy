/** Cutting and joining text: `strings.Cut`, `strings.Split` and `strings.Join`. */
module Text {

  datatype CutResult = Whole | Parts(before: string, after: string)

  /** `strings.Cut(s, string(c))`: what is before and after the first `c`. */
  function Cut(s: string, c: char): (r: CutResult)
    ensures r.Parts? ==> s == r.before + [c] + r.after && c !in r.before
    ensures r.Whole? <==> c !in s
  {
    if s == "" then Whole
    else if s[0] == c then Parts("", s[1..])
    else match Cut(s[1..], c)
      case Whole => Whole
      case Parts(a, b) => Parts([s[0]] + a, b)
  }

  lemma {:induction false} CutAt(a: string, c: char, b: string)
    requires c !in a
    ensures Cut(a + [c] + b, c) == Parts(a, b)
  {
    var s := a + [c] + b;
    if a == "" {
      assert s[1..] == b;
    } else {
      assert s[1..] == a[1..] + [c] + b;
      CutAt(a[1..], c, b);
      assert [a[0]] + a[1..] == a;
    }
  }

  /** `strings.Split(s, string(c))`. */
  function Fields(s: string, c: char): (r: seq<string>)
    ensures r != []
    decreases |s|
  {
    match Cut(s, c)
    case Whole => [s]
    case Parts(a, b) => [a] + Fields(b, c)
  }

  /** `strings.Join`. */
  function Join(ss: seq<string>, sep: string): string
  {
    if ss == [] then "" else if |ss| == 1 then ss[0] else ss[0] + sep + Join(ss[1..], sep)
  }

  function NonEmpty(ss: seq<string>): seq<string>
  {
    if ss == [] then [] else NonEmpty(ss[..|ss| - 1]) + if ss[|ss| - 1] == "" then [] else [ss[|ss| - 1]]
  }

  function TrimLeft(s: string): string
  {
    if s != "" && s[0] == ' ' then TrimLeft(s[1..]) else s
  }

  /** Splitting at `c` undoes joining with `c` and a run of further text. */
  lemma {:induction false} FieldsOfJoin(ss: seq<string>, c: char, more: string)
    requires ss != [] && (forall i :: 0 <= i < |ss| ==> c !in ss[i]) && c !in more
    ensures var r := Fields(Join(ss, [c] + more), c);
      |r| == |ss| && r[0] == ss[0] && forall i :: 1 <= i < |ss| ==> r[i] == more + ss[i]
  {
    if |ss| > 1 {
      var rest := ss[1..];
      FieldsOfJoin(rest, c, more);
      FirstField(ss, c, more);
      var r, r' := Fields(Join(ss, [c] + more), c), Fields(Join(rest, [c] + more), c);
      forall i | 1 <= i < |ss| ensures r[i] == more + ss[i] {
        assert rest[i - 1] == ss[i];
      }
    } else {
      assert Cut(ss[0], c).Whole?;
    }
  }

  lemma FirstField(ss: seq<string>, c: char, more: string)
    requires |ss| > 1 && c !in ss[0] && c !in more
    ensures var r := Fields(Join(ss[1..], [c] + more), c);
      Fields(Join(ss, [c] + more), c) == [ss[0]] + ([more + r[0]] + r[1..])
  {
    var rest := Join(ss[1..], [c] + more);
    assert ss[0] + ([c] + more) + rest == ss[0] + [c] + (more + rest);
    CutAt(ss[0], c, more + rest);
    FieldsWithHead(more, rest, c);
  }

  /** Text without `c` in front only lengthens the first field. */
  lemma FieldsWithHead(head: string, s: string, c: char)
    requires c !in head
    ensures Fields(head + s, c) == [head + Fields(s, c)[0]] + Fields(s, c)[1..]
  {
    match Cut(s, c)
    case Whole =>
      assert c !in head + s;
    case Parts(a, b) =>
      assert head + s == (head + a) + [c] + b;
      CutAt(head + a, c, b);
      assert ([a] + Fields(b, c))[1..] == Fields(b, c);
  }

  lemma JoinFree(ss: seq<string>, sep: string, c: char)
    requires (forall i :: 0 <= i < |ss| ==> c !in ss[i]) && c !in sep
    ensures c !in Join(ss, sep)
  {
    if |ss| > 1 { JoinFree(ss[1..], sep, c); }
  }
}
