/**
 What the lines of a git credential payload mean, by the names of their keys, and the order
 they are printed in.
 */
module GitCredentialLaws {
  import opened Values
  import opened Text
  import opened GitCredential

  /** The keys of git's credential format that the helper knows. */
  const Table: seq<(string, Key)> :=
    [ ("protocol", Protocol), ("host", Host), ("path", Path), ("username", Username), ("password", Password),
      ("password_expiry_utc", PasswordExpiryUTC), ("oauth_refresh_token", OauthRefreshToken), ("url", Url),
      ("authtype", Authtype), ("credential", Credential), ("ephemeral", Ephemeral), ("continue", Continue),
      ("wwwauth[]", Wwwauth), ("capability[]", Capability), ("state[]", State) ]

  lemma TableNames(i: nat)
    requires i < |Table|
    ensures Name(Table[i].1) == Table[i].0 && KeyOf(Table[i].0) == Known(Table[i].1)
    ensures IsArray(Table[i].1) <==> i >= 12
  {}

  lemma OnlyTable(s: string)
    ensures KeyOf(s).Unknown? <==> forall i :: 0 <= i < |Table| ==> Table[i].0 != s
  {
    if KeyOf(s).Known? {
      var i := KeyIndex(s);
      assert Table[i].0 == s;
    } else {
      forall i | 0 <= i < |Table| ensures Table[i].0 != s { TableNames(i); }
    }
  }

  lemma KeyIndex(s: string) returns (i: nat)
    requires KeyOf(s).Known?
    ensures i < |Table| && Table[i].0 == s
  {
    i := if s == "protocol" then 0 else if s == "host" then 1 else if s == "path" then 2 else if s == "username" then 3
      else if s == "password" then 4 else if s == "password_expiry_utc" then 5 else if s == "oauth_refresh_token" then 6
      else if s == "url" then 7 else if s == "authtype" then 8 else if s == "credential" then 9
      else if s == "ephemeral" then 10 else if s == "continue" then 11 else if s == "wwwauth[]" then 12
      else if s == "capability[]" then 13 else 14;
  }

  // ---------- reading ----------

  lemma FitStays(es: seq<Entry>)
    requires forall i :: 0 <= i < |es| ==> Fit(es[i])
    ensures OneLine(es) && Chop(es) == es
    decreases |es|
  {
    if es != [] {
      assert forall i :: 0 <= i < |es[1..]| ==> es[1..][i] == es[i + 1];
      FitStays(es[1..]);
      assert Entry(es[0].key, DropCR(es[0].value)) == es[0];
      assert [es[0]] + es[1..] == es;
    }
  }

  /** Lines that fit are read as what they say: a scalar is what its last line says, an array
      has what its lines say in turn, and a key without a line is empty. */
  lemma FieldsRead(es: seq<Entry>, k: Key)
    requires forall i :: 0 <= i < |es| ==> Fit(es[i])
    ensures Read(TextOf(es)).Got?
    ensures var r := Read(TextOf(es)).payload;
      if IsArray(k) then k in r.arrays && r.arrays[k] == Lookup(es, k)
      else k in r.scalars && r.scalars[k] == LastOr(Lookup(es, k), "")
  {
    FitStays(es);
    ReadText(es, Nothing);
    StoredFields(es, k);
  }

  /** The text of a line, by the name of its key. */
  lemma LineSays(i: nat, v: string, more: seq<Entry>)
    requires i < |Table|
    ensures TextOf([Entry(Table[i].1, v)] + more) == Table[i].0 + "=" + v + "\n" + TextOf(more)
  {
    TableNames(i);
    assert ([Entry(Table[i].1, v)] + more)[1..] == more;
  }

  /** A carriage return before the newline is not part of the value. */
  lemma CarriageReturnDropped(i: nat, v: string)
    requires i < 12 && Fit(Entry(Table[i].1, v)) && |Table[i].0 + "=" + v| < MaxLine
    ensures var o := Read(Table[i].0 + "=" + v + "\r\n");
      o.Got? && Table[i].1 in o.payload.scalars && o.payload.scalars[Table[i].1] == v
  {
    var e := Entry(Table[i].1, v);
    TableNames(i);
    NamePlain(e.key);
    LineDropsCR(e, LineOf(e));
  }

  lemma LineDropsCR(e: Entry, line: string)
    requires Fit(e) && line == LineOf(e) && '\n' !in line && |line| < MaxLine && !IsArray(e.key)
    ensures var o := Read(line + "\r\n");
      o.Got? && e.key in o.payload.scalars && o.payload.scalars[e.key] == e.value
  {
    var text := line + "\r\n";
    assert text == (line + "\r") + ['\n'] + "";
    CutAt(line + "\r", '\n', "");
    assert (line + "\r")[..|line|] == line;
    assert ScanLines(text) == [line] + ScanLines("");
    assert ScanLines("") == [];
    ParseLine(e);
    ReadStep(line, [], Nothing);
    assert [line] + [] == [line];
  }

  /** A line without `=`, or with a key that is not in the table, ends the helper. */
  lemma ImproperExits(line: string, rest: string)
    requires '\n' !in line && DropCR(line) == line && 0 < |line| <= MaxLine
    requires '=' !in line || forall i :: 0 <= i < |Table| ==> !(Table[i].0 + "=" <= line)
    ensures Read(line + ['\n'] + rest) == Exit
  {
    CutAt(line, '\n', rest);
    assert ([line] + ScanLines(rest))[0] == line;
    if '=' in line {
      var k := Cut(line, '=').before;
      assert line == k + ['='] + Cut(line, '=').after;
      assert k + "=" <= line;
      OnlyTable(k);
    }
  }

  /** Two lines of different keys set both. */
  lemma TwoLinesRead(i: nat, j: nat, u: string, v: string)
    requires i < 12 && j < 12 && Table[i].1 != Table[j].1
    requires Fit(Entry(Table[i].1, u)) && Fit(Entry(Table[j].1, v))
    ensures var o := Read(Table[i].0 + "=" + u + "\n" + (Table[j].0 + "=" + v + "\n"));
      && o.Got? && Table[i].1 in o.payload.scalars && Table[j].1 in o.payload.scalars
      && o.payload.scalars[Table[i].1] == u && o.payload.scalars[Table[j].1] == v
  {
    var a, b := Entry(Table[i].1, u), Entry(Table[j].1, v);
    LineSays(i, u, [b]);
    LineSays(j, v, []);
    TextOfNone();
    assert [a] + [b] == [a, b] && [b] + [] == [b];
    assert Table[j].0 + "=" + v + "\n" + "" == Table[j].0 + "=" + v + "\n";
    TableNames(i);
    TableNames(j);
    TwoFields(a, b);
  }

  lemma TextOfNone()
    ensures TextOf([]) == ""
  {}

  lemma TwoFields(a: Entry, b: Entry)
    requires a.key != b.key && !IsArray(a.key) && !IsArray(b.key) && Fit(a) && Fit(b)
    ensures var o := Read(TextOf([a, b]));
      && o.Got? && a.key in o.payload.scalars && b.key in o.payload.scalars
      && o.payload.scalars[a.key] == a.value && o.payload.scalars[b.key] == b.value
  {
    FieldsRead([a, b], a.key);
    FieldsRead([a, b], b.key);
    LookedUp(a, b);
  }

  lemma LookedUp(a: Entry, b: Entry)
    requires a.key != b.key
    ensures Lookup([a, b], a.key) == [a.value] && Lookup([a, b], b.key) == [b.value]
  {
    assert [a, b] == [a] + [b];
    LookupOne(a, a.key);
    LookupOne(a, b.key);
    LookupOne(b, a.key);
    LookupOne(b, b.key);
    LookupAppend([a], [b], a.key);
    LookupAppend([a], [b], b.key);
  }

  lemma LookupOne(e: Entry, k: Key)
    ensures Lookup([e], k) == if e.key == k then [e.value] else []
  {
    assert [e][1..] == [] && Lookup([], k) == [];
  }

  /** Such as the first lines git sends. */
  lemma HostIsSet()
    ensures var o := Read("protocol" + "=" + "https" + "\n" + ("host" + "=" + "h" + "\n"));
      o.Got? && Host in o.payload.scalars && o.payload.scalars[Host] == "h"
  {
    assert Table[0] == ("protocol", Protocol) && Table[1] == ("host", Host);
    ShortFits(Protocol, "https");
    ShortFits(Host, "h");
    TwoLinesRead(0, 1, "https", "h");
  }

  lemma ShortFits(k: Key, v: string)
    requires '\n' !in v && '\r' !in v && |v| < 1000
    ensures Fit(Entry(k, v))
  {
    NameShort(k);
    assert |LineOf(Entry(k, v))| == |Name(k)| + 1 + |v|;
    if v != "" { assert v[|v| - 1] in v; }
  }

  lemma NameShort(k: Key)
    ensures |Name(k)| < 100
  {}

  // ---------- printing ----------

  /** The keys in the order they are printed; the host is not. */
  const PrintedKeys: seq<Key> :=
    [ Protocol, Path, Username, Password, PasswordExpiryUTC, OauthRefreshToken, Url, Authtype, Credential, Ephemeral,
      Continue, Wwwauth, Capability, State ]

  /** A line for every value that is not empty. */
  function Lines(name: string, vs: seq<string>): string
  {
    if vs == [] then "" else
      Lines(name, vs[..|vs| - 1]) + if vs[|vs| - 1] == "" then "" else name + "=" + vs[|vs| - 1] + "\n"
  }

  function ValuesOf(p: Payload, k: Key): seq<string>
    requires p.Valid()
  {
    if IsArray(k) then p.arrays[k] else [p.scalars[k]]
  }

  /** The lines of the first `n` keys. */
  function InOrder(p: Payload, keys: seq<Key>, n: nat): string
    requires p.Valid() && n <= |keys|
  {
    if n == 0 then "" else InOrder(p, keys, n - 1) + Lines(Name(keys[n - 1]), ValuesOf(p, keys[n - 1]))
  }

  lemma {:induction false} ArrayLines(k: Key, vs: seq<string>)
    ensures TextOf(FillArray(k, vs)) == Lines(Name(k), vs)
  {
    if vs != [] {
      var v := vs[|vs| - 1];
      ArrayLines(k, vs[..|vs| - 1]);
      TextOfAppend(FillArray(k, vs[..|vs| - 1]), GitCredential.Fill(k, v));
      OneLineText(k, v);
    }
  }

  lemma OneLineText(k: Key, v: string)
    ensures TextOf(GitCredential.Fill(k, v)) == if v == "" then "" else Name(k) + "=" + v + "\n"
  {
    if v != "" { assert [Entry(k, v)][1..] == []; }
  }

  lemma ScalarLine(k: Key, v: string)
    ensures TextOf(GitCredential.Fill(k, v)) == Lines(Name(k), [v])
  {
    OneLineText(k, v);
    assert [v][..0] == [];
    assert Lines(Name(k), []) == "";
  }

  lemma ScalarsInOrder(p: Payload, order: seq<Key>, keys: seq<Key>, n: nat)
    requires p.Valid() && Scalars(order) && n <= |order| && order <= keys
    ensures SameText(p, order, keys, n)
  {
    NoneInOrder(p, order, keys);
    for i := 0 to n
      invariant SameText(p, order, keys, i)
    {
      NextInOrder(p, order, keys, i + 1);
    }
  }

  lemma NoneInOrder(p: Payload, order: seq<Key>, keys: seq<Key>)
    requires p.Valid() && Scalars(order) && order <= keys
    ensures SameText(p, order, keys, 0)
  {
    TextOfNone();
  }

  ghost predicate SameText(p: Payload, order: seq<Key>, keys: seq<Key>, n: nat)
    requires p.Valid() && Scalars(order) && n <= |order| && order <= keys
  {
    TextOf(ScalarEntries(p, order, n)) == InOrder(p, keys, n)
  }

  lemma NextInOrder(p: Payload, order: seq<Key>, keys: seq<Key>, n: nat)
    requires p.Valid() && Scalars(order) && 0 < n <= |order| && order <= keys && SameText(p, order, keys, n - 1)
    ensures SameText(p, order, keys, n)
  {
    var k, before := order[n - 1], ScalarEntries(p, order, n - 1);
    assert keys[n - 1] == k;
    TextOfAppend(before, GitCredential.Fill(k, p.scalars[k]));
    ScalarLine(k, p.scalars[k]);
  }

  lemma OrderBegins()
    ensures |ScalarOrder| == 11 && ScalarOrder <= PrintedKeys && |PrintedKeys| == 14
    ensures PrintedKeys[11] == Wwwauth && PrintedKeys[12] == Capability && PrintedKeys[13] == State
  {}

  /** A payload is printed key by key in the fixed order. */
  lemma PrintedInOrder(p: Payload)
    requires p.Valid()
    ensures Print(p) == InOrder(p, PrintedKeys, |PrintedKeys|)
  {
    OrderBegins();
    ArraysInOrder(p, ScalarOrder, PrintedKeys);
  }

  lemma ArraysInOrder(p: Payload, order: seq<Key>, keys: seq<Key>)
    requires p.Valid() && Scalars(order) && |order| == 11 && order <= keys && |keys| == 14
    requires keys[11] == Wwwauth && keys[12] == Capability && keys[13] == State
    ensures TextOf(WithArrays(AllScalars(p, order), p.arrays[Wwwauth], p.arrays[Capability], p.arrays[State]))
      == InOrder(p, keys, 14)
  {
    ScalarsInOrder(p, order, keys, 11);
    ArrayLines(Wwwauth, p.arrays[Wwwauth]);
    ArrayLines(Capability, p.arrays[Capability]);
    ArrayLines(State, p.arrays[State]);
    var a, b := AllScalars(p, order), FillArray(Wwwauth, p.arrays[Wwwauth]);
    var c, d := FillArray(Capability, p.arrays[Capability]), FillArray(State, p.arrays[State]);
    TextOfAppend(a, b);
    TextOfAppend(a + b, c);
    TextOfAppend(a + b + c, d);
    LastThree(p, keys);
  }

  lemma LastThree(p: Payload, keys: seq<Key>)
    requires p.Valid() && |keys| == 14 && keys[11] == Wwwauth && keys[12] == Capability && keys[13] == State
    ensures InOrder(p, keys, 14) == InOrder(p, keys, 11) + Lines(Name(Wwwauth), p.arrays[Wwwauth])
      + Lines(Name(Capability), p.arrays[Capability]) + Lines(Name(State), p.arrays[State])
  {
    assert InOrder(p, keys, 12) == InOrder(p, keys, 11) + Lines(Name(Wwwauth), p.arrays[Wwwauth]);
    assert InOrder(p, keys, 13) == InOrder(p, keys, 12) + Lines(Name(Capability), p.arrays[Capability]);
  }

  /** The user name of a token is `x-access-token`, and its authentication is basic. */
  lemma TokenIsBasic(p: Payload, token: seq<Byte>)
    requires p.Valid()
    ensures |TokenUser| == |"x-access-token:"|
    ensures forall i :: 0 <= i < |TokenUser| ==> TokenUser[i] == "x-access-token:"[i] as int
    ensures TokenPayload(p, token).scalars[Authtype] == "basic"
  {}
}
