/**
 The git credential helper: payloads as lines of `key=value`, read with a line scanner and
 printed back. Text is a sequence of bytes, one character each.
 */
module GitCredential {
  import opened Order
  import opened Text
  import opened Values
  import Base64

  datatype Key =
    | Protocol | Host | Path | Username | Password | PasswordExpiryUTC | OauthRefreshToken
    | Url | Authtype | Credential | Ephemeral | Continue
    | Wwwauth | Capability | State

  function Name(k: Key): string
  {
    match k
    case Protocol => "protocol"
    case Host => "host"
    case Path => "path"
    case Username => "username"
    case Password => "password"
    case PasswordExpiryUTC => "password_expiry_utc"
    case OauthRefreshToken => "oauth_refresh_token"
    case Url => "url"
    case Authtype => "authtype"
    case Credential => "credential"
    case Ephemeral => "ephemeral"
    case Continue => "continue"
    case Wwwauth => "wwwauth[]"
    case Capability => "capability[]"
    case State => "state[]"
  }

  predicate IsArray(k: Key)
  {
    k == Wwwauth || k == Capability || k == State
  }

  datatype KeyResult = Unknown | Known(key: Key)

  function KeyOf(s: string): KeyResult
  {
    if s == "protocol" then Known(Protocol)
    else if s == "host" then Known(Host)
    else if s == "path" then Known(Path)
    else if s == "username" then Known(Username)
    else if s == "password" then Known(Password)
    else if s == "password_expiry_utc" then Known(PasswordExpiryUTC)
    else if s == "oauth_refresh_token" then Known(OauthRefreshToken)
    else if s == "url" then Known(Url)
    else if s == "authtype" then Known(Authtype)
    else if s == "credential" then Known(Credential)
    else if s == "ephemeral" then Known(Ephemeral)
    else if s == "continue" then Known(Continue)
    else if s == "wwwauth[]" then Known(Wwwauth)
    else if s == "capability[]" then Known(Capability)
    else if s == "state[]" then Known(State)
    else Unknown
  }

  lemma KeyOfName(k: Key)
    ensures KeyOf(Name(k)) == Known(k)
  {}

  lemma NameWithout(k: Key, c: char)
    requires c == '=' || c == '\n'
    ensures c !in Name(k)
  {}

  lemma NamePlain(k: Key)
    ensures '=' !in Name(k) && '\n' !in Name(k)
  {
    NameWithout(k, '=');
    NameWithout(k, '\n');
  }

  /** The fields of a payload. One that was never set is empty. */
  datatype Payload = Payload(scalars: map<Key, string>, arrays: map<Key, seq<string>>)
  {
    ghost predicate Valid()
    {
      && (forall k :: k in scalars <==> !IsArray(k))
      && (forall k :: k in arrays <==> IsArray(k))
    }
  }

  const Nothing: Payload := Payload(map k: Key | !IsArray(k) :: "", map k: Key | IsArray(k) :: [])

  datatype Entry = Entry(key: Key, value: string)

  function Store(p: Payload, e: Entry): (r: Payload)
    requires p.Valid()
    ensures r.Valid()
  {
    if IsArray(e.key) then p.(arrays := p.arrays[e.key := p.arrays[e.key] + [e.value]])
    else p.(scalars := p.scalars[e.key := e.value])
  }

  function StoreAll(p: Payload, es: seq<Entry>): (r: Payload)
    requires p.Valid()
    ensures r.Valid()
    decreases |es|
  {
    if es == [] then p else StoreAll(Store(p, es[0]), es[1..])
  }

  // ---------- reading ----------

  /** A `bufio.Scanner` holds lines of up to this many bytes; a longer one ends the scan. */
  const MaxLine: nat := 65535

  function DropCR(s: string): string
  {
    if s != "" && s[|s| - 1] == '\r' then s[..|s| - 1] else s
  }

  /** The lines a scanner delivers. */
  function ScanLines(text: string): seq<string>
    decreases |text|
  {
    match Cut(text, '\n')
    case Whole => if text == "" || |text| > MaxLine then [] else [DropCR(text)]
    case Parts(line, rest) => if |line| > MaxLine then [] else [DropCR(line)] + ScanLines(rest)
  }

  datatype Outcome = Exit | Got(payload: Payload)

  datatype EntryResult = Improper | Proper(entry: Entry)

  function Parse(line: string): EntryResult
  {
    match Cut(line, '=')
    case Whole => Improper
    case Parts(k, v) => if KeyOf(k).Known? then Proper(Entry(KeyOf(k).key, v)) else Improper
  }

  function ReadLines(lines: seq<string>, p: Payload): (o: Outcome)
    requires p.Valid()
    ensures o.Got? ==> o.payload.Valid()
    decreases |lines|
  {
    if lines == [] then Got(p)
    else match Parse(lines[0])
      case Improper => Exit
      case Proper(e) => ReadLines(lines[1..], Store(p, e))
  }

  function Read(text: string): Outcome
  {
    ReadLines(ScanLines(text), Nothing)
  }

  /** The next line of the text, and what is left after it. */
  function NextLine(text: string): (r: (string, string))
    ensures text != "" ==> |r.1| < |text|
  {
    match Cut(text, '\n')
    case Whole => (text, "")
    case Parts(line, rest) => (line, rest)
  }

  lemma ScanStep(text: string)
    requires text != ""
    ensures ScanLines(text) ==
      if |NextLine(text).0| > MaxLine then [] else [DropCR(NextLine(text).0)] + ScanLines(NextLine(text).1)
  {
    assert ScanLines("") == [];
  }

  lemma ReadStep(line: string, lines: seq<string>, p: Payload)
    requires p.Valid()
    ensures ReadLines([line] + lines, p) ==
      if Parse(line).Improper? then Exit else ReadLines(lines, Store(p, Parse(line).entry))
  {
    assert ([line] + lines)[1..] == lines;
  }

  method ReadLine(line: string, p: Payload) returns (o: Outcome)
    requires p.Valid()
    ensures o == if Parse(line).Improper? then Exit else Got(Store(p, Parse(line).entry))
  {
    match Cut(line, '=') {
      case Whole => return Exit;
      case Parts(k, v) =>
        var key := KeyOf(k);
        if key.Unknown? { return Exit; }
        return Got(Store(p, Entry(key.key, v)));
    }
  }

  /** `readPayload`: an improper line or an unknown key ends the process. */
  method ReadPayload(text: string) returns (o: Outcome)
    ensures o == Read(text)
  {
    var payload, rest := Nothing, text;
    while rest != ""
      invariant payload.Valid()
      invariant Read(text) == ReadLines(ScanLines(rest), payload)
      decreases |rest|
    {
      ScanStep(rest);
      var (line, after) := NextLine(rest);
      if |line| > MaxLine { return Got(payload); }
      ReadStep(DropCR(line), ScanLines(after), payload);
      o := ReadLine(DropCR(line), payload);
      if o.Exit? { return; }
      payload, rest := o.payload, after;
    }
    o := Got(payload);
  }

  // ---------- printing ----------

  function LineOf(e: Entry): string
  {
    Name(e.key) + "=" + e.value
  }

  /** The text of entries, a line each. */
  function TextOf(es: seq<Entry>): string
  {
    if es == [] then "" else LineOf(es[0]) + ['\n'] + TextOf(es[1..])
  }

  /** The order scalars are printed in. The host is not among them. */
  const ScalarOrder: seq<Key> :=
    [Protocol, Path, Username, Password, PasswordExpiryUTC, OauthRefreshToken, Url, Authtype, Credential,
     Ephemeral, Continue]

  function Fill(k: Key, v: string): seq<Entry>
  {
    if v == "" then [] else [Entry(k, v)]
  }

  function FillArray(k: Key, vs: seq<string>): seq<Entry>
  {
    if vs == [] then [] else FillArray(k, vs[..|vs| - 1]) + Fill(k, vs[|vs| - 1])
  }

  /** The entries of the first `n` scalars of the order. */
  function ScalarEntries(p: Payload, order: seq<Key>, n: nat): seq<Entry>
    requires p.Valid() && n <= |order| && Scalars(order)
  {
    if n == 0 then [] else ScalarEntries(p, order, n - 1) + Fill(order[n - 1], p.scalars[order[n - 1]])
  }

  predicate Scalars(order: seq<Key>)
  {
    forall i :: 0 <= i < |order| ==> !IsArray(order[i])
  }

  function AllScalars(p: Payload, order: seq<Key>): seq<Entry>
    requires p.Valid() && Scalars(order)
  {
    ScalarEntries(p, order, |order|)
  }

  function Scalar(p: Payload): seq<Entry>
    requires p.Valid()
  {
    AllScalars(p, ScalarOrder)
  }

  function WithArrays(a: seq<Entry>, wwwauth: seq<string>, capability: seq<string>, state: seq<string>): seq<Entry>
  {
    a + FillArray(Wwwauth, wwwauth) + FillArray(Capability, capability) + FillArray(State, state)
  }

  /** What is printed of a payload. */
  function Entries(p: Payload): seq<Entry>
    requires p.Valid()
  {
    WithArrays(Scalar(p), p.arrays[Wwwauth], p.arrays[Capability], p.arrays[State])
  }

  function Print(p: Payload): string
    requires p.Valid()
  {
    TextOf(Entries(p))
  }

  lemma {:induction false} TextOfAppend(a: seq<Entry>, b: seq<Entry>)
    ensures TextOf(a + b) == TextOf(a) + TextOf(b)
  {
    if a == [] {
      assert a + b == b;
    } else {
      assert (a + b)[1..] == a[1..] + b;
      TextOfAppend(a[1..], b);
    }
  }

  method FillLine(buf: string, k: Key, v: string, ghost done: seq<Entry>) returns (buf': string)
    requires buf == TextOf(done)
    ensures buf' == TextOf(done + Fill(k, v))
  {
    TextOfAppend(done, Fill(k, v));
    if v == "" { return buf; }
    assert [Entry(k, v)][1..] == [];
    buf' := buf + (Name(k) + "=" + v + ['\n']);
  }

  lemma FillArrayStep(done: seq<Entry>, k: Key, vs: seq<string>, n: nat)
    requires n < |vs|
    ensures done + FillArray(k, vs[..n + 1]) == (done + FillArray(k, vs[..n])) + Fill(k, vs[n])
  {
    assert vs[..n + 1][..n] == vs[..n];
  }

  method FillArrayLines(buf: string, k: Key, vs: seq<string>, ghost done: seq<Entry>) returns (buf': string)
    requires buf == TextOf(done)
    ensures buf' == TextOf(done + FillArray(k, vs))
  {
    buf' := buf;
    assert done + [] == done;
    for i := 0 to |vs|
      invariant buf' == TextOf(done + FillArray(k, vs[..i]))
    {
      FillArrayStep(done, k, vs, i);
      buf' := FillLine(buf', k, vs[i], done + FillArray(k, vs[..i]));
    }
    assert vs[..|vs|] == vs;
  }

  ghost predicate Printed(buf: string, p: Payload, order: seq<Key>, n: nat)
  {
    p.Valid() && n <= |order| && Scalars(order) && buf == TextOf(ScalarEntries(p, order, n))
  }

  method FillScalar(buf: string, p: Payload, k: Key, ghost order: seq<Key>, ghost n: nat)
    returns (buf': string, ghost n': nat)
    requires Printed(buf, p, order, n) && n < |order| && order[n] == k && k in p.scalars
    ensures Printed(buf', p, order, n') && n' == n + 1
  {
    buf' := FillLine(buf, k, p.scalars[k], ScalarEntries(p, order, n));
    n' := n + 1;
  }

  method PrintAddress(buf: string, p: Payload, ghost order: seq<Key>, ghost n: nat)
    returns (buf': string, ghost n': nat)
    requires Printed(buf, p, order, n) && n == 0 && 4 <= |order| && order[0..4] == [Protocol, Path, Username, Password]
    ensures Printed(buf', p, order, n') && n' == 4
  {
    ghost var ks := order[0..4];
    assert order[n] == ks[0];
    buf', n' := FillScalar(buf, p, Protocol, order, n);
    assert order[n'] == ks[1];
    buf', n' := FillScalar(buf', p, Path, order, n');
    assert order[n'] == ks[2];
    buf', n' := FillScalar(buf', p, Username, order, n');
    assert order[n'] == ks[3];
    buf', n' := FillScalar(buf', p, Password, order, n');
  }

  method PrintSecrets(buf: string, p: Payload, ghost order: seq<Key>, ghost n: nat)
    returns (buf': string, ghost n': nat)
    requires Printed(buf, p, order, n) && n == 4 && 8 <= |order|
      && order[4..8] == [PasswordExpiryUTC, OauthRefreshToken, Url, Authtype]
    ensures Printed(buf', p, order, n') && n' == 8
  {
    ghost var ks := order[4..8];
    assert order[n] == ks[0];
    buf', n' := FillScalar(buf, p, PasswordExpiryUTC, order, n);
    assert order[n'] == ks[1];
    buf', n' := FillScalar(buf', p, OauthRefreshToken, order, n');
    assert order[n'] == ks[2];
    buf', n' := FillScalar(buf', p, Url, order, n');
    assert order[n'] == ks[3];
    buf', n' := FillScalar(buf', p, Authtype, order, n');
  }

  method PrintRest(buf: string, p: Payload, ghost order: seq<Key>, ghost n: nat) returns (buf': string, ghost n': nat)
    requires Printed(buf, p, order, n) && n == 8 && 11 <= |order| && order[8..11] == [Credential, Ephemeral, Continue]
    ensures Printed(buf', p, order, n') && n' == 11
  {
    ghost var ks := order[8..11];
    assert order[n] == ks[0];
    buf', n' := FillScalar(buf, p, Credential, order, n);
    assert order[n'] == ks[1];
    buf', n' := FillScalar(buf', p, Ephemeral, order, n');
    assert order[n'] == ks[2];
    buf', n' := FillScalar(buf', p, Continue, order, n');
  }

  method PrintInOrder(p: Payload, ghost order: seq<Key>) returns (buf: string)
    requires p.Valid() && Scalars(order) && |order| == 11
    requires order[0..4] == [Protocol, Path, Username, Password]
    requires order[4..8] == [PasswordExpiryUTC, OauthRefreshToken, Url, Authtype]
    requires order[8..11] == [Credential, Ephemeral, Continue]
    ensures buf == TextOf(AllScalars(p, order))
  {
    ghost var n := 0;
    buf, n := PrintAddress("", p, order, n);
    buf, n := PrintSecrets(buf, p, order, n);
    buf, n := PrintRest(buf, p, order, n);
  }

  method PrintScalars(p: Payload) returns (buf: string)
    requires p.Valid()
    ensures buf == TextOf(Scalar(p))
  {
    buf := PrintInOrder(p, ScalarOrder);
  }

  /** `printPayload`. */
  method PrintPayload(p: Payload) returns (buf: string)
    requires p.Valid()
    ensures buf == Print(p)
  {
    buf := PrintScalars(p);
    ghost var done := Scalar(p);
    buf := FillArrayLines(buf, Wwwauth, p.arrays[Wwwauth], done);
    done := done + FillArray(Wwwauth, p.arrays[Wwwauth]);
    buf := FillArrayLines(buf, Capability, p.arrays[Capability], done);
    done := done + FillArray(Capability, p.arrays[Capability]);
    buf := FillArrayLines(buf, State, p.arrays[State], done);
  }

  // ---------- what survives a line ----------

  /** The value comes back from its line. */
  predicate Fit(e: Entry)
  {
    '\n' !in e.value && DropCR(e.value) == e.value && |LineOf(e)| <= MaxLine
  }

  lemma ParseLine(e: Entry)
    ensures Parse(LineOf(e)) == Proper(e)
  {
    NamePlain(e.key);
    KeyOfName(e.key);
    CutAt(Name(e.key), '=', e.value);
  }

  lemma DropCRLine(e: Entry)
    ensures DropCR(LineOf(e)) == LineOf(Entry(e.key, DropCR(e.value)))
  {
    var line := LineOf(e);
    if e.value == "" {
      assert line[|line| - 1] == '=';
    } else {
      assert line[|line| - 1] == e.value[|e.value| - 1];
      if line[|line| - 1] == '\r' {
        assert line[..|line| - 1] == Name(e.key) + "=" + e.value[..|e.value| - 1];
      }
    }
  }

  /** What a scanner and the parser make of printed entries without newlines. */
  function Chop(es: seq<Entry>): seq<Entry>
  {
    if es == [] || |LineOf(es[0])| > MaxLine then [] else [Entry(es[0].key, DropCR(es[0].value))] + Chop(es[1..])
  }

  ghost predicate OneLine(es: seq<Entry>)
  {
    forall i :: 0 <= i < |es| ==> '\n' !in es[i].value
  }

  lemma {:induction false} ReadText(es: seq<Entry>, p: Payload)
    requires OneLine(es) && p.Valid()
    ensures ReadLines(ScanLines(TextOf(es)), p) == Got(StoreAll(p, Chop(es)))
  {
    if es != [] {
      var line, rest := LineOf(es[0]), TextOf(es[1..]);
      NamePlain(es[0].key);
      CutAt(line, '\n', rest);
      if |line| <= MaxLine {
        var e := Entry(es[0].key, DropCR(es[0].value));
        DropCRLine(es[0]);
        ParseLine(e);
        ReadText(es[1..], Store(p, e));
        assert ([LineOf(e)] + ScanLines(rest))[1..] == ScanLines(rest);
        assert ([e] + Chop(es[1..]))[1..] == Chop(es[1..]);
      }
    }
  }

  // ---------- the fields of a payload that was read ----------

  /** The values entries give a key, in order. */
  function Lookup(es: seq<Entry>, k: Key): seq<string>
  {
    if es == [] then [] else (if es[0].key == k then [es[0].value] else []) + Lookup(es[1..], k)
  }

  function LastOr(vs: seq<string>, v: string): string
  {
    if vs == [] then v else vs[|vs| - 1]
  }

  lemma LastOrHead(a: seq<string>, b: seq<string>, v: string)
    ensures LastOr(a + b, v) == LastOr(b, LastOr(a, v))
  {}

  lemma {:induction false} StoredScalar(p: Payload, es: seq<Entry>, k: Key)
    requires p.Valid() && !IsArray(k)
    ensures StoreAll(p, es).scalars[k] == LastOr(Lookup(es, k), p.scalars[k])
    decreases |es|
  {
    if es != [] {
      StoredScalar(Store(p, es[0]), es[1..], k);
      assert Store(p, es[0]).scalars[k] == if es[0].key == k then es[0].value else p.scalars[k];
      LastOrHead(if es[0].key == k then [es[0].value] else [], Lookup(es[1..], k), p.scalars[k]);
    }
  }

  lemma {:induction false} StoredArray(p: Payload, es: seq<Entry>, k: Key)
    requires p.Valid() && IsArray(k)
    ensures StoreAll(p, es).arrays[k] == p.arrays[k] + Lookup(es, k)
    decreases |es|
  {
    if es != [] {
      StoreInArray(p, es[0], k);
      StoredArray(Store(p, es[0]), es[1..], k);
      Assoc(p.arrays[k], if es[0].key == k then [es[0].value] else [], Lookup(es[1..], k));
    }
  }

  lemma Assoc(a: seq<string>, b: seq<string>, c: seq<string>)
    ensures (a + b) + c == a + (b + c)
  {}

  lemma StoreInArray(p: Payload, e: Entry, k: Key)
    requires p.Valid() && IsArray(k)
    ensures Store(p, e).arrays[k] == p.arrays[k] + if e.key == k then [e.value] else []
  {}

  lemma NothingSet(k: Key)
    ensures Nothing.Valid() && if IsArray(k) then Nothing.arrays[k] == [] else Nothing.scalars[k] == ""
  {}

  lemma StoredFields(es: seq<Entry>, k: Key)
    ensures var r := StoreAll(Nothing, es);
      if IsArray(k) then r.arrays[k] == Lookup(es, k) else r.scalars[k] == LastOr(Lookup(es, k), "")
  {
    if IsArray(k) { StoredArray(Nothing, es, k); } else { StoredScalar(Nothing, es, k); }
    NothingSet(k);
  }

  lemma {:induction false} LookupAppend(a: seq<Entry>, b: seq<Entry>, k: Key)
    ensures Lookup(a + b, k) == Lookup(a, k) + Lookup(b, k)
  {
    if a == [] {
      assert a + b == b;
    } else {
      assert (a + b)[1..] == a[1..] + b;
      LookupAppend(a[1..], b, k);
    }
  }

  lemma LookupFill(k: Key, v: string, k': Key)
    ensures Lookup(Fill(k, v), k') == if k == k' && v != "" then [v] else []
  {
    if v != "" { assert [Entry(k, v)][1..] == []; }
  }

  lemma {:induction false} LookupFillArray(k: Key, vs: seq<string>, k': Key)
    ensures Lookup(FillArray(k, vs), k') == if k == k' then NonEmpty(vs) else []
  {
    if vs != [] {
      var n := |vs| - 1;
      LookupFillArray(k, vs[..n], k');
      LookupFill(k, vs[n], k');
      LookupAppend(FillArray(k, vs[..n]), Fill(k, vs[n]), k');
    }
  }

  lemma {:induction false} LookupScalars(p: Payload, order: seq<Key>, n: nat, k: Key)
    requires p.Valid() && n <= |order| && Scalars(order) && NoDuplicates(order)
    ensures Lookup(ScalarEntries(p, order, n), k) ==
      if k in order[..n] && p.scalars[k] != "" then [p.scalars[k]] else []
  {
    if n > 0 {
      LookupScalars(p, order, n - 1, k);
      LookupLast(p, order, n, k);
      OrderStep(order, n, k);
    }
  }

  lemma LookupLast(p: Payload, order: seq<Key>, n: nat, k: Key)
    requires p.Valid() && 0 < n <= |order| && Scalars(order)
    ensures var o := order[n - 1];
      Lookup(ScalarEntries(p, order, n), k) == Lookup(ScalarEntries(p, order, n - 1), k)
        + if o == k && p.scalars[o] != "" then [p.scalars[o]] else []
  {
    var o := order[n - 1];
    LookupFill(o, p.scalars[o], k);
    LookupAppend(ScalarEntries(p, order, n - 1), Fill(o, p.scalars[o]), k);
  }

  lemma OrderStep(order: seq<Key>, n: nat, k: Key)
    requires 0 < n <= |order| && NoDuplicates(order)
    ensures k in order[..n] <==> k in order[..n - 1] || k == order[n - 1]
    ensures order[n - 1] !in order[..n - 1]
  {
    assert order[..n] == order[..n - 1] + [order[n - 1]];
  }

  lemma LookupScalar(p: Payload, k: Key)
    requires p.Valid()
    ensures Lookup(Scalar(p), k) == if !IsArray(k) && k != Host && p.scalars[k] != "" then [p.scalars[k]] else []
  {
    OrderGood();
    AllPrinted(k);
    LookupOrder(p, ScalarOrder, k);
  }

  lemma LookupOrder(p: Payload, order: seq<Key>, k: Key)
    requires p.Valid() && Scalars(order) && NoDuplicates(order)
    ensures Lookup(AllScalars(p, order), k) == if k in order && p.scalars[k] != "" then [p.scalars[k]] else []
  {
    LookupScalars(p, order, |order|, k);
    assert order[..|order|] == order;
  }

  lemma OrderGood()
    ensures Scalars(ScalarOrder) && NoDuplicates(ScalarOrder)
  {}

  lemma AllPrinted(k: Key)
    ensures k in ScalarOrder <==> !IsArray(k) && k != Host
  {}

  /** What is printed under each key. */
  lemma LookupEntries(p: Payload, k: Key)
    requires p.Valid()
    ensures Lookup(Entries(p), k) ==
      if IsArray(k) then NonEmpty(p.arrays[k]) else if k == Host || p.scalars[k] == "" then [] else [p.scalars[k]]
  {
    LookupScalar(p, k);
    LookupAll(p, Scalar(p), k);
  }

  lemma LookupAll(p: Payload, a: seq<Entry>, k: Key)
    requires p.Valid()
    requires Lookup(a, k) == if !IsArray(k) && k != Host && p.scalars[k] != "" then [p.scalars[k]] else []
    ensures Lookup(WithArrays(a, p.arrays[Wwwauth], p.arrays[Capability], p.arrays[State]), k) ==
      if IsArray(k) then NonEmpty(p.arrays[k]) else if k == Host || p.scalars[k] == "" then [] else [p.scalars[k]]
  {
    LookupParts(a, p.arrays[Wwwauth], p.arrays[Capability], p.arrays[State], k);
  }

  lemma LookupParts(a: seq<Entry>, x: seq<string>, y: seq<string>, z: seq<string>, k: Key)
    ensures Lookup(WithArrays(a, x, y, z), k)
         == Lookup(a, k)
          + (if k == Wwwauth then NonEmpty(x)
             else if k == Capability then NonEmpty(y)
             else if k == State then NonEmpty(z) else [])
  {
    LookupFour(a, FillArray(Wwwauth, x), FillArray(Capability, y), FillArray(State, z), k);
    LookupFillArray(Wwwauth, x, k);
    LookupFillArray(Capability, y, k);
    LookupFillArray(State, z, k);
  }

  lemma LookupFour(a: seq<Entry>, b: seq<Entry>, c: seq<Entry>, d: seq<Entry>, k: Key)
    ensures Lookup(a + b + c + d, k) == Lookup(a, k) + Lookup(b, k) + Lookup(c, k) + Lookup(d, k)
  {
    LookupAppend(a + b + c, d, k);
    LookupAppend(a + b, c, k);
    LookupAppend(a, b, k);
  }

  // ---------- the round trip ----------

  /** A payload without its host and the empty entries of its lists. */
  function Erased(p: Payload): (r: Payload)
    requires p.Valid()
    ensures r.Valid()
  {
    Payload(p.scalars[Host := ""], map k | k in p.arrays :: NonEmpty(p.arrays[k]))
  }

  lemma SamePayload(p: Payload, q: Payload)
    requires p.Valid() && q.Valid()
    requires forall k :: if IsArray(k) then p.arrays[k] == q.arrays[k] else p.scalars[k] == q.scalars[k]
    ensures p == q
  {
    assert p.scalars == q.scalars && p.arrays == q.arrays;
  }

  /** Storing what is printed of a payload gives it back, erased. */
  lemma StoredErased(p: Payload)
    requires p.Valid()
    ensures StoreAll(Nothing, Entries(p)) == Erased(p)
  {
    var r := StoreAll(Nothing, Entries(p));
    forall k ensures if IsArray(k) then r.arrays[k] == Erased(p).arrays[k] else r.scalars[k] == Erased(p).scalars[k] {
      StoredFields(Entries(p), k);
      LookupEntries(p, k);
    }
    SamePayload(r, Erased(p));
  }

  ghost predicate AllFit(es: seq<Entry>)
  {
    forall i :: 0 <= i < |es| ==> Fit(es[i])
  }

  lemma {:induction false} ChopFit(es: seq<Entry>)
    requires AllFit(es)
    ensures Chop(es) == es
  {
    if es != [] {
      ChopFit(es[1..]);
      assert es == [es[0]] + es[1..];
    }
  }

  lemma {:induction false} ChopShorter(es: seq<Entry>, k: Key)
    ensures |Lookup(Chop(es), k)| <= |Lookup(es, k)|
  {
    if es != [] && |LineOf(es[0])| <= MaxLine {
      ChopShorter(es[1..], k);
      assert Chop(es)[1..] == Chop(es[1..]);
    }
  }

  /** A value that does not fit its line is lost, under its own key. */
  lemma {:induction false} ChopDiffers(es: seq<Entry>) returns (k: Key)
    requires OneLine(es) && !AllFit(es) && forall i :: 0 <= i < |es| ==> es[i].value != ""
    ensures Lookup(Chop(es), k) != Lookup(es, k)
  {
    if Fit(es[0]) {
      k := ChopDiffers(es[1..]);
      assert Chop(es)[1..] == Chop(es[1..]);
      assert Chop(es)[0] == es[0];
      HeadLookup(es, Chop(es), k);
    } else {
      k := es[0].key;
      if |LineOf(es[0])| <= MaxLine {
        assert Lookup(Chop(es), k)[0] == DropCR(es[0].value);
      }
    }
  }

  lemma HeadLookup(a: seq<Entry>, b: seq<Entry>, k: Key)
    requires a != [] && b != [] && a[0] == b[0] && Lookup(a[1..], k) != Lookup(b[1..], k)
    ensures Lookup(a, k) != Lookup(b, k)
  {
    var h := if a[0].key == k then [a[0].value] else [];
    assert Lookup(a, k)[|h|..] == Lookup(a[1..], k);
    assert Lookup(b, k)[|h|..] == Lookup(b[1..], k);
  }

  lemma {:induction false} FillArrayNonEmpty(k: Key, vs: seq<string>)
    ensures forall i :: 0 <= i < |FillArray(k, vs)| ==> FillArray(k, vs)[i].value != ""
  {
    if vs != [] { FillArrayNonEmpty(k, vs[..|vs| - 1]); }
  }

  lemma {:induction false} ScalarsNonEmpty(p: Payload, order: seq<Key>, n: nat)
    requires p.Valid() && n <= |order| && Scalars(order)
    ensures forall i :: 0 <= i < |ScalarEntries(p, order, n)| ==> ScalarEntries(p, order, n)[i].value != ""
  {
    if n > 0 { ScalarsNonEmpty(p, order, n - 1); }
  }

  lemma AllScalarsNonEmpty(p: Payload, order: seq<Key>)
    requires p.Valid() && Scalars(order)
    ensures forall i :: 0 <= i < |AllScalars(p, order)| ==> AllScalars(p, order)[i].value != ""
  {
    ScalarsNonEmpty(p, order, |order|);
  }

  lemma EntriesNonEmpty(p: Payload)
    requires p.Valid()
    ensures forall i :: 0 <= i < |Entries(p)| ==> Entries(p)[i].value != ""
  {
    AllScalarsNonEmpty(p, ScalarOrder);
    FillArrayNonEmpty(Wwwauth, p.arrays[Wwwauth]);
    FillArrayNonEmpty(Capability, p.arrays[Capability]);
    FillArrayNonEmpty(State, p.arrays[State]);
  }

  lemma LostScalar(vs: seq<string>, ws: seq<string>)
    requires vs != ws && |vs| <= |ws| <= 1 && "" !in ws
    ensures LastOr(vs, "") != LastOr(ws, "")
  {
    assert |ws| == 1 && ws[0] in ws;
  }

  lemma LostValue(es: seq<Entry>, cs: seq<Entry>, k: Key)
    requires Lookup(cs, k) != Lookup(es, k) && |Lookup(cs, k)| <= |Lookup(es, k)|
    requires IsArray(k) || (|Lookup(es, k)| <= 1 && "" !in Lookup(es, k))
    ensures StoreAll(Nothing, cs) != StoreAll(Nothing, es)
  {
    StoredFields(cs, k);
    StoredFields(es, k);
    if !IsArray(k) { LostScalar(Lookup(cs, k), Lookup(es, k)); }
  }

  /** Values that no line can bring back. */
  lemma ChoppedIsOther(p: Payload)
    requires p.Valid() && OneLine(Entries(p)) && !AllFit(Entries(p))
    ensures StoreAll(Nothing, Chop(Entries(p))) != Erased(p)
  {
    EntriesNonEmpty(p);
    var k := ChopDiffers(Entries(p));
    ChopShorter(Entries(p), k);
    LookupEntries(p, k);
    LostValue(Entries(p), Chop(Entries(p)), k);
    StoredErased(p);
  }

  // ---------- newlines ----------

  ghost predicate NoNewline(p: Payload)
  {
    && (forall k :: k in p.scalars ==> '\n' !in p.scalars[k])
    && (forall k, i :: k in p.arrays && 0 <= i < |p.arrays[k]| ==> '\n' !in p.arrays[k][i])
  }

  lemma {:induction false} ScannedNoNewline(text: string)
    ensures forall i :: 0 <= i < |ScanLines(text)| ==> '\n' !in ScanLines(text)[i]
    decreases |text|
  {
    match Cut(text, '\n')
    case Whole =>
    case Parts(line, rest) => ScannedNoNewline(rest);
  }

  lemma StoreNoNewline(p: Payload, e: Entry)
    requires p.Valid() && NoNewline(p) && '\n' !in e.value
    ensures NoNewline(Store(p, e))
  {}

  lemma {:induction false} ReadNoNewline(lines: seq<string>, p: Payload)
    requires p.Valid() && NoNewline(p) && forall i :: 0 <= i < |lines| ==> '\n' !in lines[i]
    ensures ReadLines(lines, p).Got? ==> NoNewline(ReadLines(lines, p).payload)
    decreases |lines|
  {
    if lines != [] && Parse(lines[0]).Proper? {
      StoreNoNewline(p, Parse(lines[0]).entry);
      ReadNoNewline(lines[1..], Store(p, Parse(lines[0]).entry));
    }
  }

  lemma {:induction false} LookupHas(es: seq<Entry>, i: nat)
    requires i < |es|
    ensures es[i].value in Lookup(es, es[i].key)
  {
    if i > 0 { LookupHas(es[1..], i - 1); }
  }

  lemma NewlineKept(p: Payload, i: nat)
    requires p.Valid() && i < |Entries(p)| && '\n' in Entries(p)[i].value
    ensures !NoNewline(Erased(p))
  {
    var e := Entries(p)[i];
    LookupHas(Entries(p), i);
    LookupEntries(p, e.key);
    if IsArray(e.key) {
      var j :| 0 <= j < |NonEmpty(p.arrays[e.key])| && NonEmpty(p.arrays[e.key])[j] == e.value;
      assert '\n' in Erased(p).arrays[e.key][j];
    } else {
      assert '\n' in Erased(p).scalars[e.key];
    }
  }

  /** The printed fields all come back from their lines. */
  ghost predicate FieldsFit(p: Payload)
    requires p.Valid()
  {
    && (forall k :: k in p.scalars && k != Host && p.scalars[k] != "" ==> Fit(Entry(k, p.scalars[k])))
    && (forall k, v :: k in p.arrays && v in p.arrays[k] && v != "" ==> Fit(Entry(k, v)))
  }

  lemma {:induction false} LookupFrom(es: seq<Entry>, k: Key, v: string)
    requires v in Lookup(es, k)
    ensures Entry(k, v) in es
  {
    if es[0] != Entry(k, v) { LookupFrom(es[1..], k, v); }
  }

  lemma {:induction false} NonEmptyHolds(vs: seq<string>, v: string)
    ensures v in NonEmpty(vs) <==> v in vs && v != ""
  {
    if vs != [] {
      NonEmptyHolds(vs[..|vs| - 1], v);
      assert vs == vs[..|vs| - 1] + [vs[|vs| - 1]];
    }
  }

  lemma FitFields(p: Payload)
    requires p.Valid()
    ensures AllFit(Entries(p)) <==> FieldsFit(p)
  {
    var es := Entries(p);
    if AllFit(es) {
      forall k, v | v in Lookup(es, k) ensures Fit(Entry(k, v)) { LookupFrom(es, k, v); }
      forall k | k in p.scalars && k != Host && p.scalars[k] != "" ensures Fit(Entry(k, p.scalars[k])) {
        LookupEntries(p, k);
      }
      forall k, v | k in p.arrays && v in p.arrays[k] && v != "" ensures Fit(Entry(k, v)) {
        LookupEntries(p, k);
        NonEmptyHolds(p.arrays[k], v);
      }
    }
    if FieldsFit(p) {
      forall i | 0 <= i < |es| ensures Fit(es[i]) {
        LookupHas(es, i);
        LookupEntries(p, es[i].key);
        if IsArray(es[i].key) { NonEmptyHolds(p.arrays[es[i].key], es[i].value); }
        assert es[i] == Entry(es[i].key, es[i].value);
      }
    }
  }

  /** Reading back a printed payload gives it without its host and empty list entries, exactly
      when every printed value fits its line: no newline, no carriage return at the end, and
      no more bytes than the scanner holds. */
  lemma RoundTripExactly(p: Payload)
    requires p.Valid()
    ensures Read(Print(p)) == Got(Erased(p)) <==> FieldsFit(p)
  {
    var es := Entries(p);
    FitFields(p);
    if OneLine(es) {
      ReadText(es, Nothing);
      if AllFit(es) {
        ChopFit(es);
        StoredErased(p);
      } else {
        ChoppedIsOther(p);
      }
    } else {
      var i :| 0 <= i < |es| && '\n' in es[i].value;
      NewlineKept(p, i);
      ScannedNoNewline(Print(p));
      ReadNoNewline(ScanLines(Print(p)), Nothing);
      assert !Fit(es[i]);
    }
  }

  /** A password of 65536 bytes is lost on the way. */
  lemma LongPassword(p: Payload)
    requires p.Valid() && |p.scalars[Password]| == 65536
    ensures Read(Print(p)) != Got(Erased(p))
  {
    LongLine(Entry(Password, p.scalars[Password]));
    RoundTripExactly(p);
  }

  lemma LongLine(e: Entry)
    requires |e.value| > MaxLine
    ensures !Fit(e)
  {
    assert |LineOf(e)| >= |e.value|;
  }

  lemma {:induction false} ScalarsErased(p: Payload, order: seq<Key>, n: nat)
    requires p.Valid() && n <= |order| && Scalars(order) && Host !in order
    ensures ScalarEntries(Erased(p), order, n) == ScalarEntries(p, order, n)
  {
    if n > 0 { ScalarsErased(p, order, n - 1); }
  }

  lemma {:induction false} ArrayErased(k: Key, vs: seq<string>)
    ensures FillArray(k, NonEmpty(vs)) == FillArray(k, vs)
  {
    if vs != [] {
      var front, v := vs[..|vs| - 1], vs[|vs| - 1];
      ArrayErased(k, front);
      if v != "" {
        var w := NonEmpty(front) + [v];
        assert w[..|w| - 1] == NonEmpty(front);
      } else {
        assert NonEmpty(vs) == NonEmpty(front);
      }
    }
  }

  /** What is erased was never printed. */
  lemma PrintErased(p: Payload)
    requires p.Valid()
    ensures Print(Erased(p)) == Print(p)
  {
    AllScalarsErased(p, ScalarOrder);
    ArrayErased(Wwwauth, p.arrays[Wwwauth]);
    ArrayErased(Capability, p.arrays[Capability]);
    ArrayErased(State, p.arrays[State]);
  }

  lemma AllScalarsErased(p: Payload, order: seq<Key>)
    requires p.Valid() && Scalars(order) && Host !in order
    ensures AllScalars(Erased(p), order) == AllScalars(p, order)
  {
    ScalarsErased(p, order, |order|);
  }

  /** Printing what was read back from print prints the same. */
  lemma PrintReadPrint(p: Payload)
    requires p.Valid() && FieldsFit(p)
    ensures Read(Print(p)).Got? && Print(Read(Print(p)).payload) == Print(p)
  {
    RoundTripExactly(p);
    PrintErased(p);
  }

  // ---------- responses ----------

  function WithAuth(p: Payload, authtype: string, credential: string): (r: Payload)
    requires p.Valid()
    ensures r.Valid()
  {
    p.(scalars := p.scalars[Authtype := authtype][Credential := credential])
  }

  /** "x-access-token:" */
  const TokenUser: seq<Byte> := [120, 45, 97, 99, 99, 101, 115, 115, 45, 116, 111, 107, 101, 110, 58]

  /** `handleSecretToken`. */
  function TokenPayload(p: Payload, token: seq<Byte>): Payload
    requires p.Valid()
  {
    WithAuth(p, "basic", Base64.Encode(TokenUser + token))
  }

  lemma WithAuthFits(p: Payload, a: string, c: string)
    requires p.Valid() && FieldsFit(p)
    ensures FieldsFit(WithAuth(p, a, c)) <==>
      (a == "" || Fit(Entry(Authtype, a))) && (c == "" || Fit(Entry(Credential, c)))
  {
    var r := WithAuth(p, a, c);
    assert r.scalars[Authtype] == a && r.scalars[Credential] == c;
    forall k | k in r.scalars && k != Host && k != Authtype && k != Credential && r.scalars[k] != ""
      ensures Fit(Entry(k, r.scalars[k]))
    {
      assert r.scalars[k] == p.scalars[k];
    }
  }

  lemma CredentialFits(c: string)
    requires forall x :: x in c ==> Base64.Plain(x)
    ensures Fit(Entry(Credential, c)) <==> 11 + |c| <= MaxLine
  {
    assert |LineOf(Entry(Credential, c))| == 11 + |c|;
    if c != "" { assert c[|c| - 1] in c; }
  }

  lemma BasicFits()
    ensures Fit(Entry(Authtype, "basic"))
  {
    assert |LineOf(Entry(Authtype, "basic"))| == 14;
  }

  /** A response reads back exactly when both of its new values fit their lines. */
  lemma ResponseReadsBack(p: Payload, a: string, c: string)
    requires p.Valid() && FieldsFit(p)
    ensures var r := WithAuth(p, a, c);
      Read(Print(r)) == Got(Erased(r)) <==>
        (a == "" || Fit(Entry(Authtype, a))) && (c == "" || Fit(Entry(Credential, c)))
  {
    var r := WithAuth(p, a, c);
    WithAuthFits(p, a, c);
    RoundTripExactly(r);
  }

  lemma KeepsCredential(p: Payload, a: string, c: string)
    requires p.Valid()
    ensures Erased(WithAuth(p, a, c)).scalars[Credential] == c
  {}

  lemma EncodedFits(b: seq<Byte>)
    ensures var c := Base64.Encode(b);
      && (c == "" || Fit(Entry(Credential, c)) <==> 11 + (|b| + 2) / 3 * 4 <= MaxLine)
      && Base64.Decode(c) == Base64.Bytes(b)
  {
    Base64.RoundTrip(b);
    Base64.EncodePlain(b);
    Base64.EncodeLength(b);
    CredentialFits(Base64.Encode(b));
  }

  /** The response to a token request reads back, with a credential that decodes to the token,
      exactly when the token is not too long for a line. */
  lemma TokenReadsBack(p: Payload, token: seq<Byte>)
    requires p.Valid() && FieldsFit(p)
    ensures var r := TokenPayload(p, token);
      && (Read(Print(r)) == Got(Erased(r)) <==> 11 + (|TokenUser + token| + 2) / 3 * 4 <= MaxLine)
      && Base64.Decode(Erased(r).scalars[Credential]) == Base64.Bytes(TokenUser + token)
  {
    EncodedFits(TokenUser + token);
    BasicFits();
    ResponseReadsBack(p, "basic", Base64.Encode(TokenUser + token));
    KeepsCredential(p, "basic", Base64.Encode(TokenUser + token));
  }

  datatype Response = Malformed | Respond(payload: Payload)

  /** `handleSecretHeader`. */
  function HeaderPayload(p: Payload, secret: string): Response
    requires p.Valid()
  {
    match Cut(secret, ' ')
    case Whole => Malformed
    case Parts(authtype, credential) => Respond(WithAuth(p, authtype, credential))
  }

  /** The response to a header request reads back exactly when both parts of the secret fit
      their lines; a secret that ends in a newline does not. */
  lemma HeaderReadsBack(p: Payload, a: string, c: string)
    requires p.Valid() && FieldsFit(p) && ' ' !in a
    ensures var r := WithAuth(p, a, c);
      && HeaderPayload(p, a + [' '] + c) == Respond(r)
      && (Read(Print(r)) == Got(Erased(r)) <==>
        (a == "" || Fit(Entry(Authtype, a))) && (c == "" || Fit(Entry(Credential, c))))
      && (c != "" && c[|c| - 1] == '\n' ==> Read(Print(r)) != Got(Erased(r)))
  {
    CutAt(a, ' ', c);
    ResponseReadsBack(p, a, c);
    if c != "" { assert c[|c| - 1] in c; }
  }
}
