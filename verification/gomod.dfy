/**
 Renaming the hosts of go module authentication while ranging over the map that holds them.

 Go's `range` promises that an entry present from the start is visited unless it is removed
 before its turn. An entry created on the way may be visited or skipped.
 */
module GomodAuth {
  import opened Order

  datatype Expansion = Failed | Expanded(host: string)

  /** The map, the entries still to be visited, and those that may be. */
  datatype Loop<A> = Loop(auth: map<string, A>, must: set<string>, may: set<string>)

  /** The name a host ends up under: a failed expansion leaves it alone. */
  function Renamed(expand: string -> Expansion, host: string): string
  {
    match expand(host)
    case Failed => host
    case Expanded(subbed) => subbed
  }

  /** One turn of the loop. */
  function Visit<A>(l: Loop<A>, expand: string -> Expansion, host: string): Loop<A>
    requires host in l.auth
  {
    var left := Loop(l.auth, l.must - {host}, l.may - {host});
    match expand(host)
    case Failed => left
    case Expanded(subbed) =>
      var created := if subbed in l.auth then {} else {subbed};
      var set_ := left.(auth := l.auth[subbed := l.auth[host]], may := left.may + created);
      if subbed == host then set_ else Loop(set_.auth - {host}, set_.must, set_.may)
  }

  predicate CanVisit<A>(l: Loop<A>, host: string)
  {
    host in l.auth && (host in l.must || host in l.may)
  }

  function Start<A>(auth: map<string, A>): Loop<A>
  {
    Loop(auth, auth.Keys, {})
  }

  /** The loop may make these visits, one after another. */
  predicate CanRun<A>(l: Loop<A>, expand: string -> Expansion, visits: seq<string>)
    decreases |visits|
  {
    visits == [] || (CanVisit(l, visits[0]) && CanRun(Visit(l, expand, visits[0]), expand, visits[1..]))
  }

  function After<A>(l: Loop<A>, expand: string -> Expansion, visits: seq<string>): Loop<A>
    requires CanRun(l, expand, visits)
    decreases |visits|
  {
    if visits == [] then l else After(Visit(l, expand, visits[0]), expand, visits[1..])
  }

  /** A whole run of the loop: it may end once nothing must be visited. */
  predicate CompleteRun<A>(l: Loop<A>, expand: string -> Expansion, visits: seq<string>)
  {
    CanRun(l, expand, visits) && After(l, expand, visits).must == {}
  }

  /** `GeneratorGomod.processBuildArgs`, for one way the range may go. */
  method ProcessBuildArgs<A>(auth0: map<string, A>, expand: string -> Expansion, visits: seq<string>)
    returns (auth: map<string, A>, errs: nat)
    requires CompleteRun(Start(auth0), expand, visits)
    ensures auth == After(Start(auth0), expand, visits).auth
    ensures errs > 0 <==> exists i :: 0 <= i < |visits| && expand(visits[i]).Failed?
  {
    auth, errs := auth0, 0;
    ghost var l := Start(auth0);
    for i := 0 to |visits|
      invariant CanRun(l, expand, visits[i..]) && auth == l.auth
      invariant After(Start(auth0), expand, visits) == After(l, expand, visits[i..])
      invariant errs > 0 <==> exists j :: 0 <= j < i && expand(visits[j]).Failed?
    {
      var host := visits[i];
      assert visits[i..][0] == host && visits[i..][1..] == visits[i + 1..];
      l := Visit(l, expand, host);
      match expand(host) {
        case Failed => errs := errs + 1;
        case Expanded(subbed) =>
          auth := auth[subbed := auth[host]];
          if subbed != host { auth := auth - {host}; }
      }
    }
  }

  /** The entries under their expanded hosts. */
  ghost function Expected<A>(auth0: map<string, A>, expand: string -> Expansion): set<(string, A)>
  {
    set h | h in auth0 :: (Renamed(expand, h), auth0[h])
  }

  // ---------- when every run gets there ----------

  /** Expanding a host a second time changes nothing. */
  ghost predicate Idempotent<A>(auth0: map<string, A>, expand: string -> Expansion)
  {
    forall h :: h in auth0 ==> Renamed(expand, Renamed(expand, h)) == Renamed(expand, h)
  }

  /** Hosts that become one have the same authentication. */
  ghost predicate Agree<A>(auth0: map<string, A>, expand: string -> Expansion)
  {
    forall h, h' :: h in auth0 && h' in auth0 && Renamed(expand, h) == Renamed(expand, h') ==> auth0[h] == auth0[h']
  }

  /** Every original entry is where it was or where it belongs, and nothing else is there. */
  ghost predicate Inv<A>(l: Loop<A>, auth0: map<string, A>, expand: string -> Expansion)
  {
    && l.must <= auth0.Keys
    && (forall h :: h in l.must ==> h in l.auth && l.auth[h] == auth0[h])
    && (forall h :: h in auth0 && h !in l.must ==>
        Renamed(expand, h) in l.auth && l.auth[Renamed(expand, h)] == auth0[h])
    && (forall x :: x in l.auth && x !in l.must ==> Arrived(l, auth0, expand, x))
    && (forall x :: x in l.may ==> x in l.auth && x !in l.must)
  }

  ghost predicate Arrived<A>(l: Loop<A>, auth0: map<string, A>, expand: string -> Expansion, x: string)
  {
    exists h :: h in auth0 && h !in l.must && x == Renamed(expand, h)
  }

  lemma VisitAgain<A>(l: Loop<A>, auth0: map<string, A>, expand: string -> Expansion, x: string)
    requires Idempotent(auth0, expand) && Inv(l, auth0, expand) && x in l.may
    ensures x in l.auth && Inv(Visit(l, expand, x), auth0, expand)
  {
    assert Arrived(l, auth0, expand, x);
    assert Renamed(expand, x) == x;
    var l' := Visit(l, expand, x);
    assert l'.auth == l.auth && l'.must == l.must;
    forall y | y in l'.auth && y !in l'.must ensures Arrived(l', auth0, expand, y) {
      assert Arrived(l, auth0, expand, y);
    }
  }

  lemma VisitKeeps<A>(l: Loop<A>, auth0: map<string, A>, expand: string -> Expansion, h: string)
    requires Idempotent(auth0, expand) && Agree(auth0, expand) && Inv(l, auth0, expand) && h in l.must
    ensures h in l.auth && Inv(Visit(l, expand, h), auth0, expand)
  {
    var r, l' := Renamed(expand, h), Visit(l, expand, h);
    assert l'.must == l.must - {h};
    assert l'.auth == (if r == h then l.auth else l.auth[r := auth0[h]] - {h}) by {
      if r == h { assert l.auth[h := l.auth[h]] == l.auth; }
    }
    forall k | k in l'.must ensures k in l'.auth && l'.auth[k] == auth0[k] {
      if k == r { assert Renamed(expand, k) == k; }
    }
    forall k | k in auth0 && k !in l'.must
      ensures Renamed(expand, k) in l'.auth && l'.auth[Renamed(expand, k)] == auth0[k]
    {
      if k != h && Renamed(expand, k) == h { assert Renamed(expand, h) == h; }
    }
    forall x | x in l'.auth && x !in l'.must ensures Arrived(l', auth0, expand, x) {
      if x == r {
        assert h in auth0 && h !in l'.must;
      } else {
        assert x in l.auth && x !in l.must;
        assert Arrived(l, auth0, expand, x);
      }
    }
  }

  lemma {:induction false} RunKeeps<A>(l: Loop<A>, auth0: map<string, A>, expand: string -> Expansion,
    visits: seq<string>)
    requires Idempotent(auth0, expand) && Agree(auth0, expand) && Inv(l, auth0, expand) && CanRun(l, expand, visits)
    ensures Inv(After(l, expand, visits), auth0, expand)
    decreases |visits|
  {
    if visits != [] {
      if visits[0] in l.must {
        VisitKeeps(l, auth0, expand, visits[0]);
      } else {
        VisitAgain(l, auth0, expand, visits[0]);
      }
      RunKeeps(Visit(l, expand, visits[0]), auth0, expand, visits[1..]);
    }
  }

  /** Whichever way the range goes, the map ends with exactly the expanded hosts. */
  lemma EveryRunRenames<A>(auth0: map<string, A>, expand: string -> Expansion, visits: seq<string>)
    requires Idempotent(auth0, expand) && Agree(auth0, expand) && CompleteRun(Start(auth0), expand, visits)
    ensures After(Start(auth0), expand, visits).auth.Items == Expected(auth0, expand)
  {
    RunKeeps(Start(auth0), auth0, expand, visits);
    NothingLeft(After(Start(auth0), expand, visits), auth0, expand);
  }

  lemma NothingLeft<A>(l: Loop<A>, auth0: map<string, A>, expand: string -> Expansion)
    requires Inv(l, auth0, expand) && l.must == {}
    ensures l.auth.Items == Expected(auth0, expand)
  {
    forall p | p in l.auth.Items ensures p in Expected(auth0, expand) {
      assert Arrived(l, auth0, expand, p.0);
      var h :| h in auth0 && p.0 == Renamed(expand, h);
      assert p == (Renamed(expand, h), auth0[h]);
    }
    forall p | p in Expected(auth0, expand) ensures p in l.auth.Items {
      var h :| h in auth0 && p == (Renamed(expand, h), auth0[h]);
      assert h !in l.must;
    }
  }

  // ---------- and when some run does not ----------

  /** A key that is there will have its turn. */
  ghost predicate Awaits<A>(l: Loop<A>, k: string)
  {
    k in l.auth ==> k in l.must || k in l.may
  }

  /** Visits all of these hosts. Meanwhile `k` waits: it stays if it is there, and comes if one
      of them is renamed to it. */
  lemma {:induction false} VisitAll<A>(l: Loop<A>, expand: string -> Expansion, order: seq<string>, k: string)
    requires NoDuplicates(order) && (forall h :: h in order ==> h in l.must) && l.must <= l.auth.Keys && k !in order
      && Awaits(l, k)
    ensures CanRun(l, expand, order)
    ensures var l' := After(l, expand, order);
      && (forall h :: h in l'.must <==> h in l.must && h !in order)
      && Awaits(l', k) && (k in l.auth || (exists h :: h in order && Renamed(expand, h) == k) ==> k in l'.auth)
    decreases |order|
  {
    if order != [] {
      var h, rest := order[0], order[1..];
      var l1 := Visit(l, expand, h);
      VisitOne(l, expand, h, k);
      SplitOrder(order);
      VisitAll(l1, expand, rest, k);
    }
  }

  lemma SplitOrder(order: seq<string>)
    requires order != [] && NoDuplicates(order)
    ensures NoDuplicates(order[1..]) && order[0] !in order[1..]
      && forall h :: h in order <==> h == order[0] || h in order[1..]
  {}

  lemma VisitOne<A>(l: Loop<A>, expand: string -> Expansion, h: string, k: string)
    requires h in l.must && l.must <= l.auth.Keys && k != h && Awaits(l, k)
    ensures var l' := Visit(l, expand, h);
      && l'.must == l.must - {h} && l'.must <= l'.auth.Keys
      && Awaits(l', k) && (k in l.auth || Renamed(expand, h) == k ==> k in l'.auth)
  {}

  lemma {:induction false} ThenVisit<A>(l: Loop<A>, expand: string -> Expansion, visits: seq<string>, k: string)
    requires CanRun(l, expand, visits) && CanVisit(After(l, expand, visits), k)
    ensures CanRun(l, expand, visits + [k])
    ensures After(l, expand, visits + [k]) == Visit(After(l, expand, visits), expand, k)
    decreases |visits|
  {
    if visits == [] {
      assert visits + [k] == [k];
    } else {
      assert (visits + [k])[1..] == visits[1..] + [k];
      ThenVisit(Visit(l, expand, visits[0]), expand, visits[1..], k);
    }
  }

  /** If a host is renamed to one that expands further, the run that comes to that one last
      loses it. */
  lemma FurtherExpansionLoses<A>(auth0: map<string, A>, expand: string -> Expansion, h: string)
    returns (visits: seq<string>)
    requires h in auth0 && Renamed(expand, Renamed(expand, h)) != Renamed(expand, h)
    ensures CompleteRun(Start(auth0), expand, visits)
    ensures Renamed(expand, h) !in After(Start(auth0), expand, visits).auth
  {
    var k, l := Renamed(expand, h), Start(auth0);
    var order := SomeOrder(auth0.Keys - {k});
    VisitAll(l, expand, order, k);
    assert h in order;
    ThenVisit(l, expand, order, k);
    visits := order + [k];
    var l' := After(l, expand, order);
    assert forall x :: x in Visit(l', expand, k).must ==> x in auth0 && x !in order && x != k;
  }

  lemma SomeRun<A>(auth0: map<string, A>, expand: string -> Expansion) returns (visits: seq<string>)
    ensures CompleteRun(Start(auth0), expand, visits)
  {
    visits := SomeOrder(auth0.Keys);
    var k := Fresh(auth0.Keys);
    VisitAll(Start(auth0), expand, visits, k);
    var l := After(Start(auth0), expand, visits);
    assert forall x :: x in l.must ==> x in auth0 && x !in visits;
  }

  ghost function Longest(keys: set<string>): (n: nat)
    ensures forall k :: k in keys ==> |k| <= n
  {
    if keys == {} then 0 else
      var k :| k in keys;
      var n := Longest(keys - {k});
      if |k| > n then |k| else n
  }

  function Dots(n: nat): (s: string)
    ensures |s| == n
  {
    if n == 0 then "" else "." + Dots(n - 1)
  }

  ghost function Fresh(keys: set<string>): (k: string)
    ensures k !in keys
  {
    Dots(Longest(keys) + 1)
  }

  /** Every run of the loop ends with exactly the expanded hosts if and only if expanding twice
      changes nothing and hosts that become one agree. */
  lemma RenamesExactly<A>(auth0: map<string, A>, expand: string -> Expansion)
    ensures (forall visits :: CompleteRun(Start(auth0), expand, visits)
               ==> After(Start(auth0), expand, visits).auth.Items == Expected(auth0, expand))
       <==> Idempotent(auth0, expand) && Agree(auth0, expand)
  {
    if Idempotent(auth0, expand) && Agree(auth0, expand) {
      forall visits | CompleteRun(Start(auth0), expand, visits)
        ensures After(Start(auth0), expand, visits).auth.Items == Expected(auth0, expand)
      {
        EveryRunRenames(auth0, expand, visits);
      }
    } else if !Idempotent(auth0, expand) {
      var h :| h in auth0 && Renamed(expand, Renamed(expand, h)) != Renamed(expand, h);
      var visits := FurtherExpansionLoses(auth0, expand, h);
      assert (Renamed(expand, h), auth0[h]) in Expected(auth0, expand);
    } else {
      var h, h' :| h in auth0 && h' in auth0 && Renamed(expand, h) == Renamed(expand, h') && auth0[h] != auth0[h'];
      var visits := SomeRun(auth0, expand);
      TwoValues(After(Start(auth0), expand, visits).auth, Renamed(expand, h), auth0[h], auth0[h']);
      assert (Renamed(expand, h), auth0[h]) in Expected(auth0, expand);
      assert (Renamed(expand, h), auth0[h']) in Expected(auth0, expand);
    }
  }

  lemma TwoValues<A>(m: map<string, A>, k: string, a: A, b: A)
    requires a != b
    ensures !((k, a) in m.Items && (k, b) in m.Items)
  {}
}
