/**
 The two routers. BuildMux picks the handler of a build target by longest registered
 prefix, hands it the rest of the target, and a handler may be another BuildMux; the
 socket Mux picks by longest prefix of an id. Both find the longest prefix by sorting.
 */
module Routing {
  import opened Values
  import opened Order

  // ---------- sorting finds the longest prefix ----------

  /** Among prefixes of one string, the order of strings is the order of lengths. */
  lemma PrefixesSortByLength(a: string, b: string, whole: string)
    requires a <= whole && b <= whole
    ensures AtMost(a, b) <==> |a| <= |b|
    ensures |a| == |b| ==> a == b
  {
    if |a| <= |b| {
      assert a <= b;
      PrefixAtMost(a, b);
    } else {
      assert b <= a;
      PrefixAtMost(b, a);
      if AtMost(a, b) { AtMostAntisymmetric(a, b); }
    }
  }

  /** `k` is the longest of the keys that match. */
  ghost predicate Longest(keys: set<string>, matches: string -> bool, k: string)
  {
    k in keys && matches(k) && forall j :: j in keys && matches(j) ==> |j| <= |k|
  }

  lemma LongestUnique(keys: set<string>, matches: string -> bool, whole: string, j: string, k: string)
    requires forall x :: matches(x) ==> x <= whole
    requires Longest(keys, matches, j) && Longest(keys, matches, k)
    ensures j == k
  {
    PrefixesSortByLength(j, k, whole);
  }

  /** A route of BuildMux matches a target below it. */
  function Below(target: string): string -> bool
  {
    k => k + "/" <= target
  }

  /** A route of the socket Mux matches an id it is a prefix of. */
  function PrefixOf(id: string): string -> bool
  {
    k => k <= id
  }

  // ---------- BuildMux ----------

  datatype Lookup<+H> = Found(matched: string, handler: H) | NotRegistered

  /** What `lookupTarget` promises: the exact route, else the default for the empty target,
      else the longest route the target lies below. */
  ghost predicate IsLookup<H>(handlers: map<string, H>, def: Option<H>, target: string, r: Lookup<H>)
  {
    if target in handlers then r == Found(target, handlers[target])
    else if target == "" && def.Some? then r == Found("", def.value)
    else match r
      case Found(k, h) => Longest(handlers.Keys, Below(target), k) && h == handlers[k]
      case NotRegistered => forall k :: k in handlers ==> !Below(target)(k)
  }

  class BuildMux<H(==)> {
    var handlers: map<string, H>
    var defaultH: Option<H>

    constructor ()
      ensures handlers == map[] && defaultH == None
    {
      handlers, defaultH := map[], None;
    }

    /** `Add`: a later handler for a route replaces the earlier, and the last one registered
        as default is the default. */
    method Add(targetPath: string, h: H, isDefault: bool)
      modifies this
      ensures handlers == old(handlers)[targetPath := h]
      ensures defaultH == if isDefault then Some(h) else old(defaultH)
    {
      handlers := handlers[targetPath := h];
      if isDefault {
        defaultH := Some(h);
      }
    }

    /** `lookupTarget`: candidates in map order, sorted, the last one taken. */
    method LookupTarget(target: string) returns (r: Lookup<H>)
      ensures IsLookup(handlers, defaultH, target, r)
    {
      if target in handlers {
        return Found(target, handlers[target]);
      }
      if target == "" && defaultH.Some? {
        return Found(target, defaultH.value);
      }
      var order := RangeKeys(handlers.Keys);
      var candidates: seq<string> := [];
      for i := 0 to |order|
        invariant forall k :: k in candidates ==> k in handlers && Below(target)(k)
        invariant forall j :: 0 <= j < i && Below(target)(order[j]) ==> order[j] in candidates
      {
        if Below(target)(order[i]) {
          candidates := candidates + [order[i]];
        }
      }
      if candidates == [] {
        return NotRegistered;
      }
      var sorted := Sort(candidates);
      var k := sorted[|sorted| - 1];
      LastIsLongest(candidates, sorted, target);
      r := Found(k, handlers[k]);
    }
  }

  lemma LastIsLongest(candidates: seq<string>, sorted: seq<string>, target: string)
    requires candidates != [] && sorted == Sort(candidates)
    requires forall k :: k in candidates ==> k <= target
    ensures sorted != [] && sorted[|sorted| - 1] in candidates
    ensures forall k :: k in candidates ==> |k| <= |sorted[|sorted| - 1]|
  {
    assert |multiset(sorted)| == |sorted| && |multiset(candidates)| == |candidates|;
    var last := sorted[|sorted| - 1];
    assert last in multiset(sorted);
    assert last in candidates;
    forall k | k in candidates ensures |k| <= |last| {
      assert k in multiset(candidates);
      var i :| 0 <= i < |sorted| && sorted[i] == k;
      assert AtMost(k, last) by { AtMostReflexive(k); }
      PrefixesSortByLength(k, last, target);
    }
  }

  // ---------- the socket Mux ----------

  datatype MuxOption<H> = Route(prefix: string, srv: H) | DefaultHandler(srv: H)

  /** The route table the options leave: the last registration of a prefix counts. */
  function Routes<H>(opts: seq<MuxOption<H>>): map<string, H>
  {
    if opts == [] then map[] else
      var before, o := Routes(opts[..|opts| - 1]), opts[|opts| - 1];
      if o.Route? then before[o.prefix := o.srv] else before
  }

  function Default<H>(opts: seq<MuxOption<H>>): Option<H>
  {
    if opts == [] then None else
      var o := opts[|opts| - 1];
      if o.DefaultHandler? then Some(o.srv) else Default(opts[..|opts| - 1])
  }

  datatype Choice<+H> = Handler(srv: H) | NoHandlerFor(id: string)

  /** What `getHandler` promises. */
  ghost predicate IsChoice<H>(routes: map<string, H>, def: Option<H>, id: string, c: Choice<H>)
  {
    if id in routes then c == Handler(routes[id])
    else if exists k :: k in routes && k <= id then
      exists k :: Longest(routes.Keys, PrefixOf(id), k) && c == Handler(routes[k])
    else if def.Some? then c == Handler(def.value)
    else c == NoHandlerFor(id)
  }

  /** `WithMuxRoute` and `WithDefaultHandler`, option by option. */
  method ApplyOptions<H>(opts: seq<MuxOption<H>>) returns (table: map<string, H>, list: seq<string>, def: Option<H>)
    ensures table == Routes(opts) && def == Default(opts)
    ensures forall k :: k in list <==> k in table
  {
    table, list, def := map[], [], None;
    for i := 0 to |opts|
      invariant table == Routes(opts[..i]) && def == Default(opts[..i])
      invariant forall k :: k in list <==> k in table
    {
      assert opts[..i + 1][..i] == opts[..i];
      match opts[i] {
        case Route(prefix, srv) =>
          table := table[prefix := srv];
          list := list + [prefix];
        case DefaultHandler(srv) =>
          def := Some(srv);
      }
    }
    assert opts[..|opts|] == opts;
  }

  lemma SortKeepsElements(list: seq<string>)
    ensures forall k :: k in Sort(list) <==> k in list
  {
    var sorted := Sort(list);
    assert forall k :: k in sorted <==> k in multiset(sorted);
    assert forall k :: k in list <==> k in multiset(list);
  }

  /** `slices.Reverse`. */
  function Reversed(s: seq<string>): (r: seq<string>)
    ensures |r| == |s| && forall i :: 0 <= i < |s| ==> r[i] == s[|s| - 1 - i]
  {
    seq(|s|, i requires 0 <= i < |s| => s[|s| - 1 - i])
  }

  lemma ReversedDescends(s: seq<string>)
    requires Sorted(s)
    ensures forall k :: k in Reversed(s) <==> k in s
    ensures forall i, j :: 0 <= i < j < |s| ==> AtMost(Reversed(s)[j], Reversed(s)[i])
  {
    forall k | k in s ensures k in Reversed(s) {
      var i :| 0 <= i < |s| && s[i] == k;
      assert Reversed(s)[|s| - 1 - i] == k;
    }
  }

  class SocketMux<H(==)> {
    var routes: map<string, H>
    var ordered: seq<string>
    var defaultHandler: Option<H>

    /** The list has the registered prefixes, longer ones of a family first. */
    ghost predicate Valid()
      reads this
    {
      && (forall k :: k in ordered <==> k in routes)
      && (forall i, j :: 0 <= i < j < |ordered| ==> AtMost(ordered[j], ordered[i]))
    }

    /** `NewMux`: apply the options, then sort and reverse the prefix list. */
    constructor (opts: seq<MuxOption<H>>)
      ensures Valid()
      ensures routes == Routes(opts) && defaultHandler == Default(opts)
    {
      var table, list, def := ApplyOptions(opts);
      var sorted := Sort(list);
      SortKeepsElements(list);
      routes := table;
      ordered := Reversed(sorted);
      defaultHandler := def;
      new;
      ReversedDescends(sorted);
    }

    /** `getHandler`: the first prefix in the list is the longest that matches. */
    method GetHandler(id: string) returns (c: Choice<H>)
      requires Valid()
      ensures IsChoice(routes, defaultHandler, id, c)
    {
      if id in routes {
        return Handler(routes[id]);
      }
      for i := 0 to |ordered|
        invariant forall j :: 0 <= j < i ==> !(ordered[j] <= id)
      {
        if ordered[i] <= id {
          forall k | k in routes && PrefixOf(id)(k) ensures |k| <= |ordered[i]| {
            var j :| 0 <= j < |ordered| && ordered[j] == k;
            if i < j { PrefixesSortByLength(k, ordered[i], id); }
          }
          assert Longest(routes.Keys, PrefixOf(id), ordered[i]);
          return Handler(routes[ordered[i]]);
        }
      }
      if defaultHandler.Some? {
        return Handler(defaultHandler.value);
      }
      c := NoHandlerFor(id);
    }
  }

  /** The choice is a function of the table and the id, so the order in which routes with
      different prefixes were registered cannot matter. */
  lemma ChoiceUnique<H>(routes: map<string, H>, def: Option<H>, id: string, c: Choice<H>, c': Choice<H>)
    requires IsChoice(routes, def, id, c) && IsChoice(routes, def, id, c')
    ensures c == c'
  {
    if id !in routes && exists k :: k in routes && k <= id {
      var j :| Longest(routes.Keys, PrefixOf(id), j) && c == Handler(routes[j]);
      var k :| Longest(routes.Keys, PrefixOf(id), k) && c' == Handler(routes[k]);
      LongestUnique(routes.Keys, PrefixOf(id), id, j, k);
    }
  }

  lemma LookupUnique<H>(handlers: map<string, H>, def: Option<H>, target: string, r: Lookup<H>, r': Lookup<H>)
    requires IsLookup(handlers, def, target, r) && IsLookup(handlers, def, target, r')
    ensures r == r'
  {
    if target !in handlers && !(target == "" && def.Some?) && r.Found? && r'.Found? {
      LongestUnique(handlers.Keys, Below(target), target, r.matched, r'.matched);
    }
  }

  /** Swapping two registrations of different prefixes leaves the same table. */
  lemma RegistrationOrder<H>(before: seq<MuxOption<H>>, a: MuxOption<H>, b: MuxOption<H>)
    requires a.Route? && b.Route? && a.prefix != b.prefix
    ensures Routes(before + [a, b]) == Routes(before + [b, a])
  {
    forall x: MuxOption<H>, y: MuxOption<H> | x.Route? && y.Route?
      ensures Routes(before + [x, y]) == Routes(before)[x.prefix := x.srv][y.prefix := y.srv]
    {
      assert (before + [x, y])[..|before + [x, y]| - 1] == before + [x];
      assert (before + [x])[..|before + [x]| - 1] == before;
    }
  }
}
