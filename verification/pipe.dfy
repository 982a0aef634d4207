/**
 PipeListener: a net.Listener over in-memory pipes. Accept, Dialer and Close share a few
 mutex-guarded fields and an unbuffered channel. The class below has those fields and the
 critical sections as methods; the state machine interleaves them, with the channel
 operations between them as steps of their own, for any number of calls.
 */
module PipeListener {
  import opened Order

  /** The channel of connections: not made yet, open, or closed. */
  datatype Channel = NilChannel | OpenChannel | ClosedChannel

  /** The guarded fields. `closedCh` is made by Accept and never closed, so nothing is ever
      received from it; it has no effect and is left out. */
  datatype Shared = Shared(closed: bool, conns: seq<nat>, ch: Channel)
  {
    function MakeChannel(): Shared
    {
      if ch.NilChannel? then this.(ch := OpenChannel) else this
    }

    /** The last critical section of Accept: keep the connection unless closed. */
    function Keep(conn: nat): Shared
    {
      if closed then this else this.(conns := conns + [conn])
    }

    /** Close, as far as the fields go. */
    function Shut(): Shared
    {
      if closed then this
      else Shared(true, [], if ch.NilChannel? then NilChannel else ClosedChannel)
    }
  }

  class Listener {
    var closed: bool
    var conns: seq<nat>
    var ch: Channel

    ghost function View(): Shared
      reads this
    {
      Shared(closed, conns, ch)
    }

    constructor ()
      ensures View() == Shared(false, [], NilChannel)
    {
      closed, conns, ch := false, [], NilChannel;
    }

    /** The first critical section of Accept. */
    method AcceptBegin()
      modifies this
      ensures View() == old(View()).MakeChannel()
    {
      if ch == NilChannel {
        ch := OpenChannel;
      }
    }

    /** The second: a connection received after Close is closed instead of returned. */
    method AcceptEnd(conn: nat) returns (kept: bool)
      modifies this
      ensures View() == old(View()).Keep(conn)
      ensures kept <==> !old(closed)
    {
      if closed {
        return false;
      }
      conns := conns + [conn];
      kept := true;
    }

    /** The critical section of Dialer. */
    method DialBegin() returns (ok: bool)
      modifies this
      ensures ok <==> !old(closed)
      ensures View() == if ok then old(View()).MakeChannel() else old(View())
    {
      if closed {
        return false;
      }
      if ch == NilChannel {
        ch := OpenChannel;
      }
      ok := true;
    }

    /** Close closes every connection it knows, once. */
    method Close() returns (ended: seq<nat>)
      modifies this
      ensures View() == old(View()).Shut()
      ensures ended == if old(closed) then [] else old(conns)
    {
      ended := [];
      if closed {
        return;
      }
      closed := true;
      if ch != NilChannel {
        ch := ClosedChannel;
      }
      for i := 0 to |conns|
        invariant closed && conns == old(conns) && ch == old(View()).Shut().ch
        invariant ended == conns[..i]
      {
        ended := ended + [conns[i]];
      }
      conns := [];
    }
  }

  // ---------- all interleavings ----------

  /** Where a call is. A connection is the number of its pipe. */
  datatype Call =
    | AcceptStart | AcceptWaiting | AcceptHolding(conn: nat)
    | AcceptReturned(conn: nat) | AcceptDropped(conn: nat) | AcceptRefused
    | DialStart | DialReady | DialSending(conn: nat)
    | DialReturned(conn: nat) | DialRefused | DialCancelled(conn: nat) | DialPanicked(conn: nat)
    | CloseStart | CloseReturned
  {
    predicate Fresh() { AcceptStart? || DialStart? || CloseStart? }
    predicate Took(c: nat) { this == AcceptHolding(c) || this == AcceptReturned(c) || this == AcceptDropped(c) }
    predicate Made(c: nat)
    {
      this == DialSending(c) || this == DialReturned(c) || this == DialCancelled(c) || this == DialPanicked(c)
    }
  }

  /** The listener, its calls, and a record of what happened: which call made a pipe, which
      one its far end was given to, what Accept returned, and which ends were closed. */
  datatype System = System(sh: Shared, calls: map<nat, Call>,
                           made: map<nat, nat>, given: map<nat, nat>, returned: seq<nat>, ended: set<nat>)

  datatype Event =
    | Begin(t: nat, call: Call)
    | AcceptMake(t: nat)       // first critical section of Accept
    | Handover(d: nat, a: nat) // unbuffered send meets receive
    | AcceptSeesClosed(t: nat) // receive from the closed channel
    | AcceptKeep(t: nat)       // second critical section of Accept
    | DialMake(t: nat)         // critical section of Dialer
    | DialPipe(t: nat, c: nat) // net.Pipe
    | DialCancel(t: nat)       // ctx.Done
    | DialPanic(t: nat)        // send on the closed channel
    | CloseAll(t: nat)         // Close

  predicate At(s: System, t: nat, c: Call)
  {
    t in s.calls && s.calls[t] == c
  }

  predicate Enabled(s: System, e: Event)
  {
    match e
    case Begin(t, call) => t !in s.calls && call.Fresh()
    case AcceptMake(t) => At(s, t, AcceptStart)
    case Handover(d, a) => d in s.calls && s.calls[d].DialSending? && At(s, a, AcceptWaiting) && s.sh.ch.OpenChannel?
    case AcceptSeesClosed(t) => At(s, t, AcceptWaiting) && s.sh.ch.ClosedChannel?
    case AcceptKeep(t) => t in s.calls && s.calls[t].AcceptHolding?
    case DialMake(t) => At(s, t, DialStart)
    case DialPipe(t, c) => At(s, t, DialReady) && c !in s.made
    case DialCancel(t) => t in s.calls && s.calls[t].DialSending?
    case DialPanic(t) => t in s.calls && s.calls[t].DialSending? && s.sh.ch.ClosedChannel?
    case CloseAll(t) => At(s, t, CloseStart)
  }

  function Elements(s: seq<nat>): set<nat> { set x | x in s }

  function Next(s: System, e: Event): System
    requires Enabled(s, e)
  {
    match e
    case Begin(t, call) => s.(calls := s.calls[t := call])
    case AcceptMake(t) => s.(sh := s.sh.MakeChannel(), calls := s.calls[t := AcceptWaiting])
    case Handover(d, a) =>
      var c := s.calls[d].conn;
      s.(calls := s.calls[d := DialReturned(c)][a := AcceptHolding(c)], given := s.given[c := a])
    case AcceptSeesClosed(t) => s.(calls := s.calls[t := AcceptRefused])
    case AcceptKeep(t) =>
      var c := s.calls[t].conn;
      if s.sh.closed
      then s.(sh := s.sh.Keep(c), calls := s.calls[t := AcceptDropped(c)], ended := s.ended + {c})
      else s.(sh := s.sh.Keep(c), calls := s.calls[t := AcceptReturned(c)], returned := s.returned + [c])
    case DialMake(t) =>
      if s.sh.closed then s.(calls := s.calls[t := DialRefused])
      else s.(sh := s.sh.MakeChannel(), calls := s.calls[t := DialReady])
    case DialPipe(t, c) => s.(calls := s.calls[t := DialSending(c)], made := s.made[c := t])
    case DialCancel(t) => s.(calls := s.calls[t := DialCancelled(s.calls[t].conn)])
    case DialPanic(t) => s.(calls := s.calls[t := DialPanicked(s.calls[t].conn)])
    case CloseAll(t) =>
      s.(sh := s.sh.Shut(), calls := s.calls[t := CloseReturned],
         ended := if s.sh.closed then s.ended else s.ended + Elements(s.sh.conns))
  }

  const Initial: System := System(Shared(false, [], NilChannel), map[], map[], map[], [], {})

  /** The state after a run, if every event of it could happen. */
  ghost function After(s: System, run: seq<Event>): (r: (bool, System))
    decreases |run|
  {
    if run == [] then (true, s) else
      var (ok, last) := After(s, run[..|run| - 1]);
      if ok && Enabled(last, run[|run| - 1]) then (true, Next(last, run[|run| - 1])) else (false, last)
  }

  ghost predicate Reachable(s: System)
  {
    exists run :: After(Initial, run) == (true, s)
  }

  // ---------- what every step keeps ----------

  datatype Side = Maker | Taker

  predicate Has(side: Side, call: Call, c: nat)
  {
    match side
    case Maker => call.Made(c)
    case Taker => call.Took(c)
  }

  /** The record names exactly the one call that made, or took, each pipe. */
  ghost predicate Ledger(side: Side, calls: map<nat, Call>, record: map<nat, nat>)
  {
    && (forall t, c :: t in calls && Has(side, calls[t], c) ==> c in record && record[c] == t)
    && (forall c :: c in record ==> record[c] in calls && Has(side, calls[record[c]], c))
  }

  ghost predicate Linked(calls: map<nat, Call>, made: map<nat, nat>, given: map<nat, nat>)
    requires Ledger(Maker, calls, made)
  {
    forall c :: c in given <==> c in made && calls[made[c]] == DialReturned(c)
  }

  /** Who made and who took each pipe: it is taken exactly when the dialer's send succeeded. */
  ghost predicate Handovers(s: System)
  {
    && Ledger(Maker, s.calls, s.made)
    && Ledger(Taker, s.calls, s.given)
    && Linked(s.calls, s.made, s.given)
  }

  /** Where each taken connection is: the call that took it. */
  ghost function Fates(calls: map<nat, Call>, given: map<nat, nat>): map<nat, Call>
    requires Ledger(Taker, calls, given)
  {
    map c | c in given :: calls[given[c]]
  }

  /** What became of the connections Accept took. */
  ghost predicate Decided(fates: map<nat, Call>, sh: Shared, returned: seq<nat>, ended: set<nat>)
  {
    && NoDuplicates(returned)
    && (forall c :: c in returned <==> c in fates && fates[c] == AcceptReturned(c))
    && (forall c :: c in fates && fates[c] == AcceptDropped(c) ==> c in ended)
    && (forall c :: c in ended ==> c in fates && fates[c] != AcceptHolding(c))
    && (sh.closed ==> sh.conns == [] && forall c :: c in returned ==> c in ended)
    && (!sh.closed ==> sh.conns == returned && ended == {})
  }

  ghost predicate Outcomes(s: System)
    requires Handovers(s)
  {
    Decided(Fates(s.calls, s.given), s.sh, s.returned, s.ended)
  }

  /** The channel exists while someone uses it, and Close has closed it under every dialer. */
  ghost predicate Channels(s: System)
  {
    && (!s.sh.closed ==> !s.sh.ch.ClosedChannel?)
    && (forall t :: t in s.calls && s.calls[t].AcceptWaiting? ==> !s.sh.ch.NilChannel?)
    && (forall t :: t in s.calls && (s.calls[t].DialReady? || s.calls[t].DialSending?) ==>
          !s.sh.ch.NilChannel? && (s.sh.closed ==> s.sh.ch.ClosedChannel?))
    && (forall t :: t in s.calls && s.calls[t].DialPanicked? ==> s.sh.closed)
  }

  ghost predicate Invariant(s: System)
  {
    Handovers(s) && Outcomes(s) && Channels(s)
  }

  /** A call moves without making or taking a pipe. */
  lemma LedgerMoves(side: Side, calls: map<nat, Call>, record: map<nat, nat>, t: nat, call: Call)
    requires Ledger(side, calls, record)
    requires forall c :: Has(side, call, c) <==> t in calls && Has(side, calls[t], c)
    ensures Ledger(side, calls[t := call], record)
  {}

  /** A call without a pipe gets one nobody had. */
  lemma LedgerAdds(side: Side, calls: map<nat, Call>, record: map<nat, nat>, t: nat, call: Call, c: nat)
    requires Ledger(side, calls, record) && c !in record
    requires forall x :: t in calls ==> !Has(side, calls[t], x)
    requires forall x :: Has(side, call, x) <==> x == c
    ensures Ledger(side, calls[t := call], record[c := t])
  {}

  /** A call that is not a successful dial moves to another that is none. */
  lemma LinkStays(s: System, t: nat, call: Call)
    requires Handovers(s) && Ledger(Maker, s.calls[t := call], s.made)
    requires !call.DialReturned? && !(t in s.calls && s.calls[t].DialReturned?)
    ensures Linked(s.calls[t := call], s.made, s.given)
  {}

  /** The calls after a send has met a receive. */
  ghost function Met(calls: map<nat, Call>, d: nat, a: nat, c: nat): map<nat, Call>
  {
    calls[d := DialReturned(c)][a := AcceptHolding(c)]
  }

  lemma MetMakers(calls: map<nat, Call>, made: map<nat, nat>, d: nat, a: nat, c: nat)
    requires Ledger(Maker, calls, made) && d in calls && calls[d] == DialSending(c) && a in calls
      && calls[a] == AcceptWaiting
    ensures Ledger(Maker, Met(calls, d, a, c), made)
  {
    LedgerMoves(Maker, calls, made, d, DialReturned(c));
    LedgerMoves(Maker, calls[d := DialReturned(c)], made, a, AcceptHolding(c));
  }

  lemma MetTakers(calls: map<nat, Call>, given: map<nat, nat>, d: nat, a: nat, c: nat)
    requires Ledger(Taker, calls, given) && d in calls && calls[d] == DialSending(c) && a in calls
      && calls[a] == AcceptWaiting
    requires c !in given
    ensures Ledger(Taker, Met(calls, d, a, c), given[c := a])
    ensures Fates(Met(calls, d, a, c), given[c := a]) == Fates(calls, given)[c := AcceptHolding(c)]
  {
    var mid := calls[d := DialReturned(c)];
    LedgerMoves(Taker, calls, given, d, DialReturned(c));
    LedgerAdds(Taker, mid, given, a, AcceptHolding(c), c);
    FatesStay(calls, given, d, DialReturned(c));
    FatesChange(mid, given, a, AcceptHolding(c), c);
  }

  lemma MetLinked(calls: map<nat, Call>, made: map<nat, nat>, given: map<nat, nat>, d: nat, a: nat, c: nat)
    requires Ledger(Maker, calls, made) && Linked(calls, made, given) && Ledger(Maker, Met(calls, d, a, c), made)
    requires d in calls && calls[d] == DialSending(c) && a in calls && calls[a] == AcceptWaiting
    ensures c !in given && Linked(Met(calls, d, a, c), made, given[c := a])
  {
    assert Has(Maker, calls[d], c);
    forall x ensures x in given[c := a] <==> x in made && Met(calls, d, a, c)[made[x]] == DialReturned(x) {
      if x in made {
        MakerAfter(calls, made, d, a, c, x);
      }
    }
  }

  lemma MakerAfter(calls: map<nat, Call>, made: map<nat, nat>, d: nat, a: nat, c: nat, x: nat)
    requires Ledger(Maker, calls, made) && d in calls && calls[d] == DialSending(c) && a in calls
      && calls[a] == AcceptWaiting
    requires x in made
    ensures made[x] in calls && Met(calls, d, a, c)[made[x]] == if x == c then DialReturned(c) else calls[made[x]]
  {
    assert Has(Maker, calls[made[x]], x) && Has(Maker, calls[d], c);
  }

  lemma HandoverKeeps(s: System, d: nat, a: nat, c: nat)
    requires Handovers(s) && At(s, d, DialSending(c)) && At(s, a, AcceptWaiting)
    ensures c !in s.given
    ensures Handovers(s.(calls := Met(s.calls, d, a, c), given := s.given[c := a]))
    ensures Fates(Met(s.calls, d, a, c), s.given[c := a]) == Fates(s.calls, s.given)[c := AcceptHolding(c)]
  {
    MetMakers(s.calls, s.made, d, a, c);
    MetLinked(s.calls, s.made, s.given, d, a, c);
    MetTakers(s.calls, s.given, d, a, c);
  }

  lemma PipeKeeps(s: System, t: nat, c: nat)
    requires Handovers(s) && At(s, t, DialReady) && c !in s.made
    ensures Handovers(s.(calls := s.calls[t := DialSending(c)], made := s.made[c := t]))
  {
    LedgerAdds(Maker, s.calls, s.made, t, DialSending(c), c);
    LedgerMoves(Taker, s.calls, s.given, t, DialSending(c));
    PipeLinked(s.calls, s.made, s.given, t, c);
  }

  lemma PipeLinked(calls: map<nat, Call>, made: map<nat, nat>, given: map<nat, nat>, t: nat, c: nat)
    requires Ledger(Maker, calls, made) && Linked(calls, made, given) && t in calls && calls[t] == DialReady
      && c !in made
    requires Ledger(Maker, calls[t := DialSending(c)], made[c := t])
    ensures Linked(calls[t := DialSending(c)], made[c := t], given)
  {
    forall x | x in made ensures made[x] != t {
      assert Has(Maker, calls[made[x]], x);
    }
  }

  lemma MoveKeeps(s: System, t: nat, call: Call)
    requires Handovers(s)
    requires !call.DialReturned? && !(t in s.calls && s.calls[t].DialReturned?)
    requires forall c :: call.Made(c) <==> t in s.calls && s.calls[t].Made(c)
    requires forall c :: call.Took(c) <==> t in s.calls && s.calls[t].Took(c)
    ensures Handovers(s.(calls := s.calls[t := call]))
  {
    LedgerMoves(Maker, s.calls, s.made, t, call);
    LedgerMoves(Taker, s.calls, s.given, t, call);
    LinkStays(s, t, call);
  }

  lemma KeepsHandovers(s: System, e: Event)
    requires Handovers(s) && Enabled(s, e)
    ensures Handovers(Next(s, e))
  {
    if e.Handover? {
      HandoverKeeps(s, e.d, e.a, s.calls[e.d].conn);
    } else if e.DialPipe? {
      PipeKeeps(s, e.t, e.c);
    } else {
      IdleHandovers(s, e);
    }
  }

  /** The call that another step leaves made, took and returned what it had before. */
  lemma IdleMove(s: System, e: Event)
    requires Enabled(s, e) && !e.Handover? && !e.DialPipe?
    ensures e.t in Next(s, e).calls
    ensures Next(s, e) == s.(sh := Next(s, e).sh, calls := s.calls[e.t := Next(s, e).calls[e.t]],
      returned := Next(s, e).returned, ended := Next(s, e).ended)
  {}

  lemma IdleCall(s: System, e: Event, call: Call)
    requires Enabled(s, e) && !e.Handover? && !e.DialPipe? && e.t in Next(s, e).calls && call == Next(s, e).calls[e.t]
    ensures !call.DialReturned? && !(e.t in s.calls && s.calls[e.t].DialReturned?)
    ensures forall c :: call.Made(c) <==> e.t in s.calls && s.calls[e.t].Made(c)
    ensures forall c :: call.Took(c) <==> e.t in s.calls && s.calls[e.t].Took(c)
  {}

  /** The other steps neither make nor hand over a pipe. */
  lemma IdleHandovers(s: System, e: Event)
    requires Handovers(s) && Enabled(s, e) && !e.Handover? && !e.DialPipe?
    ensures Handovers(Next(s, e))
  {
    var s' := Next(s, e);
    IdleMove(s, e);
    IdleCall(s, e, s'.calls[e.t]);
    MoveKeeps(s, e.t, s'.calls[e.t]);
  }

  /** Moving a call that has taken nothing changes no fate. */
  lemma FatesStay(calls: map<nat, Call>, given: map<nat, nat>, t: nat, call: Call)
    requires Ledger(Taker, calls, given) && Ledger(Taker, calls[t := call], given)
    requires forall c :: t in calls ==> !Has(Taker, calls[t], c)
    ensures Fates(calls[t := call], given) == Fates(calls, given)
  {
    var before, after := Fates(calls, given), Fates(calls[t := call], given);
    forall c | c in given ensures after[c] == before[c] {
      assert Has(Taker, calls[given[c]], c);
    }
    assert after.Keys == given.Keys == before.Keys;
  }

  /** A call that takes, or has taken, `c` decides the fate of `c` and of nothing else. */
  lemma FatesChange(calls: map<nat, Call>, given: map<nat, nat>, t: nat, call: Call, c: nat)
    requires Ledger(Taker, calls, given) && Ledger(Taker, calls[t := call], given[c := t])
    requires forall x :: t in calls && Has(Taker, calls[t], x) ==> x == c
    ensures Fates(calls[t := call], given[c := t]) == Fates(calls, given)[c := call]
  {
    forall x | x in given && x != c ensures given[x] != t {
      assert Has(Taker, calls[given[x]], x);
    }
  }

  lemma Holds(f: map<nat, Call>, sh: Shared, returned: seq<nat>, ended: set<nat>, c: nat)
    requires Decided(f, sh, returned, ended) && c !in f
    ensures Decided(f[c := AcceptHolding(c)], sh, returned, ended)
  {}

  lemma Returns(f: map<nat, Call>, sh: Shared, returned: seq<nat>, ended: set<nat>, c: nat)
    requires Decided(f, sh, returned, ended) && c in f && f[c] == AcceptHolding(c) && !sh.closed
    ensures Decided(f[c := AcceptReturned(c)], sh.Keep(c), returned + [c], ended)
  {
    assert c !in returned;
    assert forall x :: x in returned + [c] <==> x in returned || x == c;
  }

  lemma Drops(f: map<nat, Call>, sh: Shared, returned: seq<nat>, ended: set<nat>, c: nat)
    requires Decided(f, sh, returned, ended) && c in f && f[c] == AcceptHolding(c) && sh.closed
    ensures Decided(f[c := AcceptDropped(c)], sh.Keep(c), returned, ended + {c})
  {
    assert c !in returned;
  }

  lemma Shuts(f: map<nat, Call>, sh: Shared, returned: seq<nat>, ended: set<nat>)
    requires Decided(f, sh, returned, ended)
    ensures Decided(f, sh.Shut(), returned, if sh.closed then ended else ended + Elements(sh.conns))
  {}

  lemma HandoverOutcomes(s: System, d: nat, a: nat, c: nat)
    requires Handovers(s) && Outcomes(s) && At(s, d, DialSending(c)) && At(s, a, AcceptWaiting)
    ensures var s' := s.(calls := Met(s.calls, d, a, c), given := s.given[c := a]);
      Handovers(s') && Outcomes(s')
  {
    HandoverKeeps(s, d, a, c);
    Holds(Fates(s.calls, s.given), s.sh, s.returned, s.ended, c);
  }

  lemma FateDecided(s: System, t: nat, c: nat, call: Call)
    requires Handovers(s) && At(s, t, AcceptHolding(c)) && Ledger(Taker, s.calls[t := call], s.given)
    ensures c in s.given && Fates(s.calls, s.given)[c] == AcceptHolding(c)
    ensures Fates(s.calls[t := call], s.given) == Fates(s.calls, s.given)[c := call]
  {
    FateMoves(s.calls, s.given, t, c, call);
  }

  lemma FateMoves(calls: map<nat, Call>, given: map<nat, nat>, t: nat, c: nat, call: Call)
    requires Ledger(Taker, calls, given) && Ledger(Taker, calls[t := call], given)
    requires t in calls && calls[t] == AcceptHolding(c)
    ensures c in given && Fates(calls, given)[c] == AcceptHolding(c)
    ensures Fates(calls[t := call], given) == Fates(calls, given)[c := call]
  {
    assert Has(Taker, calls[t], c);
    SameUpdate(given, c, t);
    FatesChange(calls, given, t, call, c);
  }

  lemma SameUpdate(m: map<nat, nat>, k: nat, v: nat)
    requires k in m && m[k] == v
    ensures m[k := v] == m
  {}

  lemma KeepOutcomes(s: System, t: nat, c: nat)
    requires Handovers(s) && Outcomes(s) && At(s, t, AcceptHolding(c))
    requires Handovers(Next(s, AcceptKeep(t)))
    ensures Outcomes(Next(s, AcceptKeep(t)))
  {
    FateDecided(s, t, c, Next(s, AcceptKeep(t)).calls[t]);
    if s.sh.closed {
      Drops(Fates(s.calls, s.given), s.sh, s.returned, s.ended, c);
    } else {
      Returns(Fates(s.calls, s.given), s.sh, s.returned, s.ended, c);
    }
  }

  lemma KeepsOutcomes(s: System, e: Event)
    requires Handovers(s) && Outcomes(s) && Enabled(s, e)
    ensures Handovers(Next(s, e)) && Outcomes(Next(s, e))
  {
    KeepsHandovers(s, e);
    match e
    case Handover(d, a) => HandoverOutcomes(s, d, a, s.calls[d].conn);
    case AcceptKeep(t) => KeepOutcomes(s, t, s.calls[t].conn);
    case CloseAll(t) =>
      FatesStay(s.calls, s.given, t, CloseReturned);
      Shuts(Fates(s.calls, s.given), s.sh, s.returned, s.ended);
    case _ => IdleOutcomes(s, e);
  }

  /** The other steps decide nothing. */
  lemma IdleOutcomes(s: System, e: Event)
    requires Handovers(s) && Outcomes(s) && Enabled(s, e) && Handovers(Next(s, e))
    requires !e.Handover? && !e.AcceptKeep? && !e.CloseAll?
    ensures Outcomes(Next(s, e))
  {
    var next := Next(s, e);
    IdleRest(s, e, next);
    FatesStay(s.calls, s.given, e.t, next.calls[e.t]);
    DecidedStays(Fates(s.calls, s.given), s.sh, next.sh, s.returned, s.ended);
  }

  /** A step that is no handover, keeps nothing and does not close leaves the connections. */
  lemma IdleRest(s: System, e: Event, next: System)
    requires Enabled(s, e) && next == Next(s, e) && !e.Handover? && !e.AcceptKeep? && !e.CloseAll?
    ensures e.t in next.calls && next.calls == s.calls[e.t := next.calls[e.t]] && next.given == s.given
    ensures next.sh.closed == s.sh.closed && next.sh.conns == s.sh.conns
    ensures next.returned == s.returned && next.ended == s.ended
    ensures forall c :: e.t in s.calls ==> !Has(Taker, s.calls[e.t], c)
  {}

  lemma DecidedStays(f: map<nat, Call>, sh: Shared, sh': Shared, returned: seq<nat>, ended: set<nat>)
    requires Decided(f, sh, returned, ended) && sh'.closed == sh.closed && sh'.conns == sh.conns
    ensures Decided(f, sh', returned, ended)
  {}

  /** Calls that neither wait, dial nor panic put no demand on the channel. */
  lemma ChannelsMove(s: System, t: nat, call: Call)
    requires Channels(s)
    requires call.AcceptWaiting? ==> !s.sh.ch.NilChannel?
    requires call.DialReady? || call.DialSending? ==> !s.sh.ch.NilChannel? && (s.sh.closed ==> s.sh.ch.ClosedChannel?)
    requires call.DialPanicked? ==> s.sh.closed
    ensures Channels(s.(calls := s.calls[t := call]))
  {}

  lemma ChannelsShared(s: System, sh: Shared)
    requires Channels(s) && (sh == s.sh.MakeChannel() || sh == s.sh.Shut())
    ensures Channels(s.(sh := sh))
  {}

  lemma KeepsChannels(s: System, e: Event)
    requires Channels(s) && Enabled(s, e)
    ensures Channels(Next(s, e))
  {
    match e
    case Handover(d, a) =>
      var c := s.calls[d].conn;
      ChannelsMove(s, d, DialReturned(c));
      ChannelsMove(s.(calls := s.calls[d := DialReturned(c)]), a, AcceptHolding(c));
    case AcceptMake(t) =>
      ChannelsShared(s, s.sh.MakeChannel());
      ChannelsMove(s.(sh := s.sh.MakeChannel()), t, AcceptWaiting);
    case DialMake(t) =>
      if s.sh.closed {
        ChannelsMove(s, t, DialRefused);
      } else {
        ChannelsShared(s, s.sh.MakeChannel());
        ChannelsMove(s.(sh := s.sh.MakeChannel()), t, DialReady);
      }
    case CloseAll(t) =>
      ChannelsShared(s, s.sh.Shut());
      ChannelsMove(s.(sh := s.sh.Shut()), t, CloseReturned);
    case _ => ChannelsMove(s, e.t, Next(s, e).calls[e.t]);
  }

  lemma {:induction false} InvariantAlways(run: seq<Event>)
    requires After(Initial, run).0
    ensures Invariant(After(Initial, run).1)
    decreases |run|
  {
    if run != [] {
      InvariantAlways(run[..|run| - 1]);
      var s, e := After(Initial, run[..|run| - 1]).1, run[|run| - 1];
      KeepsOutcomes(s, e);
      KeepsChannels(s, e);
    }
  }

  // ---------- what follows for every run ----------

  /** A pipe whose dialer succeeded was received by exactly one Accept call, and no Accept
      call ever receives a pipe whose dialer did not succeed. */
  lemma ReceivedExactlyOnce(s: System, c: nat)
    requires Reachable(s)
    ensures (exists d :: At(s, d, DialReturned(c))) <==> (exists a :: a in s.calls && s.calls[a].Took(c))
    ensures forall a, b :: a in s.calls && b in s.calls && s.calls[a].Took(c) && s.calls[b].Took(c) ==> a == b
    ensures forall d, b :: d in s.calls && b in s.calls && s.calls[d].Made(c) && s.calls[b].Made(c) ==> d == b
  {
    var run :| After(Initial, run) == (true, s);
    InvariantAlways(run);
    DialedIffTaken(s, c);
    OneOwner(Taker, s.calls, s.given, c);
    OneOwner(Maker, s.calls, s.made, c);
  }

  lemma DialedIffTaken(s: System, c: nat)
    requires Handovers(s)
    ensures (exists d :: At(s, d, DialReturned(c))) <==> (exists a :: a in s.calls && s.calls[a].Took(c))
  {
    if a :| a in s.calls && s.calls[a].Took(c) {
      assert Has(Taker, s.calls[a], c) && c in s.given;
      assert At(s, s.made[c], DialReturned(c));
    }
    if d :| At(s, d, DialReturned(c)) {
      assert Has(Maker, s.calls[d], c) && c in s.given;
      assert Has(Taker, s.calls[s.given[c]], c);
    }
  }

  lemma OneOwner(side: Side, calls: map<nat, Call>, record: map<nat, nat>, c: nat)
    requires Ledger(side, calls, record)
    ensures forall a, b :: a in calls && b in calls ==>
      ((side.Taker? && calls[a].Took(c) && calls[b].Took(c)) || (side.Maker? && calls[a].Made(c) && calls[b].Made(c)))
      ==> a == b
  {
    forall a | a in calls && Has(side, calls[a], c) ensures c in record && record[c] == a {}
  }

  /** While the listener is open it holds exactly the connections Accept has returned, in
      order, and none has been closed. Once it is closed, every connection Accept ever
      returned, and every one it received and did not return, has been closed. */
  lemma ConnectionsAccountedFor(s: System)
    requires Reachable(s)
    ensures forall c :: c in s.returned <==> exists t :: At(s, t, AcceptReturned(c))
    ensures NoDuplicates(s.returned)
    ensures !s.sh.closed ==> s.sh.conns == s.returned && s.ended == {}
    ensures s.sh.closed ==> forall t, c :: At(s, t, AcceptReturned(c)) || At(s, t, AcceptDropped(c)) ==> c in s.ended
  {
    var run :| After(Initial, run) == (true, s);
    InvariantAlways(run);
    forall t, c | At(s, t, AcceptReturned(c)) || At(s, t, AcceptDropped(c))
      ensures s.calls[t].AcceptReturned? ==> c in s.returned
      ensures s.calls[t].AcceptDropped? ==> c in s.ended
    {
      TakenIsDecided(s, t, c);
    }
    forall c | c in s.returned ensures exists t :: At(s, t, AcceptReturned(c)) {
      assert At(s, s.given[c], AcceptReturned(c));
    }
  }

  lemma TakenIsDecided(s: System, t: nat, c: nat)
    requires Handovers(s) && Outcomes(s) && t in s.calls
    ensures s.calls[t] == AcceptReturned(c) ==> c in s.returned
    ensures s.calls[t] == AcceptDropped(c) ==> c in s.ended
  {
    if s.calls[t].Took(c) {
      assert Has(Taker, s.calls[t], c);
      assert Fates(s.calls, s.given)[c] == s.calls[t];
    }
  }

  /** After Close, no step returns a connection, hands one over, or reopens the listener. */
  lemma {:induction false} NothingAfterClose(s: System, run: seq<Event>)
    requires Reachable(s) && s.sh.closed && After(s, run).0
    ensures var s' := After(s, run).1;
      s'.sh.closed && s'.returned == s.returned && s'.given == s.given && s'.sh.conns == [] && Reachable(s')
    decreases |run|
  {
    if run == [] {
      var past :| After(Initial, past) == (true, s);
      InvariantAlways(past);
    } else {
      NothingAfterClose(s, run[..|run| - 1]);
      var mid, e := After(s, run[..|run| - 1]).1, run[|run| - 1];
      var past :| After(Initial, past) == (true, mid);
      InvariantAlways(past);
      ReachableNext(mid, e);
    }
  }

  lemma ReachableNext(s: System, e: Event)
    requires Reachable(s) && Enabled(s, e)
    ensures Reachable(Next(s, e))
  {
    var past :| After(Initial, past) == (true, s);
    assert (past + [e])[..|past|] == past;
    assert After(Initial, past + [e]) == (true, Next(s, e));
  }

  lemma StaysWaiting(s: System, t: nat, e: Event)
    requires Invariant(s) && s.sh.closed && s.sh.ch.OpenChannel? && At(s, t, AcceptWaiting) && Enabled(s, e)
    ensures At(Next(s, e), t, AcceptWaiting) && Next(s, e).sh.ch.OpenChannel?
  {}

  /** Accept on a listener whose channel was first made after Close waits forever: whatever
      happens, the call is never woken. */
  lemma {:induction false} AcceptStuck(s: System, t: nat, run: seq<Event>)
    requires Reachable(s) && s.sh.closed && s.sh.ch.OpenChannel? && At(s, t, AcceptWaiting)
    requires After(s, run).0
    ensures At(After(s, run).1, t, AcceptWaiting) && After(s, run).1.sh.ch.OpenChannel?
    decreases |run|
  {
    if run != [] {
      AcceptStuck(s, t, run[..|run| - 1]);
      NothingAfterClose(s, run[..|run| - 1]);
      var mid := After(s, run[..|run| - 1]).1;
      var past :| After(Initial, past) == (true, mid);
      InvariantAlways(past);
      StaysWaiting(mid, t, run[|run| - 1]);
    }
  }

  /** It happens: Close first, Accept afterwards. */
  lemma StuckReachable() returns (s: System)
    ensures Reachable(s) && s.sh.closed && s.sh.ch.OpenChannel? && At(s, 1, AcceptWaiting)
  {
    assert After(Initial, []) == (true, Initial);
    s := Take(Initial, Begin(0, CloseStart));
    s := Take(s, CloseAll(0));
    s := Take(s, Begin(1, AcceptStart));
    s := Take(s, AcceptMake(1));
  }

  /** Close while a dialer is sending lets it panic. */
  lemma PanicReachable() returns (s: System)
    ensures Reachable(s) && At(s, 1, DialPanicked(0))
  {
    assert After(Initial, []) == (true, Initial);
    s := Take(Initial, Begin(1, DialStart));
    s := Take(s, DialMake(1));
    s := Take(s, DialPipe(1, 0));
    s := Take(s, Begin(0, CloseStart));
    s := Take(s, CloseAll(0));
    s := Take(s, DialPanic(1));
  }

  /** A dialer meets an accepting call: both return, with the connection between them. */
  lemma MeetingReachable() returns (s: System)
    ensures Reachable(s) && At(s, 0, AcceptReturned(7)) && At(s, 1, DialReturned(7))
    ensures s.sh.conns == s.returned == [7]
  {
    s := MeetingHeld();
    s := Take(s, AcceptKeep(0));
  }

  lemma MeetingHeld() returns (s: System)
    ensures Reachable(s) && At(s, 0, AcceptHolding(7)) && At(s, 1, DialReturned(7)) && s.returned == []
    ensures s.calls.Keys == {0, 1} && s.sh == Shared(false, [], OpenChannel) && s.ended == {}
  {
    assert After(Initial, []) == (true, Initial);
    s := Take(Initial, Begin(0, AcceptStart));
    s := Take(s, AcceptMake(0));
    s := Take(s, Begin(1, DialStart));
    s := Take(s, DialMake(1));
    s := Take(s, DialPipe(1, 7));
    s := Take(s, Handover(1, 0));
  }

  /** A connection received right before Close is dropped, and closed. */
  lemma DropReachable() returns (s: System)
    ensures Reachable(s) && At(s, 0, AcceptDropped(7)) && At(s, 1, DialReturned(7)) && s.ended == {7}
  {
    s := MeetingHeld();
    s := Take(s, Begin(2, CloseStart));
    s := Take(s, CloseAll(2));
    s := Take(s, AcceptKeep(0));
  }

  /** Close lets a waiting Accept return without a connection, and a later dialer be refused. */
  lemma RefusalsReachable() returns (s: System)
    ensures Reachable(s) && At(s, 0, AcceptRefused) && At(s, 1, DialRefused) && At(s, 2, CloseReturned)
  {
    assert After(Initial, []) == (true, Initial);
    s := Take(Initial, Begin(0, AcceptStart));
    s := Take(s, AcceptMake(0));
    s := Take(s, Begin(2, CloseStart));
    s := Take(s, CloseAll(2));
    s := Take(s, AcceptSeesClosed(0));
    s := Take(s, Begin(1, DialStart));
    s := Take(s, DialMake(1));
  }

  /** A dialer nobody accepts can be cancelled. */
  lemma CancelReachable() returns (s: System)
    ensures Reachable(s) && At(s, 1, DialCancelled(7)) && !s.sh.closed
  {
    assert After(Initial, []) == (true, Initial);
    s := Take(Initial, Begin(1, DialStart));
    s := Take(s, DialMake(1));
    s := Take(s, DialPipe(1, 7));
    s := Take(s, DialCancel(1));
  }

  lemma Take(s: System, e: Event) returns (s': System)
    requires Reachable(s) && Enabled(s, e)
    ensures s' == Next(s, e) && Reachable(s')
  {
    ReachableNext(s, e);
    s' := Next(s, e);
  }

  /** A waiting Accept or a sending dialer of a closed listener: with the channel closed
      under it, Accept can always return, and a dialer can panic. */
  lemma ClosedChannelOutcomes(s: System, t: nat)
    requires Reachable(s) && s.sh.closed && t in s.calls
    ensures s.calls[t].AcceptWaiting? ==> (Enabled(s, AcceptSeesClosed(t)) <==> !s.sh.ch.OpenChannel?)
    ensures s.calls[t].DialSending? ==> Enabled(s, DialPanic(t)) && forall a :: !Enabled(s, Handover(t, a))
  {
    var run :| After(Initial, run) == (true, s);
    InvariantAlways(run);
  }
}
