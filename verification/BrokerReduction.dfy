/**
  The fan-out reduces to one atomic step.

  In the broker a fan-out is a loop of single sends, in whatever order the map of subscribers is ranged
  over, and subscribers, publishers and new subscriptions interleave with it.  Here the same broker runs
  with the fan-out as one step, and both reach the same states.
*/
module BrokerReduction {
  import opened Options
  import opened BrokerModel

  /** A step of the broker whose fan-out is atomic. */
  datatype Coarse = Whole(e: Event) | Plain(a: Action)

  /** One non-blocking send of e to every channel in cs. */
  function OfferAll(inbox: map<Chan, Inbox>, cs: set<Chan>, e: Event): map<Chan, Inbox> {
    map c <- inbox :: if c in cs then inbox[c].Offered(e) else inbox[c]
  }

  /** Taking e and sending it to every subscriber at once. */
  function Fanned(s: State, e: Event): State {
    s.(publishCh := if s.publishCh == [] then [] else s.publishCh[1..],
       taken := s.taken + [e],
       inbox := OfferAll(s.inbox, s.subs, e))
  }

  function CoarseStep(s: State, a: Coarse): Option<State> {
    match a
    case Whole(e) =>
      if s.loop == Idle && s.publishCh != [] && s.publishCh[0] == e then Some(Fanned(s, e)) else None
    case Plain(a) =>
      if a.TakePublish? || a.Offer? || a.EndFanOut? then None else Step(s, a)
  }

  function CoarseExec(s: State, acts: seq<Coarse>): Option<State>
    decreases |acts|
  {
    if acts == [] then Some(s) else
      match CoarseExec(s, acts[..|acts| - 1])
      case None => None
      case Some(t) => CoarseStep(t, acts[|acts| - 1])
  }

  ghost predicate CoarselyReachable(s: State) {
    exists acts :: CoarseExec(Init, acts) == Some(s)
  }

  lemma {:induction false} CoarseExecConcat(s: State, p: seq<Coarse>, q: seq<Coarse>)
    requires CoarseExec(s, p).Some?
    ensures CoarseExec(s, p + q) == CoarseExec(CoarseExec(s, p).value, q)
    decreases |q|
  {
    if q == [] {
      assert p + q == p;
    } else {
      var k := |q| - 1;
      assert (p + q)[..|p + q| - 1] == p + q[..k];
      CoarseExecConcat(s, p, q[..k]);
    }
  }

  // ----- from interleaved to atomic -----

  /** The state an unfinished fan-out leads to when its remaining sends happen now. */
  function Settled(s: State): State {
    match s.loop
    case FanOut(e, pending) => s.(loop := Idle, inbox := OfferAll(s.inbox, pending, e))
    case _ => s
  }

  /** Steps of other goroutines that leave the channels of cs alone. */
  predicate Spares(acts: seq<Coarse>, cs: set<Chan>) {
    forall a <- acts :: a.Plain? && a.a.Outside() && !(a.a.Receive? && a.a.c in cs)
  }

  /** Such steps neither see nor change the inbox of a channel they spare. */
  lemma {:induction false} SparedInboxIsFramed(s: State, acts: seq<Coarse>, c: Chan, i: Inbox)
    requires CoarseExec(s, acts).Some? && c in s.inbox && Spares(acts, {c})
    ensures var t := CoarseExec(s, acts).value;
      && c in t.inbox && t.subs == s.subs && t.loop == s.loop
      && CoarseExec(s.(inbox := s.inbox[c := i]), acts) == Some(t.(inbox := t.inbox[c := i]))
    decreases |acts|
  {
    if acts != [] {
      var front, a := acts[..|acts| - 1], acts[|acts| - 1];
      SparedInboxIsFramed(s, front, c, i);
      var t := CoarseExec(s, front).value;
      var u := Step(t, a.a).value;
      var t' := t.(inbox := t.inbox[c := i]);
      assert a in acts;
      if a.a.Receive? {
        assert a.a.c != c;
        assert t'.inbox[a.a.c := Received(t'.inbox[a.a.c])] == u.inbox[c := i];
      } else if a.a.Open? {
        assert t'.inbox[a.a.c := Inbox([], [])] == u.inbox[c := i];
      }
    }
  }

  /**
    Where a run in the middle of a fan-out stands: `before` leads to the state p in which the publication
    was taken, and from p fanned out at once, `after` leads to the settled state.
  */
  ghost predicate Witness(s: State, before: seq<Coarse>, after: seq<Coarse>) {
    if s.loop.FanOut? then
      && CoarseExec(Init, before).Some?
      && var p := CoarseExec(Init, before).value;
      && p.loop == Idle && p.publishCh != [] && p.publishCh[0] == s.loop.msg && p.subs == s.subs
      && (forall c <- s.loop.pending :: c in p.inbox && c in s.inbox && p.inbox[c] == s.inbox[c])
      && Spares(after, s.loop.pending)
      && CoarseExec(Fanned(p, s.loop.msg), after) == Some(Settled(s))
    else
      after == [] && CoarseExec(Init, before) == Some(s)
  }

  /** A receive from a channel still to be served moves in front of the fan-out. */
  lemma ReceiveMovesBefore(s: State, a: Action, before: seq<Coarse>, after: seq<Coarse>)
    requires Inv(s) && s.loop.FanOut? && Witness(s, before, after)
    requires a.Receive? && a.c in s.loop.pending && Step(s, a).Some?
    ensures Witness(Step(s, a).value, before + [Plain(a)], after)
  {
    var c, e := a.c, s.loop.msg;
    var p := CoarseExec(Init, before).value;
    var p' := Step(p, a).value;
    assert (before + [Plain(a)])[..|before|] == before;
    var i := Received(p.inbox[c]).Offered(e);
    var x := Fanned(p, e);
    forall b <- after ensures b.Plain? && b.a.Outside() && !(b.a.Receive? && b.a.c in {c}) {}
    SparedInboxIsFramed(x, after, c, i);
    assert Fanned(p', e).inbox == x.inbox[c := i];
    assert Fanned(p', e) == x.(inbox := x.inbox[c := i]);
    var s' := Step(s, a).value;
    assert Settled(s').inbox == Settled(s).inbox[c := i];
    assert Settled(s') == Settled(s).(inbox := Settled(s).inbox[c := i]);
  }

  /** Every other step of another goroutine stays after it. */
  lemma OutsideMovesAfter(s: State, a: Action, before: seq<Coarse>, after: seq<Coarse>)
    requires Inv(s) && s.loop.FanOut? && Witness(s, before, after)
    requires a.Outside() && !(a.Receive? && a.c in s.loop.pending) && Step(s, a).Some?
    ensures Witness(Step(s, a).value, before, after + [Plain(a)])
  {
    SettlingCommutes(s, a);
    assert (after + [Plain(a)])[..|after|] == after;
  }

  lemma SettlingCommutes(s: State, a: Action)
    requires Inv(s) && s.loop.FanOut? && Step(s, a).Some?
    requires a.Outside() && !(a.Receive? && a.c in s.loop.pending)
    ensures Step(Settled(s), a) == Some(Settled(Step(s, a).value))
  {
    var s' := Step(s, a).value;
    assert Settled(s).inbox.Keys == s.inbox.Keys;
    if a.Receive? {
      assert Settled(s).inbox[a.c := Received(s.inbox[a.c])] == Settled(s').inbox;
    } else if a.Open? {
      assert Settled(s).inbox[a.c := Inbox([], [])] == Settled(s').inbox;
    }
  }

  /** Every run is matched by a run whose fan-outs are atomic. */
  lemma {:induction false} Reduce(acts: seq<Action>) returns (before: seq<Coarse>, after: seq<Coarse>)
    requires Exec(Init, acts).Some?
    ensures Witness(Exec(Init, acts).value, before, after)
    decreases |acts|
  {
    before, after := [], [];
    if acts != [] {
      var front, a := acts[..|acts| - 1], acts[|acts| - 1];
      before, after := Reduce(front);
      RunKeepsInv(front);
      var s := Exec(Init, front).value;
      var s' := Step(s, a).value;
      if s.loop.FanOut? && a.Receive? && a.c in s.loop.pending {
        ReceiveMovesBefore(s, a, before, after);
        before := before + [Plain(a)];
      } else if s.loop.FanOut? && a.Outside() {
        OutsideMovesAfter(s, a, before, after);
        after := after + [Plain(a)];
      } else if a.Offer? {
        assert Settled(s').inbox == Settled(s).inbox;
      } else if a.EndFanOut? {
        var e := s.loop.msg;
        assert Settled(s).inbox == s.inbox;
        assert (before + [Whole(e)])[..|before|] == before;
        CoarseExecConcat(Init, before + [Whole(e)], after);
        before, after := before + [Whole(e)] + after, [];
      } else if a.TakePublish? {
        assert Settled(s') == Fanned(s, a.e);
      } else {
        assert (before + [Plain(a)])[..|before|] == before;
        before := before + [Plain(a)];
      }
    }
  }

  // ----- from atomic to interleaved, in any order -----

  function Members(order: seq<Chan>): set<Chan> {
    set c <- order
  }

  predicate Distinct(order: seq<Chan>) {
    forall i, j | 0 <= i < j < |order| :: order[i] != order[j]
  }

  /** The sends of a fan-out, in the order the map happens to be ranged over. */
  function Offers(order: seq<Chan>, e: Event): seq<Action> {
    seq(|order|, i requires 0 <= i < |order| => Offer(order[i], e))
  }

  lemma {:induction false} OffersInAnyOrder(s: State, order: seq<Chan>, e: Event)
    requires s.loop.FanOut? && s.loop.msg == e
    requires forall c <- order :: c in s.loop.pending && c in s.inbox
    requires Distinct(order)
    ensures Exec(s, Offers(order, e)) ==
      Some(s.(inbox := OfferAll(s.inbox, Members(order), e), loop := FanOut(e, s.loop.pending - Members(order))))
    decreases |order|
  {
    if order == [] {
      assert OfferAll(s.inbox, Members(order), e) == s.inbox;
      assert s.loop.pending - Members(order) == s.loop.pending;
    } else {
      var k := |order| - 1;
      var front, c := order[..k], order[k];
      OffersInAnyOrder(s, front, e);
      assert Offers(order, e)[..k] == Offers(front, e);
      assert Members(order) == Members(front) + {c};
      var t := Exec(s, Offers(front, e)).value;
      assert c !in front;
      assert t.inbox[c := t.inbox[c].Offered(e)] == OfferAll(s.inbox, Members(order), e);
      assert t.loop.pending - {c} == s.loop.pending - Members(order);
    }
  }

  /** Taking a publication and ranging over the subscribers in any order is the one atomic step. */
  lemma AnyOrderIsWhole(s: State, e: Event, order: seq<Chan>)
    requires Inv(s) && CoarseStep(s, Whole(e)).Some?
    requires Members(order) == s.subs
    requires Distinct(order)
    ensures Exec(s, [TakePublish(e)] + Offers(order, e) + [EndFanOut]) == CoarseStep(s, Whole(e))
  {
    var t := Step(s, TakePublish(e)).value;
    assert [TakePublish(e)][..0] == [];
    assert Exec(s, [TakePublish(e)]) == Some(t);
    forall c <- order ensures c in t.loop.pending && c in t.inbox {
      assert c in Members(order);
    }
    OffersInAnyOrder(t, order, e);
    ExecConcat(s, [TakePublish(e)], Offers(order, e));
    var acts := [TakePublish(e)] + Offers(order, e);
    assert (acts + [EndFanOut])[..|acts|] == acts;
    assert s.subs - s.subs == {};
  }

  lemma Enumerate(cs: set<Chan>) returns (order: seq<Chan>)
    ensures Members(order) == cs
    ensures Distinct(order)
  {
    if cs == {} {
      order := [];
    } else {
      var c :| c in cs;
      var rest := Enumerate(cs - {c});
      order := rest + [c];
      assert c !in Members(rest);
      assert Members(order) == Members(rest) + {c};
    }
  }

  lemma {:induction false} Expand(acts: seq<Coarse>) returns (fine: seq<Action>)
    requires CoarseExec(Init, acts).Some?
    ensures Exec(Init, fine) == CoarseExec(Init, acts)
    decreases |acts|
  {
    fine := [];
    if acts != [] {
      var front, a := acts[..|acts| - 1], acts[|acts| - 1];
      var prefix := Expand(front);
      RunKeepsInv(prefix);
      var s := CoarseExec(Init, front).value;
      match a
      case Plain(b) =>
        fine := prefix + [b];
        assert fine[..|prefix|] == prefix;
      case Whole(e) =>
        var order := Enumerate(s.subs);
        AnyOrderIsWhole(s, e, order);
        ExecConcat(Init, prefix, [TakePublish(e)] + Offers(order, e) + [EndFanOut]);
        fine := prefix + ([TakePublish(e)] + Offers(order, e) + [EndFanOut]);
    }
  }

  /**
    Outside a fan-out the two brokers reach exactly the same states: buffers, received events, subscribers
    and histories.  So neither the order of the sends nor what interleaves with them can be observed.
  */
  lemma FanOutIsAtomic(s: State)
    requires !s.loop.FanOut?
    ensures Reachable(s) <==> CoarselyReachable(s)
  {
    if Reachable(s) {
      var acts :| Exec(Init, acts) == Some(s);
      var before, after := Reduce(acts);
      assert CoarseExec(Init, before) == Some(s);
    }
    if CoarselyReachable(s) {
      var acts :| CoarseExec(Init, acts) == Some(s);
      var fine := Expand(acts);
      assert Exec(Init, fine) == Some(s);
    }
  }

  /** In the middle of a fan-out, finishing it now is atomically reachable. */
  lemma UnfinishedFanOutSettles(s: State)
    requires Reachable(s)
    ensures CoarselyReachable(Settled(s))
  {
    var acts :| Exec(Init, acts) == Some(s);
    var before, after := Reduce(acts);
    if s.loop.FanOut? {
      var e := s.loop.msg;
      assert (before + [Whole(e)])[..|before|] == before;
      CoarseExecConcat(Init, before + [Whole(e)], after);
      assert CoarseExec(Init, before + [Whole(e)] + after) == Some(Settled(s));
    } else {
      assert CoarseExec(Init, before) == Some(Settled(s));
    }
  }
}
