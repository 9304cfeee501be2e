/**
  Subscribers are isolated from each other: taking some of them out of a run, with everything they did,
  leaves a run in which the others fare exactly as before; and none of them can hold up the loop.
*/
module BrokerIsolation {
  import opened Options
  import opened BrokerModel
  import opened BrokerReduction

  function Kept(q: seq<Chan>, gone: set<Chan>): seq<Chan> {
    if q == [] then [] else (if q[0] in gone then [] else [q[0]]) + Kept(q[1..], gone)
  }

  /** The broker as if the channels of gone had never been. */
  function Without(s: State, gone: set<Chan>): State {
    s.(subCh := Kept(s.subCh, gone),
       unsubCh := Kept(s.unsubCh, gone),
       subs := s.subs - gone,
       loop := if s.loop.FanOut? then FanOut(s.loop.msg, s.loop.pending - gone) else s.loop,
       clients := s.clients - gone,
       inbox := s.inbox - gone)
  }

  /** The action is about the channel c: its subscription, its cancellation, a send to it or a receive from it. */
  predicate Concerns(a: Action, c: Chan) {
    !a.Publish? && !a.TakePublish? && !a.EndFanOut? && !a.Stop? && a.c == c
  }

  predicate ConcernsAny(a: Action, cs: set<Chan>) {
    exists c <- cs :: Concerns(a, c)
  }

  /** The run without the actions of some channels. */
  function Erase(acts: seq<Action>, gone: set<Chan>): seq<Action>
    decreases |acts|
  {
    if acts == [] then [] else
      Erase(acts[..|acts| - 1], gone) + if ConcernsAny(acts[|acts| - 1], gone) then [] else [acts[|acts| - 1]]
  }

  lemma KeptNone(q: seq<Chan>, gone: set<Chan>)
    requires |q| <= LOOP_CAPACITY && (q == [] || q[0] in gone)
    ensures Kept(q, gone) == []
  {
  }

  lemma KeptAll(q: seq<Chan>, gone: set<Chan>)
    requires |q| <= LOOP_CAPACITY && (q == [] || q[0] !in gone)
    ensures Kept(q, gone) == q
  {
  }

  lemma MapWithout<T>(m: map<Chan, T>, c: Chan, x: T, gone: set<Chan>)
    ensures c in gone ==> m[c := x] - gone == m - gone
    ensures c !in gone ==> m[c := x] - gone == (m - gone)[c := x]
  {
  }

  /** A capacity-one channel receives c: nothing shows when c is gone, else c is received. */
  lemma KeptSend(q: seq<Chan>, c: Chan, gone: set<Chan>)
    requires |q| < LOOP_CAPACITY
    ensures Kept(q, gone) == [] && Kept(q + [c], gone) == if c in gone then [] else [c]
  {
    assert q + [c] == [c];
    if c in gone { KeptNone([c], gone); } else { KeptAll([c], gone); }
  }

  /** It gives up its only element c. */
  lemma KeptTake(q: seq<Chan>, c: Chan, gone: set<Chan>)
    requires |q| <= LOOP_CAPACITY && q != [] && q[0] == c
    ensures Kept(q[1..], gone) == [] && Kept(q, gone) == if c in gone then [] else [c]
  {
    assert q == [c] && q[1..] == [];
    if c in gone { KeptNone(q, gone); } else { KeptAll(q, gone); }
  }

  /** An erased action leaves the rest as it was. */
  lemma ErasedStepIsInvisible(s: State, a: Action, c: Chan, gone: set<Chan>)
    requires LoopInv(s) && Step(s, a).Some? && Concerns(a, c) && c in gone
    ensures Without(Step(s, a).value, gone) == Without(s, gone)
  {
    var t := Step(s, a).value;
    if c in t.clients { MapWithout(s.clients, c, t.clients[c], gone); }
    if c in t.inbox { MapWithout(s.inbox, c, t.inbox[c], gone); }
    match a
    case SendSub(_) => KeptSend(s.subCh, c, gone);
    case SendUnsub(_) => KeptSend(s.unsubCh, c, gone);
    case TakeSub(_) =>
      KeptTake(s.subCh, c, gone);
      assert t.subs - gone == s.subs - gone;
    case TakeUnsub(_) =>
      KeptTake(s.unsubCh, c, gone);
      assert t.subs - gone == s.subs - gone;
    case Offer(_, _) =>
      assert t.loop.pending - gone == s.loop.pending - gone;
    case _ =>
  }

  /** A kept step of a caller or subscriber. */
  lemma KeptOutsideStep(s: State, a: Action, gone: set<Chan>)
    requires LoopInv(s) && Step(s, a).Some? && a.Outside() && (a.Publish? || a.c !in gone)
    ensures Step(Without(s, gone), a) == Some(Without(Step(s, a).value, gone))
  {
    var t := Step(s, a).value;
    if !a.Publish? {
      var c := a.c;
      if c in t.clients { MapWithout(s.clients, c, t.clients[c], gone); }
      if c in t.inbox { MapWithout(s.inbox, c, t.inbox[c], gone); }
      if a.SendSub? {
        KeptSend(s.subCh, c, gone);
        assert Kept(s.subCh, gone) + [c] == Kept(t.subCh, gone);
      }
      if a.SendUnsub? {
        KeptSend(s.unsubCh, c, gone);
        assert Kept(s.unsubCh, gone) + [c] == Kept(t.unsubCh, gone);
      }
    }
  }

  /** A kept step of the loop about one channel. */
  lemma KeptLoopStep(s: State, a: Action, gone: set<Chan>)
    requires LoopInv(s) && Step(s, a).Some? && (a.TakeSub? || a.TakeUnsub? || a.Offer?) && a.c !in gone
    ensures Step(Without(s, gone), a) == Some(Without(Step(s, a).value, gone))
  {
    var t, c := Step(s, a).value, a.c;
    var u := Without(s, gone);
    if c in t.clients { MapWithout(s.clients, c, t.clients[c], gone); }
    if c in t.inbox { MapWithout(s.inbox, c, t.inbox[c], gone); }
    match a
    case TakeSub(_) =>
      KeptTake(s.subCh, c, gone);
      assert t.subs - gone == u.subs + {c};
    case TakeUnsub(_) =>
      KeptTake(s.unsubCh, c, gone);
      assert t.subs - gone == u.subs - {c};
    case Offer(_, _) =>
      assert t.loop.pending - gone == u.loop.pending - {c};
  }

  /** A kept step of the loop about no channel in particular. */
  lemma KeptGeneralStep(s: State, a: Action, gone: set<Chan>)
    requires LoopInv(s) && Step(s, a).Some? && (a.TakePublish? || a.EndFanOut? || a.Stop?)
    ensures Step(Without(s, gone), a) == Some(Without(Step(s, a).value, gone))
  {
  }

  lemma KeptStep(s: State, a: Action, gone: set<Chan>)
    requires LoopInv(s) && Step(s, a).Some? && !ConcernsAny(a, gone)
    ensures Step(Without(s, gone), a) == Some(Without(Step(s, a).value, gone))
  {
    if a.TakePublish? || a.EndFanOut? || a.Stop? {
      KeptGeneralStep(s, a, gone);
    } else {
      assert a.Publish? || Concerns(a, a.c);
      if a.Outside() { KeptOutsideStep(s, a, gone); } else { KeptLoopStep(s, a, gone); }
    }
  }

  /**
    Erasing any channels from any run leaves an enabled run that ends in the same state without them: every
    other channel is buffered, received and subscribed exactly as before, and so are the publications.
  */
  lemma {:induction false} OthersCannotDisturb(acts: seq<Action>, gone: set<Chan>)
    requires Exec(Init, acts).Some?
    ensures Exec(Init, Erase(acts, gone)) == Some(Without(Exec(Init, acts).value, gone))
    decreases |acts|
  {
    if acts == [] {
      assert Without(Init, gone) == Init;
    } else {
      var front, a := acts[..|acts| - 1], acts[|acts| - 1];
      OthersCannotDisturb(front, gone);
      RunKeepsInv(front);
      var s := Exec(Init, front).value;
      if ConcernsAny(a, gone) {
        var c :| c in gone && Concerns(a, c);
        ErasedStepIsInvisible(s, a, c, gone);
        assert Erase(front, gone) + [] == Erase(front, gone);
      } else {
        KeptStep(s, a, gone);
        ExecSnoc(Init, Erase(front, gone), a);
      }
    }
  }

  /**
    No subscriber holds up the loop: from any point inside a fan-out, whatever the buffers hold, the loop's
    own remaining steps are enabled in every order and finish it.
  */
  lemma FanOutNeverBlocks(acts: seq<Action>, order: seq<Chan>)
    requires Exec(Init, acts).Some? && Exec(Init, acts).value.loop.FanOut?
    requires Members(order) == Exec(Init, acts).value.loop.pending && Distinct(order)
    ensures var s := Exec(Init, acts).value;
      Exec(s, Offers(order, s.loop.msg) + [EndFanOut]) == Some(Settled(s))
  {
    RunKeepsInv(acts);
    var s := Exec(Init, acts).value;
    forall c <- order ensures c in s.loop.pending && c in s.inbox {
      assert c in Members(order);
    }
    OffersInAnyOrder(s, order, s.loop.msg);
    ExecSnoc(s, Offers(order, s.loop.msg), EndFanOut);
    assert s.loop.pending - s.loop.pending == {};
  }
}
