/**
  What a subscriber gets, and which channels are subscribed, read off the actions of a run alone.
*/
module BrokerDelivery {
  import opened Options
  import opened BrokerModel

  // ----- membership -----

  /** The last thing the loop took about c was its subscription. */
  predicate Subscribed(acts: seq<Action>, c: Chan)
    decreases |acts|
  {
    acts != [] &&
    var a := acts[|acts| - 1];
    a == TakeSub(c) || (a != TakeUnsub(c) && Subscribed(acts[..|acts| - 1], c))
  }

  lemma {:induction false} SubsAreTheSubscribed(acts: seq<Action>, c: Chan)
    requires Exec(Init, acts).Some?
    ensures c in Exec(Init, acts).value.subs <==> Subscribed(acts, c)
    decreases |acts|
  {
    if acts != [] {
      SubsAreTheSubscribed(acts[..|acts| - 1], c);
    }
  }

  /** Phases only move forward, so each channel is taken at most once from subCh and once from unsubCh. */
  predicate Progressed(before: Phase, after: Phase) {
    before == after || before == Waiting || after == Taken
  }

  lemma PhasesProgressInStep(s: State, a: Action, c: Chan)
    requires Inv(s) && c in s.clients && Step(s, a).Some?
    ensures var t := Step(s, a).value;
      && c in t.clients
      && Progressed(s.clients[c].join, t.clients[c].join) && Progressed(s.clients[c].leave, t.clients[c].leave)
  {
  }

  lemma {:induction false} PhasesProgress(s: State, acts: seq<Action>, c: Chan)
    requires Inv(s) && c in s.clients && Exec(s, acts).Some?
    ensures var t := Exec(s, acts).value;
      && c in t.clients
      && Progressed(s.clients[c].join, t.clients[c].join) && Progressed(s.clients[c].leave, t.clients[c].leave)
    decreases |acts|
  {
    if acts != [] {
      var front := acts[..|acts| - 1];
      PhasesProgress(s, front, c);
      InvAfter(s, front);
      PhasesProgressInStep(Exec(s, front).value, acts[|acts| - 1], c);
    }
  }

  /**
    A channel whose unsubscribe has been taken: it is subscribed if and only if its subscribe was taken
    afterwards, and then nothing removes it.
  */
  lemma {:induction false} MembershipAfterUnsubscribe(s: State, acts: seq<Action>, c: Chan)
    requires Inv(s) && c in s.clients && s.clients[c].leave == Taken && Exec(s, acts).Some?
    ensures var t := Exec(s, acts).value;
      && (c in s.subs ==> c in t.subs)
      && (s.clients[c].join == Taken && c !in s.subs ==> c !in t.subs)
      && (c !in s.subs ==> (c in t.subs <==> TakeSub(c) in acts))
    decreases |acts|
  {
    if acts != [] {
      var front, a := acts[..|acts| - 1], acts[|acts| - 1];
      MembershipAfterUnsubscribe(s, front, c);
      PhasesProgress(s, front, c);
      InvAfter(s, front);
      assert ClientInv(Exec(s, front).value, c);
      assert acts == front + [a];
    }
  }

  /**
    The unsubscribe of c is taken at the end of a run.  Either c was subscribed, and no continuation of the
    run has it in subs again; or it was not, and then c is the one channel buffered in subCh, every
    continuation that takes that subscribe has c in subs, and so does everything after.
  */
  lemma UnsubscribeDecidesForGood(run: seq<Action>, c: Chan, more: seq<Action>)
    requires Exec(Init, run + [TakeUnsub(c)] + more).Some?
    ensures Exec(Init, run).Some? && Exec(Init, run + [TakeUnsub(c)]).Some?
    ensures var s, t := Exec(Init, run).value, Exec(Init, run + [TakeUnsub(c)] + more).value;
      && (c !in s.subs <==> s.subCh == [c])
      && (c in t.subs <==> s.subCh == [c] && TakeSub(c) in more)
  {
    var all := run + [TakeUnsub(c)];
    PrefixesRun(all, more);
    PrefixesRun(run, [TakeUnsub(c)]);
    ExecSnoc(Init, run, TakeUnsub(c));
    RunKeepsInv(run);
    UnsubscribeStep(Exec(Init, run).value, c);
    RunKeepsInv(all);
    ExecConcat(Init, all, more);
    MembershipAfterUnsubscribe(Exec(Init, all).value, more, c);
  }

  lemma UnsubscribeStep(s: State, c: Chan)
    requires Inv(s) && Step(s, TakeUnsub(c)).Some?
    ensures var t := Step(s, TakeUnsub(c)).value;
      && (c !in s.subs <==> s.subCh == [c])
      && c in t.clients && t.clients[c].leave == Taken && c !in t.subs
      && (t.clients[c].join == Taken <==> c in s.subs)
  {
  }

  lemma {:induction false} PrefixesRun(p: seq<Action>, q: seq<Action>)
    requires Exec(Init, p + q).Some?
    ensures Exec(Init, p).Some?
    decreases |q|
  {
    if q == [] {
      assert p + q == p;
    } else {
      assert (p + q)[..|p + q| - 1] == p + q[..|q| - 1];
      PrefixesRun(p, q[..|q| - 1]);
    }
  }

  /** The channel's subscribe is buffered and its context is done, in an otherwise quiet broker. */
  predicate CancelledWhileBuffered(s: State, c: Chan) {
    && s.subCh == [c] && s.unsubCh == [] && s.subs == {} && s.loop == Idle
    && c in s.clients && s.clients[c] == Client(true, Buffered, Waiting)
  }

  lemma CancelWhileBuffered(c: Chan)
    ensures var run := [] + [Open(c)] + [SendSub(c)] + [Cancel(c)];
      Exec(Init, run).Some? && CancelledWhileBuffered(Exec(Init, run).value, c)
  {
    ExecSnoc(Init, [], Open(c));
    ExecSnoc(Init, [] + [Open(c)], SendSub(c));
    ExecSnoc(Init, [] + [Open(c)] + [SendSub(c)], Cancel(c));
  }

  lemma OvertakeFrom(r: seq<Action>, c: Chan)
    requires Exec(Init, r).Some? && CancelledWhileBuffered(Exec(Init, r).value, c)
    ensures var run := r + [SendUnsub(c)] + [TakeUnsub(c)] + [TakeSub(c)];
      && Exec(Init, run).Some?
      && var s := Exec(Init, run).value;
      && c in s.clients && s.clients[c] == Client(true, Taken, Taken) && s.subs == {c} && s.subCh == [] && s.unsubCh == []
  {
    ExecSnoc(Init, r, SendUnsub(c));
    ExecSnoc(Init, r + [SendUnsub(c)], TakeUnsub(c));
    ExecSnoc(Init, r + [SendUnsub(c)] + [TakeUnsub(c)], TakeSub(c));
  }

  /** The failing order happens: after these six actions a cancelled channel is subscribed. */
  lemma UnsubscribeCanOvertakeSubscribe(c: Chan)
    ensures var run := [] + [Open(c)] + [SendSub(c)] + [Cancel(c)] + [SendUnsub(c)] + [TakeUnsub(c)] + [TakeSub(c)];
      && Exec(Init, run).Some?
      && var s := Exec(Init, run).value;
      && c in s.clients && s.clients[c] == Client(true, Taken, Taken) && s.subs == {c} && s.subCh == [] && s.unsubCh == []
  {
    CancelWhileBuffered(c);
    OvertakeFrom([] + [Open(c)] + [SendSub(c)] + [Cancel(c)], c);
  }

  /** A client's record is its history: each of its flags says whether that action was taken. */
  lemma {:induction false} ClientIsItsHistory(acts: seq<Action>, c: Chan)
    requires Exec(Init, acts).Some?
    ensures var clients := Exec(Init, acts).value.clients;
      && (c in clients <==> Open(c) in acts)
      && ((Cancel(c) in acts) <==> c in clients && clients[c].cancelled)
      && ((SendSub(c) in acts) <==> c in clients && clients[c].join != Waiting)
      && ((TakeSub(c) in acts) <==> c in clients && clients[c].join == Taken)
      && ((SendUnsub(c) in acts) <==> c in clients && clients[c].leave != Waiting)
      && ((TakeUnsub(c) in acts) <==> c in clients && clients[c].leave == Taken)
    decreases |acts|
  {
    if acts != [] {
      var front, a := acts[..|acts| - 1], acts[|acts| - 1];
      assert acts == front + [a];
      ClientIsItsHistory(front, c);
      RunKeepsInv(front);
      ClientStep(Exec(Init, front).value, a, c);
    }
  }

  lemma ClientStep(s: State, a: Action, c: Chan)
    requires Inv(s) && Step(s, a).Some?
    ensures var clients := Step(s, a).value.clients;
      && (c in clients <==> c in s.clients || a == Open(c))
      && (c !in s.clients ==> a !in {Cancel(c), SendSub(c), TakeSub(c), SendUnsub(c), TakeUnsub(c)})
      && (c in clients ==>
            var k := if c in s.clients then s.clients[c] else Client(false, Waiting, Waiting);
            && (clients[c].cancelled <==> k.cancelled || a == Cancel(c))
            && (clients[c].join != Waiting <==> k.join != Waiting || a == SendSub(c))
            && (clients[c].join == Taken <==> k.join == Taken || a == TakeSub(c))
            && (clients[c].leave != Waiting <==> k.leave != Waiting || a == SendUnsub(c))
            && (clients[c].leave == Taken <==> k.leave == Taken || a == TakeUnsub(c)))
  {
  }

  /** A subscriber whose context is not done is never dropped, and is unsubscribed only after that. */
  lemma SubscribedUntilCancelled(acts: seq<Action>, c: Chan)
    requires Exec(Init, acts).Some?
    ensures TakeSub(c) in acts && Cancel(c) !in acts ==> c in Exec(Init, acts).value.subs
    ensures SendUnsub(c) in acts ==> Cancel(c) in acts && SendSub(c) in acts
  {
    ClientIsItsHistory(acts, c);
    RunKeepsInv(acts);
    var s := Exec(Init, acts).value;
    assert c in s.clients ==> ClientInv(s, c);
  }

  /** A subscriber taking everything that waits in its channel. */
  function Receives(c: Chan, buffer: seq<Event>): seq<Action> {
    if buffer == [] then [] else [Receive(c, buffer[0])] + Receives(c, buffer[1..])
  }

  lemma ReceiveFirst(s: State, a: Action, rest: seq<Action>)
    requires Step(s, a).Some?
    ensures Exec(s, [a] + rest) == Exec(Step(s, a).value, rest)
  {
    assert [] + [a] == [a];
    ExecSnoc(s, [], a);
    ExecConcat(s, [a], rest);
  }

  /** Whatever the loop does, a subscriber can take all that was accepted, in order. */
  lemma {:induction false} SubscriberCanCatchUp(s: State, c: Chan)
    requires c in s.inbox
    ensures var i := s.inbox[c];
      Exec(s, Receives(c, i.buffer)) == Some(s.(inbox := s.inbox[c := Inbox([], i.Stream())]))
    decreases |s.inbox[c].buffer|
  {
    var i := s.inbox[c];
    if i.buffer == [] {
      assert i == Inbox([], i.Stream());
      assert s.inbox[c := i] == s.inbox;
    } else {
      var a, t := Receive(c, i.buffer[0]), s.(inbox := s.inbox[c := Received(i)]);
      assert Received(i).Stream() == i.Stream();
      SubscriberCanCatchUp(t, c);
      assert t.inbox[c := Inbox([], i.Stream())] == s.inbox[c := Inbox([], i.Stream())];
      ReceiveFirst(s, a, Receives(c, i.buffer[1..]));
    }
  }

  // ----- delivery -----

  /** The publications the loop took while c was subscribed, in order. */
  function Addressed(acts: seq<Action>, c: Chan): seq<Event>
    decreases |acts|
  {
    if acts == [] then [] else
      var front, a := acts[..|acts| - 1], acts[|acts| - 1];
      Addressed(front, c) + if a.TakePublish? && Subscribed(front, c) then [a.e] else []
  }

  /** What happens at one subscriber channel: a send is attempted, or the subscriber takes one event. */
  datatype Visit = Attempt(e: Event) | Take

  function Visits(acts: seq<Action>, c: Chan): seq<Visit>
    decreases |acts|
  {
    if acts == [] then [] else
      var a := acts[|acts| - 1];
      Visits(acts[..|acts| - 1], c) +
      if a.Offer? && a.c == c then [Attempt(a.e)] else if a.Receive? && a.c == c then [Take] else []
  }

  function Attempts(visits: seq<Visit>): seq<Event>
    decreases |visits|
  {
    if visits == [] then [] else
      var v := visits[|visits| - 1];
      Attempts(visits[..|visits| - 1]) + if v.Attempt? then [v.e] else []
  }

  function Takes(visits: seq<Visit>): nat
    decreases |visits|
  {
    if visits == [] then 0 else
      Takes(visits[..|visits| - 1]) + if visits[|visits| - 1].Take? then 1 else 0
  }

  /** The attempts that go through: those made while fewer than five accepted events are untaken. */
  function Accepted(visits: seq<Visit>): seq<Event>
    decreases |visits|
  {
    if visits == [] then [] else
      var front, v := visits[..|visits| - 1], visits[|visits| - 1];
      Accepted(front) + if v.Attempt? && |Accepted(front)| - Takes(front) < 5 then [v.e] else []
  }

  /** The publication c is still to be sent in the fan-out under way. */
  function InFlight(s: State, c: Chan): seq<Event> {
    if s.loop.FanOut? && c in s.loop.pending then [s.loop.msg] else []
  }

  /** Every publication taken while c is subscribed is attempted at c once, in order. */
  lemma {:induction false} EveryAddressedEventIsAttempted(acts: seq<Action>, c: Chan)
    requires Exec(Init, acts).Some?
    ensures Addressed(acts, c) == Attempts(Visits(acts, c)) + InFlight(Exec(Init, acts).value, c)
    decreases |acts|
  {
    if acts != [] {
      var front, a := acts[..|acts| - 1], acts[|acts| - 1];
      EveryAddressedEventIsAttempted(front, c);
      SubsAreTheSubscribed(front, c);
      InFlightStep(Exec(Init, front).value, a, c);
      VisitsStep(acts, c);
      var s := Exec(Init, front).value;
      Regroup(Attempts(Visits(front, c)), InFlight(s, c),
              if a.TakePublish? && c in s.subs then [a.e] else [],
              if a.Offer? && a.c == c then [a.e] else [], InFlight(Step(s, a).value, c));
    }
  }

  lemma Regroup(attempts: seq<Event>, flying: seq<Event>, addressed: seq<Event>, attempted: seq<Event>, next: seq<Event>)
    requires flying + addressed == attempted + next
    ensures attempts + flying + addressed == attempts + attempted + next
  {
    assert attempts + flying + addressed == attempts + (flying + addressed);
  }

  lemma InFlightStep(s: State, a: Action, c: Chan)
    requires Step(s, a).Some?
    ensures InFlight(s, c) + (if a.TakePublish? && c in s.subs then [a.e] else []) ==
      (if a.Offer? && a.c == c then [a.e] else []) + InFlight(Step(s, a).value, c)
  {
  }

  lemma VisitsStep(acts: seq<Action>, c: Chan)
    requires acts != []
    ensures var front, a := Visits(acts[..|acts| - 1], c), acts[|acts| - 1];
      && Attempts(Visits(acts, c)) == Attempts(front) + (if a.Offer? && a.c == c then [a.e] else [])
      && Takes(Visits(acts, c)) == Takes(front) + (if a.Receive? && a.c == c then 1 else 0)
      && Accepted(Visits(acts, c)) == Accepted(front) +
         if a.Offer? && a.c == c && |Accepted(front)| - Takes(front) < SUBSCRIBER_CAPACITY then [a.e] else []
  {
    var front := Visits(acts[..|acts| - 1], c);
    var all := Visits(acts, c);
    if all != front {
      assert all[..|all| - 1] == front;
    } else {
      assert front + [] == front;
    }
  }

  /** What a channel has accepted is decided by its own visits alone. */
  lemma {:induction false} StreamIsAccepted(acts: seq<Action>, c: Chan)
    requires Exec(Init, acts).Some? && c in Exec(Init, acts).value.inbox
    ensures var i := Exec(Init, acts).value.inbox[c];
      && i.Stream() == Accepted(Visits(acts, c))
      && |i.received| == Takes(Visits(acts, c))
    decreases |acts|
  {
    if acts != [] {
      var front, a := acts[..|acts| - 1], acts[|acts| - 1];
      var s := Exec(Init, front).value;
      VisitsStep(acts, c);
      if c in s.inbox {
        StreamIsAccepted(front, c);
        InboxStep(s, a, c);
      } else {
        NoVisitsBeforeOpen(front, c);
      }
    }
  }

  lemma InboxStep(s: State, a: Action, c: Chan)
    requires Step(s, a).Some? && c in s.inbox
    ensures c in Step(s, a).value.inbox
    ensures var i, j := s.inbox[c], Step(s, a).value.inbox[c];
      && j.Stream() == i.Stream() + (if a.Offer? && a.c == c && |i.buffer| < SUBSCRIBER_CAPACITY then [a.e] else [])
      && |j.received| == |i.received| + if a.Receive? && a.c == c then 1 else 0
  {
  }

  lemma VisitsNeedInbox(s: State, a: Action, c: Chan)
    requires Step(s, a).Some? && c !in Step(s, a).value.inbox
    ensures c !in s.inbox && !(a.Offer? && a.c == c) && !(a.Receive? && a.c == c)
  {
  }

  lemma {:induction false} NoVisitsBeforeOpen(acts: seq<Action>, c: Chan)
    requires Exec(Init, acts).Some? && c !in Exec(Init, acts).value.inbox
    ensures Visits(acts, c) == []
    decreases |acts|
  {
    if acts != [] {
      var front := acts[..|acts| - 1];
      VisitsNeedInbox(Exec(Init, front).value, acts[|acts| - 1], c);
      NoVisitsBeforeOpen(front, c);
    }
  }

  /** xs is ys with some elements left out, the order kept. */
  predicate Subsequence(xs: seq<Event>, ys: seq<Event>)
    decreases |ys|
  {
    xs == [] ||
    (ys != [] &&
     var front := ys[..|ys| - 1];
     Subsequence(xs, front) || (xs[|xs| - 1] == ys[|ys| - 1] && Subsequence(xs[..|xs| - 1], front)))
  }

  lemma {:induction false} SubsequenceSnoc(xs: seq<Event>, ys: seq<Event>, y: Event)
    requires Subsequence(xs, ys)
    ensures Subsequence(xs, ys + [y]) && Subsequence(xs + [y], ys + [y])
  {
  }

  lemma {:induction false} SubsequenceAppend(xs: seq<Event>, ys: seq<Event>, more: seq<Event>)
    requires Subsequence(xs, ys)
    ensures Subsequence(xs, ys + more)
    decreases |more|
  {
    if more == [] {
      assert ys + more == ys;
    } else {
      var k := |more| - 1;
      SubsequenceAppend(xs, ys, more[..k]);
      SubsequenceSnoc(xs, ys + more[..k], more[k]);
      assert ys + more[..k] + [more[k]] == ys + more;
    }
  }

  lemma {:induction false} AcceptedAreAttempts(visits: seq<Visit>)
    ensures Subsequence(Accepted(visits), Attempts(visits))
    decreases |visits|
  {
    if visits != [] {
      var front, v := visits[..|visits| - 1], visits[|visits| - 1];
      AcceptedAreAttempts(front);
      if v.Attempt? {
        SubsequenceSnoc(Accepted(front), Attempts(front), v.e);
      } else {
        assert Accepted(front) + [] == Accepted(front);
      }
      assert Attempts(front) + [] == Attempts(front);
      assert Accepted(front) + [] == Accepted(front);
    }
  }

  lemma {:induction false} AddressedAreTaken(acts: seq<Action>, c: Chan)
    requires Exec(Init, acts).Some?
    ensures Subsequence(Addressed(acts, c), Exec(Init, acts).value.taken)
    decreases |acts|
  {
    if acts != [] {
      var front, a := acts[..|acts| - 1], acts[|acts| - 1];
      AddressedAreTaken(front, c);
      var xs, ys := Addressed(front, c), Exec(Init, front).value.taken;
      assert xs + [] == xs;
      if a.TakePublish? {
        SubsequenceSnoc(xs, ys, a.e);
      }
    }
  }

  lemma {:induction false} SubsequenceTransitive(xs: seq<Event>, ys: seq<Event>, zs: seq<Event>)
    requires Subsequence(xs, ys) && Subsequence(ys, zs)
    ensures Subsequence(xs, zs)
    decreases |zs|
  {
    if xs != [] && ys != [] {
      var front := zs[..|zs| - 1];
      if Subsequence(ys, front) {
        SubsequenceTransitive(xs, ys, front);
      } else if Subsequence(xs, ys[..|ys| - 1]) {
        SubsequenceTransitive(xs, ys[..|ys| - 1], front);
      } else {
        SubsequenceTransitive(xs[..|xs| - 1], ys[..|ys| - 1], front);
      }
    }
  }

  /**
    Exact delivery.  The buffer never exceeds five; received plus buffered is what the channel's own visits
    accept; the attempts among those visits are exactly the publications taken while it was subscribed
    (less the one in flight); and these are completed Publish calls in their order.
  */
  lemma ExactDelivery(acts: seq<Action>, c: Chan)
    requires Exec(Init, acts).Some? && c in Exec(Init, acts).value.inbox
    ensures var s := Exec(Init, acts).value;
      && |s.inbox[c].buffer| <= 5
      && s.inbox[c].Stream() == Accepted(Visits(acts, c))
      && Attempts(Visits(acts, c)) + InFlight(s, c) == Addressed(acts, c)
      && Subsequence(s.inbox[c].Stream(), Addressed(acts, c))
      && Subsequence(s.inbox[c].Stream(), s.published)
  {
    var s := Exec(Init, acts).value;
    RunKeepsInv(acts);
    assert ClientInv(s, c);
    StreamIsAccepted(acts, c);
    EveryAddressedEventIsAttempted(acts, c);
    AcceptedAreAttempts(Visits(acts, c));
    SubsequenceAppend(Accepted(Visits(acts, c)), Attempts(Visits(acts, c)), InFlight(s, c));
    AddressedAreTaken(acts, c);
    SubsequenceTransitive(s.inbox[c].Stream(), Addressed(acts, c), s.taken);
    SubsequenceAppend(s.inbox[c].Stream(), s.taken, s.publishCh);
  }

  /** Action i attempts a send at c while the buffer of c has room. */
  ghost predicate SentAt(acts: seq<Action>, c: Chan, i: nat) {
    && i < |acts| && acts[i].Offer? && acts[i].c == c
    && Exec(Init, acts[..i]).Some?
    && var s := Exec(Init, acts[..i]).value;
    && c in s.inbox && |s.inbox[c].buffer| < 5
  }

  /** The events of exactly those attempts among the first n actions, in order. */
  ghost function SentEvents(acts: seq<Action>, c: Chan, n: nat): seq<Event>
    requires n <= |acts|
  {
    if n == 0 then [] else SentEvents(acts, c, n - 1) + if SentAt(acts, c, n - 1) then [acts[n - 1].e] else []
  }

  lemma {:induction false} StreamIsSent(acts: seq<Action>, c: Chan, n: nat)
    requires n <= |acts| && Exec(Init, acts[..n]).Some?
    ensures SentEvents(acts, c, n) ==
      var s := Exec(Init, acts[..n]).value; if c in s.inbox then s.inbox[c].Stream() else []
  {
    if n > 0 {
      var a := acts[n - 1];
      assert acts[..n][..n - 1] == acts[..n - 1];
      StreamIsSent(acts, c, n - 1);
      var s := Exec(Init, acts[..n - 1]).value;
      if c in s.inbox {
        InboxStep(s, a, c);
      } else {
        OpenedEmpty(s, a, c);
      }
    }
  }

  lemma OpenedEmpty(s: State, a: Action, c: Chan)
    requires Step(s, a).Some? && c !in s.inbox
    ensures !(a.Offer? && a.c == c)
    ensures c in Step(s, a).value.inbox ==> Step(s, a).value.inbox[c].Stream() == []
  {
  }

  /**
    Over a whole run, the stream of a channel holds the events of exactly those attempts made while its
    buffer had room: an attempted event is missing if and only if the buffer held five at that moment.
  */
  lemma MissingExactlyWhenFull(acts: seq<Action>, c: Chan)
    requires Exec(Init, acts).Some? && c in Exec(Init, acts).value.inbox
    ensures Exec(Init, acts).value.inbox[c].Stream() == SentEvents(acts, c, |acts|)
    ensures forall i: nat | i < |acts| && acts[i].Offer? && acts[i].c == c ::
      && Exec(Init, acts[..i]).Some? && c in Exec(Init, acts[..i]).value.inbox
      && (!SentAt(acts, c, i) <==> |Exec(Init, acts[..i]).value.inbox[c].buffer| == 5)
  {
    assert acts[..|acts|] == acts;
    StreamIsSent(acts, c, |acts|);
    forall i: nat | i < |acts| && acts[i].Offer? && acts[i].c == c
      ensures Exec(Init, acts[..i]).Some? && c in Exec(Init, acts[..i]).value.inbox
      ensures |Exec(Init, acts[..i]).value.inbox[c].buffer| <= SUBSCRIBER_CAPACITY
    {
      AttemptIsEnabled(acts, c, i);
    }
  }

  lemma AttemptIsEnabled(acts: seq<Action>, c: Chan, i: nat)
    requires Exec(Init, acts).Some? && i < |acts| && acts[i].Offer? && acts[i].c == c
    ensures Exec(Init, acts[..i]).Some? && c in Exec(Init, acts[..i]).value.inbox
    ensures |Exec(Init, acts[..i]).value.inbox[c].buffer| <= SUBSCRIBER_CAPACITY
  {
    assert acts == acts[..i + 1] + acts[i + 1..];
    PrefixesRun(acts[..i + 1], acts[i + 1..]);
    assert acts[..i + 1][..i] == acts[..i];
    RunKeepsInv(acts[..i]);
    assert ClientInv(Exec(Init, acts[..i]).value, c);
  }

  /** A channel's own visits decide what it holds. */
  lemma VisitsDecideInbox(run: seq<Action>, other: seq<Action>, c: Chan)
    requires Exec(Init, run).Some? && c in Exec(Init, run).value.inbox
    requires Exec(Init, other).Some? && c in Exec(Init, other).value.inbox
    requires Visits(run, c) == Visits(other, c)
    ensures Exec(Init, run).value.inbox[c] == Exec(Init, other).value.inbox[c]
  {
    StreamIsAccepted(run, c);
    StreamIsAccepted(other, c);
    var i, j := Exec(Init, run).value.inbox[c], Exec(Init, other).value.inbox[c];
    assert i.received == i.Stream()[..|i.received|] && j.received == j.Stream()[..|j.received|];
    assert i.buffer == i.Stream()[|i.received|..] && j.buffer == j.Stream()[|j.received|..];
  }

  /** How many channel sends of each sort complete in a run. */
  function Publishes(acts: seq<Action>): nat
    decreases |acts|
  {
    if acts == [] then 0 else Publishes(acts[..|acts| - 1]) + if acts[|acts| - 1].Publish? then 1 else 0
  }

  function Subscribes(acts: seq<Action>): nat
    decreases |acts|
  {
    if acts == [] then 0 else Subscribes(acts[..|acts| - 1]) + if acts[|acts| - 1].SendSub? then 1 else 0
  }

  function Unsubscribes(acts: seq<Action>): nat
    decreases |acts|
  {
    if acts == [] then 0 else Unsubscribes(acts[..|acts| - 1]) + if acts[|acts| - 1].SendUnsub? then 1 else 0
  }

  /**
    Once the loop has stopped nothing is taken any more: every completed send stays in its channel, so at
    most one more Publish, one more Subscribe and one more unsubscribe ever complete.
  */
  lemma {:induction false} CallersBlockAfterStop(s: State, more: seq<Action>)
    requires Inv(s) && s.loop == Stopped && Exec(s, more).Some?
    ensures var t := Exec(s, more).value;
      && t.loop == Stopped && t.taken == s.taken && t.subs == s.subs
      && |s.publishCh| + Publishes(more) == |t.publishCh| <= 1
      && |s.subCh| + Subscribes(more) == |t.subCh| <= 1
      && |s.unsubCh| + Unsubscribes(more) == |t.unsubCh| <= 1
    decreases |more|
  {
    if more != [] {
      CallersBlockAfterStop(s, more[..|more| - 1]);
      StoppedStep(Exec(s, more[..|more| - 1]).value, more[|more| - 1]);
    }
  }

  lemma StoppedStep(s: State, a: Action)
    requires s.loop == Stopped && Step(s, a).Some?
    requires |s.publishCh| <= LOOP_CAPACITY && |s.subCh| <= LOOP_CAPACITY && |s.unsubCh| <= LOOP_CAPACITY
    ensures var t := Step(s, a).value;
      && t.loop == Stopped && t.taken == s.taken && t.subs == s.subs
      && |t.publishCh| == |s.publishCh| + (if a.Publish? then 1 else 0) <= LOOP_CAPACITY
      && |t.subCh| == |s.subCh| + (if a.SendSub? then 1 else 0) <= LOOP_CAPACITY
      && |t.unsubCh| == |s.unsubCh| + (if a.SendUnsub? then 1 else 0) <= LOOP_CAPACITY
  {
  }
}
