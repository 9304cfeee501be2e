/** The broker's own code: its channels as fields, its select loop and the fan-out as loops. */
module BrokerLoop {
  import opened Options
  import opened BrokerModel
  import opened BrokerReduction

  /** The select case that fires. */
  datatype Case = OnDone | OnSub | OnUnsub | OnPublish

  /** A turn of the loop, or a step some other goroutine takes in between. */
  datatype Turn = Loop(c: Case) | Other(a: Action)

  class Broker {
    var publishCh: seq<Event>
    var subCh: seq<Chan>
    var unsubCh: seq<Chan>
    var subs: set<Chan>
    var stopped: bool
    var clients: map<Chan, Client>
    var inbox: map<Chan, Inbox>
    var published: seq<Event>  // history of completed Publish calls
    var taken: seq<Event>      // history of publications taken

    function View(): State
      reads this
    {
      State(publishCh, subCh, unsubCh, subs, if stopped then Stopped else Idle, clients, inbox, published, taken)
    }

    constructor ()
      ensures View() == Init
    {
      publishCh, subCh, unsubCh, subs, stopped := [], [], [], {}, false;
      clients, inbox := map[], map[];
      published, taken := [], [];
    }

    /** The blocking send completes when there is room. */
    method Publish(e: Event)
      requires |publishCh| < LOOP_CAPACITY
      modifies this
      ensures Step(old(View()), Action.Publish(e)) == Some(View())
    {
      publishCh := publishCh + [e];
      published := published + [e];
    }

    method Subscribe(c: Chan)
      requires c !in clients && c !in inbox && |subCh| < LOOP_CAPACITY
      modifies this
      ensures Exec(old(View()), [Open(c), SendSub(c)]) == Some(View())
    {
      ghost var s := View();
      clients := clients[c := Client(false, Waiting, Waiting)];
      inbox := inbox[c := Inbox([], [])];
      assert Exec(s, []) == Some(s);
      ExecSnoc(s, [], Open(c));
      assert [] + [Open(c)] == [Open(c)];
      subCh := subCh + [c];
      clients := clients[c := clients[c].(join := Buffered)];
      ExecSnoc(s, [Open(c)], SendSub(c));
    }

    /** The goroutine Subscribe leaves behind, once its context is done and there is room. */
    method Unsubscribe(c: Chan)
      requires c in clients && clients[c].join != Waiting && clients[c].cancelled && clients[c].leave == Waiting
      requires |unsubCh| < LOOP_CAPACITY
      modifies this
      ensures Step(old(View()), SendUnsub(c)) == Some(View())
    {
      unsubCh := unsubCh + [c];
      clients := clients[c := clients[c].(leave := Buffered)];
    }

    /** Ranging over subs in an arbitrary order, sending without blocking. */
    method FanOut(msg: Event)
      requires subs <= inbox.Keys
      modifies this`inbox
      ensures inbox == OfferAll(old(inbox), subs, msg)
    {
      var rest := subs;
      while rest != {}
        invariant rest <= subs
        invariant inbox == OfferAll(old(inbox), subs - rest, msg)
        decreases |rest|
      {
        var msgCh :| msgCh in rest;
        var i := inbox[msgCh];
        if |i.buffer| < SUBSCRIBER_CAPACITY {
          inbox := inbox[msgCh := i.(buffer := i.buffer + [msg])];
        }
        rest := rest - {msgCh};
      }
      assert subs - rest == subs;
    }

    method TakeSubscribe()
      requires !stopped && subCh != [] && subCh[0] in clients
      modifies this
      ensures Step(old(View()), TakeSub(old(subCh)[0])) == Some(View())
    {
      var msgCh := subCh[0];
      subCh := subCh[1..];
      subs := subs + {msgCh};
      clients := clients[msgCh := clients[msgCh].(join := Taken)];
    }

    method TakeUnsubscribe()
      requires !stopped && unsubCh != [] && unsubCh[0] in clients
      modifies this
      ensures Step(old(View()), TakeUnsub(old(unsubCh)[0])) == Some(View())
    {
      var msgCh := unsubCh[0];
      unsubCh := unsubCh[1..];
      subs := subs - {msgCh};
      clients := clients[msgCh := clients[msgCh].(leave := Taken)];
    }

    method TakeMessage()
      requires !stopped && publishCh != [] && subs <= inbox.Keys
      modifies this
      ensures CoarseStep(old(View()), Whole(old(publishCh)[0])) == Some(View())
    {
      var msg := publishCh[0];
      publishCh := publishCh[1..];
      taken := taken + [msg];
      FanOut(msg);
    }

    /** What firing a case amounts to; the fan-out inside it is the atomic step. */
    ghost function Fires(c: Case): Coarse
      reads this
      requires (c.OnSub? ==> subCh != []) && (c.OnUnsub? ==> unsubCh != []) && (c.OnPublish? ==> publishCh != [])
    {
      match c
      case OnDone => Plain(Stop)
      case OnSub => Plain(TakeSub(subCh[0]))
      case OnUnsub => Plain(TakeUnsub(unsubCh[0]))
      case OnPublish => Whole(publishCh[0])
    }

    /** One turn of the select loop. */
    method Select(c: Case)
      requires !stopped && Inv(View())
      requires (c.OnSub? ==> subCh != []) && (c.OnUnsub? ==> unsubCh != []) && (c.OnPublish? ==> publishCh != [])
      modifies this
      ensures CoarseStep(old(View()), old(Fires(c))) == Some(View())
      ensures Inv(View()) && (stopped <==> c.OnDone?)
    {
      CoarseStepKeepsInv(View(), Fires(c));
      match c
      case OnDone => stopped := true;
      case OnSub => TakeSubscribe();
      case OnUnsub => TakeUnsubscribe();
      case OnPublish => TakeMessage();
    }

    /** Another goroutine takes a step of its own. */
    method Interfere(a: Action)
      requires a.Outside() && Step(View(), a).Some?
      modifies this
      ensures Step(old(View()), a) == Some(View())
    {
      match a
      case Publish(e) =>
        Publish(e);
      case Open(c) =>
        clients := clients[c := Client(false, Waiting, Waiting)];
        inbox := inbox[c := Inbox([], [])];
      case SendSub(c) =>
        subCh := subCh + [c];
        clients := clients[c := clients[c].(join := Buffered)];
      case Cancel(c) =>
        clients := clients[c := clients[c].(cancelled := true)];
      case SendUnsub(c) =>
        Unsubscribe(c);
      case Receive(c, _) =>
        inbox := inbox[c := Received(inbox[c])];
    }

    /** One turn of a schedule: taken if it is enabled, passed over if not, and nothing once the loop has ended. */
    method Play(t: Turn)
      requires Inv(View())
      modifies this
      ensures Inv(View()) && View() == Turned(old(View()), t)
    {
      if stopped {
        return;
      }
      match t
      case Other(a) =>
        if a.Outside() && Step(View(), a).Some? {
          StepKeepsInv(View(), a);
          Interfere(a);
        }
      case Loop(c) =>
        if c.OnDone? || (c.OnSub? && subCh != []) || (c.OnUnsub? && unsubCh != []) || (c.OnPublish? && publishCh != []) {
          Select(c);
        }
    }

    /**
      The loop from a new broker, with the steps of all other goroutines between its turns, until a done
      context ends it.
    */
    method Start(schedule: seq<Turn>)
      requires View() == Init
      modifies this
      ensures View() == Played(Init, schedule)
      ensures stopped <==> Loop(OnDone) in schedule
      ensures CoarselyReachable(View()) && Reachable(View())
    {
      for i := 0 to |schedule|
        invariant Inv(View()) && View() == Played(Init, schedule[..i])
      {
        assert schedule[..i + 1][..i] == schedule[..i];
        Play(schedule[i]);
      }
      assert schedule[..|schedule|] == schedule;
      PlayedIsReachable(schedule);
      StopsWhenDone(Init, schedule);
    }
  }

  // ----- schedules -----

  /** The step a turn stands for, unless its channel is empty or the step belongs to the loop. */
  function Meant(s: State, t: Turn): Option<Coarse> {
    match t
    case Other(a) => if a.Outside() then Some(Plain(a)) else None
    case Loop(OnDone) => Some(Plain(Stop))
    case Loop(OnSub) => if s.subCh == [] then None else Some(Plain(TakeSub(s.subCh[0])))
    case Loop(OnUnsub) => if s.unsubCh == [] then None else Some(Plain(TakeUnsub(s.unsubCh[0])))
    case Loop(OnPublish) => if s.publishCh == [] then None else Some(Whole(s.publishCh[0]))
  }

  function Turned(s: State, t: Turn): State {
    if s.loop == Stopped || Meant(s, t).None? || CoarseStep(s, Meant(s, t).value).None? then s
    else CoarseStep(s, Meant(s, t).value).value
  }

  /** The state a schedule leads to: every enabled turn is taken. */
  function Played(s: State, schedule: seq<Turn>): State
    decreases |schedule|
  {
    if schedule == [] then s else Turned(Played(s, schedule[..|schedule| - 1]), schedule[|schedule| - 1])
  }

  /** What a turn of the loop does: each case takes the head of its channel, whenever there is one. */
  lemma TurnTakesTheHead(s: State, c: Case)
    requires Inv(s) && s.loop == Idle
    ensures var t := Turned(s, Loop(c));
      match c
      case OnDone => t == s.(loop := Stopped)
      case OnSub =>
        && t.subs == (if s.subCh == [] then s.subs else s.subs + {s.subCh[0]})
        && |t.subCh| == (if s.subCh == [] then 0 else |s.subCh| - 1)
        && (t.unsubCh, t.publishCh, t.inbox, t.taken, t.loop) == (s.unsubCh, s.publishCh, s.inbox, s.taken, s.loop)
      case OnUnsub =>
        && t.subs == (if s.unsubCh == [] then s.subs else s.subs - {s.unsubCh[0]})
        && |t.unsubCh| == (if s.unsubCh == [] then 0 else |s.unsubCh| - 1)
        && (t.subCh, t.publishCh, t.inbox, t.taken, t.loop) == (s.subCh, s.publishCh, s.inbox, s.taken, s.loop)
      case OnPublish =>
        && t.taken == s.taken + s.publishCh && t.publishCh == []
        && (t.subCh, t.unsubCh, t.subs, t.loop) == (s.subCh, s.unsubCh, s.subs, s.loop)
        && t.inbox.Keys == s.inbox.Keys
        && forall d <- s.inbox ::
             && t.inbox[d].received == s.inbox[d].received
             && t.inbox[d].buffer == s.inbox[d].buffer +
                if d in s.subs && |s.inbox[d].buffer| < 5 then s.publishCh else []
  {
    match c
    case OnDone =>
    case OnSub =>
      assert s.subCh != [] ==> s.subCh[0] in s.clients;
    case OnUnsub =>
      assert s.unsubCh != [] ==> s.unsubCh[0] in s.clients;
    case OnPublish =>
      assert s.publishCh != [] ==> s.publishCh == [s.publishCh[0]];
  }

  lemma TurnedLoop(s: State, t: Turn)
    requires !s.loop.FanOut?
    ensures Turned(s, t).loop == if s.loop == Stopped || t == Loop(OnDone) then Stopped else Idle
  {
    match t
    case Other(a) =>
    case Loop(c) =>
  }

  lemma TurnedKeepsInv(s: State, t: Turn)
    requires Inv(s) && !s.loop.FanOut?
    ensures Inv(Turned(s, t))
    ensures Turned(s, t).loop == if s.loop == Stopped || t == Loop(OnDone) then Stopped else Idle
  {
    TurnedLoop(s, t);
    if Turned(s, t) != s {
      CoarseStepKeepsInv(s, Meant(s, t).value);
    }
  }

  lemma {:induction false} PlayedKeepsInv(s: State, schedule: seq<Turn>)
    requires Inv(s) && !s.loop.FanOut?
    ensures Inv(Played(s, schedule)) && !Played(s, schedule).loop.FanOut?
    decreases |schedule|
  {
    if schedule != [] {
      PlayedKeepsInv(s, schedule[..|schedule| - 1]);
      TurnedKeepsInv(Played(s, schedule[..|schedule| - 1]), schedule[|schedule| - 1]);
    }
  }

  /** Only a done context ends the loop, and it always does. */
  lemma {:induction false} StopsWhenDone(s: State, schedule: seq<Turn>)
    requires Inv(s) && s.loop == Idle
    ensures Played(s, schedule).loop == if Loop(OnDone) in schedule then Stopped else Idle
    decreases |schedule|
  {
    if schedule != [] {
      var front, t := schedule[..|schedule| - 1], schedule[|schedule| - 1];
      assert schedule == front + [t];
      StopsWhenDone(s, front);
      PlayedKeepsInv(s, front);
      TurnedKeepsInv(Played(s, front), t);
    }
  }

  /** Whatever the schedule, the loop stays within the states the interleaved broker reaches. */
  lemma {:induction false} PlayedIsReachable(schedule: seq<Turn>)
    ensures CoarselyReachable(Played(Init, schedule)) && Reachable(Played(Init, schedule))
    decreases |schedule|
  {
    if schedule == [] {
      assert CoarseExec(Init, []) == Some(Init);
    } else {
      var front, t := schedule[..|schedule| - 1], schedule[|schedule| - 1];
      PlayedIsReachable(front);
      var s := Played(Init, front);
      var acts :| CoarseExec(Init, acts) == Some(s);
      if Turned(s, t) != s {
        CoarseExecSnoc(acts, Meant(s, t).value);
      }
    }
    PlayedKeepsInv(Init, schedule);
    FanOutIsAtomic(Played(Init, schedule));
  }

  /** Turns of the loop by itself: once each case has had a turn, nothing waits in any of the three channels. */
  lemma {:induction false} LoopKeepsUp(s: State, cases: seq<Case>)
    requires Inv(s) && s.loop == Idle && OnDone !in cases
    ensures var t := Played(s, Turns(cases));
      && t.loop == Idle && Inv(t) && t.published == s.published
      && (s.subCh == [] || OnSub in cases ==> t.subCh == [])
      && (s.unsubCh == [] || OnUnsub in cases ==> t.unsubCh == [])
      && (s.publishCh == [] || OnPublish in cases ==> t.publishCh == [] && t.taken == s.published)
    decreases |cases|
  {
    if cases != [] {
      var front, c := cases[..|cases| - 1], cases[|cases| - 1];
      assert cases == front + [c];
      LoopKeepsUp(s, front);
      assert Turns(cases)[..|cases| - 1] == Turns(front);
      var t := Played(s, Turns(front));
      TurnedKeepsInv(t, Loop(c));
      TurnTakesTheHead(t, c);
    }
  }

  function Turns(cases: seq<Case>): seq<Turn> {
    seq(|cases|, i requires 0 <= i < |cases| => Loop(cases[i]))
  }

  lemma CoarseExecSnoc(acts: seq<Coarse>, a: Coarse)
    requires CoarseExec(Init, acts).Some?
    ensures CoarseExec(Init, acts + [a]) == CoarseStep(CoarseExec(Init, acts).value, a)
  {
    assert (acts + [a])[..|acts|] == acts;
  }

  lemma CoarseStepKeepsInv(s: State, a: Coarse)
    requires Inv(s) && CoarseStep(s, a).Some?
    ensures Inv(CoarseStep(s, a).value)
  {
    match a
    case Plain(b) =>
      StepKeepsInv(s, b);
    case Whole(e) =>
      var order := Enumerate(s.subs);
      AnyOrderIsWhole(s, e, order);
      InvAfter(s, [TakePublish(e)] + Offers(order, e) + [EndFanOut]);
  }
}
