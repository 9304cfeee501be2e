/**
  The event broker as a labelled transition system.

  Every step one goroutine can take by itself is one action: a Publish or Subscribe call completing its
  channel send, the unsubscribe goroutine, the select loop taking from one of its three channels, one
  iteration of the fan-out loop, and a subscriber taking from its own channel.  An action carries the data
  it moves, so a run is a sequence of actions and the choice between ready select cases is the choice of
  the next action.
*/
module BrokerModel {
  import opened Options

  type Event = nat  // identity of a published event
  type Chan = nat   // identity of a subscriber channel

  const SUBSCRIBER_CAPACITY := 5
  const LOOP_CAPACITY := 1

  /** How far the send of a channel into subCh or unsubCh has come. */
  datatype Phase = Waiting | Buffered | Taken

  /** One Subscribe call: whether its context is done, and how far its two sends have come. */
  datatype Client = Client(cancelled: bool, join: Phase, leave: Phase)

  /** A subscriber channel: what waits in it and what has been received from it. */
  datatype Inbox = Inbox(buffer: seq<Event>, received: seq<Event>) {
    /** Everything ever accepted into the channel, in order. */
    function Stream(): seq<Event> {
      received + buffer
    }

    /** The non-blocking send of the fan-out. */
    function Offered(e: Event): Inbox {
      if |buffer| < SUBSCRIBER_CAPACITY then this.(buffer := buffer + [e]) else this
    }
  }

  datatype Loop = Idle | FanOut(msg: Event, pending: set<Chan>) | Stopped

  datatype State = State(
    publishCh: seq<Event>,
    subCh: seq<Chan>,
    unsubCh: seq<Chan>,
    subs: set<Chan>,
    loop: Loop,
    clients: map<Chan, Client>,
    inbox: map<Chan, Inbox>,
    published: seq<Event>,  // completed Publish calls
    taken: seq<Event>)      // publications the loop has taken

  const Init := State([], [], [], {}, Idle, map[], map[], [], [])

  datatype Action =
    | Publish(e: Event)
    | Open(c: Chan)
    | SendSub(c: Chan)
    | Cancel(c: Chan)
    | SendUnsub(c: Chan)
    | Receive(c: Chan, e: Event)
    | TakeSub(c: Chan)
    | TakeUnsub(c: Chan)
    | TakePublish(e: Event)
    | Offer(c: Chan, e: Event)
    | EndFanOut
    | Stop
  {
    /** Steps of callers and subscribers; the others belong to the loop goroutine. */
    predicate Outside() {
      Publish? || Open? || SendSub? || Cancel? || SendUnsub? || Receive?
    }
  }

  /** The state after an action, or None when the action is not enabled. */
  function Step(s: State, a: Action): Option<State> {
    match a
    case Publish(e) =>
      if |s.publishCh| < LOOP_CAPACITY
      then Some(s.(publishCh := s.publishCh + [e], published := s.published + [e]))
      else None
    case Open(c) =>
      if c !in s.clients && c !in s.inbox
      then Some(s.(clients := s.clients[c := Client(false, Waiting, Waiting)], inbox := s.inbox[c := Inbox([], [])]))
      else None
    case SendSub(c) =>
      if c in s.clients && s.clients[c].join == Waiting && |s.subCh| < LOOP_CAPACITY
      then Some(s.(subCh := s.subCh + [c], clients := s.clients[c := s.clients[c].(join := Buffered)]))
      else None
    case Cancel(c) =>
      if c in s.clients
      then Some(s.(clients := s.clients[c := s.clients[c].(cancelled := true)]))
      else None
    case SendUnsub(c) =>
      // the goroutine is spawned once the send into subCh is done
      if c in s.clients && s.clients[c].join != Waiting && s.clients[c].cancelled && s.clients[c].leave == Waiting
         && |s.unsubCh| < LOOP_CAPACITY
      then Some(s.(unsubCh := s.unsubCh + [c], clients := s.clients[c := s.clients[c].(leave := Buffered)]))
      else None
    case Receive(c, e) =>
      if c in s.inbox && s.inbox[c].buffer != [] && s.inbox[c].buffer[0] == e
      then Some(s.(inbox := s.inbox[c := Received(s.inbox[c])]))
      else None
    case TakeSub(c) =>
      if s.loop == Idle && s.subCh != [] && s.subCh[0] == c && c in s.clients
      then Some(s.(subCh := s.subCh[1..], subs := s.subs + {c}, clients := s.clients[c := s.clients[c].(join := Taken)]))
      else None
    case TakeUnsub(c) =>
      if s.loop == Idle && s.unsubCh != [] && s.unsubCh[0] == c && c in s.clients
      then Some(s.(unsubCh := s.unsubCh[1..], subs := s.subs - {c}, clients := s.clients[c := s.clients[c].(leave := Taken)]))
      else None
    case TakePublish(e) =>
      if s.loop == Idle && s.publishCh != [] && s.publishCh[0] == e
      then Some(s.(publishCh := s.publishCh[1..], taken := s.taken + [e], loop := FanOut(e, s.subs)))
      else None
    case Offer(c, e) =>
      if s.loop.FanOut? && s.loop.msg == e && c in s.loop.pending && c in s.inbox
      then Some(s.(inbox := s.inbox[c := s.inbox[c].Offered(e)], loop := FanOut(e, s.loop.pending - {c})))
      else None
    case EndFanOut =>
      if s.loop.FanOut? && s.loop.pending == {} then Some(s.(loop := Idle)) else None
    case Stop =>
      if s.loop == Idle then Some(s.(loop := Stopped)) else None
  }

  function Received(i: Inbox): Inbox
    requires i.buffer != []
  {
    Inbox(i.buffer[1..], i.received + [i.buffer[0]])
  }

  /** The state a run ends in, or None when some action of it is not enabled. */
  function Exec(s: State, acts: seq<Action>): Option<State>
    decreases |acts|
  {
    if acts == [] then Some(s) else
      match Exec(s, acts[..|acts| - 1])
      case None => None
      case Some(t) => Step(t, acts[|acts| - 1])
  }

  /** Some run from the initial state ends in s. */
  ghost predicate Reachable(s: State) {
    exists acts :: Exec(Init, acts) == Some(s)
  }

  lemma ExecSnoc(s: State, acts: seq<Action>, a: Action)
    requires Exec(s, acts).Some?
    ensures Exec(s, acts + [a]) == Step(Exec(s, acts).value, a)
  {
  }

  lemma {:induction false} ExecConcat(s: State, p: seq<Action>, q: seq<Action>)
    requires Exec(s, p).Some?
    ensures Exec(s, p + q) == Exec(Exec(s, p).value, q)
    decreases |q|
  {
    if q == [] {
      assert p + q == p;
    } else {
      var k := |q| - 1;
      assert (p + q)[..|p + q| - 1] == p + q[..k];
      ExecConcat(s, p, q[..k]);
    }
  }

  /** What every reachable state satisfies. */
  predicate Inv(s: State) {
    && LoopInv(s)
    && s.published == s.taken + s.publishCh
    && (forall c <- s.clients :: ClientInv(s, c))
  }

  predicate LoopInv(s: State) {
    && |s.publishCh| <= LOOP_CAPACITY && |s.subCh| <= LOOP_CAPACITY && |s.unsubCh| <= LOOP_CAPACITY
    && s.clients.Keys == s.inbox.Keys
    && (forall c <- s.subCh :: c in s.clients)
    && (forall c <- s.unsubCh :: c in s.clients)
    && s.subs <= s.clients.Keys
    && (s.loop.FanOut? ==> s.loop.pending <= s.subs && s.taken != [] && s.taken[|s.taken| - 1] == s.loop.msg)
  }

  /**
    A channel sits in a loop channel exactly while that send is buffered, it is in subs only once its
    subscribe was taken, and its own buffer never exceeds its capacity.
  */
  predicate ClientInv(s: State, c: Chan)
    requires c in s.clients
  {
    var k := s.clients[c];
    && (k.join == Buffered <==> c in s.subCh)
    && (k.leave == Buffered <==> c in s.unsubCh)
    && (c in s.subs ==> k.join == Taken)
    && (k.join == Taken && k.leave != Taken ==> c in s.subs)
    && (k.leave != Waiting ==> k.cancelled && k.join != Waiting)
    && (c in s.inbox ==> |s.inbox[c].buffer| <= SUBSCRIBER_CAPACITY)
  }

  lemma StepKeepsLoopInv(s: State, a: Action)
    requires LoopInv(s) && Step(s, a).Some?
    ensures LoopInv(Step(s, a).value)
  {
  }

  /** The loop takes completed publications in order, and at most one waits. */
  lemma StepKeepsHistory(s: State, a: Action)
    requires s.published == s.taken + s.publishCh && Step(s, a).Some?
    ensures Step(s, a).value.published == Step(s, a).value.taken + Step(s, a).value.publishCh
  {
  }

  lemma StepKeepsClientInv(s: State, a: Action, c: Chan)
    requires Inv(s) && Step(s, a).Some? && c in Step(s, a).value.clients
    ensures ClientInv(Step(s, a).value, c)
  {
  }

  lemma StepKeepsInv(s: State, a: Action)
    requires Inv(s) && Step(s, a).Some?
    ensures Inv(Step(s, a).value)
  {
    StepKeepsLoopInv(s, a);
    StepKeepsHistory(s, a);
    forall c <- Step(s, a).value.clients ensures ClientInv(Step(s, a).value, c) {
      StepKeepsClientInv(s, a, c);
    }
  }

  lemma {:induction false} InvAfter(s: State, acts: seq<Action>)
    requires Inv(s) && Exec(s, acts).Some?
    ensures Inv(Exec(s, acts).value)
    decreases |acts|
  {
    if acts != [] {
      var front := acts[..|acts| - 1];
      InvAfter(s, front);
      StepKeepsInv(Exec(s, front).value, acts[|acts| - 1]);
    }
  }

  lemma RunKeepsInv(acts: seq<Action>)
    requires Exec(Init, acts).Some?
    ensures Inv(Exec(Init, acts).value)
  {
    InvAfter(Init, acts);
  }
}
