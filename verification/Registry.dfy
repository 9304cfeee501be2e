/**
  The broker's registry of informer registrations.

  Duck events arrive one at a time under the mutex.  Every library call may fail, so an event carries the
  outcomes its library calls would have; a failed call has no effect.  Beside the two maps of the broker
  stands the library's own record of live event handlers.
*/
module Registry {
  import opened Api

  type Handler = nat  // identity of a handler registration

  datatype State = State(
    informers: map<string, GroupVersionKind>,
    registrations: map<string, Handler>,
    live: map<Handler, GroupVersionKind>,  // the library's side
    next: Handler)

  const Empty := State(map[], map[], map[], 0)

  datatype Event =
    | Seen(duck: Duck, informerOk: bool, handlerOk: bool)  // add or update
    | Gone(name: string, removeOk: bool)                   // delete

  function Apply(s: State, ev: Event): State {
    match ev
    case Seen(duck, informerOk, handlerOk) =>
      if duck.name in s.informers || !duck.Ready() || !informerOk || !handlerOk then s else
        var kind := duck.spec.GroupVersionKind();
        State(s.informers[duck.name := kind], s.registrations[duck.name := s.next], s.live[s.next := kind], s.next + 1)
    case Gone(name, removeOk) =>
      if name !in s.registrations || !removeOk then s else
        s.(informers := s.informers - {name}, registrations := s.registrations - {name},
           live := s.live - {s.registrations[name]})
  }

  function After(evs: seq<Event>): State
    decreases |evs|
  {
    if evs == [] then Empty else Apply(After(evs[..|evs| - 1]), evs[|evs| - 1])
  }

  /** The maps agree with each other and with the library, one live handler per registered name. */
  predicate Agrees(s: State) {
    && s.informers.Keys == s.registrations.Keys
    && (forall n <- s.registrations :: s.registrations[n] in s.live && s.live[s.registrations[n]] == s.informers[n])
    && (forall n, m | n in s.registrations && m in s.registrations && s.registrations[n] == s.registrations[m] :: n == m)
    && (forall h <- s.live :: h < s.next && exists n <- s.registrations :: s.registrations[n] == h)
  }

  lemma RegisteringKeepsAgreement(s: State, n: string, kind: GroupVersionKind)
    requires Agrees(s) && n !in s.informers
    ensures Agrees(State(s.informers[n := kind], s.registrations[n := s.next], s.live[s.next := kind], s.next + 1))
  {
    var t := State(s.informers[n := kind], s.registrations[n := s.next], s.live[s.next := kind], s.next + 1);
    forall h <- t.live ensures h < t.next && exists m <- t.registrations :: t.registrations[m] == h {
      if h == s.next {
        assert t.registrations[n] == h;
      } else {
        var m :| m in s.registrations && s.registrations[m] == h;
        assert t.registrations[m] == h;
      }
    }
  }

  lemma RemovingKeepsAgreement(s: State, n: string)
    requires Agrees(s) && n in s.registrations
    ensures Agrees(s.(informers := s.informers - {n}, registrations := s.registrations - {n},
                      live := s.live - {s.registrations[n]}))
  {
    var t := s.(informers := s.informers - {n}, registrations := s.registrations - {n},
                live := s.live - {s.registrations[n]});
    forall h <- t.live ensures h < t.next && exists m <- t.registrations :: t.registrations[m] == h {
      var m :| m in s.registrations && s.registrations[m] == h;
      assert m in t.registrations && t.registrations[m] == h;
    }
  }

  lemma ApplyKeepsAgreement(s: State, ev: Event)
    requires Agrees(s)
    ensures Agrees(Apply(s, ev))
  {
    if Apply(s, ev) != s {
      match ev
      case Seen(duck, _, _) => RegisteringKeepsAgreement(s, duck.name, duck.spec.GroupVersionKind());
      case Gone(name, _) => RemovingKeepsAgreement(s, name);
    }
  }

  /** After every event sequence, with every pattern of failures, the registry agrees with reality. */
  lemma {:induction false} RegistryAgreesWithReality(evs: seq<Event>)
    ensures Agrees(After(evs))
    decreases |evs|
  {
    if evs != [] {
      RegistryAgreesWithReality(evs[..|evs| - 1]);
      ApplyKeepsAgreement(After(evs[..|evs| - 1]), evs[|evs| - 1]);
    }
  }

  // ----- history -----

  /** A ready duck is seen and both library calls succeed. */
  predicate Registers(ev: Event, n: string) {
    ev.Seen? && ev.duck.name == n && ev.duck.Ready() && ev.informerOk && ev.handlerOk
  }

  predicate Removes(ev: Event, n: string) {
    ev.Gone? && ev.name == n && ev.removeOk
  }

  /** Event i is the first successful registration of n since its last removal, and n is not removed after it. */
  ghost predicate RegisteredBy(evs: seq<Event>, n: string, i: nat) {
    && i < |evs| && Registers(evs[i], n)
    && (forall l | i < l < |evs| :: !Removes(evs[l], n))
    && AllUndone(evs, n, i)
  }

  /** What one event means for one name. */
  lemma ApplyAt(s: State, ev: Event, n: string)
    requires s.informers.Keys == s.registrations.Keys
    ensures var t := Apply(s, ev);
      && (n in t.informers <==> !Removes(ev, n) && (n in s.informers || Registers(ev, n)))
      && (n in t.informers && n in s.informers ==> t.informers[n] == s.informers[n])
      && (n in t.informers && n !in s.informers ==> t.informers[n] == ev.duck.spec.GroupVersionKind())
  {
  }

  /** Every registration of n was undone by a later removal. */
  ghost predicate AllUndone(evs: seq<Event>, n: string, end: nat) {
    end <= |evs| && forall j | 0 <= j < end && Registers(evs[j], n) :: exists l :: j < l < end && Removes(evs[l], n)
  }

  lemma AllUndoneExtends(front: seq<Event>, evs: seq<Event>, n: string, end: nat)
    requires front <= evs && end <= |front|
    ensures AllUndone(front, n, end) <==> AllUndone(evs, n, end)
  {
  }

  lemma {:induction false} HistoryStep(evs: seq<Event>, n: string)
    ensures n !in After(evs).informers ==> AllUndone(evs, n, |evs|)
    ensures n in After(evs).informers ==>
      exists i: nat :: RegisteredBy(evs, n, i) && After(evs).informers[n] == evs[i].duck.spec.GroupVersionKind()
    decreases |evs|
  {
    if evs != [] {
      var k := |evs| - 1;
      var front, ev := evs[..k], evs[k];
      HistoryStep(front, n);
      RegistryAgreesWithReality(front);
      var s := After(front);
      ApplyAt(s, ev, n);
      if Removes(ev, n) {
        forall j | 0 <= j < |evs| && Registers(evs[j], n) ensures exists l :: j < l < |evs| && Removes(evs[l], n) {
          assert j < k < |evs| && Removes(evs[k], n);
        }
      } else if n in s.informers {
        var i: nat :| RegisteredBy(front, n, i) && s.informers[n] == front[i].duck.spec.GroupVersionKind();
        RegistrationLasts(front, ev, n, i);
        assert evs == front + [ev];
      } else {
        UndoneLasts(front, ev, n);
        assert evs == front + [ev];
      }
    }
  }

  lemma RegistrationLasts(front: seq<Event>, ev: Event, n: string, i: nat)
    requires RegisteredBy(front, n, i) && !Removes(ev, n)
    ensures RegisteredBy(front + [ev], n, i)
  {
    AllUndoneExtends(front, front + [ev], n, i);
  }

  lemma UndoneLasts(front: seq<Event>, ev: Event, n: string)
    requires AllUndone(front, n, |front|)
    ensures if Registers(ev, n) then RegisteredBy(front + [ev], n, |front|) else AllUndone(front + [ev], n, |front| + 1)
  {
    var evs := front + [ev];
    AllUndoneExtends(front, evs, n, |front|);
    if !Registers(ev, n) {
      forall j | 0 <= j < |evs| && Registers(evs[j], n) ensures exists l :: j < l < |evs| && Removes(evs[l], n) {
        var l :| j < l < |front| && Removes(evs[l], n);
      }
    }
  }

  /**
    A name is registered exactly when some ready event registered it successfully and no removal succeeded
    since, and its informer is of the kind that event named, whatever later updates say about spec or
    readiness.
  */
  lemma RegistryIsItsHistory(evs: seq<Event>, n: string)
    ensures n in After(evs).informers <==> exists i: nat :: RegisteredBy(evs, n, i)
    ensures forall i: nat | RegisteredBy(evs, n, i) ::
      n in After(evs).informers
      && var spec := evs[i].duck.spec; After(evs).informers[n] == GVK(spec.group, spec.version, spec.kind)
  {
    HistoryStep(evs, n);
    forall i: nat | RegisteredBy(evs, n, i)
      ensures n in After(evs).informers && After(evs).informers[n] == evs[i].duck.spec.GroupVersionKind()
    {
      assert n in After(evs).informers;
      var j: nat :| RegisteredBy(evs, n, j) && After(evs).informers[n] == evs[j].duck.spec.GroupVersionKind();
      assert i == j;
    }
  }

  /** A registered duck whose kind is then edited, or whose readiness is lost, stays registered as first seen. */
  lemma EditsAndLostReadinessAreIgnored(name: string, before: DuckSpec, after: DuckSpec)
    ensures var first := Seen(Duck(name, before, True, True), true, true);
      var kind := GVK(before.group, before.version, before.kind);
      && After([first]).informers == map[name := kind]
      && After([first] + [Seen(Duck(name, after, True, True), true, true)]).informers == map[name := kind]
      && After([first] + [Seen(Duck(name, after, True, False), true, true)]).informers == map[name := kind]
  {
    var first := Seen(Duck(name, before, True, True), true, true);
    assert [first][..0] == [];
    forall ev: Event | ev.Seen? && ev.duck.name == name ensures After([first] + [ev]) == After([first]) {
      assert ([first] + [ev])[..1] == [first];
    }
  }

  // ----- the broker's code -----

  class Informing {
    var duckInformers: map<string, GroupVersionKind>
    var duckRegistrations: map<string, Handler>
    var live: map<Handler, GroupVersionKind>
    var next: Handler

    function View(): State
      reads this
    {
      State(duckInformers, duckRegistrations, live, next)
    }

    constructor ()
      ensures View() == Empty
    {
      duckInformers, duckRegistrations, live, next := map[], map[], map[], 0;
    }

    /** The add and update handlers. */
    method InformOn(r: Duck, informerOk: bool, handlerOk: bool)
      modifies this
      ensures View() == Apply(old(View()), Seen(r, informerOk, handlerOk))
    {
      if r.name in duckInformers {
        return;
      }
      if !r.Ready() {
        return;
      }
      var informer := r.spec.GroupVersionKind();
      if !informerOk {
        return;
      }
      var registration := next;
      if !handlerOk {
        return;
      }
      live, next := live[registration := informer], next + 1;
      duckInformers := duckInformers[r.name := informer];
      duckRegistrations := duckRegistrations[r.name := registration];
    }

    /** The delete handler. */
    method Forget(name: string, removeOk: bool)
      modifies this
      ensures View() == Apply(old(View()), Gone(name, removeOk))
    {
      if name in duckRegistrations {
        if !removeOk {
          return;
        }
        live := live - {duckRegistrations[name]};
        duckInformers := duckInformers - {name};
        duckRegistrations := duckRegistrations - {name};
      }
    }

    /**
      The removal loop at shutdown, over the registrations in any order.  It succeeds exactly when no
      removal can fail, and then nothing is live; otherwise it gives up at a failing name, and exactly the
      handlers it had not removed stay live.
    */
    method Shutdown(typeRemoveOk: bool, failing: set<string>) returns (ok: bool, removed: set<string>)
      requires Agrees(View())
      modifies this`live
      ensures ok <==> typeRemoveOk && failing !! duckRegistrations.Keys
      ensures ok ==> live == map[]
      ensures removed <= duckRegistrations.Keys && removed !! failing && (!typeRemoveOk ==> removed == {})
      ensures live == old(live) - HandlersOf(duckRegistrations, removed)
      ensures forall n <- duckRegistrations :: duckRegistrations[n] in live <==> n !in removed
    {
      if !typeRemoveOk {
        ok, removed := false, {};
      } else {
        ok, removed := RemoveAll(failing);
      }
      RemovedAreGone(old(View()), removed);
    }

    method RemoveAll(failing: set<string>) returns (ok: bool, removed: set<string>)
      modifies this`live
      ensures ok <==> failing !! duckRegistrations.Keys
      ensures ok ==> removed == duckRegistrations.Keys
      ensures removed <= duckRegistrations.Keys && removed !! failing
      ensures live == old(live) - HandlersOf(duckRegistrations, removed)
    {
      removed := {};
      var rest := duckRegistrations.Keys;
      while rest != {}
        invariant rest <= duckRegistrations.Keys
        invariant removed == duckRegistrations.Keys - rest && removed !! failing
        invariant live == old(live) - HandlersOf(duckRegistrations, removed)
        decreases |rest|
      {
        var name :| name in rest;
        if name in failing {
          return false, removed;
        }
        HandlersOfOneMore(duckRegistrations, removed, name);
        live := live - {duckRegistrations[name]};
        rest := rest - {name};
        removed := removed + {name};
      }
      ok := true;
    }
  }

  function HandlersOf(registrations: map<string, Handler>, names: set<string>): set<Handler> {
    set n | n in names && n in registrations :: registrations[n]
  }

  lemma HandlersOfOneMore(registrations: map<string, Handler>, names: set<string>, name: string)
    requires name in registrations
    ensures HandlersOf(registrations, names + {name}) == HandlersOf(registrations, names) + {registrations[name]}
  {
  }

  lemma RemovedAreGone(s: State, removed: set<string>)
    requires Agrees(s) && removed <= s.registrations.Keys
    ensures var live := s.live - HandlersOf(s.registrations, removed);
      && (forall n <- s.registrations :: s.registrations[n] in live <==> n !in removed)
      && (removed == s.registrations.Keys ==> live == map[])
  {
  }
}
