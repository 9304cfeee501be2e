/**
  The lifecycle of sub-managers, keyed by the UID of the resource they serve.

  Each start spawns one goroutine that runs the manager and then reports once on an unbuffered channel;
  shutdown cancels, blocks on that report and forgets the entry.
*/
module SubManager {
  type Uid = nat

  /** The goroutine of one sub-manager: running it, parked on its one send, or done. */
  datatype Status = Running | Parked | Reported

  datatype Goroutine = Goroutine(uid: Uid, status: Status, cancelled: bool)

  /** The reconciler's map and the goroutines ever spawned; an entry names its goroutine. */
  datatype Lifecycle = Lifecycle(managers: map<Uid, nat>, spawned: seq<Goroutine>, collected: nat)

  const Fresh := Lifecycle(map[], [], 0)

  /** The resource as the reconciler sees it. */
  datatype Resource = Resource(uid: Uid, deleting: bool, finalizer: bool)

  /** How the calls made by start turn out. */
  datatype StartOutcome = Starts | LocalTypesFails | NewFails | SetupFails

  predicate Has(l: Lifecycle, u: Uid) {
    u in l.managers && l.managers[u] < |l.spawned|
  }

  function Spawned(l: Lifecycle, u: Uid): Lifecycle {
    l.(managers := l.managers[u := |l.spawned|], spawned := l.spawned + [Goroutine(u, Running, false)])
  }

  function Cancelled(l: Lifecycle, u: Uid): Lifecycle
    requires Has(l, u)
  {
    var g := l.managers[u];
    l.(spawned := l.spawned[g := l.spawned[g].(cancelled := true)])
  }

  /** The manager's Start returns, by itself or because it was cancelled. */
  function Returned(l: Lifecycle, g: nat): Lifecycle
    requires g < |l.spawned|
  {
    l.(spawned := l.spawned[g := l.spawned[g].(status := Parked)])
  }

  /** The report is handed over and the entry deleted. */
  function Collected(l: Lifecycle, u: Uid): Lifecycle
    requires Has(l, u)
  {
    var g := l.managers[u];
    Lifecycle(l.managers - {u}, l.spawned[g := l.spawned[g].(status := Reported)], l.collected + 1)
  }

  /** Entries and unreported goroutines correspond one to one, and every goroutine is accounted for. */
  predicate Conserved(l: Lifecycle) {
    && (forall u <- l.managers :: Has(l, u) && l.spawned[l.managers[u]].uid == u && l.spawned[l.managers[u]].status != Reported)
    && (forall g | 0 <= g < |l.spawned| && l.spawned[g].status != Reported ::
          l.spawned[g].uid in l.managers && l.managers[l.spawned[g].uid] == g)
    && |l.spawned| == |l.managers| + l.collected
  }

  lemma SpawnedConserves(l: Lifecycle, u: Uid)
    requires Conserved(l) && u !in l.managers
    ensures Conserved(Spawned(l, u))
  {
  }

  lemma CancelledConserves(l: Lifecycle, u: Uid)
    requires Conserved(l) && u in l.managers
    ensures Conserved(Cancelled(l, u))
  {
  }

  lemma ReturnedConserves(l: Lifecycle, g: nat)
    requires Conserved(l) && g < |l.spawned| && l.spawned[g].status == Running
    ensures Conserved(Returned(l, g))
  {
  }

  lemma CollectedConserves(l: Lifecycle, u: Uid)
    requires Conserved(l) && u in l.managers
    ensures Conserved(Collected(l, u))
  {
  }

  /** One Reconcile call on an undisturbed reconciler, given that a cancelled manager's Start returns. */
  function Reconciled(l: Lifecycle, r: Resource, outcome: StartOutcome): (Lifecycle, bool)
    requires Conserved(l)
  {
    if r.deleting then
      if r.uid in l.managers then (Collected(Returned(Cancelled(l, r.uid), l.managers[r.uid]), r.uid), true) else (l, true)
    else if !r.finalizer then (l, false)
    else if r.uid in l.managers then (l, true)
    else if outcome == Starts then (Spawned(l, r.uid), true)
    else (l, outcome == LocalTypesFails)
  }

  datatype Call = Reconcile(r: Resource, outcome: StartOutcome) | Exits(g: nat)

  /** Reconcile calls, one after the other, and sub-managers that exit on their own. */
  function AfterCalls(calls: seq<Call>): (l: Lifecycle)
    ensures Conserved(l)
    decreases |calls|
  {
    if calls == [] then Fresh else
      var l := AfterCalls(calls[..|calls| - 1]);
      match calls[|calls| - 1]
      case Reconcile(r, outcome) =>
        ReconciledConserves(l, r, outcome);
        Reconciled(l, r, outcome).0
      case Exits(g) =>
        if g < |l.spawned| && l.spawned[g].status == Running then
          ReturnedConserves(l, g);
          Returned(l, g)
        else l
  }

  lemma ReconciledConserves(l: Lifecycle, r: Resource, outcome: StartOutcome)
    requires Conserved(l)
    ensures Conserved(Reconciled(l, r, outcome).0)
  {
    if r.deleting && r.uid in l.managers {
      CancelledConserves(l, r.uid);
      var c := Cancelled(l, r.uid);
      assert Conserved(Returned(c, l.managers[r.uid]));
      CollectedConserves(Returned(c, l.managers[r.uid]), r.uid);
    } else if !r.deleting && r.finalizer && r.uid !in l.managers && outcome == Starts {
      SpawnedConserves(l, r.uid);
    }
  }

  /** Shutdowns that removed an entry, counted from the calls alone. */
  function Removals(calls: seq<Call>): nat
    decreases |calls|
  {
    if calls == [] then 0 else
      var front, call := calls[..|calls| - 1], calls[|calls| - 1];
      Removals(front) +
      if call.Reconcile? && call.r.deleting && call.r.uid in AfterCalls(front).managers then 1 else 0
  }

  /**
    Goroutine conservation: spawned equals current entries plus removing shutdowns, and no UID ever has two
    goroutines that have not reported.
  */
  lemma {:induction false} GoroutinesAreConserved(calls: seq<Call>)
    ensures var l := AfterCalls(calls);
      && |l.spawned| == |l.managers| + Removals(calls)
      && forall g, h | 0 <= g < |l.spawned| && 0 <= h < |l.spawned| && l.spawned[g].uid == l.spawned[h].uid
           && l.spawned[g].status != Reported && l.spawned[h].status != Reported :: g == h
    decreases |calls|
  {
    CollectedAreRemovals(calls);
  }

  lemma {:induction false} CollectedAreRemovals(calls: seq<Call>)
    ensures AfterCalls(calls).collected == Removals(calls)
    decreases |calls|
  {
    if calls != [] {
      CollectedAreRemovals(calls[..|calls| - 1]);
    }
  }

  /**
    What one call means: a failed start leaves no trace, the call reports an error exactly when the
    finalizer is missing or a start fails later than LocalTypes, and success leaves a live resource without
    an entry exactly when LocalTypes failed.  A goroutine is spawned exactly for a live resource that has the
    finalizer and no entry; a deletion cancels and collects the resource's own goroutine and no other.
  */
  lemma CallOutcome(l: Lifecycle, r: Resource, outcome: StartOutcome)
    requires Conserved(l)
    ensures var (m, ok) := Reconciled(l, r, outcome);
      && (!r.deleting && outcome != Starts ==> m == l)
      && (!ok <==> !r.deleting && (!r.finalizer || (r.uid !in l.managers && outcome in {NewFails, SetupFails})))
      && (r.deleting ==> r.uid !in m.managers)
      && (!r.deleting ==>
            (ok && r.uid !in m.managers <==> r.finalizer && r.uid !in l.managers && outcome == LocalTypesFails))
      && (forall u | u != r.uid :: u in m.managers <==> u in l.managers)
      && (forall u | u != r.uid && u in m.managers :: m.managers[u] == l.managers[u])
      && |m.spawned| == |l.spawned| +
           (if !r.deleting && r.finalizer && r.uid !in l.managers && outcome == Starts then 1 else 0)
      && (|m.spawned| > |l.spawned| ==>
            r.uid in m.managers && m.managers[r.uid] == |l.spawned|
            && m.spawned[|l.spawned|] == Goroutine(r.uid, Running, false))
      && (forall g | 0 <= g < |l.spawned| ::
            m.spawned[g] == if r.deleting && r.uid in l.managers && l.managers[r.uid] == g
                            then Goroutine(r.uid, Reported, true) else l.spawned[g])
  {
  }

  /** Over any calls, exactly the goroutines whose resource was shut down have their context cancelled. */
  lemma {:induction false} CancelledAreCollected(calls: seq<Call>, g: nat)
    requires g < |AfterCalls(calls).spawned|
    ensures AfterCalls(calls).spawned[g].cancelled <==> AfterCalls(calls).spawned[g].status == Reported
    ensures AfterCalls(calls).spawned[g].cancelled ==> Deleted(calls, AfterCalls(calls).spawned[g].uid)
    decreases |calls|
  {
    if calls != [] {
      var front, call := calls[..|calls| - 1], calls[|calls| - 1];
      var l := AfterCalls(front);
      assert calls == front + [call];
      if call.Reconcile? {
        CallOutcome(l, call.r, call.outcome);
      }
      if g < |l.spawned| {
        CancelledAreCollected(front, g);
      }
    }
  }

  /** Some call saw the resource deleting. */
  predicate Deleted(calls: seq<Call>, u: Uid) {
    exists call <- calls :: call.Reconcile? && call.r.deleting && call.r.uid == u
  }

  /** The reconciler's code. */
  class SubManagerReconciler {
    var managers: map<Uid, nat>
    var spawned: seq<Goroutine>
    ghost var collected: nat

    ghost function View(): Lifecycle
      reads this
    {
      Lifecycle(managers, spawned, collected)
    }

    constructor ()
      ensures View() == Fresh
    {
      managers, spawned, collected := map[], [], 0;
    }

    method Reconcile(r: Resource, outcome: StartOutcome) returns (ok: bool)
      requires Conserved(View())
      modifies this
      ensures Conserved(View())
      ensures (View(), ok) == Reconciled(old(View()), r, outcome)
    {
      ReconciledConserves(View(), r, outcome);
      if r.deleting {
        Shutdown(r.uid);
        return true;
      }
      if !r.finalizer {
        return false;
      }
      if r.uid in managers {
        return true;
      }
      ok := Start(r.uid, outcome);
    }

    method Start(u: Uid, outcome: StartOutcome) returns (ok: bool)
      requires Conserved(View()) && u !in managers
      modifies this
      ensures View() == if outcome == Starts then Spawned(old(View()), u) else old(View())
      ensures ok <==> outcome in {Starts, LocalTypesFails}
    {
      if outcome == LocalTypesFails {
        return true;
      }
      if outcome == NewFails {
        return false;
      }
      if outcome == SetupFails {
        return false;
      }
      managers := managers[u := |spawned|];
      spawned := spawned + [Goroutine(u, Running, false)];
      ok := true;
    }

    method Shutdown(u: Uid)
      requires Conserved(View())
      modifies this
      ensures View() == if u in old(managers)
                        then Collected(Returned(Cancelled(old(View()), u), old(managers)[u]), u)
                        else old(View())
    {
      if u in managers {
        var g := managers[u];
        spawned := spawned[g := spawned[g].(cancelled := true)];
        // blocked on done until the manager's Start has returned
        spawned := spawned[g := spawned[g].(status := Parked)];
        spawned := spawned[g := spawned[g].(status := Reported)];
        collected := collected + 1;
        managers := managers - {u};
      }
    }
  }
}
