/**
  The API server, the reconciler's stale cache and the sub-manager lifecycle as one protocol.

  The server's past versions form a queue whose head is what the cache shows and whose last element is the
  present, so the cache lags arbitrarily but never goes back.  The DuckType reconciler is a finalizer
  wrapper around the child reconcilers and the sub-manager reconciler; calls are serialised, and every
  other actor may step between any two of its own steps.
*/
module FinalizerProtocol {
  import opened Options
  import opened SubManager

  /** A DuckType on the server; `finalizer` is this reconciler's own, `others` any other. */
  datatype Object = Object(name: string, deleting: bool, finalizer: bool, others: bool)

  type Store = map<Uid, Object>

  datatype Phase =
    | Resting
    | Wrapping(u: Uid, seen: Object)  // read from the cache, finalizer not yet ensured
    | Calling(u: Uid, seen: Object)   // finalizer ensured, child reconcilers running
    | Waiting(u: Uid)                 // shutdown blocked on the report
    | Clearing(u: Uid)                // children succeeded on a deleting object

  datatype State = State(
    versions: seq<Store>,
    used: set<Uid>,
    stripped: set<Uid>,  // objects whose finalizer somebody else took off and nobody put back
    phase: Phase,
    life: Lifecycle)
  {
    predicate Some() {
      versions != []
    }

    function Cache(): Store
      requires Some()
    {
      versions[0]
    }

    function Server(): Store
      requires Some()
    {
      versions[|versions| - 1]
    }

    function Write(store: Store): State {
      this.(versions := versions + [store])
    }
  }

  const Init := State([map[]], {}, {}, Resting, Fresh)

  datatype Action =
    // other actors
    | Create(u: Uid, name: string, finalizer: bool, others: bool)
    | Delete(u: Uid)
    | SetOthers(u: Uid, others: bool)
    | Strip(u: Uid)
    | Restore(u: Uid)
    | CacheCatchesUp(to: nat)
    | Returns(g: nat)
    // the reconciler
    | Begin(u: Uid)
    | EnsureFinalizer
    | Abort
    | CallChild(outcome: StartOutcome)
    | TakeReport
    | ClearFinalizer

  /** The server removes a deleting object once no finalizer is left. */
  function Put(store: Store, u: Uid, o: Object): Store {
    if o.deleting && !o.finalizer && !o.others then store - {u} else store[u := o]
  }

  function Step(s: State, a: Action): Option<State>
    requires s.Some()
  {
    var server := s.Server();
    match a
    case Create(u, name, finalizer, others) =>
      if u in s.used || exists v <- server :: server[v].name == name then None else
        Some(s.Write(server[u := Object(name, false, finalizer, others)]).(used := s.used + {u}))
    case Delete(u) =>
      if u in server then Some(s.Write(Put(server, u, server[u].(deleting := true)))) else None
    case SetOthers(u, others) =>
      if u !in server || (server[u].deleting && others) then None else
        Some(s.Write(Put(server, u, server[u].(others := others))))
    case Strip(u) =>
      if u !in server then None else
        Some(s.Write(Put(server, u, server[u].(finalizer := false)))
              .(stripped := if server[u].finalizer then s.stripped + {u} else s.stripped))
    case Restore(u) =>
      if u !in server || server[u].deleting then None else
        Some(s.Write(server[u := server[u].(finalizer := true)]).(stripped := s.stripped - {u}))
    case CacheCatchesUp(to) =>
      if to < |s.versions| then Some(s.(versions := s.versions[to..])) else None
    case Returns(g) =>
      if g < |s.life.spawned| && s.life.spawned[g].status == Running then Some(s.(life := Returned(s.life, g))) else None
    case Begin(u) =>
      if s.phase.Resting? && u in s.Cache() then Some(s.(phase := Wrapping(u, s.Cache()[u]))) else None
    case EnsureFinalizer =>
      if !s.phase.Wrapping? then None else
        var u, seen := s.phase.u, s.phase.seen;
        if seen.deleting || seen.finalizer then Some(s.(phase := Calling(u, seen)))
        // the patch lands only on the same object, and never on a deleting one
        else if u in server && !server[u].deleting then
          Some(s.Write(server[u := server[u].(finalizer := true)])
                .(phase := Calling(u, seen.(finalizer := true)), stripped := s.stripped - {u}))
        else None
    case Abort =>
      if s.phase.Resting? || s.phase.Waiting? then None else Some(s.(phase := Resting))
    case CallChild(outcome) =>
      if !s.phase.Calling? then None else
        var u, seen := s.phase.u, s.phase.seen;
        if seen.deleting then
          if Has(s.life, u) then Some(s.(phase := Waiting(u), life := Cancelled(s.life, u)))
          else Some(s.(phase := Clearing(u)))
        else if seen.finalizer && u !in s.life.managers && outcome == Starts then
          Some(s.(phase := Resting, life := Spawned(s.life, u)))
        else Some(s.(phase := Resting))
    case TakeReport =>
      if s.phase.Waiting? && Has(s.life, s.phase.u) && s.life.spawned[s.life.managers[s.phase.u]].status == Parked
      then Some(s.(phase := Clearing(s.phase.u), life := Collected(s.life, s.phase.u)))
      else None
    case ClearFinalizer =>
      if s.phase.Clearing? && s.phase.u in server
      then Some(s.Write(Put(server, s.phase.u, server[s.phase.u].(finalizer := false))).(phase := Resting))
      else None
  }

  function Exec(s: State, acts: seq<Action>): (r: Option<State>)
    requires s.Some()
    ensures r.Some? ==> r.value.Some()
    decreases |acts|
  {
    if acts == [] then Some(s) else
      match Exec(s, acts[..|acts| - 1])
      case None => None
      case Some(t) => Step(t, acts[|acts| - 1])
  }

  // ----- safety -----

  /** The object exists and carries this reconciler's finalizer. */
  predicate Held(s: State, u: Uid)
    requires s.Some()
  {
    u in s.Server() && s.Server()[u].finalizer
  }

  /** Every version the cache can still show has the object deleting. */
  predicate SeenDeleting(s: State, u: Uid) {
    forall i | 0 <= i < |s.versions| && u in s.versions[i] :: s.versions[i][u].deleting
  }

  /** What holds of each UID in every reachable state. */
  predicate UidInv(s: State, u: Uid)
    requires s.Some()
  {
    && VersionInv(s, u)
    && (u in s.life.managers ==> Held(s, u) || u in s.stripped)
    && (u in s.stripped ==> u in s.used && !Held(s, u))
    && PhaseInv(s, u)
  }

  /** Deletion is final, and a finalizer the cache may still show on a live object is still there. */
  predicate VersionInv(s: State, u: Uid)
    requires s.Some()
  {
    && (forall i | 0 <= i < |s.versions| && u in s.versions[i] :: u in s.used)
    && (forall i, j | 0 <= i <= j < |s.versions| && u in s.versions[i] && u in s.versions[j] && s.versions[i][u].deleting ::
          s.versions[j][u].deleting)
    && (forall i | 0 <= i < |s.versions| && u in s.versions[i] && !s.versions[i][u].deleting && s.versions[i][u].finalizer ::
          Held(s, u) || u in s.stripped)
  }

  predicate PhaseInv(s: State, u: Uid)
    requires s.Some()
  {
    match s.phase
    case Resting => true
    case Wrapping(v, seen) => v == u ==> u in s.used && SnapshotInv(s, u, seen)
    case Calling(v, seen) => v == u ==> u in s.used && (seen.deleting || seen.finalizer) && SnapshotInv(s, u, seen)
    case Waiting(v) =>
      v == u ==> u in s.used && SeenDeleting(s, u) && Has(s.life, u) && s.life.spawned[s.life.managers[u]].cancelled
    case Clearing(v) => v == u ==> u in s.used && SeenDeleting(s, u) && u !in s.life.managers
  }

  predicate SnapshotInv(s: State, u: Uid, seen: Object)
    requires s.Some()
  {
    && (seen.deleting ==> SeenDeleting(s, u))
    && (!seen.deleting && seen.finalizer ==> Held(s, u) || u in s.stripped)
  }

  predicate NamesUnique(s: State)
    requires s.Some()
  {
    var server := s.Server();
    forall u, v | u in server && v in server && server[u].name == server[v].name :: u == v
  }

  ghost predicate Inv(s: State) {
    && s.Some()
    && Conserved(s.life)
    && NamesUnique(s)
    && (forall u :: UidInv(s, u))
  }

  /** How a write may treat one object: never revive it, and release a held one only if that is allowed. */
  predicate Respects(s: State, t: State, u: Uid)
    requires s.Some()
  {
    && t.versions != [] && t.versions == s.versions + [t.Server()]
    && s.used <= t.used && (u in s.stripped ==> u in t.stripped || Held(t, u))
    && (u in t.Server() ==>
          u in t.used && (if u in s.Server() then s.Server()[u].deleting ==> t.Server()[u].deleting else u !in s.used))
    && (Held(s, u) ==> Held(t, u) || u in t.stripped || SeenDeleting(s, u))
  }

  lemma WriteKeepsVersionInv(s: State, t: State, u: Uid)
    requires s.Some() && VersionInv(s, u) && Respects(s, t, u)
    ensures VersionInv(t, u)
    ensures SeenDeleting(s, u) && u in s.used ==> SeenDeleting(t, u)
  {
  }

  lemma StepKeepsVersionInv(s: State, a: Action, u: Uid)
    requires Inv(s) && Step(s, a).Some?
    ensures VersionInv(Step(s, a).value, u)
    ensures SeenDeleting(s, u) && u in s.used ==> SeenDeleting(Step(s, a).value, u)
  {
    assert UidInv(s, u);
    var t := Step(s, a).value;
    if |t.versions| > |s.versions| {
      WriteRespects(s, a, u);
      WriteKeepsVersionInv(s, t, u);
    } else if a.CacheCatchesUp? {
      CatchingUpKeepsVersionInv(s, a.to, u);
    } else {
      assert t.versions == s.versions && t.used == s.used && t.stripped == s.stripped;
    }
  }

  lemma CatchingUpKeepsVersionInv(s: State, to: nat, u: Uid)
    requires s.Some() && VersionInv(s, u) && to < |s.versions|
    ensures var t := s.(versions := s.versions[to..]);
      VersionInv(t, u) && (SeenDeleting(s, u) ==> SeenDeleting(t, u))
  {
    var t := s.(versions := s.versions[to..]);
    assert t.Server() == s.Server();
    assert forall i | 0 <= i < |t.versions| :: t.versions[i] == s.versions[to + i];
  }

  lemma WriteRespects(s: State, a: Action, u: Uid)
    requires Inv(s) && Step(s, a).Some? && |Step(s, a).value.versions| > |s.versions|
    ensures Respects(s, Step(s, a).value, u)
  {
    var t := Step(s, a).value;
    assert t.versions == s.versions + [t.Server()];
    assert UidInv(s, u);
    assert u in s.Server() ==> u in s.versions[|s.versions| - 1] && u in s.used;
    assert a.ClearFinalizer? ==> UidInv(s, s.phase.u);
    if Held(s, u) {
      StepKeepsHeld(s, a, u);
    }
    StepKeepsStripped(s, a, u);
  }

  /** A stripped object is without the finalizer, until somebody puts it back. */
  lemma StepKeepsStripped(s: State, a: Action, u: Uid)
    requires Inv(s) && Step(s, a).Some?
    ensures var t := Step(s, a).value;
      && (u in t.stripped ==> u in t.used && !Held(t, u))
      && (u in s.stripped ==> u in t.stripped || Held(t, u))
  {
    assert UidInv(s, u);
    assert u in s.Server() ==> u in s.versions[|s.versions| - 1] && u in s.used;
  }

  /** A held object stays held unless somebody strips it or this reconciler clears it. */
  lemma StepKeepsHeld(s: State, a: Action, u: Uid)
    requires Inv(s) && Step(s, a).Some? && Held(s, u)
    ensures var t := Step(s, a).value;
      Held(t, u) || u in t.stripped || (a.ClearFinalizer? && s.phase.u == u)
  {
    assert UidInv(s, u);
    assert u in s.versions[|s.versions| - 1];
  }

  lemma StepKeepsUidInv(s: State, a: Action, u: Uid)
    requires Inv(s) && Step(s, a).Some?
    ensures UidInv(Step(s, a).value, u)
  {
    assert UidInv(s, u);
    StepKeepsVersionInv(s, a, u);
    var t := Step(s, a).value;
    StepKeepsStripped(s, a, u);
    assert s.used <= t.used;
    if Held(s, u) {
      StepKeepsHeld(s, a, u);
    }
  }

  lemma StepKeepsLifecycle(s: State, a: Action)
    requires Inv(s) && Step(s, a).Some?
    ensures Conserved(Step(s, a).value.life)
  {
    match a
    case Returns(g) => ReturnedConserves(s.life, g);
    case CallChild(_) =>
      var u := s.phase.u;
      if u in s.life.managers { CancelledConserves(s.life, u); } else { SpawnedConserves(s.life, u); }
    case TakeReport => CollectedConserves(s.life, s.phase.u);
    case _ =>
  }

  lemma StepKeepsNames(s: State, a: Action)
    requires Inv(s) && Step(s, a).Some?
    ensures NamesUnique(Step(s, a).value)
  {
    var before, after := s.Server(), Step(s, a).value.Server();
    forall u <- after ensures
      (u in before && after[u].name == before[u].name) ||
      (a.Create? && a.u == u && after[u].name == a.name && forall v <- before :: before[v].name != a.name) {}
  }

  lemma StepKeepsInv(s: State, a: Action)
    requires Inv(s) && Step(s, a).Some?
    ensures Inv(Step(s, a).value)
  {
    StepKeepsLifecycle(s, a);
    StepKeepsNames(s, a);
    forall u ensures UidInv(Step(s, a).value, u) {
      StepKeepsUidInv(s, a, u);
    }
  }

  lemma {:induction false} InvAfter(s: State, acts: seq<Action>)
    requires Inv(s) && Exec(s, acts).Some?
    ensures Inv(Exec(s, acts).value)
    decreases |acts|
  {
    if acts != [] {
      InvAfter(s, acts[..|acts| - 1]);
      StepKeepsInv(Exec(s, acts[..|acts| - 1]).value, acts[|acts| - 1]);
    }
  }

  lemma RunKeepsInv(acts: seq<Action>)
    requires Exec(Init, acts).Some?
    ensures Inv(Exec(Init, acts).value)
  {
    InvAfter(Init, acts);
  }

  lemma ExecSnoc(s: State, acts: seq<Action>, a: Action)
    requires s.Some() && Exec(s, acts).Some?
    ensures Exec(s, acts + [a]) == Step(Exec(s, acts).value, a)
  {
  }

  /**
    In every run, an entry and a goroutine that has not reported belong to an object that exists and carries
    the finalizer if and only if nobody else took that finalizer off for good.  No name has two of them.
  */
  lemma NoSubManagerOutlivesItsDuckType(acts: seq<Action>)
    requires Exec(Init, acts).Some?
    ensures var s := Exec(Init, acts).value;
      && (forall u | u in s.life.managers :: Held(s, u) <==> u !in s.stripped)
      && (forall g | 0 <= g < |s.life.spawned| && s.life.spawned[g].status != Reported ::
            var u := s.life.spawned[g].uid; u in s.life.managers && (Held(s, u) <==> u !in s.stripped))
      && (forall u, v | u in s.life.managers && v in s.life.managers && Held(s, u) && Held(s, v)
            && s.Server()[u].name == s.Server()[v].name :: u == v)
  {
    RunKeepsInv(acts);
    var s := Exec(Init, acts).value;
    forall u | u in s.life.managers ensures Held(s, u) <==> u !in s.stripped {
      assert UidInv(s, u);
    }
  }

  function CachedRun(u: Uid, name: string): seq<Action> {
    [] + [Create(u, name, true, false)] + [CacheCatchesUp(1)]
  }

  function StartedRun(u: Uid, name: string): seq<Action> {
    CachedRun(u, name) + [Begin(u)] + [EnsureFinalizer] + [CallChild(Starts)]
  }

  lemma CachedRunRuns(u: Uid, name: string)
    ensures Exec(Init, CachedRun(u, name)) ==
      Some(State([map[u := Object(name, false, true, false)]], {u}, {}, Resting, Fresh))
  {
    ExecSnoc(Init, [], Create(u, name, true, false));
    CreateFirst(u, name);
    CatchUpFrom([] + [Create(u, name, true, false)], u, name);
  }

  lemma CreateFirst(u: Uid, name: string)
    ensures Step(Init, Create(u, name, true, false)) ==
      Some(State([map[], map[u := Object(name, false, true, false)]], {u}, {}, Resting, Fresh))
  {
    var o := Object(name, false, true, false);
    assert Init.Server() == map[];
    assert Init.Server()[u := o] == map[u := o];
    assert Init.versions + [map[u := o]] == [map[], map[u := o]];
    assert Init.used + {u} == {u};
  }

  lemma CatchUpFrom(r: seq<Action>, u: Uid, name: string)
    requires Exec(Init, r) == Some(State([map[], map[u := Object(name, false, true, false)]], {u}, {}, Resting, Fresh))
    ensures Exec(Init, r + [CacheCatchesUp(1)]) ==
      Some(State([map[u := Object(name, false, true, false)]], {u}, {}, Resting, Fresh))
  {
    ExecSnoc(Init, r, CacheCatchesUp(1));
  }

  lemma StartFrom(r: seq<Action>, u: Uid, name: string)
    requires Exec(Init, r) == Some(State([map[u := Object(name, false, true, false)]], {u}, {}, Resting, Fresh))
    ensures Exec(Init, r + [Begin(u)] + [EnsureFinalizer] + [CallChild(Starts)]) ==
      Some(State([map[u := Object(name, false, true, false)]], {u}, {}, Resting,
                 Lifecycle(map[u := 0], [Goroutine(u, Running, false)], 0)))
  {
    ExecSnoc(Init, r, Begin(u));
    ExecSnoc(Init, r + [Begin(u)], EnsureFinalizer);
    ExecSnoc(Init, r + [Begin(u)] + [EnsureFinalizer], CallChild(Starts));
    var life := Spawned(Fresh, u);
    assert life.managers == map[u := 0] && life.spawned == [Goroutine(u, Running, false)];
  }

  lemma StripFrom(r: seq<Action>, u: Uid, name: string, life: Lifecycle)
    requires Exec(Init, r) == Some(State([map[u := Object(name, false, true, false)]], {u}, {}, Resting, life))
    ensures Exec(Init, r + [Delete(u)] + [Strip(u)]).Some?
    ensures var s := Exec(Init, r + [Delete(u)] + [Strip(u)]).value; s.life == life && u !in s.Server()
  {
    ExecSnoc(Init, r, Delete(u));
    assert Exec(Init, r + [Delete(u)]).value.Server() == map[u := Object(name, true, true, false)];
    ExecSnoc(Init, r + [Delete(u)], Strip(u));
  }

  /** The finalizer matters: once it is stripped and the object deleted, the sub-manager is left running. */
  lemma StrippedFinalizerLeaksSubManager(u: Uid, name: string)
    ensures var acts := StartedRun(u, name) + [Delete(u)] + [Strip(u)];
      && Exec(Init, acts).Some?
      && var s := Exec(Init, acts).value;
      && s.life.managers == map[u := 0] && s.life.spawned == [Goroutine(u, Running, false)] && u !in s.Server()
  {
    CachedRunRuns(u, name);
    StartFrom(CachedRun(u, name), u, name);
    StripFrom(StartedRun(u, name), u, name, Lifecycle(map[u := 0], [Goroutine(u, Running, false)], 0));
  }

  /**
    When a name may be created again, no sub-manager of a former object of that name is still unreported,
    and the new UID has no entry.
  */
  lemma RecreatedObjectStartsClean(acts: seq<Action>, create: Action)
    requires Exec(Init, acts).Some? && create.Create? && Step(Exec(Init, acts).value, create).Some?
    ensures var s := Exec(Init, acts).value;
      && create.u !in s.life.managers
      && (forall g | 0 <= g < |s.life.spawned| && s.life.spawned[g].status != Reported
            && s.life.spawned[g].uid !in s.stripped ::
            var u := s.life.spawned[g].uid; u != create.u && u in s.Server() && s.Server()[u].name != create.name)
  {
    NoSubManagerOutlivesItsDuckType(acts);
    RunKeepsInv(acts);
    var s := Exec(Init, acts).value;
    StrippedAreUsed(acts);
    assert UidInv(s, create.u);
    forall g | 0 <= g < |s.life.spawned| && s.life.spawned[g].status != Reported && s.life.spawned[g].uid !in s.stripped
      ensures var u := s.life.spawned[g].uid; u != create.u && u in s.Server() && s.Server()[u].name != create.name
    {
      assert UidInv(s, s.life.spawned[g].uid);
    }
  }

  /** A child call on a live object that starts leaves the object with a goroutine of its own, new unless it had one. */
  lemma LiveObjectGetsItsOwn(acts: seq<Action>)
    requires Exec(Init, acts).Some?
    requires Exec(Init, acts).value.phase.Calling? && !Exec(Init, acts).value.phase.seen.deleting
    ensures var s := Exec(Init, acts).value;
      && Step(s, CallChild(Starts)).Some?
      && var u, t := s.phase.u, Step(s, CallChild(Starts)).value;
      && u in t.life.managers && t.life.managers[u] < |t.life.spawned|
      && var g := t.life.managers[u];
      && t.life.spawned[g].uid == u && t.life.spawned[g].status != Reported
      && (u !in s.life.managers ==>
            g == |s.life.spawned| && t.life.spawned[g] == Goroutine(u, Running, false)
            && forall h | 0 <= h < |s.life.spawned| :: s.life.spawned[h].uid != u)
      && (u in s.life.managers ==> t.life == s.life)
      && (u in s.stripped || Held(t, u))
  {
    var s := Exec(Init, acts).value;
    assert Conserved(s.life) && UidInv(s, s.phase.u) by { RunKeepsInv(acts); }
    OnceAfter(acts);
    StartingCallStep(s);
  }

  lemma StartingCallStep(s: State)
    requires s.Some() && Conserved(s.life) && s.phase.Calling? && !s.phase.seen.deleting && s.phase.seen.finalizer
    ensures Step(s, CallChild(Starts)) ==
      Some(s.(phase := Resting, life := if s.phase.u in s.life.managers then s.life else Spawned(s.life, s.phase.u)))
    ensures s.phase.u !in s.life.managers ==>
      forall h | 0 <= h < |s.life.spawned| && s.life.spawned[h].uid == s.phase.u :: s.life.spawned[h].status == Reported
  {
  }

  // ----- one sub-manager per object, ever -----

  /** Whoever looks at the object, now or later, sees it deleting. */
  predicate Retired(s: State, u: Uid) {
    && u in s.used && SeenDeleting(s, u)
    && (s.phase.Wrapping? || s.phase.Calling? ==> s.phase.u == u ==> s.phase.seen.deleting)
  }

  /**
    Objects whose goroutine has reported are retired, a goroutine is cancelled exactly from the shutdown of
    its object on, and no object has had two goroutines.
  */
  predicate Once(s: State) {
    && (forall g | 0 <= g < |s.life.spawned| ::
          s.life.spawned[g].cancelled <==>
            s.life.spawned[g].status == Reported || s.phase == Waiting(s.life.spawned[g].uid))
    && (forall g | 0 <= g < |s.life.spawned| && s.life.spawned[g].status == Reported ::
          Retired(s, s.life.spawned[g].uid))
    && (forall g, h | 0 <= g < |s.life.spawned| && 0 <= h < |s.life.spawned|
          && s.life.spawned[g].uid == s.life.spawned[h].uid :: g == h)
  }

  lemma StepKeepsRetired(s: State, a: Action, u: Uid)
    requires Inv(s) && Step(s, a).Some? && Retired(s, u)
    ensures Retired(Step(s, a).value, u)
  {
    StepKeepsVersionInv(s, a, u);
  }

  /** A goroutine newly reported is that of the object whose shutdown was waiting; it is retired. */
  lemma CollectedIsRetired(s: State, a: Action, g: nat)
    requires Inv(s) && Step(s, a).Some? && g < |s.life.spawned| && s.life.spawned[g].status != Reported
    requires Step(s, a).value.life.spawned[g].status == Reported
    ensures Retired(Step(s, a).value, s.life.spawned[g].uid)
  {
    assert UidInv(s, s.phase.u);
  }

  /** A goroutine newly spawned is the first of its object. */
  lemma SpawnedIsFirst(s: State, a: Action, h: nat)
    requires Inv(s) && Once(s) && Step(s, a).Some? && h < |s.life.spawned|
    requires |Step(s, a).value.life.spawned| > |s.life.spawned|
    ensures Step(s, a).value.life.spawned == s.life.spawned + [Goroutine(s.phase.u, Running, false)]
    ensures s.life.spawned[h].uid != s.phase.u
  {
    assert s.life.spawned[h].status == Reported ==> Retired(s, s.life.spawned[h].uid);
  }

  /** One step cancels at most the goroutine of the object whose shutdown begins. */
  lemma CancelledStep(s: State, a: Action, g: nat)
    requires Inv(s) && Once(s) && Step(s, a).Some? && g < |Step(s, a).value.life.spawned|
    ensures var t := Step(s, a).value;
      t.life.spawned[g].cancelled <==> t.life.spawned[g].status == Reported || t.phase == Waiting(t.life.spawned[g].uid)
  {
    if s.phase.Calling? || s.phase.Waiting? {
      assert UidInv(s, s.phase.u);
    }
  }

  lemma StepKeepsOnce(s: State, a: Action)
    requires Inv(s) && Once(s) && Step(s, a).Some?
    ensures Once(Step(s, a).value)
  {
    var t := Step(s, a).value;
    SpawnedOnlyGrow(s, a);
    forall g | 0 <= g < |t.life.spawned|
      ensures t.life.spawned[g].cancelled <==>
        t.life.spawned[g].status == Reported || t.phase == Waiting(t.life.spawned[g].uid)
    {
      CancelledStep(s, a, g);
    }
    forall g | 0 <= g < |t.life.spawned| && t.life.spawned[g].status == Reported
      ensures Retired(t, t.life.spawned[g].uid)
    {
      if s.life.spawned[g].status == Reported {
        StepKeepsRetired(s, a, s.life.spawned[g].uid);
      } else {
        CollectedIsRetired(s, a, g);
      }
    }
    if |t.life.spawned| > |s.life.spawned| {
      forall h | 0 <= h < |s.life.spawned| ensures s.life.spawned[h].uid != s.phase.u {
        SpawnedIsFirst(s, a, h);
      }
    }
  }

  /** No step removes a goroutine or changes whose it is; a new one is running. */
  lemma SpawnedOnlyGrow(s: State, a: Action)
    requires s.Some() && Step(s, a).Some?
    ensures var before, after := s.life.spawned, Step(s, a).value.life.spawned;
      && |before| <= |after| <= |before| + 1
      && (forall g | 0 <= g < |before| :: after[g].uid == before[g].uid)
      && (|after| > |before| ==> after == before + [Goroutine(s.phase.u, Running, false)])
  {
  }

  lemma {:induction false} OnceAfter(acts: seq<Action>)
    requires Exec(Init, acts).Some?
    ensures Once(Exec(Init, acts).value)
    decreases |acts|
  {
    if acts != [] {
      OnceAfter(acts[..|acts| - 1]);
      RunKeepsInv(acts[..|acts| - 1]);
      StepKeepsOnce(Exec(Init, acts[..|acts| - 1]).value, acts[|acts| - 1]);
    }
  }

  /** In every run an object gets at most one sub-manager, ever: none is restarted, none started after a shutdown. */
  lemma AtMostOneSubManagerEver(acts: seq<Action>, g: nat, h: nat)
    requires Exec(Init, acts).Some?
    requires g < |Exec(Init, acts).value.life.spawned| && h < |Exec(Init, acts).value.life.spawned|
    requires Exec(Init, acts).value.life.spawned[g].uid == Exec(Init, acts).value.life.spawned[h].uid
    ensures g == h
  {
    OnceAfter(acts);
  }

  /**
    In every run a sub-manager is cancelled exactly while the shutdown of its own object waits for it or
    after that, and then every version of the object anybody may still see is deleting.
  */
  lemma OnlyDeletedAreCancelled(acts: seq<Action>, g: nat)
    requires Exec(Init, acts).Some? && g < |Exec(Init, acts).value.life.spawned|
    ensures var s := Exec(Init, acts).value;
      var sub := s.life.spawned[g];
      && (sub.cancelled <==> sub.status == Reported || s.phase == Waiting(sub.uid))
      && (sub.cancelled ==> sub.uid in s.used && SeenDeleting(s, sub.uid))
  {
    OnceAfter(acts);
    RunKeepsInv(acts);
    var s := Exec(Init, acts).value;
    assert UidInv(s, s.life.spawned[g].uid);
    assert s.life.spawned[g].status == Reported ==> Retired(s, s.life.spawned[g].uid);
  }

  /** One step changes whether a goroutine runs only by its own return. */
  lemma RunningStep(s: State, a: Action, g: nat)
    requires s.Some() && Conserved(s.life) && Step(s, a).Some? && g < |Step(s, a).value.life.spawned|
    ensures Step(s, a).value.life.spawned[g].status == Running <==>
      (g < |s.life.spawned| ==> s.life.spawned[g].status == Running && a != Returns(g))
    ensures g >= |s.life.spawned| ==> a != Returns(g)
  {
  }

  /** Exactly when a sub-manager runs: its manager's Start has not returned. */
  lemma {:induction false} RunsUntilItReturns(acts: seq<Action>, g: nat)
    requires Exec(Init, acts).Some? && g < |Exec(Init, acts).value.life.spawned|
    ensures Exec(Init, acts).value.life.spawned[g].status == Running <==> Returns(g) !in acts
    decreases |acts|
  {
    if acts != [] {
      var front, a := acts[..|acts| - 1], acts[|acts| - 1];
      var s := Exec(Init, front).value;
      assert acts == front + [a];
      assert Conserved(s.life) by { RunKeepsInv(front); }
      RunningStep(s, a, g);
      if g < |s.life.spawned| {
        RunsUntilItReturns(front, g);
      } else {
        NothingReturnsBeforeItIsSpawned(front, g);
      }
    }
  }

  lemma {:induction false} NothingReturnsBeforeItIsSpawned(acts: seq<Action>, g: nat)
    requires Exec(Init, acts).Some? && g >= |Exec(Init, acts).value.life.spawned|
    ensures Returns(g) !in acts
    decreases |acts|
  {
    if acts != [] {
      var front, a := acts[..|acts| - 1], acts[|acts| - 1];
      assert acts == front + [a];
      SpawnedOnlyGrow(Exec(Init, front).value, a);
      NothingReturnsBeforeItIsSpawned(front, g);
    }
  }

  /** What an entry means: its sub-manager runs if and only if its Start has not returned in this run. */
  lemma EntryRunsUntilItReturns(acts: seq<Action>, u: Uid)
    requires Exec(Init, acts).Some? && u in Exec(Init, acts).value.life.managers
    ensures var l := Exec(Init, acts).value.life;
      && l.managers[u] < |l.spawned| && l.spawned[l.managers[u]].uid == u
      && (l.spawned[l.managers[u]].status == Running <==> Returns(l.managers[u]) !in acts)
  {
    RunKeepsInv(acts);
    RunsUntilItReturns(acts, Exec(Init, acts).value.life.managers[u]);
  }

  lemma {:induction false} StrippedAreUsed(acts: seq<Action>)
    requires Exec(Init, acts).Some?
    ensures Exec(Init, acts).value.stripped <= Exec(Init, acts).value.used
    decreases |acts|
  {
    if acts != [] {
      var front, a := acts[..|acts| - 1], acts[|acts| - 1];
      StrippedAreUsed(front);
      RunKeepsInv(front);
      if a.Strip? {
        assert UidInv(Exec(Init, front).value, a.u);
      }
    }
  }

  // ----- shutdown -----

  /** How far a blocked shutdown is from its report. */
  function Rank(s: State): nat {
    if !s.phase.Waiting? || !Has(s.life, s.phase.u) then 0 else
      match s.life.spawned[s.life.managers[s.phase.u]].status
      case Running => 2
      case Parked => 1
      case Reported => 0
  }

  /**
    A blocked shutdown waits for a goroutine that is running with its context cancelled or is parked on its
    send.  The step that goroutine owes is enabled and lowers the rank; no other step raises it or moves the
    shutdown on.
  */
  lemma ShutdownCannotGetStuck(acts: seq<Action>, a: Action)
    requires Exec(Init, acts).Some? && Exec(Init, acts).value.phase.Waiting?
    ensures var s := Exec(Init, acts).value;
      && Has(s.life, s.phase.u)
      && var g := s.life.managers[s.phase.u];
      && Rank(s) > 0
      && (Rank(s) == 2 ==>
            s.life.spawned[g].cancelled && Step(s, Returns(g)).Some? && Rank(Step(s, Returns(g)).value) == 1)
      && (Rank(s) == 1 ==> Step(s, TakeReport).Some? && Rank(Step(s, TakeReport).value) == 0)
      && (Step(s, a).Some? && a != TakeReport ==>
            var t := Step(s, a).value;
            t.phase == s.phase && (if a == Returns(g) then Rank(t) < Rank(s) else Rank(t) == Rank(s)))
  {
    RunKeepsInv(acts);
    var s := Exec(Init, acts).value;
    assert UidInv(s, s.phase.u);
  }

  /** The steps a child call takes when nobody else moves. */
  function Finish(s: State, outcome: StartOutcome): seq<Action> {
    if s.phase.Calling? && s.phase.seen.deleting && Has(s.life, s.phase.u) then
      var g := s.life.managers[s.phase.u];
      [CallChild(outcome)] + (if s.life.spawned[g].status == Running then [Returns(g)] else []) + [TakeReport]
    else [CallChild(outcome)]
  }

  lemma Then(s: State, acts: seq<Action>, x: State, a: Action, t: State)
    requires s.Some() && x.Some() && Exec(s, acts) == Some(x) && Step(x, a) == Some(t)
    ensures Exec(s, acts + [a]) == Some(t)
  {
    ExecSnoc(s, acts, a);
  }

  /** The state in which the shutdown of u waits for a goroutine that has returned. */
  function Awaiting(s: State, u: Uid): State
    requires Has(s.life, u)
  {
    s.(phase := Waiting(u), life := Returned(Cancelled(s.life, u), s.life.managers[u]))
  }

  lemma ReportStep(s: State, u: Uid)
    requires s.Some() && Has(s.life, u)
    ensures Step(Awaiting(s, u), TakeReport) ==
      Some(s.(phase := Clearing(u), life := Collected(Returned(Cancelled(s.life, u), s.life.managers[u]), u)))
  {
  }

  lemma CancelStep(s: State, outcome: StartOutcome)
    requires s.Some() && s.phase.Calling? && s.phase.seen.deleting && Has(s.life, s.phase.u)
    requires s.life.spawned[s.life.managers[s.phase.u]].status != Reported
    ensures var u := s.phase.u;
      var g := s.life.managers[u];
      var c := s.(phase := Waiting(u), life := Cancelled(s.life, u));
      && Step(s, CallChild(outcome)) == Some(c)
      && (if s.life.spawned[g].status == Running then Step(c, Returns(g)) == Some(Awaiting(s, u)) else c == Awaiting(s, u))
  {
    var g := s.life.managers[s.phase.u];
    var life := Cancelled(s.life, s.phase.u);
    assert s.life.spawned[g].status == Parked ==> life.spawned[g := life.spawned[g].(status := Parked)] == life.spawned;
  }

  lemma UndisturbedShutdownFinishes(s: State, outcome: StartOutcome)
    requires s.Some() && s.phase.Calling? && s.phase.seen.deleting && Has(s.life, s.phase.u)
    requires s.life.spawned[s.life.managers[s.phase.u]].status != Reported
    ensures Exec(s, Finish(s, outcome)) ==
      Some(s.(phase := Clearing(s.phase.u),
              life := Collected(Returned(Cancelled(s.life, s.phase.u), s.life.managers[s.phase.u]), s.phase.u)))
  {
    var u := s.phase.u;
    var g := s.life.managers[u];
    var c := s.(phase := Waiting(u), life := Cancelled(s.life, u));
    var acts := [CallChild(outcome)];
    CancelStep(s, outcome);
    ReportStep(s, u);
    assert [] + acts == acts;
    Then(s, [], s, CallChild(outcome), c);
    var done := s.(phase := Clearing(u), life := Collected(Returned(Cancelled(s.life, u), g), u));
    if s.life.spawned[g].status == Running {
      Then(s, acts, c, Returns(g), Awaiting(s, u));
      Then(s, acts + [Returns(g)], Awaiting(s, u), TakeReport, done);
    } else {
      assert acts + [] == acts;
      Then(s, acts, c, TakeReport, done);
    }
  }

  /** An undisturbed child call is the reconciler's Reconcile, and it ends. */
  lemma UndisturbedCallIsReconcile(s: State, outcome: StartOutcome)
    requires s.Some() && Conserved(s.life) && s.phase.Calling?
    ensures Exec(s, Finish(s, outcome)).Some?
    ensures var t := Exec(s, Finish(s, outcome)).value;
      var r := Resource(s.phase.u, s.phase.seen.deleting, s.phase.seen.finalizer);
      t == s.(life := Reconciled(s.life, r, outcome).0,
              phase := if s.phase.seen.deleting then Clearing(s.phase.u) else Resting)
  {
    if s.phase.seen.deleting && Has(s.life, s.phase.u) {
      UndisturbedShutdownFinishes(s, outcome);
    } else {
      ExecSnoc(s, [], CallChild(outcome));
      assert [] + [CallChild(outcome)] == [CallChild(outcome)];
    }
  }

  // ----- deletion -----

  /** Steps of the reconciler, its cache and the goroutines. */
  predicate Own(a: Action) {
    a.CacheCatchesUp? || a.Returns? || a.Begin? || a.EnsureFinalizer? || a.Abort? || a.CallChild? || a.TakeReport?
    || a.ClearFinalizer?
  }

  /** Such steps alone lead from s to t. */
  ghost predicate Leads(s: State, t: State)
    requires s.Some()
  {
    exists acts: seq<Action> :: (forall a <- acts :: Own(a)) && Exec(s, acts) == Some(t)
  }

  lemma LeadsToItself(s: State)
    requires s.Some()
    ensures Leads(s, s)
  {
    assert Exec(s, []) == Some(s);
  }

  lemma LeadsOn(s: State, x: State, a: Action, t: State)
    requires s.Some() && x.Some() && Leads(s, x) && Own(a) && Step(x, a) == Some(t)
    ensures Leads(s, t)
  {
    var acts :| (forall a <- acts :: Own(a)) && Exec(s, acts) == Some(x);
    ExecSnoc(s, acts, a);
    assert forall b <- acts + [a] :: Own(b);
  }

  lemma AbortStep(s: State)
    requires s.Some() && !s.phase.Resting? && !s.phase.Waiting?
    ensures Step(s, Abort) == Some(s.(phase := Resting))
  {
  }

  lemma TakeReportStep(s: State)
    requires s.Some() && s.phase.Waiting? && Has(s.life, s.phase.u)
    requires s.life.spawned[s.life.managers[s.phase.u]].status == Parked
    ensures Step(s, TakeReport) == Some(s.(phase := Clearing(s.phase.u), life := Collected(s.life, s.phase.u)))
  {
  }

  lemma ReturnsStep(s: State, g: nat)
    requires s.Some() && g < |s.life.spawned| && s.life.spawned[g].status == Running
    ensures Step(s, Returns(g)) == Some(s.(life := Returned(s.life, g)))
  {
  }

  /** A blocked shutdown gets its report. */
  lemma ReportArrives(s: State, x: State) returns (t: State)
    requires s.Some() && x.Some() && Leads(s, x) && x.phase.Waiting? && Conserved(x.life) && x.phase.u in x.life.managers
    ensures Leads(s, t) && t == x.(phase := Clearing(x.phase.u), life := t.life)
    ensures Conserved(t.life) && x.phase.u !in t.life.managers
  {
    var g, c := x.life.managers[x.phase.u], x;
    if x.life.spawned[g].status == Running {
      ReturnsStep(x, g);
      ReturnedConserves(x.life, g);
      c := x.(life := Returned(x.life, g));
      LeadsOn(s, x, Returns(g), c);
    }
    TakeReportStep(c);
    CollectedConserves(c.life, x.phase.u);
    t := c.(phase := Clearing(x.phase.u), life := Collected(c.life, x.phase.u));
    LeadsOn(s, c, TakeReport, t);
  }

  /** The reconciler can always let go of the object it is at. */
  lemma ComesToRest(s: State) returns (t: State)
    requires s.Some() && Conserved(s.life) && (s.phase.Waiting? ==> s.phase.u in s.life.managers)
    ensures Leads(s, t) && t == s.(phase := Resting, life := t.life) && Conserved(t.life)
  {
    LeadsToItself(s);
    t := s;
    if s.phase.Waiting? {
      t := ReportArrives(s, s);
    }
    if !t.phase.Resting? {
      AbortStep(t);
      LeadsOn(s, t, Abort, t.(phase := Resting));
      t := t.(phase := Resting);
    }
  }

  lemma CatchUpStep(s: State)
    requires s.Some()
    ensures Step(s, CacheCatchesUp(|s.versions| - 1)) == Some(s.(versions := [s.Server()]))
  {
    assert s.versions[|s.versions| - 1..] == [s.Server()];
  }

  lemma BeginStep(s: State, u: Uid)
    requires s.Some() && s.phase == Resting && u in s.Cache()
    ensures Step(s, Begin(u)) == Some(s.(phase := Wrapping(u, s.Cache()[u])))
  {
  }

  lemma WrapDeletingStep(s: State)
    requires s.Some() && s.phase.Wrapping? && s.phase.seen.deleting
    ensures Step(s, EnsureFinalizer) == Some(s.(phase := Calling(s.phase.u, s.phase.seen)))
  {
  }

  /** A resting reconciler catches up with the deletion and reaches the child call. */
  lemma SeesDeletion(s: State, x: State, u: Uid) returns (t: State)
    requires s.Some() && x.Some() && Leads(s, x) && x.phase == Resting
    requires u in x.Server() && x.Server()[u].deleting
    ensures Leads(s, t) && t == x.(versions := [x.Server()], phase := Calling(u, x.Server()[u]))
  {
    var c := x.(versions := [x.Server()]);
    CatchUpStep(x);
    LeadsOn(s, x, CacheCatchesUp(|x.versions| - 1), c);
    var b := c.(phase := Wrapping(u, x.Server()[u]));
    BeginStep(c, u);
    LeadsOn(s, c, Begin(u), b);
    WrapDeletingStep(b);
    t := b.(phase := Calling(u, x.Server()[u]));
    LeadsOn(s, b, EnsureFinalizer, t);
  }

  /** The child call on a deleting object ends without an entry. */
  lemma CallShutsDown(s: State, x: State) returns (t: State)
    requires s.Some() && x.Some() && Leads(s, x) && Conserved(x.life) && x.phase.Calling? && x.phase.seen.deleting
    ensures Leads(s, t) && t == x.(phase := Clearing(x.phase.u), life := t.life) && x.phase.u !in t.life.managers
  {
    var u := x.phase.u;
    if u in x.life.managers {
      CancelStep(x, Starts);
      CancelledConserves(x.life, u);
      var c := x.(phase := Waiting(u), life := Cancelled(x.life, u));
      LeadsOn(s, x, CallChild(Starts), c);
      t := ReportArrives(s, c);
    } else {
      t := x.(phase := Clearing(u));
      LeadsOn(s, x, CallChild(Starts), t);
    }
  }

  lemma ClearStep(s: State)
    requires s.Some() && s.phase.Clearing? && s.phase.u in s.Server() && s.Server()[s.phase.u].deleting
    requires s.phase.u !in s.life.managers
    ensures Step(s, ClearFinalizer).Some?
    ensures Released(Step(s, ClearFinalizer).value, s.phase.u, s.Server()[s.phase.u].others)
  {
  }

  /** The reconciler is done with the object: no entry, no finalizer, and the object is gone if nobody else holds it. */
  predicate Released(s: State, u: Uid, others: bool)
    requires s.Some()
  {
    u !in s.life.managers && s.phase == Resting && !Held(s, u) && (u in s.Server() <==> others)
  }

  /**
    A deletion is never stuck: from every reachable state, without anybody else's help, the sub-manager of a
    deleting object can be shut down and its finalizer removed, which removes it unless somebody else holds it.
  */
  lemma DeletionCanComplete(acts: seq<Action>, u: Uid)
    requires Exec(Init, acts).Some?
    requires u in Exec(Init, acts).value.Server() && Exec(Init, acts).value.Server()[u].deleting
    ensures var s := Exec(Init, acts).value;
      exists t: State :: t.Some() && Leads(s, t) && Released(t, u, s.Server()[u].others)
  {
    var s := Exec(Init, acts).value;
    assert Conserved(s.life) && (s.phase.Waiting? ==> s.phase.u in s.life.managers) by {
      RunKeepsInv(acts);
      assert s.phase.Waiting? ==> UidInv(s, s.phase.u);
    }
    var t := ReleasesDeleted(s, u);
  }

  lemma ReleasesDeleted(s: State, u: Uid) returns (t: State)
    requires s.Some() && Conserved(s.life) && (s.phase.Waiting? ==> s.phase.u in s.life.managers)
    requires u in s.Server() && s.Server()[u].deleting
    ensures t.Some() && Leads(s, t) && Released(t, u, s.Server()[u].others)
  {
    var rest := ComesToRest(s);
    var call := SeesDeletion(s, rest, u);
    var done := CallShutsDown(s, call);
    ClearStep(done);
    t := Step(done, ClearFinalizer).value;
    LeadsOn(s, done, ClearFinalizer, t);
  }

  /** One step leaves an exited, uncollected goroutine in place or collects it. */
  lemma ExitedStaysInStep(s: State, a: Action, u: Uid, g: nat)
    requires s.Some() && Conserved(s.life) && Step(s, a).Some?
    requires g < |s.life.spawned| && s.life.spawned[g].uid == u && s.life.spawned[g].status != Running
    ensures var t := Step(s, a).value;
      && g < |t.life.spawned| && t.life.spawned[g].uid == u
      && (t.life.spawned[g].status == s.life.spawned[g].status || (a == TakeReport && t.life.spawned[g].status == Reported))
  {
  }

  /**
    An entry whose sub-manager exited on its own keeps that goroutine until the shutdown of its resource
    collects it: no reconcile restarts it.
  */
  lemma {:induction false} ExitedSubManagerIsNotRestarted(s: State, more: seq<Action>, u: Uid)
    requires Inv(s) && Exec(s, more).Some?
    requires u in s.life.managers && s.life.spawned[s.life.managers[u]].status == Parked
    ensures var g, t := s.life.managers[u], Exec(s, more).value;
      && g < |t.life.spawned| && t.life.spawned[g].uid == u
      && (t.life.spawned[g].status == Parked ==> u in t.life.managers && t.life.managers[u] == g)
      && (t.life.spawned[g].status != Parked ==> t.life.spawned[g].status == Reported && TakeReport in more)
    decreases |more|
  {
    if more != [] {
      var front, a := more[..|more| - 1], more[|more| - 1];
      ExitedSubManagerIsNotRestarted(s, front, u);
      assert Conserved(Exec(s, front).value.life) by { InvAfter(s, front); }
      ExitedStaysInStep(Exec(s, front).value, a, u, s.life.managers[u]);
      assert more == front + [a];
      assert Conserved(Exec(s, more).value.life) by { InvAfter(s, more); }
    }
  }

  lemma ReconcileExitedFrom(r: seq<Action>, u: Uid, name: string)
    requires Exec(Init, r) == Some(State([map[u := Object(name, false, true, false)]], {u}, {}, Resting,
                                         Lifecycle(map[u := 0], [Goroutine(u, Parked, false)], 0)))
    ensures Exec(Init, r + [Begin(u)] + [EnsureFinalizer] + [CallChild(Starts)]) == Exec(Init, r)
  {
    ExecSnoc(Init, r, Begin(u));
    ExecSnoc(Init, r + [Begin(u)], EnsureFinalizer);
    ExecSnoc(Init, r + [Begin(u)] + [EnsureFinalizer], CallChild(Starts));
  }

  lemma ExitFrom(r: seq<Action>, u: Uid, name: string)
    requires Exec(Init, r) == Some(State([map[u := Object(name, false, true, false)]], {u}, {}, Resting,
                                         Lifecycle(map[u := 0], [Goroutine(u, Running, false)], 0)))
    ensures Exec(Init, r + [Returns(0)]) == Some(State([map[u := Object(name, false, true, false)]], {u}, {}, Resting,
                                                       Lifecycle(map[u := 0], [Goroutine(u, Parked, false)], 0)))
  {
    var life := Lifecycle(map[u := 0], [Goroutine(u, Running, false)], 0);
    assert Returned(life, 0).spawned == [Goroutine(u, Parked, false)];
    ExecSnoc(Init, r, Returns(0));
  }

  /** It happens: a sub-manager starts and exits, the next reconcile succeeds, and no sub-manager runs. */
  lemma ReconcileLeavesExitedSubManager(u: Uid, name: string)
    ensures var acts := StartedRun(u, name) + [Returns(0)] + [Begin(u)] + [EnsureFinalizer] + [CallChild(Starts)];
      && Exec(Init, acts).Some?
      && var s := Exec(Init, acts).value;
      && s.phase == Resting && s.life == Lifecycle(map[u := 0], [Goroutine(u, Parked, false)], 0) && Held(s, u)
  {
    CachedRunRuns(u, name);
    StartFrom(CachedRun(u, name), u, name);
    ExitFrom(StartedRun(u, name), u, name);
    ReconcileExitedFrom(StartedRun(u, name) + [Returns(0)], u, name);
  }
}
