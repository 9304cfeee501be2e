/**
  The sub-manager's cache: requests for local kinds go to its own cache, all others upstream.

  A backing cache keeps one slot per object kind and answers a request from that slot alone; what a slot
  holds and how operations act on it is a parameter, so nothing is assumed about informers, indexes or
  missing-informer policies beyond that.
*/
module SplitCache {
  import opened Api
  import Webhook

  function ListKindOf(k: GroupKind): GroupKind {
    GK(k.group, k.kind + "List")
  }

  /** An operation on objects of one kind; a listing names the list kind. */
  datatype Request<O> = Request(asked: GroupKind, listing: bool, op: O) {
    /** The kind whose slot serves the request. */
    function Serving(): GroupKind {
      if listing then GK(asked.group, ItemKind(asked.kind)) else asked
    }
  }

  /** A cache behaviour: the new slot and the answer. */
  type Behaviour<!S, !O, !A> = (S, O) -> (S, A)

  type Slots<S> = map<GroupKind, S>

  function At<S>(slots: Slots<S>, k: GroupKind, blank: S): S {
    if k in slots then slots[k] else blank
  }

  function Stepped<S, O, A>(slots: Slots<S>, blank: S, b: Behaviour<S, O, A>, r: Request<O>): (Slots<S>, A) {
    var (s, a) := b(At(slots, r.Serving(), blank), r.op);
    (slots[r.Serving() := s], a)
  }

  /** The two caches, which kinds are local, and how each behaves. */
  datatype Split<!S, !O, !A> = Split(
    localTypes: set<GroupKind>,
    local: Slots<S>,
    upstream: Slots<S>,
    blank: S,
    localBehaviour: Behaviour<S, O, A>,
    upstreamBehaviour: Behaviour<S, O, A>)

  function Handled<S, O, A>(c: Split<S, O, A>, r: Request<O>): (Split<S, O, A>, A) {
    if r.asked in c.localTypes then
      var (slots, a) := Stepped(c.local, c.blank, c.localBehaviour, r);
      (c.(local := slots), a)
    else
      var (slots, a) := Stepped(c.upstream, c.blank, c.upstreamBehaviour, r);
      (c.(upstream := slots), a)
  }

  function HandledAll<S, O, A>(c: Split<S, O, A>, rs: seq<Request<O>>): (Split<S, O, A>, seq<A>)
    decreases |rs|
  {
    if rs == [] then (c, []) else
      var (d, answers) := HandledAll(c, rs[..|rs| - 1]);
      var (e, a) := Handled(d, rs[|rs| - 1]);
      (e, answers + [a])
  }

  /** The cache both stand for: one set of slots, each kind behaving as its own side does. */
  function OneHandled<S, O, A>(c: Split<S, O, A>, slots: Slots<S>, r: Request<O>): (Slots<S>, A) {
    Stepped(slots, c.blank, if r.Serving() in c.localTypes then c.localBehaviour else c.upstreamBehaviour, r)
  }

  function OneHandledAll<S, O, A>(c: Split<S, O, A>, slots: Slots<S>, rs: seq<Request<O>>): (Slots<S>, seq<A>)
    decreases |rs|
  {
    if rs == [] then (slots, []) else
      var (more, answers) := OneHandledAll(c, slots, rs[..|rs| - 1]);
      var (last, a) := OneHandled(c, more, rs[|rs| - 1]);
      (last, answers + [a])
  }

  /** The slots of the one cache: local kinds from the local cache, the rest from upstream. */
  ghost predicate StandsFor<S, O, A>(c: Split<S, O, A>, slots: Slots<S>) {
    forall k :: At(slots, k, c.blank) == At(if k in c.localTypes then c.local else c.upstream, k, c.blank)
  }

  /** A kind and its list kind are on the same side. */
  predicate Routed<O>(localTypes: set<GroupKind>, r: Request<O>) {
    r.asked in localTypes <==> r.Serving() in localTypes
  }

  lemma HandledStandsFor<S, O, A>(c: Split<S, O, A>, slots: Slots<S>, r: Request<O>)
    requires StandsFor(c, slots) && Routed(c.localTypes, r)
    ensures Handled(c, r).1 == OneHandled(c, slots, r).1
    ensures StandsFor(Handled(c, r).0, OneHandled(c, slots, r).0)
  {
  }

  lemma {:induction false} HandlingKeepsSetup<S, O, A>(c: Split<S, O, A>, rs: seq<Request<O>>)
    ensures var d := HandledAll(c, rs).0;
      d == c.(local := d.local, upstream := d.upstream)
    decreases |rs|
  {
    if rs != [] {
      HandlingKeepsSetup(c, rs[..|rs| - 1]);
    }
  }

  /** The split cache refines one cache: any sequence of well-routed requests gets the same answers. */
  lemma {:induction false} SplitRefinesOne<S, O, A>(c: Split<S, O, A>, slots: Slots<S>, rs: seq<Request<O>>)
    requires StandsFor(c, slots) && forall r <- rs :: Routed(c.localTypes, r)
    ensures HandledAll(c, rs).1 == OneHandledAll(c, slots, rs).1
    ensures StandsFor(HandledAll(c, rs).0, OneHandledAll(c, slots, rs).0)
    decreases |rs|
  {
    if rs != [] {
      var front := rs[..|rs| - 1];
      SplitRefinesOne(c, slots, front);
      HandlingKeepsSetup(c, front);
      HandledStandsFor(HandledAll(c, front).0, OneHandledAll(c, slots, front).0, rs[|rs| - 1]);
    }
  }

  /** The requests that go upstream, and the answers they get. */
  function Upstream<O>(localTypes: set<GroupKind>, rs: seq<Request<O>>): seq<Request<O>>
    decreases |rs|
  {
    if rs == [] then [] else
      Upstream(localTypes, rs[..|rs| - 1]) + if rs[|rs| - 1].asked in localTypes then [] else [rs[|rs| - 1]]
  }

  function UpstreamAnswers<S, O, A>(c: Split<S, O, A>, rs: seq<Request<O>>): seq<A>
    decreases |rs|
  {
    if rs == [] then [] else
      var front, r := rs[..|rs| - 1], rs[|rs| - 1];
      UpstreamAnswers(c, front) + if r.asked in c.localTypes then [] else [Handled(HandledAll(c, front).0, r).1]
  }

  /** Local requests never change what upstream ones are answered or what the upstream cache holds. */
  lemma {:induction false} LocalRequestsDoNotDisturbUpstream<S, O, A>(c: Split<S, O, A>, rs: seq<Request<O>>)
    ensures HandledAll(c, Upstream(c.localTypes, rs)).1 == UpstreamAnswers(c, rs)
    ensures HandledAll(c, Upstream(c.localTypes, rs)).0.upstream == HandledAll(c, rs).0.upstream
    decreases |rs|
  {
    if rs != [] {
      var front, r := rs[..|rs| - 1], rs[|rs| - 1];
      LocalRequestsDoNotDisturbUpstream(c, front);
      var kept := Upstream(c.localTypes, front);
      HandlingKeepsSetup(c, front);
      HandlingKeepsSetup(c, kept);
      if r.asked in c.localTypes {
        assert kept + [] == kept;
        assert UpstreamAnswers(c, front) + [] == UpstreamAnswers(c, front);
      } else {
        assert (kept + [r])[..|kept|] == kept;
      }
    }
  }

  /** The requests that stay local, and the answers they get. */
  function Local<O>(localTypes: set<GroupKind>, rs: seq<Request<O>>): seq<Request<O>>
    decreases |rs|
  {
    if rs == [] then [] else
      Local(localTypes, rs[..|rs| - 1]) + if rs[|rs| - 1].asked in localTypes then [rs[|rs| - 1]] else []
  }

  function LocalAnswers<S, O, A>(c: Split<S, O, A>, rs: seq<Request<O>>): seq<A>
    decreases |rs|
  {
    if rs == [] then [] else
      var front, r := rs[..|rs| - 1], rs[|rs| - 1];
      LocalAnswers(c, front) + if r.asked in c.localTypes then [Handled(HandledAll(c, front).0, r).1] else []
  }

  /** And the reverse: upstream requests never change what local ones are answered or what the local cache holds. */
  lemma {:induction false} UpstreamRequestsDoNotDisturbLocal<S, O, A>(c: Split<S, O, A>, rs: seq<Request<O>>)
    ensures HandledAll(c, Local(c.localTypes, rs)).1 == LocalAnswers(c, rs)
    ensures HandledAll(c, Local(c.localTypes, rs)).0.local == HandledAll(c, rs).0.local
    decreases |rs|
  {
    if rs != [] {
      var front, r := rs[..|rs| - 1], rs[|rs| - 1];
      UpstreamRequestsDoNotDisturbLocal(c, front);
      var kept := Local(c.localTypes, front);
      HandlingKeepsSetup(c, front);
      HandlingKeepsSetup(c, kept);
      if r.asked in c.localTypes {
        assert (kept + [r])[..|kept|] == kept;
      } else {
        assert kept + [] == kept;
        assert LocalAnswers(c, front) + [] == LocalAnswers(c, front);
      }
    }
  }

  // ----- which routing is right -----

  /** The kinds the duck type's sub-manager treats as local. */
  function LocalTypes(t: Webhook.DuckType): set<GroupKind> {
    {GK(t.group, t.kind), GK(t.group, t.listKind)}
  }

  /** A request about objects of kind k. */
  predicate About<O>(r: Request<O>, k: GroupKind) {
    r.asked == if r.listing then ListKindOf(k) else k
  }

  /** Every object kind is on the same side as its list kind. */
  ghost predicate Coherent(localTypes: set<GroupKind>, kinds: GroupKind -> bool) {
    forall k | kinds(k) :: k in localTypes <==> ListKindOf(k) in localTypes
  }

  /**
    The duck type keeps the default list kind, its list kind is no object kind, and its kind is not the list
    kind of another object kind of the group.
  */
  ghost predicate Sensible(t: Webhook.DuckType, kinds: GroupKind -> bool) {
    && (t.listKind == "" || t.listKind == t.kind + "List")
    && !kinds(GK(t.group, t.kind + "List"))
    && forall k | kinds(k) && k.group == t.group :: k.kind + "List" != t.kind
  }

  /** A defaulted duck type's local kinds are coherent exactly when it is sensible. */
  lemma SensibleIsCoherent(t: Webhook.DuckType, kinds: GroupKind -> bool)
    requires kinds(GK(t.group, t.kind))
    ensures Coherent(LocalTypes(Webhook.Defaulted(t)), kinds) <==> Sensible(t, kinds)
  {
    var locals := LocalTypes(Webhook.Defaulted(t));
    assert |t.kind + "List"| == |t.kind| + 4;
    if Sensible(t, kinds) {
      forall k | kinds(k) ensures k in locals <==> ListKindOf(k) in locals {
        ListKindDeterminesKind(k.kind, t.kind);
      }
    } else if t.listKind != "" && t.listKind != t.kind + "List" {
      assert ListKindOf(GK(t.group, t.kind)) !in locals;
    } else if kinds(GK(t.group, t.kind + "List")) {
      ListKindThatIsAKindIsIncoherent(Webhook.Defaulted(t), kinds);
    } else {
      var k :| kinds(k) && k.group == t.group && k.kind + "List" == t.kind;
      KindEndingInListIsIncoherent(Webhook.Defaulted(t), k.kind, kinds);
    }
  }

  /** A duck type whose list kind is itself an object kind takes that kind's objects, but not their listing. */
  lemma ListKindThatIsAKindIsIncoherent(t: Webhook.DuckType, kinds: GroupKind -> bool)
    requires t.listKind == t.kind + "List" && kinds(GK(t.group, t.listKind))
    ensures !Coherent(LocalTypes(t), kinds)
  {
    var k := GK(t.group, t.listKind);
    assert |ListKindOf(k).kind| == |t.kind| + 8 && |t.listKind| == |t.kind| + 4;
    assert k in LocalTypes(t) && ListKindOf(k) !in LocalTypes(t);
  }

  /** A duck type whose kind ends in `List` pulls the listing of the kind before it into its own cache. */
  lemma KindEndingInListIsIncoherent(t: Webhook.DuckType, x: string, kinds: GroupKind -> bool)
    requires t.kind == x + "List" && t.listKind == t.kind + "List" && kinds(GK(t.group, x))
    ensures !Coherent(LocalTypes(t), kinds)
  {
    var k := GK(t.group, x);
    assert |t.kind| == |x| + 4 && |t.listKind| == |x| + 8;
    assert ListKindOf(k) in LocalTypes(t) && k !in LocalTypes(t);
  }

  ghost predicate AllAbout<O(!new)>(rs: seq<Request<O>>, kinds: GroupKind -> bool) {
    forall r <- rs :: exists k :: kinds(k) && About(r, k)
  }

  lemma CoherentRequestsAreRouted<O(!new)>(localTypes: set<GroupKind>, kinds: GroupKind -> bool, rs: seq<Request<O>>)
    requires Coherent(localTypes, kinds) && AllAbout(rs, kinds)
    ensures forall r <- rs :: Routed(localTypes, r)
  {
  }

  /** For a sensible duck type, the sub-manager's cache answers every request sequence as one cache. */
  lemma SubManagerCacheIsOneCache<S, O(!new), A>(t: Webhook.DuckType, kinds: GroupKind -> bool, c: Split<S, O, A>,
                                                 slots: Slots<S>, rs: seq<Request<O>>)
    requires kinds(GK(t.group, t.kind)) && Sensible(t, kinds)
    requires c.localTypes == LocalTypes(Webhook.Defaulted(t)) && StandsFor(c, slots) && AllAbout(rs, kinds)
    ensures HandledAll(c, rs).1 == OneHandledAll(c, slots, rs).1
  {
    SensibleIsCoherent(t, kinds);
    CoherentRequestsAreRouted(c.localTypes, kinds, rs);
    SplitRefinesOne(c, slots, rs);
  }

  // ----- incoherent routing shows -----

  /** The smallest cache that tells: an informer is started, and a read says whether it was. */
  datatype Probe = StartInformer | Read

  function Probed(): Behaviour<bool, Probe, bool> {
    (started: bool, p: Probe) => if p == StartInformer then (true, true) else (started, started)
  }

  function Blank(localTypes: set<GroupKind>): Split<bool, Probe, bool> {
    Split(localTypes, map[], map[], false, Probed(), Probed())
  }

  /** Every request sequence over these kinds is answered as by one cache. */
  ghost predicate AnswersAsOne(localTypes: set<GroupKind>, kinds: GroupKind -> bool) {
    forall rs: seq<Request<Probe>> | AllAbout(rs, kinds) ::
      HandledAll(Blank(localTypes), rs).1 == OneHandledAll(Blank(localTypes), map[], rs).1
  }

  /** Coherence is exactly what it takes to answer as one cache. */
  lemma CoherenceIsExact(localTypes: set<GroupKind>, kinds: GroupKind -> bool)
    ensures Coherent(localTypes, kinds) <==> AnswersAsOne(localTypes, kinds)
  {
    if Coherent(localTypes, kinds) {
      forall rs: seq<Request<Probe>> | AllAbout(rs, kinds)
        ensures HandledAll(Blank(localTypes), rs).1 == OneHandledAll(Blank(localTypes), map[], rs).1
      {
        CoherentRequestsAreRouted(localTypes, kinds, rs);
        SplitRefinesOne(Blank(localTypes), map[], rs);
      }
    } else {
      var k :| kinds(k) && !(k in localTypes <==> ListKindOf(k) in localTypes);
      MisroutedListingShows(localTypes, kinds, k);
    }
  }

  lemma MisroutedListingShows(localTypes: set<GroupKind>, kinds: GroupKind -> bool, k: GroupKind)
    requires kinds(k) && !(k in localTypes <==> ListKindOf(k) in localTypes)
    ensures !AnswersAsOne(localTypes, kinds)
  {
    var c := Blank(localTypes);
    var r1, r2 := Request(k, false, StartInformer), Request(ListKindOf(k), true, Read);
    ItemKindOfList(k.kind);
    var one: seq<Request<Probe>> := [r1];
    var two := [r1, r2];
    assert two[..1] == one && one[..0] == [];
    var d := Handled(c, r1).0;
    assert HandledAll(c, []) == (c, []);
    assert HandledAll(c, one).0 == d;
    assert Handled(d, r2).1 == false;
    assert HandledAll(c, two).1[1] == false;
    assert OneHandledAll(c, map[], []) == (map[], []);
    assert OneHandledAll(c, map[], one).0 == map[k := true];
    assert OneHandledAll(c, map[], two).1[1] == true;
    assert About(r1, k) && About(r2, k);
    assert AllAbout(two, kinds);
  }

  // ----- the cache's code -----

  class Cache<S, O, A> {
    const localTypes: set<GroupKind>
    const blank: S
    const localBehaviour: Behaviour<S, O, A>
    const upstreamBehaviour: Behaviour<S, O, A>
    var local: Slots<S>
    var upstream: Slots<S>

    constructor (c: Split<S, O, A>)
      ensures View() == c
    {
      localTypes, blank := c.localTypes, c.blank;
      localBehaviour, upstreamBehaviour := c.localBehaviour, c.upstreamBehaviour;
      local, upstream := c.local, c.upstream;
    }

    function View(): Split<S, O, A>
      reads this
    {
      Split(localTypes, local, upstream, blank, localBehaviour, upstreamBehaviour)
    }

    /** Every dispatching method: ask whether the named kind is local, pass the call on. */
    method Handle(r: Request<O>) returns (answer: A)
      modifies this
      ensures (View(), answer) == Handled(old(View()), r)
    {
      if r.asked in localTypes {
        var (slot, a) := localBehaviour(At(local, r.Serving(), blank), r.op);
        local := local[r.Serving() := slot];
        answer := a;
      } else {
        var (slot, a) := upstreamBehaviour(At(upstream, r.Serving(), blank), r.op);
        upstream := upstream[r.Serving() := slot];
        answer := a;
      }
    }
  }
}
