/**
  End to end: what discovery says about a duck, what its role grants, what the type's role aggregates and
  what the client asks for agree.
*/
module Permissions {
  import opened Options
  import opened Api
  import opened GroupResources
  import opened Availability
  import opened RoleNames
  import Webhook
  import opened Roles
  import Client

  /** Kind to resource, as the REST mapper resolves it. */
  type Mapper = GroupVersionKind -> Option<string>

  /** The mapper only resolves to top-level resources that discovery serves. */
  ghost predicate Follows(mapper: Mapper, discovery: Discovery) {
    forall k | mapper(k).Some? ::
      TopLevel(mapper(k).value) && discovery(k.group, k.version).Served? && Serves(discovery(k.group, k.version).resources, mapper(k).value, k.kind)
  }

  /** The conditions of a duck tell the truth: RBAC about its roles, Available about discovery. */
  ghost predicate Truthful(c: Cluster, t: Webhook.DuckType, d: Duck, discovery: Discovery) {
    && TopLevel(d.name)
    && (d.rbac == True ==> (t, d.name) in c.marks && HasRoles(c, (t, d.name)))
    && (d.available == True ==> AvailableBy(d, discovery))
  }

  ghost predicate AllTruthful(c: Cluster, t: Webhook.DuckType, ducks: seq<Duck>, discovery: Discovery) {
    forall d <- ducks :: Truthful(c, t, d, discovery)
  }

  /** The resource the mapper finds for an available duck's kind is the one its own role grants. */
  lemma MapperFindsGrantedResource(d: Duck, discovery: Discovery, mapper: Mapper)
    requires AvailableBy(d, discovery) && TopLevel(d.name)
    requires OneToOne(discovery, d.spec.group) && Follows(mapper, discovery)
    requires mapper(d.spec.GroupVersionKind()).Some?
    ensures Parse(d.name) == GR(mapper(d.spec.GroupVersionKind()).value, d.spec.group)
  {
    ParsedResourceIsTopLevel(d.name);
  }

  /** A ready duck is readable through its type's aggregated view role, whatever the state of any other duck. */
  lemma ReadyDuckIsReadable(c: Cluster, t: Webhook.DuckType, d: Duck, discovery: Discovery, mapper: Mapper, verb: string)
    requires Webhook.Admissible(t) && d.Ready() && Truthful(c, t, d, discovery)
    requires OneToOne(discovery, d.spec.group) && Follows(mapper, discovery)
    requires mapper(d.spec.GroupVersionKind()).Some? && verb in {"get", "list", "watch"}
    ensures Allows(Aggregate(c, Selector(t.name, View)), verb, d.spec.group, mapper(d.spec.GroupVersionKind()).value)
  {
    MapperFindsGrantedResource(d, discovery, mapper);
    DuckRuleIsAggregated(c, (t, d.name), View);
    var rule := DuckRule(d.name, View);
    assert rule in Aggregate(c, Selector(t.name, View)) && rule.group == d.spec.group && verb in rule.verbs;
  }

  /** Every per-duck read a List issues is covered by the type's view role. */
  lemma ListReadsArePermitted(c: Cluster, t: Webhook.DuckType, v: Client.View, gk: GroupKind, discovery: Discovery,
                              mapper: Mapper)
    requires Webhook.Admissible(t) && v.ducks.Ok? && AllTruthful(c, t, v.ducks.value, discovery)
    requires Follows(mapper, discovery) && Client.Ducks(v, gk).Ok?
    ensures forall d <- Client.Ducks(v, gk).value | OneToOne(discovery, d.spec.group) ::
      var asked := d.spec.ListKind();
      var resource := mapper(GVK(asked.group, asked.version, ItemKind(asked.kind)));
      resource.Some? ==> Allows(Aggregate(c, Selector(t.name, View)), "list", asked.group, resource.value)
  {
    forall d <- Client.Ducks(v, gk).value | OneToOne(discovery, d.spec.group)
      ensures ItemKind(d.spec.ListKind().kind) == d.spec.kind
      ensures mapper(d.spec.GroupVersionKind()).Some? ==>
        Allows(Aggregate(c, Selector(t.name, View)), "list", d.spec.group, mapper(d.spec.GroupVersionKind()).value)
    {
      ItemKindOfList(d.spec.kind);
      Client.FilterMembers(Client.Wanted(gk), v.ducks.value, d);
      if mapper(d.spec.GroupVersionKind()).Some? {
        ReadyDuckIsReadable(c, t, d, discovery, mapper, "list");
      }
    }
  }

  /**
    A Get reads the caller's kind at the duck's version.  The read is covered if and only if some duck of the
    type with its role names the resource it maps to, which is always so when the request names the duck's kind
    itself.
  */
  lemma GetIsPermittedExactly(c: Cluster, t: Webhook.DuckType, v: Client.View, gk: GroupKind, discovery: Discovery,
                              mapper: Mapper, asked: GroupVersionKind)
    requires Labelled(c) && t in c.types && v.ducks.Ok? && AllTruthful(c, t, v.ducks.value, discovery)
    requires OneToOne(discovery, gk.group) && Follows(mapper, discovery)
    requires Client.TheDuck(v, gk).Ok? && asked == GVK(gk.group, Client.TheDuck(v, gk).value.spec.version, gk.kind)
    requires mapper(asked).Some?
    ensures var resource := mapper(asked).value;
      Allows(Aggregate(c, Selector(t.name, View)), "get", gk.group, resource) <==> Granted(c, t, View, gk.group, resource)
    ensures Client.Named(gk, Client.TheDuck(v, gk).value) ==>
      Allows(Aggregate(c, Selector(t.name, View)), "get", gk.group, mapper(asked).value)
  {
    AccessIsExact(c, t, View, "get", gk.group, mapper(asked).value);
    var d := Client.TheDuck(v, gk).value;
    Client.FilterMembers(Client.Wanted(gk), v.ducks.value, d);
    if Client.Named(gk, d) {
      ReadyDuckIsReadable(c, t, d, discovery, mapper, "get");
    }
  }

  const DUCK_GROUP := "duck.reconciler.io"

  /**
    What every request reads first: the duck type itself, and the list of its ducks.  The derived role covers
    these exactly where a duck of the type happens to name them.
  */
  lemma LookupIsPermittedExactly(c: Cluster, t: Webhook.DuckType)
    requires Labelled(c) && t in c.types
    ensures Allows(Aggregate(c, Selector(t.name, View)), "get", DUCK_GROUP, "ducktypes") <==>
      Granted(c, t, View, DUCK_GROUP, "ducktypes")
    ensures Allows(Aggregate(c, Selector(t.name, View)), "list", t.group, t.plural) <==>
      Granted(c, t, View, t.group, t.plural)
  {
    AccessIsExact(c, t, View, "get", DUCK_GROUP, "ducktypes");
    AccessIsExact(c, t, View, "list", t.group, t.plural);
  }

  /** Ducks of different types whose role names coincide are never ready together. */
  lemma CollidingDucksAreNotBothReady(c: Cluster, t: Webhook.DuckType, d: Duck, u: Webhook.DuckType, e: Duck, a: Access,
                                      discovery: Discovery)
    requires Webhook.Admissible(t) && Webhook.Admissible(u) && t.name != u.name
    requires Truthful(c, t, d, discovery) && Truthful(c, u, e, discovery)
    requires DuckRoleName(t.name, d.name, a) == DuckRoleName(u.name, e.name, a)
    ensures !(d.Ready() && e.Ready())
  {
    CollidingDucksShareNoRole(c, (t, d.name), (u, e.name), a);
    assert a == View || a == Edit;
  }

  // ----- a Get through the list kind -----

  const ExampleType := ShortType

  const ExampleDuck := Duck("foos.g", DuckSpec("g", "v1", "Foo"), True, True)

  const ExampleResources := [ApiResource("foos", "Foo"), ApiResource("foos/status", "Foo"), ApiResource("foolists", "FooList")]

  function ExampleDiscovery(): Discovery {
    (g: string, v: string) => if g == "g" then Served(ExampleResources) else NotServed
  }

  function ExampleMapper(): Mapper {
    (k: GroupVersionKind) =>
      if k.group != "g" then None
      else if k.kind == "Foo" then Some("foos")
      else if k.kind == "FooList" then Some("foolists")
      else None
  }

  lemma ExampleServes(r: string, k: string)
    ensures Serves(ExampleResources, r, k) <==>
      (r == "foos" && k == "Foo") || (r == "foos/status" && k == "Foo") || (r == "foolists" && k == "FooList")
  {
    var rs := ExampleResources;
    assert rs[0].name == "foos" && rs[1].name == "foos/status" && rs[2].name == "foolists";
    assert |"foos"| == 4 && |"foos/status"| == 11 && |"foolists"| == 8;
    assert FirstFor(rs, "foos", 0) && FirstFor(rs, "foos/status", 1) && FirstFor(rs, "foolists", 2);
  }

  lemma ExampleIsOneToOne()
    ensures OneToOne(ExampleDiscovery(), "g")
  {
    forall r, k | Serves(ExampleResources, r, k) && TopLevel(r) ensures r == if k == "Foo" then "foos" else "foolists" {
      ExampleServes(r, k);
      assert "foos/status"[4] == '/';
    }
  }

  lemma ExampleMapperFollows()
    ensures Follows(ExampleMapper(), ExampleDiscovery())
  {
    ExampleServes("foos", "Foo");
    ExampleServes("foolists", "FooList");
  }

  lemma ExampleIsAvailable()
    ensures AvailableBy(ExampleDuck, ExampleDiscovery()) && TopLevel(ExampleDuck.name)
    ensures Parse(ExampleDuck.name) == GR("foos", "g")
  {
    ExampleServes("foos", "Foo");
    ParseSplitsAtFirstDot("foos", "g");
    assert "foos" + "." + "g" == "foos.g";
  }

  function ExampleView(): Client.View {
    Client.View(Client.TypeRead.Ready, Client.Ok([ExampleDuck]))
  }

  lemma ExampleResolves()
    ensures Client.TheDuck(ExampleView(), GK("g", "FooList")) == Client.Ok(ExampleDuck)
  {
    var wanted := Client.Wanted(GK("g", "FooList"));
    assert [ExampleDuck][..0] == [];
    assert "Foo" + "List" == "FooList";
    assert wanted(ExampleDuck);
    assert Client.Filter(wanted, [ExampleDuck]) == [ExampleDuck];
  }

  lemma ExampleHasRoles()
    ensures HasRoles(Small(ExampleType, ExampleDuck.name), (ExampleType, ExampleDuck.name))
    ensures Labelled(Small(ExampleType, ExampleDuck.name))
  {
    assert ExampleType.name == ExampleType.plural + "." + ExampleType.group;
    SmallIsLabelled(ExampleType, ExampleDuck.name);
  }

  lemma ExampleIsTruthful()
    ensures Labelled(Small(ExampleType, ExampleDuck.name))
    ensures AllTruthful(Small(ExampleType, ExampleDuck.name), ExampleType, ExampleView().ducks.value, ExampleDiscovery())
  {
    ExampleHasRoles();
    ExampleIsAvailable();
  }

  lemma ExampleGrants(resource: string, group: string)
    ensures Granted(Small(ExampleType, ExampleDuck.name), ExampleType, View, group, resource) <==>
      resource == "foos" && group == "g"
  {
    assert Granted(Small(ExampleType, ExampleDuck.name), ExampleType, View, group, resource) <==>
        Parse(ExampleDuck.name) == GR(resource, group) by
    {
      ExampleHasRoles();
      SmallGrants(ExampleType, ExampleDuck.name, group, resource);
    }
    ExampleIsAvailable();
  }

  /** In the example cluster both lookups every request starts with are refused by the derived role. */
  lemma LookupIsNotGranted()
    ensures var rules := Aggregate(Small(ExampleType, ExampleDuck.name), Selector(ExampleType.name, View));
      && Labelled(Small(ExampleType, ExampleDuck.name))
      && !Allows(rules, "get", DUCK_GROUP, "ducktypes") && !Allows(rules, "list", ExampleType.group, ExampleType.plural)
  {
    ExampleIsTruthful();
    LookupIsPermittedExactly(Small(ExampleType, ExampleDuck.name), ExampleType);
    ExampleGrants("ducktypes", DUCK_GROUP);
    ExampleGrants("ts", "d");
    assert |"foos"| != |"ducktypes"| && |"foos"| != |"ts"|;
  }

  /**
    Get on kind `FooList` resolves to the duck of kind `Foo`.  Where discovery serves a resource of kind
    `FooList`, that resource is read and no role of the type grants it.
  */
  lemma GetThroughListKindIsNotGranted()
    ensures var c := Small(ExampleType, ExampleDuck.name);
      var gk := GK("g", "FooList");
      && Labelled(c) && AllTruthful(c, ExampleType, ExampleView().ducks.value, ExampleDiscovery())
      && OneToOne(ExampleDiscovery(), "g") && Follows(ExampleMapper(), ExampleDiscovery())
      && Client.TheDuck(ExampleView(), gk) == Client.Ok(ExampleDuck)
      && ExampleDuck.spec.version == "v1" && ExampleMapper()(GVK("g", "v1", "FooList")) == Some("foolists")
      && !Allows(Aggregate(c, Selector(ExampleType.name, View)), "get", "g", "foolists")
  {
    ExampleIsTruthful();
    ExampleIsOneToOne();
    ExampleMapperFollows();
    ExampleResolves();
    ExampleGrants("foolists", "g");
    assert |"foos"| != |"foolists"|;
    GetIsPermittedExactly(Small(ExampleType, ExampleDuck.name), ExampleType, ExampleView(), GK("g", "FooList"),
                          ExampleDiscovery(), ExampleMapper(), GVK("g", "v1", "FooList"));
  }

  /**
    Ready ducks of one group have distinct kinds, so a kind resolves exactly when one ready duck answers to
    it.  Roles play no part, and nothing is asked of ducks that are not ready.
  */
  lemma ReadyKindsResolveUniquely(v: Client.View, gk: GroupKind, discovery: Discovery)
    requires v.duckType == Client.TypeRead.Ready && v.ducks.Ok? && !gk.Empty() && OneToOne(discovery, gk.group)
    requires forall d <- v.ducks.value | d.Ready() :: TopLevel(d.name) && AvailableBy(d, discovery)
    requires forall i, j | 0 <= i < |v.ducks.value| && 0 <= j < |v.ducks.value|
               && v.ducks.value[i].name == v.ducks.value[j].name :: i == j
    ensures Client.TheDuck(v, gk).Ok? <==>
      Client.AnyNamed(v.ducks.value, gk) != Client.AnyNamedAsList(v.ducks.value, gk)
  {
    var ds := v.ducks.value;
    forall i, j | 0 <= i < |ds| && 0 <= j < |ds| && ds[i].Ready() && ds[j].Ready()
      && ds[i].spec.group == gk.group && ds[j].spec.group == gk.group && ds[i].spec.kind == ds[j].spec.kind
      ensures i == j
    {
      assert ds[i] in ds && ds[j] in ds;
      AvailableKindsAreDistinct(ds[i], ds[j], discovery);
    }
    Client.ResolvesUniquely(v, gk);
  }
}
