/** The cluster roles derived for duck types and ducks, and how the cluster aggregates them. */
module Roles {
  import opened Options
  import opened GroupResources
  import opened RoleNames
  import opened Webhook

  datatype Rule = Rule(group: string, resource: string, verbs: set<string>)

  datatype Role = Role(name: string, labels: map<string, string>, rules: set<Rule>, selector: Option<map<string, string>>)

  const TYPE_LABEL := "ducks.reconciler.io/type"
  const ROLE_LABEL := "ducks.reconciler.io/role"

  function Selector(duckType: string, a: Access): map<string, string> {
    map[TYPE_LABEL := duckType, ROLE_LABEL := a.Suffix()]
  }

  function Verbs(a: Access): set<string> {
    if a.View? then {"get", "list", "watch"} else {"get", "list", "watch", "patch"}
  }

  /** The aggregating role of a duck type. */
  function TypeRole(duckType: string, a: Access): Role {
    Role(TypeRoleName(duckType, a), map[TYPE_LABEL := duckType], {}, Some(Selector(duckType, a)))
  }

  function DuckRule(duck: string, a: Access): Rule {
    Rule(Parse(duck).group, Parse(duck).resource, Verbs(a))
  }

  /** The role of one duck, labelled with the resource its own duck type is served as. */
  function DuckRole(servedAs: string, duck: string, a: Access): Role {
    Role(DuckRoleName(servedAs, duck, a), Selector(servedAs, a), {DuckRule(duck, a)}, None)
  }

  function ServedAs(t: DuckType): string {
    GR(t.plural, t.group).Print()
  }

  predicate Selected(selector: map<string, string>, r: Role) {
    forall k <- selector :: k in r.labels && r.labels[k] == selector[k]
  }

  /** A cluster: its duck types, which duck names mark which type, and its roles by name. */
  datatype Cluster = Cluster(types: set<DuckType>, marks: set<(DuckType, string)>, roles: map<string, Role>)

  /**
    Nobody else uses the type label, types are validated and have distinct names.  Nothing is asked of ducks
    whose roles are missing, still to come or lost to a name collision; the rules of an aggregating role are
    the cluster's business.
  */
  ghost predicate Labelled(c: Cluster) {
    && (forall n | n in c.roles && TYPE_LABEL in c.roles[n].labels :: Wanted(c, n))
    && (forall m <- c.marks :: m.0 in c.types)
    && (forall t, u | t in c.types && u in c.types && t.name == u.name :: t == u)
    && (forall t <- c.types :: Admissible(t))
  }

  predicate HasDuckRole(c: Cluster, m: (DuckType, string), a: Access) {
    var r := DuckRole(ServedAs(m.0), m.1, a);
    r.name in c.roles && c.roles[r.name] == r
  }

  ghost predicate Wanted(c: Cluster, n: string)
    requires n in c.roles
  {
    || (exists t, a :: t in c.types && n == TypeRoleName(t.name, a) && c.roles[n].labels == TypeRole(t.name, a).labels)
    || (exists m, a :: m in c.marks && n == DuckRoleName(ServedAs(m.0), m.1, a) && HasDuckRole(c, m, a))
  }

  /** What a duck's RBAC condition reports: both its roles are there. */
  predicate HasRoles(c: Cluster, m: (DuckType, string)) {
    HasDuckRole(c, m, View) && HasDuckRole(c, m, Edit)
  }

  /** The rules the cluster gathers for a selector. */
  function Aggregate(c: Cluster, selector: map<string, string>): set<Rule> {
    set n, rule | n in c.roles && Selected(selector, c.roles[n]) && rule in c.roles[n].rules :: rule
  }

  predicate Allows(rules: set<Rule>, verb: string, group: string, resource: string) {
    exists r <- rules :: r.group == group && r.resource == resource && verb in r.verbs
  }

  /** A validated type is served under its own name. */
  lemma AdmissibleIsServedAsItsName(t: DuckType)
    requires Admissible(t)
    ensures ServedAs(t) == t.name
  {
  }

  /** A selector picks exactly the duck roles of its own type and access, and no aggregating role at all. */
  lemma SelectorsAreApart(x: string, a: Access, y: string, d: string, b: Access)
    ensures Selected(Selector(x, a), DuckRole(y, d, b)) <==> x == y && a == b
    ensures !Selected(Selector(x, a), TypeRole(y, b))
  {
    var s := Selector(x, a);
    assert s[TYPE_LABEL] == x && s[ROLE_LABEL] == a.Suffix();
    assert TYPE_LABEL in s && ROLE_LABEL in s;
    assert TYPE_LABEL[|TYPE_LABEL| - 4] != ROLE_LABEL[|ROLE_LABEL| - 4];
    assert ROLE_LABEL !in TypeRole(y, b).labels;
    assert DuckRole(y, d, b).labels[ROLE_LABEL] == b.Suffix();
    assert a.Suffix()[0] == b.Suffix()[0] <==> a == b;
  }

  /** The rules of those ducks of the type that have the role. */
  function RulesOf(c: Cluster, t: DuckType, a: Access): set<Rule> {
    set m | m in c.marks && m.0 == t && HasDuckRole(c, m, a) :: DuckRule(m.1, a)
  }

  lemma AggregatedRuleComesFromItsDucks(c: Cluster, t: DuckType, a: Access, n: string, rule: Rule)
    requires Labelled(c) && t in c.types
    requires n in c.roles && Selected(Selector(t.name, a), c.roles[n]) && rule in c.roles[n].rules
    ensures rule in RulesOf(c, t, a)
  {
    assert TYPE_LABEL in Selector(t.name, a) && ROLE_LABEL in Selector(t.name, a);
    assert Wanted(c, n);
    if u, b :| u in c.types && n == TypeRoleName(u.name, b) && c.roles[n].labels == TypeRole(u.name, b).labels {
      SelectorsAreApart(t.name, a, u.name, "", b);
    }
    var m, b :| m in c.marks && n == DuckRoleName(ServedAs(m.0), m.1, b) && HasDuckRole(c, m, b);
    SelectorsAreApart(t.name, a, ServedAs(m.0), m.1, b);
    AdmissibleIsServedAsItsName(m.0);
  }

  /** A duck's role is enough for its rule to be aggregated. */
  lemma DuckRuleIsAggregated(c: Cluster, m: (DuckType, string), a: Access)
    requires Admissible(m.0) && HasDuckRole(c, m, a)
    ensures DuckRule(m.1, a) in Aggregate(c, Selector(m.0.name, a))
  {
    AdmissibleIsServedAsItsName(m.0);
    SelectorsAreApart(m.0.name, a, ServedAs(m.0), m.1, a);
    var r := DuckRole(ServedAs(m.0), m.1, a);
    assert c.roles[r.name] == r && DuckRule(m.1, a) in r.rules;
  }

  /** The aggregated rules of a type are precisely those of its own ducks that have their role. */
  lemma AggregationIsExact(c: Cluster, t: DuckType, a: Access)
    requires Labelled(c) && t in c.types
    ensures Aggregate(c, Selector(t.name, a)) == RulesOf(c, t, a)
  {
    forall rule | rule in Aggregate(c, Selector(t.name, a)) ensures rule in RulesOf(c, t, a) {
      var n :| n in c.roles && Selected(Selector(t.name, a), c.roles[n]) && rule in c.roles[n].rules;
      AggregatedRuleComesFromItsDucks(c, t, a, n, rule);
    }
    forall rule | rule in RulesOf(c, t, a) ensures rule in Aggregate(c, Selector(t.name, a)) {
      var m :| m in c.marks && m.0 == t && HasDuckRole(c, m, a) && DuckRule(m.1, a) == rule;
      DuckRuleIsAggregated(c, m, a);
    }
  }

  /** Some duck of the type names the resource and has its role. */
  ghost predicate Granted(c: Cluster, t: DuckType, a: Access, group: string, resource: string) {
    exists d :: (t, d) in c.marks && HasDuckRole(c, (t, d), a) && Parse(d) == GR(resource, group)
  }

  lemma RulesAllowExactly(c: Cluster, t: DuckType, a: Access, verb: string, group: string, resource: string)
    ensures Allows(RulesOf(c, t, a), verb, group, resource) <==>
      (verb in {"get", "list", "watch"} || (a.Edit? && verb == "patch")) && Granted(c, t, a, group, resource)
  {
    if Allows(RulesOf(c, t, a), verb, group, resource) {
      var r :| r in RulesOf(c, t, a) && r.group == group && r.resource == resource && verb in r.verbs;
      var m :| m in c.marks && m.0 == t && HasDuckRole(c, m, a) && DuckRule(m.1, a) == r;
      assert m == (t, m.1) && Parse(m.1) == GR(resource, group);
    }
    if d :| (t, d) in c.marks && HasDuckRole(c, (t, d), a) && Parse(d) == GR(resource, group) {
      var r := DuckRule(d, a);
      assert r in RulesOf(c, t, a) && r.group == group && r.resource == resource;
    }
  }

  /**
    Exactly what the role of a type allows: on the resources named by its ducks that have their role, reading
    for view, reading and patching for edit, and nothing anywhere else.
  */
  lemma AccessIsExact(c: Cluster, t: DuckType, a: Access, verb: string, group: string, resource: string)
    requires Labelled(c) && t in c.types
    ensures Allows(Aggregate(c, Selector(t.name, a)), verb, group, resource) <==>
      (verb in {"get", "list", "watch"} || (a.Edit? && verb == "patch")) && Granted(c, t, a, group, resource)
  {
    AggregationIsExact(c, t, a);
    RulesAllowExactly(c, t, a, verb, group, resource);
  }

  /**
    What the view role of a type allows, its edit role allows exactly where a duck naming that resource has
    its edit role; so it covers it all once no duck has the one role without the other.
  */
  lemma EditCoversView(c: Cluster, t: DuckType, verb: string, group: string, resource: string)
    requires Labelled(c) && t in c.types
    requires Allows(Aggregate(c, Selector(t.name, View)), verb, group, resource)
    ensures Allows(Aggregate(c, Selector(t.name, Edit)), verb, group, resource) <==> Granted(c, t, Edit, group, resource)
    ensures (forall m | m in c.marks && m.0 == t && HasDuckRole(c, m, View) :: HasDuckRole(c, m, Edit)) ==>
      Allows(Aggregate(c, Selector(t.name, Edit)), verb, group, resource)
  {
    AccessIsExact(c, t, View, verb, group, resource);
    AccessIsExact(c, t, Edit, verb, group, resource);
    var d :| (t, d) in c.marks && HasDuckRole(c, (t, d), View) && Parse(d) == GR(resource, group);
    assert (t, d).0 == t;
  }

  /** Neither role of a type ever covers the client's DeleteAllOf. */
  lemma NoRoleAllowsDeleting(c: Cluster, t: DuckType, a: Access, verb: string, group: string, resource: string)
    requires Labelled(c) && t in c.types && verb in {"delete", "deletecollection"}
    ensures !Allows(Aggregate(c, Selector(t.name, a)), verb, group, resource)
  {
    AccessIsExact(c, t, a, verb, group, resource);
    assert verb[0] == 'd' && "get"[0] == 'g' && "list"[0] == 'l' && "watch"[0] == 'w' && "patch"[0] == 'p';
  }

  // ----- collisions -----

  /** Two ducks of different types whose role names coincide never both have that role. */
  lemma CollidingDucksShareNoRole(c: Cluster, m: (DuckType, string), k: (DuckType, string), a: Access)
    requires Admissible(m.0) && Admissible(k.0) && m.0.name != k.0.name
    requires DuckRoleName(m.0.name, m.1, a) == DuckRoleName(k.0.name, k.1, a)
    ensures !(HasDuckRole(c, m, a) && HasDuckRole(c, k, a))
  {
    AdmissibleIsServedAsItsName(m.0);
    AdmissibleIsServedAsItsName(k.0);
    assert Selector(m.0.name, a)[TYPE_LABEL] != Selector(k.0.name, a)[TYPE_LABEL] by {
      SelectorsAreApart(m.0.name, a, k.0.name, k.1, a);
      SelectorsAreApart(m.0.name, a, m.0.name, m.1, a);
    }
  }

  const ShortType := DuckType("ts.d", "d", "ts", "t", "T", "TList")
  const LongType := DuckType("ts.d-x", "d-x", "ts", "t", "T", "TList")

  /** It happens: validated types `ts.d` and `ts.d-x` collide on their ducks `x-foos.g` and `foos.g`. */
  lemma RoleNamesCollide(c: Cluster, a: Access)
    ensures Admissible(ShortType) && Admissible(LongType) && ShortType.name != LongType.name
    ensures DuckRoleName(ShortType.name, "x-foos.g", a) == DuckRoleName(LongType.name, "foos.g", a)
    ensures DuckRoleName(LongType.name, "foos.g", a) ==
      if a.View? then "reconcilerio-ducks-ts.d-x-foos.g-view" else "reconcilerio-ducks-ts.d-x-foos.g-edit"
    ensures !(HasRoles(c, (ShortType, "x-foos.g")) && HasRoles(c, (LongType, "foos.g")))
  {
    assert "ts.d" == "ts" + "." + "d" && "ts.d-x" == "ts" + "." + "d-x";
    assert |"ts.d"| != |"ts.d-x"|;
    CollidingName(a);
    SameCollidingName(a);
    assert !(HasRoles(c, (ShortType, "x-foos.g")) && HasRoles(c, (LongType, "foos.g"))) by {
      SameCollidingName(View);
      CollidingDucksShareNoRole(c, (ShortType, "x-foos.g"), (LongType, "foos.g"), View);
    }
  }

  lemma CollidingName(a: Access)
    ensures DuckRoleName("ts.d-x", "foos.g", a) ==
      if a.View? then "reconcilerio-ducks-ts.d-x-foos.g-view" else "reconcilerio-ducks-ts.d-x-foos.g-edit"
  {
  }

  lemma SameCollidingName(a: Access)
    ensures DuckRoleName("ts.d", "x-foos.g", a) == DuckRoleName("ts.d-x", "foos.g", a)
  {
    assert "ts.d-x" == "ts.d" + "-" + "x" && "x-foos.g" == "x" + "-" + "foos.g";
    DuckRoleNamesCoincide("ts.d", "x-foos.g", a, "ts.d-x", "foos.g", a);
    assert BoundaryMoved("ts.d", "x-foos.g", "ts.d-x", "foos.g");
  }

  // ----- one type, one duck -----

  /** A cluster with one duck type and one duck, both reconciled. */
  function Small(t: DuckType, duck: string): Cluster {
    Cluster({t}, {(t, duck)},
      map[TypeRoleName(t.name, View) := TypeRole(t.name, View),
          TypeRoleName(t.name, Edit) := TypeRole(t.name, Edit),
          DuckRoleName(t.name, duck, View) := DuckRole(t.name, duck, View),
          DuckRoleName(t.name, duck, Edit) := DuckRole(t.name, duck, Edit)])
  }

  lemma SmallHasRoles(t: DuckType, duck: string)
    requires Admissible(t) && HyphenFree(t.name)
    ensures HasRoles(Small(t, duck), (t, duck))
    ensures forall n <- Small(t, duck).roles :: Wanted(Small(t, duck), n)
  {
    var c := Small(t, duck);
    AdmissibleIsServedAsItsName(t);
    HyphenFreeNamesAreInjective(t.name, duck, View, t.name, duck, Edit);
    HyphenFreeNamesAreInjective(t.name, duck, Edit, t.name, duck, View);
    HyphenFreeNamesAreInjective(t.name, duck, View, t.name, duck, View);
    HyphenFreeNamesAreInjective(t.name, duck, Edit, t.name, duck, Edit);
    var m := (t, duck);
    assert HasDuckRole(c, m, View) && HasDuckRole(c, m, Edit);
    forall n <- c.roles ensures Wanted(c, n) {
      var a := if n == TypeRoleName(t.name, View) || n == DuckRoleName(t.name, duck, View) then View else Edit;
      if n == TypeRoleName(t.name, a) {
        assert t in c.types && c.roles[n].labels == TypeRole(t.name, a).labels;
      } else {
        assert m in c.marks && n == DuckRoleName(ServedAs(m.0), m.1, a) && HasDuckRole(c, m, a);
      }
    }
  }

  lemma SmallIsLabelled(t: DuckType, duck: string)
    requires Admissible(t) && HyphenFree(t.name)
    ensures Labelled(Small(t, duck)) && HasRoles(Small(t, duck), (t, duck))
  {
    SmallHasRoles(t, duck);
  }

  lemma SmallGrants(t: DuckType, duck: string, group: string, resource: string)
    requires HasRoles(Small(t, duck), (t, duck))
    ensures Granted(Small(t, duck), t, View, group, resource) <==> Parse(duck) == GR(resource, group)
  {
    var c := Small(t, duck);
    assert (t, duck) in c.marks && HasDuckRole(c, (t, duck), View);
  }

  // ----- updates -----

  /** The role after the update of an existing one towards the desired one. */
  function Updated(current: Role, desired: Role): Role {
    current.(labels := desired.labels,
             rules := if desired.selector.Some? then current.rules else desired.rules,
             selector := desired.selector)
  }

  class ClusterRole {
    const name: string
    var labels: map<string, string>
    var rules: set<Rule>
    var selector: Option<map<string, string>>

    constructor (r: Role)
      ensures Value() == r
    {
      name, labels, rules, selector := r.name, r.labels, r.rules, r.selector;
    }

    function Value(): Role
      reads this
    {
      Role(name, labels, rules, selector)
    }
  }

  method HarmonizeImmutableFields(current: ClusterRole, desired: ClusterRole)
    modifies desired`rules
    ensures desired.rules == if desired.selector.Some? then old(current.rules) else old(desired.rules)
    ensures current != desired ==> current.rules == old(current.rules)
  {
    if desired.selector.Some? {
      desired.rules := current.rules;
    }
  }

  method MergeBeforeUpdate(current: ClusterRole, desired: ClusterRole)
    modifies current
    ensures current.Value() == old(Role(current.name, desired.labels, desired.rules, desired.selector))
  {
    current.labels := desired.labels;
    current.rules := desired.rules;
    current.selector := desired.selector;
  }

  method Update(current: ClusterRole, desired: ClusterRole)
    requires current != desired
    modifies current, desired`rules
    ensures current.Value() == Updated(old(current.Value()), old(desired.Value()))
  {
    HarmonizeImmutableFields(current, desired);
    MergeBeforeUpdate(current, desired);
  }

  /** What happens to a role: the reconciler updates it, or the cluster recomputes the rules of an aggregating one. */
  datatype Touch = Reconciles | Aggregates(rules: set<Rule>)

  function Touched(r: Role, desired: Role, touches: seq<Touch>): Role
    decreases |touches|
  {
    if touches == [] then r else
      var s := Touched(r, desired, touches[..|touches| - 1]);
      match touches[|touches| - 1]
      case Reconciles => Updated(s, desired)
      case Aggregates(rules) => if s.selector.Some? then s.(rules := rules) else s
  }

  /** The rules the cluster computed last while the role was aggregating, or the initial ones. */
  function LastAggregated(r: Role, touches: seq<Touch>): set<Rule>
    decreases |touches|
  {
    if touches == [] then r.rules else
      var front := touches[..|touches| - 1];
      match touches[|touches| - 1]
      case Reconciles => LastAggregated(r, front)
      case Aggregates(rules) => if r.selector.Some? || Reconciles in front then rules else LastAggregated(r, front)
  }

  /** However often an aggregating role is updated, its rules stay the cluster's, and the rest is as desired. */
  lemma {:induction false} UpdatesPreserveAggregatedRules(r: Role, duckType: string, a: Access, touches: seq<Touch>)
    ensures var s := Touched(r, TypeRole(duckType, a), touches);
      && s.rules == LastAggregated(r, touches)
      && s.name == r.name
      && (s.selector.Some? <==> r.selector.Some? || Reconciles in touches)
      && (Reconciles in touches ==>
            && s.labels == map["ducks.reconciler.io/type" := duckType]
            && s.selector == Some(map["ducks.reconciler.io/type" := duckType,
                                      "ducks.reconciler.io/role" := if a.View? then "view" else "edit"]))
    decreases |touches|
  {
    if touches != [] {
      var front, last := touches[..|touches| - 1], touches[|touches| - 1];
      UpdatesPreserveAggregatedRules(r, duckType, a, front);
      assert touches == front + [last];
    }
  }

  /** A type's role grants nothing of its own: from its creation to the first aggregation it has no rules. */
  lemma {:induction false} NothingIsGrantedBeforeAggregation(duckType: string, a: Access, touches: seq<Touch>)
    requires forall touch <- touches :: touch == Reconciles
    ensures Touched(TypeRole(duckType, a), TypeRole(duckType, a), touches) ==
      Role("reconcilerio-ducks-" + duckType + (if a.View? then "-view" else "-edit"),
           map["ducks.reconciler.io/type" := duckType],
           {},
           Some(map["ducks.reconciler.io/type" := duckType,
                    "ducks.reconciler.io/role" := if a.View? then "view" else "edit"]))
    decreases |touches|
  {
    if touches == [] {
      assert TypeRoleName(duckType, a) == "reconcilerio-ducks-" + duckType + ("-" + a.Suffix());
      assert "-" + "view" == "-view" && "-" + "edit" == "-edit";
    } else {
      var front, last := touches[..|touches| - 1], touches[|touches| - 1];
      assert last in touches && forall touch <- front :: touch in touches;
      NothingIsGrantedBeforeAggregation(duckType, a, front);
    }
  }

  lemma {:induction false} TouchingKeepsName(r: Role, desired: Role, touches: seq<Touch>)
    ensures Touched(r, desired, touches).name == r.name
    decreases |touches|
  {
    if touches != [] {
      TouchingKeepsName(r, desired, touches[..|touches| - 1]);
    }
  }

  /**
    Whatever a duck's own role held before, and whatever happens besides, one update leaves it with exactly
    the rule, the labels and the lack of a selector it should have.
  */
  lemma {:induction false} UpdatesRestoreDuckRole(r: Role, duckType: string, duck: string, a: Access, touches: seq<Touch>)
    requires Reconciles in touches
    ensures Touched(r, DuckRole(duckType, duck, a), touches) ==
      Role(r.name,
           map["ducks.reconciler.io/type" := duckType, "ducks.reconciler.io/role" := if a.View? then "view" else "edit"],
           {Rule(Parse(duck).group, Parse(duck).resource,
                 if a.View? then {"get", "list", "watch"} else {"get", "list", "watch", "patch"})},
           None)
    decreases |touches|
  {
    var front, last := touches[..|touches| - 1], touches[|touches| - 1];
    assert touches == front + [last];
    if last != Reconciles {
      UpdatesRestoreDuckRole(r, duckType, duck, a, front);
    } else {
      var s := Touched(r, DuckRole(duckType, duck, a), touches);
      TouchingKeepsName(r, DuckRole(duckType, duck, a), front);
      assert s.rules == {DuckRule(duck, a)} && s.labels == Selector(duckType, a);
      assert Verbs(a) == if a.View? then {"get", "list", "watch"} else {"get", "list", "watch", "patch"};
    }
  }
}
