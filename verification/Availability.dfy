/** Resource names in the form `resource.group`, as the library parses and prints them. */
module GroupResources {
  datatype GroupResource = GR(resource: string, group: string) {
    /** `resource.group`, or only the resource for the core group. */
    function Print(): string {
      if group == "" then resource else resource + "." + group
    }
  }

  /** The position of the first dot, or the length when there is none. */
  function FirstDot(s: string): (i: nat)
    ensures i <= |s| && (i < |s| ==> s[i] == '.') && (forall j | 0 <= j < i :: s[j] != '.')
  {
    if s == "" || s[0] == '.' then 0 else 1 + FirstDot(s[1..])
  }

  function Parse(s: string): GroupResource {
    var i := FirstDot(s);
    if i < |s| then GR(s[..i], s[i + 1..]) else GR(s, "")
  }

  lemma ParseSplitsAtFirstDot(r: string, g: string)
    requires '.' !in r
    ensures Parse(r + "." + g) == GR(r, g)
  {
    var s := r + "." + g;
    assert s[|r|] == '.';
    assert forall j | 0 <= j < |r| :: s[j] == r[j] && r[j] in r;
    assert s[..|r|] == r && s[|r| + 1..] == g;
  }

  lemma PrintOfSplit(s: string, i: nat)
    requires i < |s| && s[i] == '.'
    ensures GR(s[..i], s[i + 1..]).Print() == s <==> i + 1 != |s|
  {
  }

  /** Printing undoes parsing unless the first dot ends the name. */
  lemma PrintUndoesParse(s: string)
    ensures Parse(s).Print() == s <==> FirstDot(s) + 1 != |s|
  {
    if FirstDot(s) < |s| {
      PrintOfSplit(s, FirstDot(s));
    }
  }

  /** Parsing undoes printing exactly for dot-free resources. */
  lemma ParseUndoesPrint(gr: GroupResource)
    ensures Parse(gr.Print()) == gr <==> '.' !in gr.resource
  {
    if '.' in gr.resource {
      ParsedResourceHasNoDot(gr.Print());
    } else if gr.group != "" {
      ParseSplitsAtFirstDot(gr.resource, gr.group);
    }
  }

  lemma ParsedResourceHasNoDot(s: string)
    ensures '.' !in Parse(s).resource
  {
  }
}

/** Whether the API a duck names exists, as discovery tells. */
module Availability {
  import opened Options
  import opened Api
  import opened GroupResources

  datatype ApiResource = ApiResource(name: string, kind: string)

  datatype Lookup = Served(resources: seq<ApiResource>) | NotServed | LookupFails

  /** Discovery by group and version. */
  type Discovery = (string, string) -> Lookup

  datatype Condition = Condition(status: ConditionStatus, reason: string)

  /** Entry i is the first one discovery lists for the resource r. */
  predicate FirstFor(resources: seq<ApiResource>, r: string, i: nat) {
    i < |resources| && resources[i].name == r && forall j | 0 <= j < i :: resources[j].name != r
  }

  /** The kind of the first entry for r is k. */
  predicate Serves(resources: seq<ApiResource>, r: string, k: string) {
    exists i: nat | i < |resources| :: FirstFor(resources, r, i) && resources[i].kind == k
  }

  /** The name is `r.g` with a non-empty group g that the spec repeats, and discovery serves r as the spec's kind. */
  predicate Available(name: string, spec: DuckSpec, resources: seq<ApiResource>) {
    var gr := Parse(name);
    && name == gr.resource + "." + gr.group
    && gr.group != ""
    && gr.group == spec.group
    && Serves(resources, gr.resource, spec.kind)
  }

  /** The entry the scan looks for, by its printed name. */
  predicate Hit(name: string, r: ApiResource) {
    name == GR(r.name, Parse(name).group).Print()
  }

  lemma HitMeansSameResource(name: string, r: ApiResource)
    ensures Parse(name).group != "" ==> (Hit(name, r) <==> r.name == Parse(name).resource)
    ensures Parse(name).group == "" ==> (Hit(name, r) <==> r.name == name)
  {
  }

  /**
    The scan of one discovery answer.  Available exactly when the name, the group and the kind of the first
    matching entry agree; NotFound exactly when no entry matches.
  */
  method Scan(name: string, spec: DuckSpec, resources: seq<ApiResource>) returns (c: Condition)
    ensures c.status == True <==> Available(name, spec, resources)
    ensures c.status != Unknown
    ensures c.reason == "NotFound" <==> forall r <- resources :: !Hit(name, r)
    ensures c.reason == "Invalid" <==> c.status == False && exists r <- resources :: Hit(name, r)
    ensures c.reason in {"Available", "Invalid", "NotFound"} && (c.reason == "Available" <==> c.status == True)
  {
    var gr := Parse(name);
    for i := 0 to |resources|
      invariant forall j | 0 <= j < i :: !Hit(name, resources[j])
    {
      var r := resources[i];
      if name == GR(r.name, gr.group).Print() {
        assert Hit(name, r) && r in resources;
        HitDecides(name, spec, resources, i);
        if r.name + "." + spec.group != name {
          return Condition(False, "Invalid");
        }
        if r.kind != spec.kind {
          return Condition(False, "Invalid");
        }
        return Condition(True, "Available");
      }
    }
    NoHitMeansUnavailable(name, spec, resources);
    c := Condition(False, "NotFound");
  }

  lemma HitDecides(name: string, spec: DuckSpec, resources: seq<ApiResource>, i: nat)
    requires i < |resources| && Hit(name, resources[i]) && forall j | 0 <= j < i :: !Hit(name, resources[j])
    ensures Available(name, spec, resources) <==>
      resources[i].name + "." + spec.group == name && resources[i].kind == spec.kind
  {
  }

  lemma NoHitMeansUnavailable(name: string, spec: DuckSpec, resources: seq<ApiResource>)
    requires forall r <- resources :: !Hit(name, r)
    ensures !Available(name, spec, resources)
  {
    forall i: nat | i < |resources| && Parse(name).group != "" ensures resources[i].name != Parse(name).resource {
      HitMeansSameResource(name, resources[i]);
      assert resources[i] in resources;
    }
  }

  /** The duck is available according to discovery of its own group and version. */
  predicate AvailableBy(d: Duck, discovery: Discovery) {
    var answer := discovery(Parse(d.name).group, d.spec.version);
    answer.Served? && Available(d.name, d.spec, answer.resources)
  }

  /** A core-group duck can never become available, whatever its spec and whatever discovery says. */
  lemma CoreGroupIsNeverAvailable(d: Duck, discovery: Discovery)
    requires '.' !in d.name || d.spec.group == ""
    ensures !AvailableBy(d, discovery)
  {
  }

  /** How creating the duck's cluster roles turned out. */
  datatype RolesOutcome = RolesDefined | RolesInvalid | RolesExist | RolesFail

  class DuckResource {
    const name: string
    const spec: DuckSpec
    var rbac: Condition
    var available: Condition

    constructor (name: string, spec: DuckSpec)
      ensures this.name == name && this.spec == spec && Value() == Duck(name, spec, Unknown, Unknown)
    {
      this.name, this.spec := name, spec;
      rbac, available := Condition(Unknown, "Initializing"), Condition(Unknown, "Initializing");
    }

    function Value(): Duck
      reads this
    {
      Duck(name, spec, rbac.status, available.status)
    }

    /** Reflects the roles on the duck; only an unexpected error stops the reconcile. */
    method ReflectRoles(outcome: RolesOutcome) returns (ok: bool)
      modifies this`rbac
      ensures ok <==> outcome != RolesFail
      ensures rbac.status == match outcome
        case RolesDefined => True
        case RolesFail => Unknown
        case _ => False
    {
      match outcome
      case RolesDefined => rbac, ok := Condition(True, "Defined"), true;
      case RolesInvalid => rbac, ok := Condition(False, "Invalid"), true;
      case RolesExist => rbac, ok := Condition(False, "AlreadyExists"), true;
      case RolesFail => rbac, ok := Condition(Unknown, "Unknown"), false;
    }

    /** The ready check: a failed lookup keeps the old condition, every other answer decides it. */
    method Sync(discovery: Discovery) returns (ok: bool)
      modifies this`available
      ensures !ok <==> discovery(Parse(name).group, spec.version).LookupFails?
      ensures !ok ==> available == old(available)
      ensures ok ==> (available.status == True <==> AvailableBy(Value(), discovery))
      ensures ok ==> available.status != Unknown && (available.reason == "Available" <==> available.status == True)
      ensures ok ==> var answer := discovery(Parse(name).group, spec.version);
        && available.reason in {"Available", "Invalid", "NotFound"}
        && (available.reason == "NotFound" <==> answer.NotServed? || forall r <- answer.resources :: !Hit(name, r))
    {
      match discovery(Parse(name).group, spec.version)
      case NotServed =>
        available, ok := Condition(False, "NotFound"), true;
      case LookupFails =>
        ok := false;
      case Served(resources) =>
        available := Scan(name, spec, resources);
        ok := true;
    }

    /** The duck's reconcile: roles first, then the ready check. */
    method Reconcile(outcome: RolesOutcome, discovery: Discovery) returns (ok: bool)
      modifies this
      ensures ok ==> (Value().Ready() <==> outcome == RolesDefined && AvailableBy(Value(), discovery))
      ensures rbac.status == True <==> outcome == RolesDefined
      ensures rbac.status == Unknown <==> outcome == RolesFail
      ensures ok ==> (available.status == True <==> AvailableBy(Value(), discovery)) && available.status != Unknown
      ensures !ok ==> available == old(available)
      ensures ok <==> outcome != RolesFail && !discovery(Parse(name).group, spec.version).LookupFails?
    {
      ok := ReflectRoles(outcome);
      if ok {
        ok := Sync(discovery);
      }
    }
  }

  // ----- unique resolution -----

  /** A resource of its own, not a subresource such as `foos/status`. */
  predicate TopLevel(resource: string) {
    '/' !in resource
  }

  /** Within the group, a kind is served by one top-level resource, whatever the version. */
  ghost predicate OneToOne(discovery: Discovery, g: string) {
    forall v, w, r, q, k |
      && TopLevel(r) && TopLevel(q)
      && discovery(g, v).Served? && Serves(discovery(g, v).resources, r, k)
      && discovery(g, w).Served? && Serves(discovery(g, w).resources, q, k) :: r == q
  }

  /** Available ducks of the same group and kind are the same duck. */
  lemma AvailableKindsAreDistinct(d: Duck, e: Duck, discovery: Discovery)
    requires OneToOne(discovery, d.spec.group) && AvailableBy(d, discovery) && AvailableBy(e, discovery)
    requires TopLevel(d.name) && TopLevel(e.name)
    requires d.spec.group == e.spec.group && d.spec.kind == e.spec.kind
    ensures d.name == e.name
  {
    ParsedResourceIsTopLevel(d.name);
    ParsedResourceIsTopLevel(e.name);
  }

  lemma ParsedResourceIsTopLevel(name: string)
    requires TopLevel(name)
    ensures TopLevel(Parse(name).resource)
  {
    var r := Parse(name).resource;
    assert forall i | 0 <= i < |r| :: r[i] == name[i] && name[i] in name;
  }
}
