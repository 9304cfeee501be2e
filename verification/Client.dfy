/** The duck client: one query fanned out over every ready duck of a type. */
module Client {
  import opened Api

  datatype Error = UnknownDuckType | DuckTypeNotReady | UnknownDuck | CallFails

  datatype Result<+T> = Ok(value: T) | Err(error: Error)

  /** Reading the duck type itself. */
  datatype TypeRead = Missing | ReadFails | NotReady | Ready

  /** What the client sees of a duck type: the type, and the list of its ducks. */
  datatype View = View(duckType: TypeRead, ducks: Result<seq<Duck>>)

  function Not<T>(p: T -> bool): T -> bool {
    x => !p(x)
  }

  function Filter<T>(p: T -> bool, xs: seq<T>): seq<T> {
    if xs == [] then [] else
      Filter(p, xs[..|xs| - 1]) + if p(xs[|xs| - 1]) then [xs[|xs| - 1]] else []
  }

  lemma {:induction false} FilterMembers<T>(p: T -> bool, xs: seq<T>, x: T)
    ensures x in Filter(p, xs) <==> x in xs && p(x)
    decreases |xs|
  {
    if xs != [] {
      FilterMembers(p, xs[..|xs| - 1], x);
      assert xs == xs[..|xs| - 1] + [xs[|xs| - 1]];
    }
  }

  lemma {:induction false} FilterConcat<T>(p: T -> bool, xs: seq<T>, ys: seq<T>)
    ensures Filter(p, xs + ys) == Filter(p, xs) + Filter(p, ys)
    decreases |ys|
  {
    if ys == [] {
      assert xs + ys == xs;
    } else {
      var k := |ys| - 1;
      assert (xs + ys)[..|xs + ys| - 1] == xs + ys[..k];
      FilterConcat(p, xs, ys[..k]);
    }
  }

  /** The duck serves the requested kind, named directly or as its list kind; the empty kind asks for all. */
  predicate Answers(gk: GroupKind, d: Duck) {
    gk.Empty() || (gk.group == d.spec.group && (gk.kind == d.spec.kind || gk.kind == d.spec.kind + "List"))
  }

  function Wanted(gk: GroupKind): Duck -> bool {
    (d: Duck) => d.Ready() && Answers(gk, d)
  }

  /** The ducks a request is about. */
  function Ducks(v: View, gk: GroupKind): Result<seq<Duck>> {
    match v.duckType
    case Missing => Err(UnknownDuckType)
    case ReadFails => Err(CallFails)
    case NotReady => Err(DuckTypeNotReady)
    case Ready =>
      if v.ducks.Err? then Err(CallFails) else
        var ds := Filter(Wanted(gk), v.ducks.value);
        if !gk.Empty() && ds == [] then Err(UnknownDuck) else Ok(ds)
  }

  method SelectDucks(v: View, gk: GroupKind) returns (r: Result<seq<Duck>>)
    ensures r == Ducks(v, gk)
  {
    match v.duckType
    case Missing => return Err(UnknownDuckType);
    case ReadFails => return Err(CallFails);
    case NotReady => return Err(DuckTypeNotReady);
    case Ready =>
    if v.ducks.Err? {
      return Err(CallFails);
    }
    var items := v.ducks.value;
    var ducks := [];
    for i := 0 to |items|
      invariant ducks == Filter(Wanted(gk), items[..i])
    {
      assert items[..i + 1][..i] == items[..i];
      var duck := items[i];
      if !duck.Ready() {
        continue;
      }
      if gk.Empty() {
        ducks := ducks + [duck];
      } else if gk.group == duck.spec.group && gk.kind == duck.spec.kind {
        ducks := ducks + [duck];
      } else if gk.group == duck.spec.group && gk.kind == duck.spec.kind + "List" {
        ducks := ducks + [duck];
      }
    }
    assert items[..|items|] == items;
    if !gk.Empty() && |ducks| == 0 {
      return Err(UnknownDuck);
    }
    r := Ok(ducks);
  }

  /** The request names the kind of the duck, the list of that kind, or no kind at all. */
  predicate Asks(gk: GroupKind, spec: DuckSpec) {
    gk == GK("", "") || gk == GK(spec.group, spec.kind) || gk == GK(spec.group, spec.kind + "List")
  }

  /** Which ducks a request gets, and which error: the type decides first, then its list, then the kind. */
  lemma SelectionIsExact(v: View, gk: GroupKind, d: Duck)
    ensures Ducks(v, gk) == Err(UnknownDuckType) <==> v.duckType == Missing
    ensures Ducks(v, gk) == Err(DuckTypeNotReady) <==> v.duckType == NotReady
    ensures Ducks(v, gk) == Err(CallFails) <==> v.duckType == ReadFails || (v.duckType == TypeRead.Ready && v.ducks.Err?)
    ensures Ducks(v, gk) == Err(UnknownDuck) <==>
      && v.duckType == TypeRead.Ready && v.ducks.Ok? && gk != GK("", "")
      && forall e <- v.ducks.value :: !(e.rbac == True && e.available == True && Asks(gk, e.spec))
    ensures Ducks(v, gk).Ok? ==>
      (d in Ducks(v, gk).value <==> d in v.ducks.value && d.rbac == True && d.available == True && Asks(gk, d.spec))
  {
    if v.ducks.Ok? {
      var ds := Filter(Wanted(gk), v.ducks.value);
      forall e: Duck ensures e in ds <==> e in v.ducks.value && e.rbac == True && e.available == True && Asks(gk, e.spec) {
        FilterMembers(Wanted(gk), v.ducks.value, e);
      }
      if ds != [] {
        assert ds[0] in ds;
      }
    }
  }

  /** The one duck a request is about. */
  function TheDuck(v: View, gk: GroupKind): Result<Duck> {
    match Ducks(v, gk)
    case Err(e) => Err(e)
    case Ok(ds) => if |ds| != 1 then Err(UnknownDuck) else Ok(ds[0])
  }

  /** A request that selects other than one duck is about an unknown duck; any earlier error comes through. */
  lemma TheDuckIsExact(v: View, gk: GroupKind)
    ensures TheDuck(v, gk).Ok? <==> Ducks(v, gk).Ok? && exists d: Duck :: Ducks(v, gk).value == [d]
    ensures TheDuck(v, gk).Ok? ==> Ducks(v, gk).value == [TheDuck(v, gk).value]
    ensures TheDuck(v, gk).Err? ==>
      TheDuck(v, gk).error == if Ducks(v, gk).Err? then Ducks(v, gk).error else UnknownDuck
  {
    if Ducks(v, gk).Ok? && |Ducks(v, gk).value| == 1 {
      assert Ducks(v, gk).value == [Ducks(v, gk).value[0]];
    }
  }

  /** An object or list the caller passes in, for its type metadata. */
  class TypedObject {
    var gvk: GroupVersionKind

    constructor (gvk: GroupVersionKind)
      ensures this.gvk == gvk
    {
      this.gvk := gvk;
    }

    method CopyAs(gvk: GroupVersionKind) returns (copy: TypedObject)
      ensures fresh(copy) && copy.gvk == gvk
    {
      copy := new TypedObject(this.gvk);
      copy.gvk := gvk;
    }

    /** On success only the version changes, to the duck's; on failure nothing does. */
    method SetDuckVersion(v: View) returns (r: Result<()>)
      modifies this
      ensures var d := TheDuck(v, old(gvk).GroupKind());
        && (r.Ok? <==> d.Ok?) && (r.Err? ==> d.Err? && r.error == d.error)
        && gvk == if d.Ok? then old(gvk).(version := d.value.spec.version) else old(gvk)
    {
      var ducks := SelectDucks(v, gvk.GroupKind());
      match ducks
      case Err(e) =>
        r := Err(e);
      case Ok(ds) =>
        if |ds| != 1 {
          return Err(UnknownDuck);
        }
        gvk := gvk.(version := ds[0].spec.version);
        r := Ok(());
    }

    /** Reads one object at the duck's version; the lookup is asked only for a kind that resolves. */
    method Get(v: View, get: GroupVersionKind -> Result<Item>) returns (r: Result<Item>)
      modifies this
      ensures var d := TheDuck(v, old(gvk).GroupKind());
        r == if d.Ok? then get(old(gvk).(version := d.value.spec.version)) else Err(d.error)
    {
      var versioned := SetDuckVersion(v);
      r := if versioned.Err? then Err(versioned.error) else get(gvk);
    }

    /** The same answer computed on a copy: the caller's object stays as it was. */
    method GroupVersionKindFor(v: View) returns (r: Result<GroupVersionKind>)
      ensures var d := TheDuck(v, gvk.GroupKind());
        r == if d.Ok? then Ok(gvk.(version := d.value.spec.version)) else Err(d.error)
    {
      var copy := new TypedObject(gvk);
      var done := copy.SetDuckVersion(v);
      r := if done.Ok? then Ok(copy.gvk) else Err(done.error);
    }
  }

  // ----- resolution -----

  /** Within the group, ready ducks have distinct kinds. */
  ghost predicate DistinctKinds(ds: seq<Duck>, group: string) {
    forall i, j | 0 <= i < |ds| && 0 <= j < |ds| && ds[i].Ready() && ds[j].Ready()
      && ds[i].spec.group == group && ds[j].spec.group == group && ds[i].spec.kind == ds[j].spec.kind :: i == j
  }

  predicate Named(gk: GroupKind, d: Duck) {
    d.Ready() && d.spec.group == gk.group && d.spec.kind == gk.kind
  }

  predicate NamedAsList(gk: GroupKind, d: Duck) {
    d.Ready() && d.spec.group == gk.group && d.spec.kind + "List" == gk.kind
  }

  lemma LastIsTheOnlyOne(ds: seq<Duck>, gk: GroupKind)
    requires DistinctKinds(ds, gk.group) && ds != []
    ensures var front, last := ds[..|ds| - 1], ds[|ds| - 1];
      && DistinctKinds(front, gk.group)
      && !(Named(gk, last) && AnyNamed(front, gk))
      && !(NamedAsList(gk, last) && AnyNamedAsList(front, gk))
  {
    var front, last := ds[..|ds| - 1], ds[|ds| - 1];
    forall d <- front ensures !(Named(gk, last) && Named(gk, d)) && !(NamedAsList(gk, last) && NamedAsList(gk, d)) {
      var i :| 0 <= i < |front| && front[i] == d;
      assert ds[i] == d;
      ListKindDeterminesKind(d.spec.kind, last.spec.kind);
    }
  }

  predicate AnyNamed(ds: seq<Duck>, gk: GroupKind) {
    exists d <- ds :: Named(gk, d)
  }

  predicate AnyNamedAsList(ds: seq<Duck>, gk: GroupKind) {
    exists d <- ds :: NamedAsList(gk, d)
  }

  lemma AnyStep(front: seq<Duck>, last: Duck, gk: GroupKind)
    ensures AnyNamed(front + [last], gk) <==> AnyNamed(front, gk) || Named(gk, last)
    ensures AnyNamedAsList(front + [last], gk) <==> AnyNamedAsList(front, gk) || NamedAsList(gk, last)
  {
  }

  lemma WantedIsNamed(gk: GroupKind, d: Duck)
    requires !gk.Empty()
    ensures Wanted(gk)(d) <==> Named(gk, d) || NamedAsList(gk, d)
    ensures !(Named(gk, d) && NamedAsList(gk, d))
  {
  }

  /** How many ducks are selected: one for the kind itself, one for the kind it is the list of. */
  lemma {:induction false} SelectedCount(ds: seq<Duck>, gk: GroupKind)
    requires DistinctKinds(ds, gk.group) && !gk.Empty()
    ensures |Filter(Wanted(gk), ds)| == (if AnyNamed(ds, gk) then 1 else 0) + (if AnyNamedAsList(ds, gk) then 1 else 0)
    decreases |ds|
  {
    if ds != [] {
      var front, last := ds[..|ds| - 1], ds[|ds| - 1];
      assert ds == front + [last];
      LastIsTheOnlyOne(ds, gk);
      SelectedCount(front, gk);
      AnyStep(front, last, gk);
      WantedIsNamed(gk, last);
    }
  }

  /**
    Where ready ducks of the group have distinct kinds, a request resolves exactly when a ready duck has that kind or a
    ready duck has it as list kind, but not both.
  */
  lemma ResolvesUniquely(v: View, gk: GroupKind)
    requires v.duckType == TypeRead.Ready && v.ducks.Ok? && DistinctKinds(v.ducks.value, gk.group) && !gk.Empty()
    ensures TheDuck(v, gk).Ok? <==>
      AnyNamed(v.ducks.value, gk) != AnyNamedAsList(v.ducks.value, gk)
    ensures TheDuck(v, gk).Ok? ==>
      TheDuck(v, gk).value in v.ducks.value && (Named(gk, TheDuck(v, gk).value) || NamedAsList(gk, TheDuck(v, gk).value))
  {
    SelectedCount(v.ducks.value, gk);
    var ds := Filter(Wanted(gk), v.ducks.value);
    if |ds| == 1 {
      FilterMembers(Wanted(gk), v.ducks.value, ds[0]);
      WantedIsNamed(gk, ds[0]);
    }
  }

  // ----- listing -----

  datatype Item = Item(group: string, kind: string, name: string)

  /** Listing one list kind with the caller's options. */
  type Reader = GroupVersionKind -> Result<seq<Item>>

  /** A list holds objects of the kind it is the list of. */
  ghost predicate Faithful(read: Reader) {
    forall spec: DuckSpec, i | read(spec.ListKind()).Ok? && 0 <= i < |read(spec.ListKind()).value| ::
      read(spec.ListKind()).value[i].group == spec.group && read(spec.ListKind()).value[i].kind == spec.kind
  }

  /** What the list kind of the duck holds, at the duck's version. */
  function ReadOf(d: Duck, read: Reader): Result<seq<Item>> {
    read(GVK(d.spec.group, d.spec.version, d.spec.kind + "List"))
  }

  /** The aggregate over the ducks in order; the first failing read fails it. */
  function ListOver(ds: seq<Duck>, read: Reader): Result<seq<Item>>
    decreases |ds|
  {
    if ds == [] then Ok([]) else
      match ListOver(ds[..|ds| - 1], read)
      case Err(e) => Err(e)
      case Ok(items) =>
        match read(ds[|ds| - 1].spec.ListKind())
        case Err(e) => Err(e)
        case Ok(more) => Ok(items + more)
  }

  /** What List answers for a kind. */
  function Listed(v: View, gk: GroupKind, read: Reader): Result<seq<Item>> {
    match Ducks(v, gk)
    case Err(e) => Err(e)
    case Ok(ds) => ListOver(ds, read)
  }

  method List(v: View, list: TypedObject, read: Reader) returns (r: Result<seq<Item>>)
    ensures r == Listed(v, list.gvk.GroupKind(), read)
  {
    var ducks := SelectDucks(v, list.gvk.GroupKind());
    match ducks
    case Err(e) =>
      return Err(e);
    case Ok(ds) =>
      var items := [];
      for i := 0 to |ds|
        invariant ListOver(ds[..i], read) == Ok(items)
      {
        assert ds[..i + 1][..i] == ds[..i];
        var listed := read(ds[i].spec.ListKind());
        if listed.Err? {
          FailedReadFails(ds, read, i);
          return Err(listed.error);
        }
        items := items + listed.value;
      }
      assert ds[..|ds|] == ds;
      r := Ok(items);
  }

  lemma {:induction false} FailedReadFails(ds: seq<Duck>, read: Reader, i: nat)
    requires i < |ds| && ListOver(ds[..i], read).Ok? && read(ds[i].spec.ListKind()).Err?
    ensures ListOver(ds, read) == Err(read(ds[i].spec.ListKind()).error)
    decreases |ds|
  {
    if i == |ds| - 1 {
    } else {
      assert ds[..|ds| - 1][..i] == ds[..i];
      FailedReadFails(ds[..|ds| - 1], read, i);
    }
  }

  /** How many objects the first n reads hold together. */
  function Offset(ds: seq<Duck>, read: Reader, n: nat): nat
    requires n <= |ds|
  {
    if n == 0 then 0 else Offset(ds, read, n - 1) + Size(ReadOf(ds[n - 1], read))
  }

  function Size(r: Result<seq<Item>>): nat {
    if r.Ok? then |r.value| else 0
  }

  /** The i-th read stands at its place in the answer. */
  predicate HoldsRead(ds: seq<Duck>, read: Reader, items: seq<Item>, i: nat)
    requires i < |ds|
  {
    Stands(items, Offset(ds, read, i), Offset(ds, read, i + 1), ReadOf(ds[i], read))
  }

  predicate Stands(items: seq<Item>, from: nat, to: nat, r: Result<seq<Item>>) {
    from <= to <= |items| && r == Ok(items[from..to])
  }

  lemma StandsLast(items: seq<Item>, more: seq<Item>)
    ensures Stands(items + more, |items|, |items| + |more|, Ok(more))
  {
    assert (items + more)[|items|..|items| + |more|] == more;
  }

  lemma StandsStill(items: seq<Item>, more: seq<Item>, from: nat, to: nat, r: Result<seq<Item>>)
    requires Stands(items, from, to, r)
    ensures Stands(items + more, from, to, r)
  {
    assert (items + more)[from..to] == items[from..to];
  }

  lemma {:induction false} FirstReadsStand(ds: seq<Duck>, read: Reader, n: nat)
    requires n <= |ds| && ListOver(ds[..n], read).Ok?
    ensures |ListOver(ds[..n], read).value| == Offset(ds, read, n)
    ensures forall i | 0 <= i < n :: HoldsRead(ds, read, ListOver(ds[..n], read).value, i)
  {
    if n > 0 {
      var d := ds[n - 1];
      assert ds[..n][..n - 1] == ds[..n - 1] && ds[..n][n - 1] == d;
      FirstReadsStand(ds, read, n - 1);
      var items, more := ListOver(ds[..n - 1], read).value, ReadOf(d, read).value;
      assert ListOver(ds[..n], read) == Ok(items + more);
      StandsLast(items, more);
      forall i | 0 <= i < n - 1 ensures HoldsRead(ds, read, items + more, i) {
        assert HoldsRead(ds, read, items, i);
        StandsStill(items, more, Offset(ds, read, i), Offset(ds, read, i + 1), ReadOf(ds[i], read));
      }
    }
  }

  /** A successful list is the reads of the ducks one after the other, complete and in order. */
  lemma ListHoldsEveryRead(ds: seq<Duck>, read: Reader)
    requires ListOver(ds, read).Ok?
    ensures |ListOver(ds, read).value| == Offset(ds, read, |ds|)
    ensures forall i | 0 <= i < |ds| :: HoldsRead(ds, read, ListOver(ds, read).value, i)
  {
    assert ds[..|ds|] == ds;
    FirstReadsStand(ds, read, |ds|);
  }

  /** A list fails exactly when a read fails, with the error of the first one that does. */
  lemma {:induction false} ListFailsWithFirstRead(ds: seq<Duck>, read: Reader)
    ensures ListOver(ds, read).Ok? <==> forall d <- ds :: ReadOf(d, read).Ok?
    ensures ListOver(ds, read).Err? ==> exists i: nat :: FirstFailing(ds, read, i)
    ensures forall i: nat | FirstFailing(ds, read, i) :: ListOver(ds, read) == Err(ReadOf(ds[i], read).error)
    decreases |ds|
  {
    if ds != [] {
      var front, d := ds[..|ds| - 1], ds[|ds| - 1];
      assert ds == front + [d];
      ListFailsWithFirstRead(front, read);
      if ListOver(front, read).Err? {
        var i: nat :| FirstFailing(front, read, i);
        assert FirstFailing(ds, read, i);
        assert ds[i] in ds;
      } else {
        assert forall j | 0 <= j < |front| :: front[j] in front && ds[j] == front[j];
        assert ReadOf(d, read).Err? ==> FirstFailing(ds, read, |front|);
      }
      forall i: nat | FirstFailing(ds, read, i) ensures ListOver(ds, read) == Err(ReadOf(ds[i], read).error) {
        if i < |front| {
          assert FirstFailing(front, read, i);
        } else {
          assert forall j | 0 <= j < |front| :: ds[j] == front[j];
        }
      }
    }
  }

  predicate FirstFailing(ds: seq<Duck>, read: Reader, i: nat) {
    i < |ds| && ReadOf(ds[i], read).Err? && forall j | 0 <= j < i :: ReadOf(ds[j], read).Ok?
  }

  lemma {:induction false} ListMembers(ds: seq<Duck>, read: Reader, x: Item)
    requires ListOver(ds, read).Ok?
    ensures x in ListOver(ds, read).value <==> exists d <- ds :: ReadOf(d, read).Ok? && x in ReadOf(d, read).value
    decreases |ds|
  {
    if ds != [] {
      var front, last := ds[..|ds| - 1], ds[|ds| - 1];
      assert ds == front + [last];
      ListMembers(front, read, x);
      var items, more := ListOver(front, read).value, ReadOf(last, read).value;
      assert ListOver(ds, read).value == items + more;
      if x in more {
        assert last in ds;
      }
      if d :| d in ds && ReadOf(d, read).Ok? && x in ReadOf(d, read).value {
        assert d in front || d == last;
      }
    }
  }

  /** The object is of the requested kind, named directly or as its list kind. */
  predicate Fits(gk: GroupKind, x: Item) {
    gk.group == x.group && (gk.kind == x.kind || gk.kind == x.kind + "List")
  }

  function Fitting(gk: GroupKind): Item -> bool {
    (x: Item) => Fits(gk, x)
  }

  lemma {:induction false} AllOrNoneFit(gk: GroupKind, d: Duck, items: seq<Item>)
    requires !gk.Empty() && forall i | 0 <= i < |items| :: items[i].group == d.spec.group && items[i].kind == d.spec.kind
    ensures Filter(Fitting(gk), items) == if Answers(gk, d) then items else []
    decreases |items|
  {
    if items != [] {
      AllOrNoneFit(gk, d, items[..|items| - 1]);
      assert items == items[..|items| - 1] + [items[|items| - 1]];
    }
  }

  lemma {:induction false} ListOverSelectedIsFiltered(all: seq<Duck>, gk: GroupKind, read: Reader)
    requires Faithful(read) && !gk.Empty() && ListOver(Filter(Wanted(GK("", "")), all), read).Ok?
    ensures ListOver(Filter(Wanted(gk), all), read) ==
      Ok(Filter(Fitting(gk), ListOver(Filter(Wanted(GK("", "")), all), read).value))
    decreases |all|
  {
    if all != [] {
      var front, d := all[..|all| - 1], all[|all| - 1];
      var ready, few := Filter(Wanted(GK("", "")), front), Filter(Wanted(gk), front);
      if d.Ready() {
        assert (ready + [d])[..|ready|] == ready;
        ListOverSelectedIsFiltered(front, gk, read);
        var more := read(d.spec.ListKind()).value;
        AllOrNoneFit(gk, d, more);
        FilterConcat(Fitting(gk), ListOver(ready, read).value, more);
        if Answers(gk, d) {
          assert (few + [d])[..|few|] == few;
        } else {
          assert few + [] == few;
          var kept := Filter(Fitting(gk), ListOver(ready, read).value);
          assert kept + [] == kept;
        }
      } else {
        assert ready + [] == ready && few + [] == few;
        ListOverSelectedIsFiltered(front, gk, read);
      }
    }
  }

  /**
    Listing a kind is listing everything and keeping, in order, the objects of that kind; when no ready
    duck has the kind the answer is ErrUnknownDuck.
  */
  lemma ListByKindIsFilteredListAll(v: View, gk: GroupKind, read: Reader)
    requires Faithful(read) && !gk.Empty() && Listed(v, GK("", ""), read).Ok?
    ensures Listed(v, gk, read) ==
      if exists d <- v.ducks.value :: d.Ready() && Answers(gk, d)
      then Ok(Filter(Fitting(gk), Listed(v, GK("", ""), read).value))
      else Err(UnknownDuck)
  {
    ListOverSelectedIsFiltered(v.ducks.value, gk, read);
    var ds := Filter(Wanted(gk), v.ducks.value);
    if d :| d in v.ducks.value && d.Ready() && Answers(gk, d) {
      FilterMembers(Wanted(gk), v.ducks.value, d);
    }
    if ds != [] {
      FilterMembers(Wanted(gk), v.ducks.value, ds[0]);
    }
  }

  // ----- deleting -----

  type Objects = map<GroupKind, seq<Item>>

  /** Deleting the selected objects of one kind. */
  function WithoutKind(objects: Objects, k: GroupKind, selected: Item -> bool): Objects {
    if k in objects then objects[k := Filter(Not(selected), objects[k])] else objects
  }

  /** Some duck of ds is of the kind. */
  predicate Covers(ds: seq<Duck>, k: GroupKind) {
    exists d <- ds :: d.spec.group == k.group && d.spec.kind == k.kind
  }

  /** Deleting the selected objects of every duck in ds. */
  function Purged(objects: Objects, ds: seq<Duck>, selected: Item -> bool): Objects {
    map k <- objects :: if Covers(ds, k) then Filter(Not(selected), objects[k]) else objects[k]
  }

  class Store {
    var objects: Objects

    constructor (objects: Objects)
      ensures this.objects == objects
    {
      this.objects := objects;
    }

    /** The underlying delete of one kind; a failing call deletes nothing. */
    method DeleteKind(gvk: GroupVersionKind, selected: Item -> bool, fails: GroupVersionKind -> bool) returns (ok: bool)
      modifies this
      ensures ok <==> !fails(gvk)
      ensures objects == if ok then WithoutKind(old(objects), gvk.GroupKind(), selected) else old(objects)
    {
      ok := !fails(gvk);
      var k := gvk.GroupKind();
      if ok && k in objects {
        objects := objects[k := Filter(Not(selected), objects[k])];
      }
    }

    /**
      Deletes kind by kind in the order of the ducks and stops at the first failure: exactly the matches of
      the ducks before it are gone.  The caller's object is not in the frame, so it is not changed.
    */
    method DeleteAllOf(v: View, obj: TypedObject, selected: Item -> bool, fails: GroupVersionKind -> bool)
      returns (r: Result<()>, done: nat)
      modifies this
      ensures var ds := Ducks(v, obj.gvk.GroupKind());
        if ds.Err? then
          r == Err(ds.error) && done == 0 && objects == old(objects)
        else
          && done <= |ds.value|
          && objects == Purged(old(objects), ds.value[..done], selected)
          && (r.Ok? <==> done == |ds.value|)
          && (forall i | 0 <= i < done ::
                var spec := ds.value[i].spec; !fails(GVK(spec.group, spec.version, spec.kind)))
          && (r.Err? ==>
                r.error == CallFails
                && var spec := ds.value[done].spec; fails(GVK(spec.group, spec.version, spec.kind)))
    {
      var ducks := SelectDucks(v, obj.gvk.GroupKind());
      match ducks
      case Err(e) =>
        r, done := Err(e), 0;
      case Ok(ds) =>
        done := DeleteEach(ds, obj, selected, fails);
        r := if done == |ds| then Ok(()) else Err(CallFails);
    }

    method DeleteEach(ds: seq<Duck>, obj: TypedObject, selected: Item -> bool, fails: GroupVersionKind -> bool)
      returns (done: nat)
      modifies this
      ensures done <= |ds|
      ensures objects == Purged(old(objects), ds[..done], selected)
      ensures forall i | 0 <= i < done :: !fails(ds[i].spec.GroupVersionKind())
      ensures done < |ds| ==> fails(ds[done].spec.GroupVersionKind())
    {
      done := 0;
      ghost var all := objects;
      PurgingNothing(all, selected);
      while done < |ds|
        invariant done <= |ds|
        invariant objects == Purged(all, ds[..done], selected)
        invariant forall i | 0 <= i < done :: !fails(ds[i].spec.GroupVersionKind())
      {
        var copy := obj.CopyAs(ds[done].spec.GroupVersionKind());
        var ok := DeleteKind(copy.gvk, selected, fails);
        if !ok {
          return;
        }
        PurgingOneMore(all, ds, done, selected);
        done := done + 1;
      }
    }
  }

  lemma PurgingNothing(objects: Objects, selected: Item -> bool)
    ensures Purged(objects, [], selected) == objects
  {
  }

  lemma {:induction false} FilterTwice<T>(p: T -> bool, xs: seq<T>)
    ensures Filter(p, Filter(p, xs)) == Filter(p, xs)
    decreases |xs|
  {
    if xs != [] {
      var front := xs[..|xs| - 1];
      FilterTwice(p, front);
      FilterConcat(p, Filter(p, front), if p(xs[|xs| - 1]) then [xs[|xs| - 1]] else []);
    }
  }

  lemma CoversOneMore(front: seq<Duck>, last: Duck, k: GroupKind)
    ensures Covers(front + [last], k) <==> Covers(front, k) || last.spec.GroupVersionKind().GroupKind() == k
  {
  }

  lemma PurgingOneMore(objects: Objects, ds: seq<Duck>, i: nat, selected: Item -> bool)
    requires i < |ds|
    ensures var k := ds[i].spec.GroupVersionKind().GroupKind();
      Purged(objects, ds[..i + 1], selected) == WithoutKind(Purged(objects, ds[..i], selected), k, selected)
  {
    var k := ds[i].spec.GroupVersionKind().GroupKind();
    assert ds[..i + 1] == ds[..i] + [ds[i]];
    forall j ensures Covers(ds[..i + 1], j) <==> Covers(ds[..i], j) || j == k {
      CoversOneMore(ds[..i], ds[i], j);
    }
    if k in objects {
      FilterTwice(Not(selected), objects[k]);
    }
  }

  /** Reading the store with the caller's options. */
  function Reading(objects: Objects, selected: Item -> bool): Reader {
    (gvk: GroupVersionKind) =>
      var k := GK(gvk.group, ItemKind(gvk.kind));
      Ok(if k in objects then Filter(selected, objects[k]) else [])
  }

  /** Every object is stored under its own kind. */
  predicate WellKinded(objects: Objects) {
    forall k <- objects, i | 0 <= i < |objects[k]| :: objects[k][i].group == k.group && objects[k][i].kind == k.kind
  }

  /** Reading a store whose objects are stored under their own kind is faithful. */
  lemma ReadingIsFaithful(objects: Objects, selected: Item -> bool)
    requires WellKinded(objects)
    ensures Faithful(Reading(objects, selected))
  {
    var read := Reading(objects, selected);
    forall spec: DuckSpec, i | read(spec.ListKind()).Ok? && 0 <= i < |read(spec.ListKind()).value|
      ensures read(spec.ListKind()).value[i].group == spec.group && read(spec.ListKind()).value[i].kind == spec.kind
    {
      ItemKindOfList(spec.kind);
      var k := GK(spec.group, spec.kind);
      FilterMembers(selected, objects[k], read(spec.ListKind()).value[i]);
    }
  }

  /** The object is stored under the kind of the duck. */
  predicate StoredFor(objects: Objects, d: Duck, x: Item) {
    GK(d.spec.group, d.spec.kind) in objects && x in objects[GK(d.spec.group, d.spec.kind)]
  }

  /**
    List returns exactly the selected objects of the ready ducks that answer the request, over any store.
  */
  lemma ListIsExact(v: View, gk: GroupKind, objects: Objects, selected: Item -> bool, x: Item)
    requires Ducks(v, gk).Ok?
    ensures Listed(v, gk, Reading(objects, selected)).Ok?
    ensures x in Listed(v, gk, Reading(objects, selected)).value <==>
      && selected(x)
      && exists d <- v.ducks.value ::
           d.rbac == True && d.available == True && Asks(gk, d.spec) && StoredFor(objects, d, x)
  {
    var ds, read := Ducks(v, gk).value, Reading(objects, selected);
    ListFailsWithFirstRead(ds, read);
    ListMembers(ds, read, x);
    forall d: Duck
      ensures ReadOf(d, read).Ok? && (x in ReadOf(d, read).value <==> selected(x) && StoredFor(objects, d, x))
    {
      StoredIsRead(objects, selected, d, x);
    }
    forall d: Duck
      ensures d in ds <==> d in v.ducks.value && d.rbac == True && d.available == True && Asks(gk, d.spec)
    {
      SelectionIsExact(v, gk, d);
    }
  }

  lemma StoredIsRead(objects: Objects, selected: Item -> bool, d: Duck, x: Item)
    ensures ReadOf(d, Reading(objects, selected)).Ok?
    ensures x in ReadOf(d, Reading(objects, selected)).value <==> selected(x) && StoredFor(objects, d, x)
  {
    ItemKindOfList(d.spec.kind);
    var k := GK(d.spec.group, d.spec.kind);
    if k in objects {
      FilterMembers(selected, objects[k], x);
    }
  }

  lemma {:induction false} NothingSelectedIsLeft<T>(p: T -> bool, xs: seq<T>)
    ensures Filter(p, Filter(Not(p), xs)) == []
    decreases |xs|
  {
    if xs != [] {
      var front := xs[..|xs| - 1];
      NothingSelectedIsLeft(p, front);
      FilterConcat(p, Filter(Not(p), front), if p(xs[|xs| - 1]) then [] else [xs[|xs| - 1]]);
    }
  }

  lemma PurgedReadsEmpty(objects: Objects, ds: seq<Duck>, d: Duck, selected: Item -> bool)
    requires d in ds
    ensures Reading(Purged(objects, ds, selected), selected)(d.spec.ListKind()) == Ok([])
  {
    var k := d.spec.GroupVersionKind().GroupKind();
    ItemKindOfList(d.spec.kind);
    if k in objects {
      NothingSelectedIsLeft(selected, objects[k]);
      assert Purged(objects, ds, selected)[k] == Filter(Not(selected), objects[k]);
    }
  }

  lemma {:induction false} EmptyReadsListEmpty(ds: seq<Duck>, read: Reader)
    requires forall i | 0 <= i < |ds| :: read(ds[i].spec.ListKind()) == Ok([])
    ensures ListOver(ds, read) == Ok([])
    decreases |ds|
  {
    if ds != [] {
      EmptyReadsListEmpty(ds[..|ds| - 1], read);
      assert ListOver(ds, read).value == [];
    }
  }

  /** After a complete DeleteAllOf a List with the same kind and options is empty. */
  lemma DeleteAllThenListIsEmpty(v: View, gk: GroupKind, objects: Objects, selected: Item -> bool)
    requires Ducks(v, gk).Ok?
    ensures Listed(v, gk, Reading(Purged(objects, Ducks(v, gk).value, selected), selected)) == Ok([])
  {
    var ds := Ducks(v, gk).value;
    var read := Reading(Purged(objects, ds, selected), selected);
    forall i | 0 <= i < |ds| ensures read(ds[i].spec.ListKind()) == Ok([]) {
      PurgedReadsEmpty(objects, ds, ds[i], selected);
    }
    EmptyReadsListEmpty(ds, read);
  }

  /** It deletes nothing else: an object is gone exactly when it was selected and of the kind of one of the ducks. */
  lemma DeleteAllDeletesNothingElse(objects: Objects, ds: seq<Duck>, selected: Item -> bool, k: GroupKind, x: Item)
    requires k in objects
    ensures Purged(objects, ds, selected).Keys == objects.Keys
    ensures x in Purged(objects, ds, selected)[k] <==>
      x in objects[k] && !(selected(x) && exists d <- ds :: d.spec.group == k.group && d.spec.kind == k.kind)
    ensures (forall d <- ds :: d.spec.group != k.group || d.spec.kind != k.kind) ==> Purged(objects, ds, selected)[k] == objects[k]
  {
    FilterMembers(Not(selected), objects[k], x);
  }
}
