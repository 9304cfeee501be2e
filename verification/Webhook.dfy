/** Defaulting and validation of DuckTypes. */
module Webhook {
  function Lower(c: char): char {
    if 'A' <= c <= 'Z' then (c as int + 32) as char else c
  }

  function ToLower(s: string): (r: string)
    ensures |r| == |s| && forall i | 0 <= i < |s| :: r[i] == Lower(s[i])
  {
    if s == "" then "" else [Lower(s[0])] + ToLower(s[1..])
  }

  datatype DuckType = DuckType(name: string, group: string, plural: string, singular: string, kind: string, listKind: string)

  datatype Field = Name | Group | Plural | Singular | Kind | ListKind

  datatype FieldError = Required(field: Field) | Invalid(field: Field)

  /** The defaulted type: an empty singular is the lower-cased kind, an empty list kind is `<kind>List`. */
  function Defaulted(t: DuckType): DuckType {
    t.(singular := if t.singular == "" then ToLower(t.kind) else t.singular,
       listKind := if t.listKind == "" then t.kind + "List" else t.listKind)
  }

  /** What admission accepts, before defaulting. */
  predicate Admissible(t: DuckType) {
    && t.name == t.plural + "." + t.group
    && t.group != "" && ToLower(t.group) == t.group
    && t.plural != "" && ToLower(t.plural) == t.plural
    && (t.singular == "" || ToLower(t.singular) == t.singular)
    && t.kind != ""
  }

  /** The error of one required lower-case field. */
  function LowerCaseErrors(field: Field, value: string): seq<FieldError> {
    if value == "" then [Required(field)] else if ToLower(value) != value then [Invalid(field)] else []
  }

  function RequiredErrors(field: Field, value: string): seq<FieldError> {
    if value == "" then [Required(field)] else []
  }

  function NameErrors(t: DuckType): seq<FieldError> {
    if t.name != t.plural + "." + t.group then [Invalid(Name)] else []
  }

  function SpecErrors(t: DuckType): seq<FieldError> {
    LowerCaseErrors(Group, t.group) + LowerCaseErrors(Plural, t.plural) + LowerCaseErrors(Singular, t.singular) +
    RequiredErrors(Kind, t.kind) + RequiredErrors(ListKind, t.listKind)
  }

  function Errors(t: DuckType): seq<FieldError> {
    NameErrors(t) + SpecErrors(t)
  }

  /** After defaulting, validation finds nothing exactly for the admissible types. */
  lemma DefaultedErrorsAreInadmissible(t: DuckType)
    ensures Errors(Defaulted(t)) == [] <==> Admissible(t)
  {
  }

  function Value(t: DuckType, f: Field): string {
    match f
    case Name => t.name
    case Group => t.group
    case Plural => t.plural
    case Singular => t.singular
    case Kind => t.kind
    case ListKind => t.listKind
  }

  predicate HasCapital(s: string) {
    exists c <- s :: 'A' <= c <= 'Z'
  }

  lemma LowerHasNoCapital(c: char)
    ensures Lower(c) == c <==> !('A' <= c <= 'Z')
    ensures !('A' <= Lower(c) <= 'Z')
    ensures 'A' <= c <= 'Z' ==> Lower(c) == c - 'A' + 'a'
  {
  }

  lemma HasCapitalSplits(c: char, rest: string)
    ensures HasCapital([c] + rest) <==> 'A' <= c <= 'Z' || HasCapital(rest)
  {
    var s := [c] + rest;
    if d :| d in s && 'A' <= d <= 'Z' {
      assert d == c || d in rest;
    }
    if d :| d in rest && 'A' <= d <= 'Z' {
      assert d in s;
    }
    assert c in s;
  }

  /** Lower-case means without capitals, and lowering gives that. */
  lemma {:induction false} LowerCaseHasNoCapital(s: string)
    ensures ToLower(s) == s <==> !HasCapital(s)
    ensures !HasCapital(ToLower(s))
  {
    if s != "" {
      var rest := s[1..];
      assert s == [s[0]] + rest;
      LowerHasNoCapital(s[0]);
      LowerCaseHasNoCapital(rest);
      HasCapitalSplits(s[0], rest);
      HasCapitalSplits(Lower(s[0]), ToLower(rest));
      assert ToLower(s) == [Lower(s[0])] + ToLower(rest);
      assert ToLower(s)[0] == Lower(s[0]) && ToLower(s)[1..] == ToLower(rest);
    }
  }

  lemma ErrorIsOfSomeField(t: DuckType, e: FieldError)
    ensures e in Errors(t) <==>
      || e in NameErrors(t) || e in LowerCaseErrors(Group, t.group) || e in LowerCaseErrors(Plural, t.plural)
      || e in LowerCaseErrors(Singular, t.singular) || e in RequiredErrors(Kind, t.kind)
      || e in RequiredErrors(ListKind, t.listKind)
  {
    var s := LowerCaseErrors(Group, t.group) + LowerCaseErrors(Plural, t.plural);
    assert e in s <==> e in LowerCaseErrors(Group, t.group) || e in LowerCaseErrors(Plural, t.plural);
    var q := s + LowerCaseErrors(Singular, t.singular);
    assert e in q <==> e in s || e in LowerCaseErrors(Singular, t.singular);
  }

  lemma LowerCaseErrorsAreExact(f: Field, value: string)
    ensures forall e <- LowerCaseErrors(f, value) :: e.field == f
    ensures Required(f) in LowerCaseErrors(f, value) <==> value == ""
    ensures Invalid(f) in LowerCaseErrors(f, value) <==> HasCapital(value)
  {
    LowerCaseHasNoCapital(value);
  }

  /** Which errors a field gets: missing, or present and wrong. */
  lemma ErrorsAreExact(t: DuckType, f: Field)
    ensures Required(f) in Errors(t) <==> f != Name && Value(t, f) == ""
    ensures Invalid(f) in Errors(t) <==>
      match f
      case Name => t.name != t.plural + "." + t.group
      case Group | Plural | Singular => HasCapital(Value(t, f))
      case Kind | ListKind => false
  {
    ErrorIsOfSomeField(t, Required(f));
    ErrorIsOfSomeField(t, Invalid(f));
    LowerCaseErrorsAreExact(Group, t.group);
    LowerCaseErrorsAreExact(Plural, t.plural);
    LowerCaseErrorsAreExact(Singular, t.singular);
  }

  function Position(f: Field): nat {
    match f
    case Name => 0
    case Group => 1
    case Plural => 2
    case Singular => 3
    case Kind => 4
    case ListKind => 5
  }

  /** In the order of the fields, from one field up to and without another, at most one error for each. */
  predicate Ordered(errs: seq<FieldError>, from: nat, to: nat) {
    && (forall e <- errs :: from <= Position(e.field) < to)
    && forall i, j | 0 <= i < j < |errs| :: Position(errs[i].field) < Position(errs[j].field)
  }

  lemma OrderedConcat(xs: seq<FieldError>, ys: seq<FieldError>, from: nat, mid: nat, to: nat)
    requires from <= mid <= to && Ordered(xs, from, mid) && Ordered(ys, mid, to)
    ensures Ordered(xs + ys, from, to)
  {
    var all := xs + ys;
    forall i, j | 0 <= i < j < |all| ensures Position(all[i].field) < Position(all[j].field) {
      assert i < |xs| ==> all[i] in xs;
      assert j >= |xs| ==> all[j] in ys;
    }
  }

  /** Errors come in the order of the fields, at most one for each. */
  lemma ErrorsAreOrdered(t: DuckType)
    ensures Ordered(Errors(t), 0, 6)
  {
    var group, plural := LowerCaseErrors(Group, t.group), LowerCaseErrors(Plural, t.plural);
    var singular := LowerCaseErrors(Singular, t.singular);
    var kind, listKind := RequiredErrors(Kind, t.kind), RequiredErrors(ListKind, t.listKind);
    OrderedConcat(group, plural, 1, 2, 3);
    OrderedConcat(group + plural, singular, 1, 3, 4);
    OrderedConcat(group + plural + singular, kind, 1, 4, 5);
    OrderedConcat(group + plural + singular + kind, listKind, 1, 5, 6);
    OrderedConcat(NameErrors(t), SpecErrors(t), 0, 1, 6);
  }

  class DuckTypeObject {
    const name: string
    var group: string
    var plural: string
    var singular: string
    var kind: string
    var listKind: string

    constructor (t: DuckType)
      ensures Value() == t
    {
      name, group, plural, singular, kind, listKind := t.name, t.group, t.plural, t.singular, t.kind, t.listKind;
    }

    function Value(): DuckType
      reads this
    {
      DuckType(name, group, plural, singular, kind, listKind)
    }

    method Default()
      modifies this`singular, this`listKind
      ensures Value() == Defaulted(old(Value()))
    {
      if singular == "" {
        singular := ToLower(kind);
      }
      if listKind == "" {
        listKind := kind + "List";
      }
    }

    method Validate() returns (errs: seq<FieldError>)
      ensures errs == Errors(Value())
    {
      errs := [];
      if name != plural + "." + group {
        errs := errs + [Invalid(Name)];
      }
      var specErrs := ValidateSpec();
      errs := errs + specErrs;
    }

    method ValidateSpec() returns (errs: seq<FieldError>)
      ensures errs == SpecErrors(Value())
    {
      errs := [];
      errs := CheckLowerCase(errs, Group, group);
      errs := CheckLowerCase(errs, Plural, plural);
      errs := CheckLowerCase(errs, Singular, singular);
      errs := CheckRequired(errs, Kind, kind);
      errs := CheckRequired(errs, ListKind, listKind);
    }

    static method CheckLowerCase(before: seq<FieldError>, field: Field, value: string) returns (errs: seq<FieldError>)
      ensures errs == before + LowerCaseErrors(field, value)
    {
      errs := before;
      if value == "" {
        errs := errs + [Required(field)];
      } else if ToLower(value) != value {
        errs := errs + [Invalid(field)];
      }
    }

    static method CheckRequired(before: seq<FieldError>, field: Field, value: string) returns (errs: seq<FieldError>)
      ensures errs == before + RequiredErrors(field, value)
    {
      errs := before;
      if value == "" {
        errs := errs + [Required(field)];
      }
    }

    /** Create and update default, then validate: accepted exactly when admissible. */
    method Admit() returns (ok: bool)
      modifies this`singular, this`listKind
      ensures Value() == Defaulted(old(Value()))
      ensures ok <==> Admissible(old(Value()))
    {
      Default();
      var errs := Validate();
      ok := errs == [];
      DefaultedErrorsAreInadmissible(old(Value()));
    }
  }

  /** Defaulting settles: doing it again changes nothing, and an admitted type stays admissible. */
  lemma DefaultingSettles(t: DuckType)
    ensures t.kind != "" ==> Defaulted(Defaulted(t)) == Defaulted(t)
    ensures Admissible(Defaulted(t)) <==> Admissible(t)
    ensures Defaulted(t).listKind == if t.listKind == "" then t.kind + "List" else t.listKind
    ensures t.singular != "" ==> Defaulted(t).singular == t.singular
    ensures t.singular == "" ==>
      && !HasCapital(Defaulted(t).singular) && |Defaulted(t).singular| == |t.kind|
      && forall i | 0 <= i < |t.kind| ::
           Defaulted(t).singular[i] == if 'A' <= t.kind[i] <= 'Z' then t.kind[i] - 'A' + 'a' else t.kind[i]
    ensures forall f: Field | f != Singular && f != ListKind :: Value(Defaulted(t), f) == Value(t, f)
  {
    LowerCaseHasNoCapital(t.kind);
    LowerCaseHasNoCapital(Defaulted(t).singular);
    forall i | 0 <= i < |t.kind|
      ensures Lower(t.kind[i]) == if 'A' <= t.kind[i] <= 'Z' then t.kind[i] - 'A' + 'a' else t.kind[i]
    {
      LowerHasNoCapital(t.kind[i]);
    }
  }
}
