/** The names of the cluster roles, and when two of them coincide. */
module RoleNames {
  datatype Access = View | Edit {
    function Suffix(): string {
      if View? then "view" else "edit"
    }
  }

  const Prefix := "reconcilerio-ducks-"

  function TypeRoleName(duckType: string, a: Access): string {
    Prefix + duckType + "-" + a.Suffix()
  }

  function DuckRoleName(duckType: string, duck: string, a: Access): string {
    Prefix + duckType + "-" + duck + "-" + a.Suffix()
  }

  predicate HyphenFree(s: string) {
    '-' !in s
  }

  /** The part between prefix and suffix, and the suffix, are determined by the name. */
  lemma NameDeterminesParts(x: string, a: Access, y: string, b: Access)
    requires TypeRoleName(x, a) == TypeRoleName(y, b)
    ensures x == y && a == b
  {
    var n := TypeRoleName(x, a);
    var k := |n| - 5;
    assert n[k + 1..] == a.Suffix() && n[k + 1..] == b.Suffix();
    assert a.Suffix()[0] == b.Suffix()[0];
    assert n[|Prefix|..k] == x && n[|Prefix|..k] == y;
  }

  lemma DuckRoleIsTypeRoleOfPair(t: string, d: string, a: Access)
    ensures DuckRoleName(t, d, a) == TypeRoleName(t + "-" + d, a)
  {
  }

  /** The second pair is the first with its boundary moved to a later hyphen of the duck's name. */
  ghost predicate BoundaryMoved(t: string, d: string, u: string, e: string) {
    exists m: string :: u == t + "-" + m && d == m + "-" + e
  }

  lemma JoinedPairsAgree(t: string, d: string, u: string, e: string)
    ensures t + "-" + d == u + "-" + e <==> (t == u && d == e) || BoundaryMoved(t, d, u, e) || BoundaryMoved(u, e, t, d)
  {
    if t + "-" + d == u + "-" + e {
      if |t| <= |u| {
        LaterBoundary(t, d, u, e);
      } else {
        LaterBoundary(u, e, t, d);
      }
    }
    if BoundaryMoved(t, d, u, e) {
      MovedJoinsAlike(t, d, u, e);
    }
    if BoundaryMoved(u, e, t, d) {
      MovedJoinsAlike(u, e, t, d);
    }
  }

  lemma LaterBoundary(t: string, d: string, u: string, e: string)
    requires t + "-" + d == u + "-" + e && |t| <= |u|
    ensures (t == u && d == e) || BoundaryMoved(t, d, u, e)
  {
    var n := t + "-" + d;
    assert n[..|t|] == t && n[..|u|] == u && n[|t| + 1..] == d && n[|u| + 1..] == e;
    if |t| < |u| {
      var m := n[|t| + 1..|u|];
      assert n[|t|] == '-' && n[|u|] == '-';
      assert u == t + "-" + m;
      assert d == m + "-" + e;
    }
  }

  lemma MovedJoinsAlike(t: string, d: string, u: string, e: string)
    requires BoundaryMoved(t, d, u, e)
    ensures t + "-" + d == u + "-" + e
  {
  }

  /** Two duck role names coincide exactly for the same role and the same pair, up to a moved hyphen boundary. */
  lemma DuckRoleNamesCoincide(t: string, d: string, a: Access, u: string, e: string, b: Access)
    ensures DuckRoleName(t, d, a) == DuckRoleName(u, e, b) <==>
      a == b && ((t == u && d == e) || BoundaryMoved(t, d, u, e) || BoundaryMoved(u, e, t, d))
  {
    DuckRoleIsTypeRoleOfPair(t, d, a);
    DuckRoleIsTypeRoleOfPair(u, e, b);
    JoinedPairsAgree(t, d, u, e);
    if DuckRoleName(t, d, a) == DuckRoleName(u, e, b) {
      NameDeterminesParts(t + "-" + d, a, u + "-" + e, b);
    }
  }

  /** A duck role takes the name of a type role exactly when that type is called `<type>-<duck>`. */
  lemma TypeAndDuckRoleNamesCoincide(t: string, d: string, a: Access, u: string, b: Access)
    ensures DuckRoleName(t, d, a) == TypeRoleName(u, b) <==> a == b && u == t + "-" + d
  {
    DuckRoleIsTypeRoleOfPair(t, d, a);
    if DuckRoleName(t, d, a) == TypeRoleName(u, b) {
      NameDeterminesParts(t + "-" + d, a, u, b);
    }
  }

  /** Over hyphen-free names the role names are injective, and the two families never meet. */
  lemma HyphenFreeNamesAreInjective(t: string, d: string, a: Access, u: string, e: string, b: Access)
    requires HyphenFree(t) && HyphenFree(u)
    ensures DuckRoleName(t, d, a) == DuckRoleName(u, e, b) <==> t == u && d == e && a == b
    ensures TypeRoleName(t, a) == TypeRoleName(u, b) <==> t == u && a == b
    ensures DuckRoleName(t, d, a) != TypeRoleName(u, b)
  {
    DuckRoleNamesCoincide(t, d, a, u, e, b);
    TypeAndDuckRoleNamesCoincide(t, d, a, u, b);
    if TypeRoleName(t, a) == TypeRoleName(u, b) {
      NameDeterminesParts(t, a, u, b);
    }
    forall m: string ensures u != t + "-" + m && t != u + "-" + m {
      assert '-' in t + "-" + m && '-' in u + "-" + m;
    }
    assert (t + "-" + d)[|t|] == '-';
  }
}
