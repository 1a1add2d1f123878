/** Role identifiers and the `array_diff` comparison the controller uses on them. */
module Roles {

  /** A role is compared by its identifier string, e.g. "Neos.Neos:Editor". */
  type RoleId = string

  const Administrator: RoleId := "Neos.Neos:Administrator"

  /** The roles named by a submitted list of identifiers (duplicates collapse). */
  function RoleSet(ids: seq<RoleId>): (s: set<RoleId>)
    ensures forall x :: x in s <==> x in ids
  {
    set i | 0 <= i < |ids| :: ids[i]
  }

  /** Every submitted identifier names one of `roles`. */
  predicate AllIn(ids: seq<RoleId>, roles: set<RoleId>)
  {
    forall i | 0 <= i < |ids| :: ids[i] in roles
  }

  /**
   * PHP's `array_diff($a, $b)`: the entries of `a`, in order, whose string
   * form does not occur in `b`.
   */
  function ArrayDiff(a: seq<RoleId>, b: set<RoleId>): (d: seq<RoleId>)
    ensures |d| <= |a|
    ensures forall x :: x in d <==> x in a && x !in b
    ensures |d| == 0 <==> AllIn(a, b)
    decreases |a|
  {
    if |a| == 0 then []
    else if a[0] in b then ArrayDiff(a[1..], b)
    else [a[0]] + ArrayDiff(a[1..], b)
  }

  /** An empty difference is exactly set inclusion of the named roles. */
  lemma AllInIffSubset(ids: seq<RoleId>, roles: set<RoleId>)
    ensures AllIn(ids, roles) <==> RoleSet(ids) <= roles
  {
  }

  /** `count(array_diff($a, $b)) === 0` on role sets is inclusion. */
  lemma EmptyDifferenceIffSubset(a: set<RoleId>, b: set<RoleId>)
    ensures |a - b| == 0 <==> a <= b
  {
    if !(a <= b) {
      var x :| x in a && x !in b;
      assert x in a - b;
    } else {
      assert a - b == {};
    }
  }
}
