/**
 * The provider list offered on the "new user" form: the authentication
 * manager's provider names, sorted, each mapped to itself.
 */
module ProviderOrder {

  /**
   * `a` sorts no later than `b` under PHP's `sort` on non-numeric strings:
   * byte-wise comparison, a proper prefix sorting first.
   */
  predicate Below(a: string, b: string)
    decreases |a|
  {
    |a| == 0 || (|b| > 0 && (a[0] < b[0] || (a[0] == b[0] && Below(a[1..], b[1..]))))
  }

  lemma {:induction false} BelowReflexive(a: string)
    ensures Below(a, a)
    decreases |a|
  {
    if |a| > 0 {
      BelowReflexive(a[1..]);
    }
  }

  lemma {:induction false} BelowTotal(a: string, b: string)
    ensures Below(a, b) || Below(b, a)
    decreases |a|
  {
    if |a| > 0 && |b| > 0 && a[0] == b[0] {
      BelowTotal(a[1..], b[1..]);
    }
  }

  lemma {:induction false} BelowAntisymmetric(a: string, b: string)
    requires Below(a, b) && Below(b, a)
    ensures a == b
    decreases |a|
  {
    if |a| > 0 {
      BelowAntisymmetric(a[1..], b[1..]);
      assert a == [a[0]] + a[1..];
      assert b == [b[0]] + b[1..];
    }
  }

  lemma {:induction false} BelowTransitive(a: string, b: string, c: string)
    requires Below(a, b) && Below(b, c)
    ensures Below(a, c)
    decreases |a|
  {
    if |a| > 0 && a[0] == b[0] && b[0] == c[0] {
      BelowTransitive(a[1..], b[1..], c[1..]);
    }
  }

  /** Strictly ascending: sorted and free of duplicates. */
  predicate StrictlySorted(xs: seq<string>)
  {
    forall i, j | 0 <= i < j < |xs| :: Below(xs[i], xs[j]) && xs[i] != xs[j]
  }

  /** The first name of a non-empty set in sort order. */
  method Least(s: set<string>) returns (m: string)
    requires s != {}
    ensures m in s
    ensures forall x | x in s :: Below(m, x)
  {
    m :| m in s;
    BelowReflexive(m);
    var rest := s - {m};
    while rest != {}
      invariant m in s && rest <= s
      invariant forall x | x in s - rest :: Below(m, x)
      decreases rest
    {
      var x :| x in rest;
      BelowTotal(m, x);
      if !Below(m, x) {
        forall y | y in s - rest
          ensures Below(x, y)
        {
          BelowTransitive(x, m, y);
        }
        BelowReflexive(x);
        m := x;
      }
      rest := rest - {x};
    }
  }

  /** PHP's `sort` on the provider names: every name once, ascending. */
  method SortNames(names: set<string>) returns (xs: seq<string>)
    ensures StrictlySorted(xs)
    ensures forall x :: x in xs <==> x in names
    ensures |xs| == |names|
  {
    xs := [];
    var rest := names;
    while rest != {}
      invariant rest <= names
      invariant forall x :: x in xs <==> x in names && x !in rest
      invariant StrictlySorted(xs)
      invariant forall i, y | 0 <= i < |xs| && y in rest :: Below(xs[i], y) && xs[i] != y
      invariant |xs| + |rest| == |names|
      decreases rest
    {
      var m := Least(rest);
      xs := xs + [m];
      rest := rest - {m};
    }
  }

  /** The keys of an ordered list of options, in order. */
  function Keys(options: seq<(string, string)>): (ks: seq<string>)
    ensures |ks| == |options|
    ensures forall i | 0 <= i < |options| :: ks[i] == options[i].0
  {
    seq(|options|, i requires 0 <= i < |options| => options[i].0)
  }

  /**
   * `getAuthenticationProviders`: the provider names in sort order, each
   * mapped to itself (`array_combine($names, $names)`).
   */
  method AuthenticationProviders(providerNames: set<string>) returns (options: seq<(string, string)>)
    ensures StrictlySorted(Keys(options))
    ensures forall n :: n in Keys(options) <==> n in providerNames
    ensures |options| == |providerNames|
    ensures forall i | 0 <= i < |options| :: options[i].1 == options[i].0
  {
    var names := SortNames(providerNames);
    options := seq(|names|, i requires 0 <= i < |names| => (names[i], names[i]));
    assert Keys(options) == names;
  }
}
