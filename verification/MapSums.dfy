/** Sums over the values of a dictionary, in whatever order they are added up. */
module MapSums {

  function Get(m: map<string, int>, key: string): int {
    if key in m then m[key] else 0
  }

  ghost function Sum(m: map<string, int>): int {
    if m == map[] then 0
    else
      var key :| key in m;
      m[key] + Sum(m - {key})
  }

  /** Any key can be added last. */
  lemma {:induction false} SumWithout(m: map<string, int>, key: string)
    requires key in m
    ensures Sum(m) == m[key] + Sum(m - {key})
    decreases |m|
  {
    var picked :| picked in m && Sum(m) == m[picked] + Sum(m - {picked});
    if picked != key {
      SumWithout(m - {picked}, key);
      SumWithout(m - {key}, picked);
      assert m - {picked} - {key} == m - {key} - {picked};
    }
  }

  lemma SumUpdate(m: map<string, int>, key: string, value: int)
    ensures Sum(m[key := value]) == Sum(m) - Get(m, key) + value
  {
    var m' := m[key := value];
    SumWithout(m', key);
    if key in m {
      SumWithout(m, key);
      assert m' - {key} == m - {key};
    } else {
      assert m' - {key} == m;
    }
  }

  lemma {:induction false} SumNonNegative(m: map<string, int>)
    requires forall key :: key in m ==> m[key] >= 0
    ensures Sum(m) >= 0
    ensures forall key :: key in m ==> m[key] <= Sum(m)
    decreases |m|
  {
    forall key | key in m
      ensures 0 <= m[key] <= Sum(m)
    {
      SumWithout(m, key);
      SumNonNegative(m - {key});
    }
    if m != map[] {
      var key :| key in m;
    }
  }

  lemma {:induction false} SumMonotone(a: map<string, int>, b: map<string, int>)
    requires a.Keys == b.Keys && forall key :: key in a ==> a[key] <= b[key]
    ensures Sum(a) <= Sum(b)
    decreases |a|
  {
    if a == map[] {
      assert b == map[];
    } else {
      var key :| key in a;
      SumWithout(a, key);
      SumWithout(b, key);
      SumMonotone(a - {key}, b - {key});
    }
  }

  function Restrict(m: map<string, int>, keys: set<string>): map<string, int> {
    map key | key in m && key in keys :: m[key]
  }

  /** Adding up a dictionary key by key. */
  lemma SumGrows(m: map<string, int>, done: set<string>, key: string)
    requires key in m && key !in done
    ensures Sum(Restrict(m, done + {key})) == Sum(Restrict(m, done)) + m[key]
  {
    assert Restrict(m, done + {key}) == Restrict(m, done)[key := m[key]];
    SumUpdate(Restrict(m, done), key, m[key]);
  }

  lemma SumStartsAndEnds(m: map<string, int>)
    ensures Sum(Restrict(m, {})) == 0 && Sum(Restrict(m, m.Keys)) == Sum(m)
  {
    assert Restrict(m, {}) == map[] && Restrict(m, m.Keys) == m;
  }
}
