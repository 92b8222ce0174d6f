/** Sums of integer weights over the keys of a map, in no particular order. */
module Sums {

  ghost function Pick<K(!new)>(s: set<K>): (x: K)
    requires s != {}
    ensures x in s
  {
    var x :| x in s; x
  }

  ghost function Over<K(!new), V>(m: map<K, V>, f: V -> int, s: set<K>): int
    requires s <= m.Keys
  {
    if s == {} then 0
    else
      var x := Pick(s);
      f(m[x]) + Over(m, f, s - {x})
  }

  /** Any key can be taken out first. */
  lemma {:induction false} Split<K(!new), V>(m: map<K, V>, f: V -> int, s: set<K>, y: K)
    requires s <= m.Keys && y in s
    ensures Over(m, f, s) == f(m[y]) + Over(m, f, s - {y})
    decreases s
  {
    var x := Pick(s);
    if x != y {
      Split(m, f, s - {x}, y);
      Split(m, f, s - {y}, x);
      assert s - {x} - {y} == s - {y} - {x};
    }
  }

  lemma {:induction false} Agrees<K(!new), V>(m: map<K, V>, n: map<K, V>, f: V -> int, s: set<K>)
    requires s <= m.Keys && s <= n.Keys && forall x :: x in s ==> m[x] == n[x]
    ensures Over(m, f, s) == Over(n, f, s)
    decreases s
  {
    if s != {} { Agrees(m, n, f, s - {Pick(s)}); }
  }

  lemma {:induction false} Union<K(!new), V>(m: map<K, V>, f: V -> int, s: set<K>, t: set<K>)
    requires s + t <= m.Keys && s !! t
    ensures Over(m, f, s + t) == Over(m, f, s) + Over(m, f, t)
    decreases s
  {
    if s == {} {
      assert s + t == t;
    } else {
      var x := Pick(s);
      Split(m, f, s + t, x);
      assert s + t - {x} == (s - {x}) + t;
      Union(m, f, s - {x}, t);
    }
  }

  lemma {:induction false} NonNegative<K(!new), V>(m: map<K, V>, f: V -> int, s: set<K>)
    requires s <= m.Keys && forall k :: k in s ==> f(m[k]) >= 0
    ensures Over(m, f, s) >= 0
    decreases s
  {
    if s != {} { NonNegative(m, f, s - {Pick(s)}); }
  }
}
