/** Finite maps keyed by public key, as the ordered maps (`BTreeMap`) of the
    consensus code use them: iteration in key order and sums of weights. */
module Collections {

  datatype Option<+T> = None | Some(value: T)

  datatype Result<+T, +E> = Ok(value: T) | Err(error: E)

  // ---------------------------------------------------------------- order

  ghost predicate IsMinimum(s: set<nat>, k: nat) {
    k in s && forall j | j in s :: k <= j
  }

  lemma {:induction false} HasMinimum(s: set<nat>)
    requires s != {}
    ensures exists k :: IsMinimum(s, k)
  {
    var x :| x in s;
    var rest := s - {x};
    assert s == rest + {x};
    if rest == {} {
      assert IsMinimum(s, x);
    } else {
      HasMinimum(rest);
      var k :| IsMinimum(rest, k);
      assert IsMinimum(s, if x < k then x else k);
    }
  }

  function MinKey(s: set<nat>): (k: nat)
    requires s != {}
    ensures k in s && forall j | j in s :: k <= j
  {
    HasMinimum(s);
    assert exists k :: k in s && forall j | j in s :: k <= j by {
      var k :| IsMinimum(s, k);
    }
    var k :| k in s && forall j | j in s :: k <= j;
    k
  }

  ghost predicate StrictlySorted(r: seq<nat>) {
    forall i, j | 0 <= i < j < |r| :: r[i] < r[j]
  }

  /** The keys in the order in which a `BTreeMap` visits them. */
  function SortedKeys(s: set<nat>): (r: seq<nat>)
    ensures StrictlySorted(r)
    ensures forall k :: k in r <==> k in s
    ensures |r| == |s|
    decreases s
  {
    if s == {} then [] else
      var k := MinKey(s);
      [k] + SortedKeys(s - {k})
  }

  // ----------------------------------------------------------------- sums

  /** The sum of all the values of `m`. */
  function Total(m: map<nat, nat>): nat
    decreases m.Keys
  {
    if m == map[] then 0 else
      var k := MinKey(m.Keys);
      m[k] + Total(m - {k})
  }

  lemma EmptyTotal()
    ensures Total(map[]) == 0
  {
  }

  lemma {:induction false} TotalRemove(m: map<nat, nat>, k: nat)
    requires k in m
    ensures Total(m) == m[k] + Total(m - {k})
    decreases m.Keys
  {
    var j := MinKey(m.Keys);
    if j != k {
      TotalRemove(m - {j}, k);
      assert (m - {k}).Keys == m.Keys - {k};
      assert j in (m - {k}).Keys;
      assert m - {j} - {k} == m - {k} - {j};
    }
  }

  lemma TotalInsert(m: map<nat, nat>, k: nat, v: nat)
    requires k !in m
    ensures Total(m[k := v]) == Total(m) + v
  {
    TotalRemove(m[k := v], k);
    assert m[k := v] - {k} == m;
  }

  lemma TotalUpdate(m: map<nat, nat>, k: nat, v: nat)
    requires k in m
    ensures Total(m[k := v]) == Total(m) - m[k] + v
  {
    TotalRemove(m, k);
    TotalRemove(m[k := v], k);
    assert m[k := v] - {k} == m - {k};
  }

  function ValueAt(m: map<nat, nat>, k: nat): nat {
    if k in m then m[k] else 0
  }

  /** Two maps that differ at one key differ in their sums by that key's values. */
  lemma TotalChange(m: map<nat, nat>, m': map<nat, nat>, k: nat)
    requires m - {k} == m' - {k}
    ensures Total(m') + ValueAt(m, k) == Total(m) + ValueAt(m', k)
  {
    if k in m { TotalRemove(m, k); } else { assert m - {k} == m; }
    if k in m' { TotalRemove(m', k); } else { assert m' - {k} == m'; }
  }

  /** `a` holds some of the entries of `m`, with the same values. */
  ghost predicate Submap(a: map<nat, nat>, m: map<nat, nat>) {
    forall k | k in a :: k in m && a[k] == m[k]
  }

  function Restrict(m: map<nat, nat>, s: set<nat>): (r: map<nat, nat>) {
    map k | k in m && k in s :: m[k]
  }

  lemma {:induction false} SubmapTotal(a: map<nat, nat>, m: map<nat, nat>)
    requires Submap(a, m)
    ensures Total(a) <= Total(m)
    decreases a.Keys
  {
    if a != map[] {
      var k :| k in a;
      TotalRemove(a, k);
      TotalRemove(m, k);
      SubmapTotal(a - {k}, m - {k});
    }
  }

  /** Inclusion and exclusion: two parts of `m` that together weigh more than
      `m` share at least the difference. */
  lemma {:induction false} Overlap(a: map<nat, nat>, b: map<nat, nat>, m: map<nat, nat>)
    requires Submap(a, m) && Submap(b, m)
    ensures Total(a) + Total(b) <= Total(m) + Total(Restrict(m, a.Keys * b.Keys))
    decreases m.Keys
  {
    if m == map[] {
      assert a == map[] && b == map[];
    } else {
      var k :| k in m;
      var common := Restrict(m, a.Keys * b.Keys);
      var a', b', m' := a - {k}, b - {k}, m - {k};
      Overlap(a', b', m');
      TotalRemove(m, k);
      assert Restrict(m', a'.Keys * b'.Keys) == common - {k};
      if k in a { TotalRemove(a, k); } else { assert a' == a; }
      if k in b { TotalRemove(b, k); } else { assert b' == b; }
      if k in common { TotalRemove(common, k); } else { assert common - {k} == common; }
    }
  }

  /** Positive values add up to at least the number of keys. */
  lemma {:induction false} TotalAtLeastSize(m: map<nat, nat>)
    requires forall k | k in m :: m[k] >= 1
    ensures Total(m) >= |m|
    decreases m.Keys
  {
    if m != map[] {
      var k := MinKey(m.Keys);
      TotalAtLeastSize(m - {k});
      assert (m - {k}).Keys == m.Keys - {k};
      assert |m| == |m.Keys| && |m - {k}| == |(m - {k}).Keys|;
    }
  }

  // ---------------------------------------------------------- prefix sums

  /** The sum of the first `i` values in key order. */
  function Prefix(m: map<nat, nat>, order: seq<nat>, i: nat): nat
    requires i <= |order| && forall k | k in order :: k in m
  {
    if i == 0 then 0 else Prefix(m, order, i - 1) + m[order[i - 1]]
  }

  lemma {:induction false} PrefixShift(m: map<nat, nat>, k: nat, rest: seq<nat>, i: nat)
    requires i <= |rest| && k in m && k !in rest
    requires forall j | j in rest :: j in m
    ensures Prefix(m, [k] + rest, i + 1) == m[k] + Prefix(m - {k}, rest, i)
  {
    if i > 0 {
      PrefixShift(m, k, rest, i - 1);
    }
  }

  lemma {:induction false} PrefixTotal(m: map<nat, nat>)
    ensures Prefix(m, SortedKeys(m.Keys), |m|) == Total(m)
    decreases m.Keys
  {
    if m != map[] {
      var k := MinKey(m.Keys);
      var m' := m - {k};
      assert m'.Keys == m.Keys - {k};
      assert |m| == |m.Keys| && |m'| == |m'.Keys|;
      PrefixTotal(m');
      PrefixShift(m, k, SortedKeys(m'.Keys), |m'|);
    }
  }
}
