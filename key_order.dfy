/** Iteration over an ordered map keyed by ids: the stores' `iter()` yields
    their entries in ascending key order, and every listing and every
    "first match" of the service follows that order. */
module KeyOrder {

  /** Every non-empty set of keys has a least element. */
  lemma {:induction false} Least(s: set<nat>) returns (m: nat)
    requires s != {}
    ensures m in s && forall j :: j in s ==> m <= j
  {
    var x :| x in s;
    if s == {x} {
      m := x;
    } else {
      var rest := Least(s - {x});
      m := if x < rest then x else rest;
      forall j | j in s
        ensures m <= j
      {
        if j != x { assert j in s - {x}; }
      }
    }
  }

  lemma HasMinimum(s: set<nat>)
    requires s != {}
    ensures exists k :: k in s && forall j :: j in s ==> k <= j
  {
    var m := Least(s);
  }

  /** The least key of a non-empty key set. */
  function MinKey(s: set<nat>): (k: nat)
    requires s != {}
    ensures k in s && forall j :: j in s ==> k <= j
  {
    HasMinimum(s);
    var k :| k in s && forall j :: j in s ==> k <= j;
    k
  }

  /** The keys of `s`, each once, in strictly ascending order. */
  function SortedKeys(s: set<nat>): (ks: seq<nat>)
    ensures |ks| == |s|
    ensures forall i :: 0 <= i < |ks| ==> ks[i] in s
    ensures forall i, j :: 0 <= i < j < |ks| ==> ks[i] < ks[j]
    decreases |s|
  {
    if s == {} then []
    else
      var k := MinKey(s);
      var rest := SortedKeys(s - {k});
      [k] + rest
  }

  /** Every key of `s` is listed. */
  lemma {:induction false} SortedKeysCover(s: set<nat>, k: nat)
    requires k in s
    ensures k in SortedKeys(s)
    decreases |s|
  {
    var least := MinKey(s);
    if k != least {
      SortedKeysCover(s - {least}, k);
    }
  }

  /** The values of `m` in ascending key order: what collecting the store's
      iterator into a vector and dropping the keys gives. */
  function InKeyOrder<V>(m: map<nat, V>): (vs: seq<V>)
    ensures |vs| == |m|
    ensures forall i :: 0 <= i < |vs| ==> vs[i] == m[SortedKeys(m.Keys)[i]]
  {
    var ks := SortedKeys(m.Keys);
    assert |ks| == |m| by {
      assert |m.Keys| == |m|;
    }
    seq(|ks|, i requires 0 <= i < |ks| => m[ks[i]])
  }

  /** The listing holds exactly the stored values. */
  lemma InKeyOrderValues<V>(m: map<nat, V>, v: V)
    ensures v in InKeyOrder(m) <==> v in m.Values
  {
    var ks := SortedKeys(m.Keys);
    var vs := InKeyOrder(m);
    if v in m.Values {
      var k :| k in m && m[k] == v;
      SortedKeysCover(m.Keys, k);
      var i :| 0 <= i < |ks| && ks[i] == k;
      assert vs[i] == v;
    }
  }

  /** The listing is empty exactly when the map is. */
  lemma InKeyOrderEmpty<V>(m: map<nat, V>)
    ensures |InKeyOrder(m)| == 0 <==> m == map[]
  {
  }
}
