/** Python's insertion-ordered mappings (dict and collections.OrderedDict) as values, with the
    least-recently-used facts the engine's bounded stores rest on. */
module OrderedDicts {

  datatype Option<+T> = None | Some(value: T)

  ghost predicate NoDup<T(!new)>(s: seq<T>) {
    forall i, j :: 0 <= i < j < |s| ==> s[i] != s[j]
  }

  ghost function Elems<T>(s: seq<T>): set<T> { set x | x in s }

  function IndexOf<K(==)>(s: seq<K>, k: K): (i: nat)
    requires k in s
    ensures i < |s| && s[i] == k
  {
    if s[0] == k then 0 else 1 + IndexOf(s[1..], k)
  }

  /** The sequence without the (first) occurrence of k. */
  function Without<K(==)>(s: seq<K>, k: K): seq<K> {
    if k in s then s[..IndexOf(s, k)] + s[IndexOf(s, k) + 1..] else s
  }

  // ----- counting ----------------------------------------------------------

  lemma {:induction false} NoDupCard<T(!new)>(s: seq<T>)
    ensures |Elems(s)| <= |s|
    ensures NoDup(s) <==> |Elems(s)| == |s|
  {
    if s == [] {
      assert Elems(s) == {};
    } else {
      NoDupCard(s[1..]);
      assert Elems(s) == {s[0]} + Elems(s[1..]);
      if |Elems(s)| == |s| {
        assert s[0] !in Elems(s[1..]);
        assert forall i :: 0 < i < |s| ==> s[i] in Elems(s[1..]);
        assert forall i, j :: 0 < i < j < |s| ==> s[i] == s[1..][i - 1] && s[j] == s[1..][j - 1];
      }
    }
  }

  lemma SubsetCard<T>(a: set<T>, b: set<T>)
    requires a <= b
    ensures |a| <= |b|
  {
    if a != {} {
      var x :| x in a;
      SubsetCard(a - {x}, b - {x});
    }
  }

  /** A duplicate-free sequence drawn from `b` is no longer than `b`. */
  lemma NoDupFits<T(!new)>(a: seq<T>, b: seq<T>)
    requires NoDup(a)
    requires forall i :: 0 <= i < |a| ==> a[i] in b
    ensures |a| <= |b|
  {
    NoDupCard(a);
    NoDupCard(b);
    SubsetCard(Elems(a), Elems(b));
  }

  lemma WithoutElems<K(!new)>(s: seq<K>, k: K)
    requires NoDup(s)
    ensures NoDup(Without(s, k)) && Elems(Without(s, k)) == Elems(s) - {k}
    ensures |Without(s, k)| == if k in s then |s| - 1 else |s|
  {
    if k in s {
      var n := IndexOf(s, k);
      forall x | x in s && x != k ensures x in Without(s, k) {
        var i := IndexOf(s, x);
        assert Without(s, k)[if i < n then i else i - 1] == x;
      }
    }
  }

  // ----- the dictionary ----------------------------------------------------

  /** `order` is the iteration order, oldest first; `at` the contents. */
  datatype OrderedDict<K(==, !new), V> = OrderedDict(order: seq<K>, at: map<K, V>) {

    /** `order` lists every key once. */
    ghost predicate Valid() {
      Elems(order) == at.Keys && |order| == |at.Keys|
    }

    /** d[k] = v: a new key goes last, an old key keeps its place. */
    function Put(k: K, v: V): (r: OrderedDict<K, V>)
      requires Valid()
      ensures r.Valid()
      ensures r.at == at[k := v] && |r.order| == if k in at then |order| else |order| + 1
    {
      var r := if k in at then OrderedDict(order, at[k := v]) else OrderedDict(order + [k], at[k := v]);
      assert r.at.Keys == at.Keys + {k};
      assert k !in at ==> Elems(order + [k]) == Elems(order) + {k};
      r
    }

    /** d.pop(k, None). */
    function Remove(k: K): (r: OrderedDict<K, V>)
      requires Valid()
      ensures r.Valid()
      ensures r.at == at - {k} && r.order == Without(order, k)
    {
      NoDupCard(order);
      WithoutElems(order, k);
      assert k in order <==> k in Elems(order);
      assert (at - {k}).Keys == at.Keys - {k};
      OrderedDict(Without(order, k), at - {k})
    }

    /** d.move_to_end(k). */
    function MoveToEnd(k: K): (r: OrderedDict<K, V>)
      requires Valid()
      requires k in at
      ensures r.Valid()
      ensures r.at == at && r.order == Without(order, k) + [k] && |r.order| == |order|
    {
      NoDupCard(order);
      WithoutElems(order, k);
      assert k in order <==> k in Elems(order);
      assert Elems(Without(order, k) + [k]) == Elems(Without(order, k)) + {k};
      OrderedDict(Without(order, k) + [k], at)
    }

    /** d.popitem(last=False). */
    function PopFirst(): (r: OrderedDict<K, V>)
      requires Valid()
      requires order != []
      ensures r.Valid()
      ensures order[0] in at && r.at == at - {order[0]} && r.order == order[1..]
    {
      NoDupCard(order);
      assert order[0] in Elems(order);
      assert Elems(order[1..]) == Elems(order) - {order[0]} by {
        forall x | x in Elems(order) && x != order[0] ensures x in order[1..] {
          assert order[1..][IndexOf(order, x) - 1] == x;
        }
      }
      assert (at - {order[0]}).Keys == at.Keys - {order[0]};
      OrderedDict(order[1..], at - {order[0]})
    }

    /** Drop oldest entries while there are more than `cap`. */
    function Trim(cap: nat): (r: OrderedDict<K, V>)
      requires Valid()
      ensures r.Valid() && |r.order| <= cap && r.at.Keys <= at.Keys
      ensures |order| <= cap ==> r == this
      ensures |order| == cap + 1 ==> r == PopFirst()
      decreases |order|
    {
      if |order| > cap then PopFirst().Trim(cap) else this
    }
  }

  /** What survives a trim is unchanged. */
  lemma {:induction false} TrimKeeps<K(!new), V>(d: Dict<K, V>, cap: nat)
    ensures forall k :: k in d.Trim(cap).at ==> k in d.at && d.Trim(cap).at[k] == d.at[k]
    decreases |d.order|
  {
    if |d.order| > cap { TrimKeeps(d.PopFirst(), cap); }
  }

  type Dict<K(==, !new), V> = d: OrderedDict<K, V> | d.Valid() witness OrderedDict([], map[])

  function Empty<K(==, !new), V>(): Dict<K, V> { OrderedDict([], map[]) }

  /** The keys of a dictionary, as a sequence: no duplicates, exactly the domain. */
  lemma DictKeys<K(!new), V>(d: Dict<K, V>)
    ensures NoDup(d.order)
    ensures forall k :: k in d.order <==> k in d.at
  {
    NoDupCard(d.order);
    assert forall k :: k in d.order <==> k in Elems(d.order);
  }

  lemma RemoveShrinks<K(!new), V>(d: Dict<K, V>, k: K)
    requires k in d.at
    ensures |d.Remove(k).order| == |d.order| - 1
  {
    DictKeys(d);
    WithoutElems(d.order, k);
  }

  /** d[k] = v; d.move_to_end(k). */
  function Touch<K(==, !new), V>(d: Dict<K, V>, k: K, v: V): (t: Dict<K, V>)
    ensures t.at == d.at[k := v] && |t.order| == if k in d.at then |d.order| else |d.order| + 1
  {
    d.Put(k, v).MoveToEnd(k)
  }

  /** The order after touching k. */
  function Touched<K(==)>(order: seq<K>, k: K): seq<K> {
    if k in order then Without(order, k) + [k] else order + [k]
  }

  lemma TouchOrder<K(!new), V>(d: Dict<K, V>, k: K, v: V)
    ensures Touch(d, k, v).order == Touched(d.order, k)
  {
    DictKeys(d);
    if k !in d.at { IndexOfLast(d.order, k); }
  }

  lemma {:induction false} IndexOfLast<K(!new)>(s: seq<K>, k: K)
    requires k !in s
    ensures k in s + [k] && IndexOf(s + [k], k) == |s|
  {
    assert (s + [k])[|s|] == k;
  }

  // ----- recency -----------------------------------------------------------

  /** Every key ordered after `k` is in `touched`. */
  ghost predicate AfterOnly<K(!new)>(order: seq<K>, k: K, touched: set<K>) {
    forall i, j :: 0 <= i < j < |order| && order[i] == k ==> order[j] in touched
  }

  lemma AfterOnlyTouched<K(!new)>(order: seq<K>, m: K, k: K, touched: set<K>)
    requires NoDup(order) && AfterOnly(order, k, touched) && (m == k || m in touched)
    ensures AfterOnly(Touched(order, m), k, touched)
  {
    if m in order {
      AfterOnlyWithout(order, m, k, touched);
      WithoutElems(order, m);
      assert m in Without(order, m) ==> m in Elems(Without(order, m));
      AfterOnlyAppend(Without(order, m), m, k, touched);
    } else {
      AfterOnlyAppend(order, m, k, touched);
    }
  }

  lemma AfterOnlyAppend<K(!new)>(order: seq<K>, m: K, k: K, touched: set<K>)
    requires AfterOnly(order, k, touched) && (m !in touched ==> m !in order && m == k)
    ensures AfterOnly(order + [m], k, touched)
  {
  }

  lemma AfterOnlyWithout<K(!new)>(order: seq<K>, m: K, k: K, touched: set<K>)
    requires AfterOnly(order, k, touched)
    ensures AfterOnly(Without(order, m), k, touched)
  {
  }

  lemma BehindOldest<K(!new), V>(d: Dict<K, V>, touched: set<K>)
    requires d.order != [] && AfterOnly(d.order, d.order[0], touched)
    ensures |d.order| - 1 <= |touched|
  {
    hide OrderedDict.Valid;
    var tail := d.order[1..];
    DictKeys(d);
    NoDupCard(tail);
    SubsetCard(Elems(tail), touched);
  }

  lemma AfterOnlyPop<K(!new)>(order: seq<K>, k: K, touched: set<K>)
    requires order != [] && AfterOnly(order, k, touched)
    ensures AfterOnly(order[1..], k, touched)
  {
  }

  /** A present key with fewer than `cap` distinct keys after it survives a trim to `cap`. */
  lemma {:induction false} WorkingSetSurvives<K(!new), V>(d: Dict<K, V>, k: K, touched: set<K>, cap: nat)
    requires k in d.at && AfterOnly(d.order, k, touched) && |touched| < cap
    ensures k in d.Trim(cap).at && d.Trim(cap).at[k] == d.at[k]
    ensures AfterOnly(d.Trim(cap).order, k, touched)
    decreases |d.order|
  {
    hide OrderedDict.Valid, AfterOnly, OrderedDict.PopFirst;
    if |d.order| > cap {
      if d.order[0] == k {
        BehindOldest(d, touched);
        assert false;
      }
      AfterOnlyPop(d.order, k, touched);
      WorkingSetSurvives(d.PopFirst(), k, touched, cap);
    }
  }

  /** The order after k is used in a store of `cap` entries, or of any number if cap is not positive. */
  function LruOrder<K(==)>(order: seq<K>, k: K, cap: int): seq<K> {
    var o := Touched(order, k);
    if cap > 0 && |o| > cap then o[1..] else o
  }

  lemma TouchedLength<K(!new)>(order: seq<K>, k: K)
    requires NoDup(order)
    ensures |Touched(order, k)| == if k in order then |order| else |order| + 1
  {
    WithoutElems(order, k);
  }

  /** `behind` is exactly what is ordered after k. */
  ghost predicate Behind<K(!new)>(order: seq<K>, k: K, behind: set<K>) {
    && k in order && AfterOnly(order, k, behind)
    && (forall x :: x in behind ==> x in order)
    && (forall i, j :: 0 <= i <= j < |order| && order[j] == k ==> order[i] !in behind)
  }

  lemma BehindWithout<K(!new)>(order: seq<K>, m: K, k: K, behind: set<K>)
    requires NoDup(order) && m != k && Behind(order, k, behind)
    ensures Behind(Without(order, m), k, behind - {m})
  {
    WithoutElems(order, m);
    assert forall x :: x in Without(order, m) <==> x in Elems(Without(order, m));
  }

  lemma BehindAppend<K(!new)>(order: seq<K>, m: K, k: K, behind: set<K>)
    requires m !in order && Behind(order, k, behind)
    ensures Behind(order + [m], k, behind + {m})
  {
    assert (order + [m])[|order|] == m;
  }

  lemma BehindTail<K(!new)>(order: seq<K>, k: K, behind: set<K>)
    requires NoDup(order) && Behind(order, k, behind)
    ensures |behind| < |order|
    ensures if order[0] == k then k !in order[1..] && |behind| == |order| - 1
            else Behind(order[1..], k, behind) && |behind| < |order| - 1
  {
    var tail := order[1..];
    NoDupCard(tail);
    if order[0] == k {
      assert Elems(tail) == behind;
    } else {
      assert forall x :: x in order <==> x == order[0] || x in tail;
      assert behind <= Elems(tail) - {k};
      SubsetCard(behind, Elems(tail) - {k});
    }
  }

  lemma BehindTouched<K(!new)>(order: seq<K>, m: K, k: K, behind: set<K>)
    requires NoDup(order) && Behind(order, k, behind)
    ensures NoDup(Touched(order, m)) && Behind(Touched(order, m), k, if m == k then {} else behind + {m})
  {
    hide Without;
    var w := Without(order, m);
    WithoutElems(order, m);
    assert m !in w by { assert m in w ==> m in Elems(w); }
    if m == k {
      assert (w + [k])[|w|] == k;
    } else {
      BehindWithout(order, m, k, behind);
      BehindAppend(w, m, k, behind - {m});
      assert behind - {m} + {m} == behind + {m};
      assert m !in order ==> Elems(w) == Elems(order) && Touched(order, m) == w + [m] by {
        if m !in order { WithoutAbsent(order, m); }
      }
    }
  }

  lemma WithoutAbsent<K(!new)>(order: seq<K>, m: K)
    requires m !in order
    ensures Without(order, m) == order
  {
  }

  /** Using another key m keeps k exactly if fewer than `cap` keys are then behind it. */
  lemma BehindLru<K(!new)>(order: seq<K>, m: K, k: K, behind: set<K>, cap: int)
    requires NoDup(order) && m != k && Behind(order, k, behind) && (cap > 0 ==> |order| <= cap)
    ensures k in LruOrder(order, m, cap) <==> cap <= 0 || |behind + {m}| < cap
    ensures k in LruOrder(order, m, cap) ==> Behind(LruOrder(order, m, cap), k, behind + {m})
  {
    hide Behind, NoDup, Touched;
    BehindTouched(order, m, k, behind);
    TouchedLength(order, m);
    BehindTail(Touched(order, m), k, behind + {m});
    BehindIn(Touched(order, m), k, behind + {m});
  }

  lemma NewestLast<K(!new)>(order: seq<K>, k: K, cap: int)
    ensures var o := LruOrder(order, k, cap); o != [] && o[|o| - 1] == k
  {
    assert Touched(order, k)[|Touched(order, k)| - 1] == k;
  }

  lemma LastBehind<K(!new)>(order: seq<K>, k: K)
    requires NoDup(order) && order != [] && order[|order| - 1] == k
    ensures Behind(order, k, {})
  {
  }

  lemma BehindIn<K(!new)>(order: seq<K>, k: K, behind: set<K>)
    requires Behind(order, k, behind)
    ensures k in order && order != []
  {
  }
}
