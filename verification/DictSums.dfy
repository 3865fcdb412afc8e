/** Sums of a figure over the values of a dictionary, and what each dictionary update does to them. */
module DictSums {
  import opened OrderedDicts

  function Term<K(!new), V>(at: map<K, V>, k: K, f: V -> real): real { if k in at then f(at[k]) else 0.0 }

  function SumOver<K(!new), V>(order: seq<K>, at: map<K, V>, f: V -> real): real {
    if order == [] then 0.0 else SumOver(order[..|order| - 1], at, f) + Term(at, order[|order| - 1], f)
  }

  function Sum<K(!new), V>(d: Dict<K, V>, f: V -> real): real { SumOver(d.order, d.at, f) }

  lemma SumSnoc<K(!new), V>(init: seq<K>, k: K, at: map<K, V>, f: V -> real)
    ensures SumOver(init + [k], at, f) == SumOver(init, at, f) + Term(at, k, f)
  {
    assert (init + [k])[..|init|] == init;
  }

  lemma {:induction false} SumFrame<K(!new), V>(order: seq<K>, at: map<K, V>, at': map<K, V>, f: V -> real)
    requires forall i :: 0 <= i < |order| ==> Term(at, order[i], f) == Term(at', order[i], f)
    ensures SumOver(order, at, f) == SumOver(order, at', f)
  {
    if order != [] { SumFrame(order[..|order| - 1], at, at', f); }
  }

  lemma {:induction false} SumUpdate<K(!new), V>(order: seq<K>, at: map<K, V>, k: K, v: V, f: V -> real)
    requires NoDup(order) && k in order && k in at
    ensures SumOver(order, at[k := v], f) == SumOver(order, at, f) + f(v) - f(at[k])
  {
    var n := |order| - 1;
    if order[n] == k {
      SumFrame(order[..n], at, at[k := v], f);
    } else {
      assert order[..n][IndexOf(order, k)] == k;
      SumUpdate(order[..n], at, k, v, f);
    }
  }

  /** d[k] = v adds f(v) and takes away what the old value contributed. */
  lemma SumPut<K(!new), V>(d: Dict<K, V>, k: K, v: V, f: V -> real)
    ensures Sum(d.Put(k, v), f) == Sum(d, f) + f(v) - Term(d.at, k, f)
  {
    hide OrderedDict.Valid, SumOver;
    DictKeys(d);
    if k in d.at {
      SumUpdate(d.order, d.at, k, v, f);
    } else {
      SumSnoc(d.order, k, d.at[k := v], f);
      SumFrame(d.order, d.at, d.at[k := v], f);
    }
  }

  lemma {:induction false} WithoutInit<K(!new)>(init: seq<K>, last: K, k: K)
    requires last != k
    ensures Without(init + [last], k) == Without(init, k) + [last]
    ensures k in init + [last] <==> k in init
  {
    var s := init + [last];
    if k in s {
      assert init[IndexOf(s, k)] == k;
      IndexOfInit(init, last, k);
    }
  }

  lemma {:induction false} IndexOfInit<K(!new)>(init: seq<K>, last: K, k: K)
    requires k in init
    ensures k in init + [last] && IndexOf(init + [last], k) == IndexOf(init, k)
  {
    assert (init + [last])[IndexOf(init, k)] == k;
    if init[0] != k {
      assert (init + [last])[1..] == init[1..] + [last];
      IndexOfInit(init[1..], last, k);
    }
  }

  lemma WithoutLast<K(!new)>(init: seq<K>, k: K)
    requires k !in init
    ensures Without(init + [k], k) == init
  {
    IndexOfLast(init, k);
  }

  lemma WithoutAbsent<K(!new)>(s: seq<K>, k: K)
    requires k !in s
    ensures Without(s, k) == s
  {
  }

  lemma {:induction false} SumWithout<K(!new), V>(order: seq<K>, at: map<K, V>, k: K, f: V -> real)
    requires NoDup(order)
    ensures SumOver(Without(order, k), at - {k}, f)
            == SumOver(order, at, f) - (if k in order then Term(at, k, f) else 0.0)
  {
    hide Without, SumOver;
    if k !in order {
      WithoutAbsent(order, k);
      SumFrame(order, at, at - {k}, f);
    } else {
      var init, last := order[..|order| - 1], order[|order| - 1];
      assert order == init + [last];
      SumSnoc(init, last, at, f);
      if last == k {
        WithoutLast(init, k);
        SumFrame(init, at, at - {k}, f);
      } else {
        WithoutInit(init, last, k);
        SumWithout(init, at, k, f);
        SumSnoc(Without(init, k), last, at - {k}, f);
      }
    }
  }

  /** d.pop(k) takes away what the value contributed. */
  lemma SumRemove<K(!new), V>(d: Dict<K, V>, k: K, f: V -> real)
    ensures Sum(d.Remove(k), f) == Sum(d, f) - Term(d.at, k, f)
  {
    hide OrderedDict.Valid, SumOver;
    DictKeys(d);
    SumWithout(d.order, d.at, k, f);
  }

  lemma {:induction false} SumZero<K(!new), V>(order: seq<K>, at: map<K, V>, f: V -> real)
    requires forall i :: 0 <= i < |order| ==> Term(at, order[i], f) == 0.0
    ensures SumOver(order, at, f) == 0.0
  {
    if order != [] { SumZero(order[..|order| - 1], at, f); }
  }

  lemma {:induction false} SumAdd<K(!new), V>(order: seq<K>, at: map<K, V>, f: V -> real, g: V -> real, h: V -> real)
    requires forall i :: 0 <= i < |order| ==> Term(at, order[i], h) == Term(at, order[i], f) + Term(at, order[i], g)
    ensures SumOver(order, at, h) == SumOver(order, at, f) + SumOver(order, at, g)
  {
    if order != [] { SumAdd(order[..|order| - 1], at, f, g, h); }
  }

  lemma {:induction false} SumSame<K(!new), V>(order: seq<K>, at: map<K, V>, f: V -> real, g: V -> real)
    requires forall i :: 0 <= i < |order| ==> Term(at, order[i], f) == Term(at, order[i], g)
    ensures SumOver(order, at, f) == SumOver(order, at, g)
  {
    if order != [] { SumSame(order[..|order| - 1], at, f, g); }
  }
}
