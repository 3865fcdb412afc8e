/** A user's account balances: their total value and how it splits by asset and by account. */
module Balances {
  import opened OrderedDicts
  import opened DictSums

  type Fields = map<string, real>
  type Tokens = Dict<string, Fields>
  type Accounts = Dict<string, Tokens>
  type Values = Dict<string, real>

  function Get(f: Fields, name: string, default: real): real { if name in f then f[name] else default }

  /** A stated value, else units times price, else units times mark. */
  function ValueOf(f: Fields): real {
    if "value" in f then f["value"] else Get(f, "units", 0.0) * Get(f, "price", Get(f, "mark", 0.0))
  }

  /** A token is worth what is stated; without that, its units at the price, or at the mark if there is
      no price, or nothing. */
  lemma ValueCases(f: Fields, v: real, units: real, price: real, mark: real)
    ensures ValueOf(f["value" := v]) == v
    ensures "value" !in f ==>
              && ValueOf(f["units" := units]["price" := price]) == units * price
              && ("price" !in f ==> ValueOf(f["units" := units]["mark" := mark]) == units * mark)
              && ("units" !in f ==> ValueOf(f) == 0.0)
              && ("price" !in f && "mark" !in f ==> ValueOf(f) == 0.0)
  {
  }

  function AccountValue(t: Tokens): real { Sum(t, ValueOf) }

  function TotalValue(a: Accounts): real { Sum(a, AccountValue) }

  function Same(v: real): real { v }

  /** What is already booked on an asset. */
  function At(sums: Values, token: string): real { if token in sums.at then sums.at[token] else 0.0 }

  function TokenValue(t: Tokens, token: string): real { if token in t.at then ValueOf(t.at[token]) else 0.0 }

  /** The first n tokens of an account, added by asset. */
  function AddTokens(sums: Values, t: Tokens, n: nat): Values
    requires n <= |t.order|
  {
    if n == 0 then sums
    else
      var before, token := AddTokens(sums, t, n - 1), t.order[n - 1];
      before.Put(token, At(before, token) + TokenValue(t, token))
  }

  function TokensOf(a: Accounts, account: string): Tokens { if account in a.at then a.at[account] else Empty() }

  function AssetsTo(a: Accounts, n: nat): Values
    requires n <= |a.order|
  {
    if n == 0 then Empty()
    else
      var t := TokensOf(a, a.order[n - 1]);
      AddTokens(AssetsTo(a, n - 1), t, |t.order|)
  }

  function ByAsset(a: Accounts): Values { AssetsTo(a, |a.order|) }

  function ByAccount(a: Accounts): (v: Values)
    ensures v.order == a.order
  {
    var at := map k | k in a.at :: AccountValue(a.at[k]);
    assert at.Keys == a.at.Keys;
    OrderedDict(a.order, at)
  }

  /** The grouping loops of distribution and sample. */
  method GroupByAsset(a: Accounts) returns (sums: Values)
    ensures sums == ByAsset(a)
  {
    hide OrderedDict.Valid, OrderedDict.Put, ValueOf;
    DictKeys(a);
    sums := Empty();
    for i := 0 to |a.order|
      invariant sums == AssetsTo(a, i)
    {
      sums := AddAccount(sums, a.at[a.order[i]]);
    }
  }

  method AddAccount(was: Values, t: Tokens) returns (sums: Values)
    ensures sums == AddTokens(was, t, |t.order|)
  {
    hide OrderedDict.Valid, OrderedDict.Put, ValueOf;
    DictKeys(t);
    sums := was;
    for i := 0 to |t.order|
      invariant sums == AddTokens(was, t, i)
    {
      var token := t.order[i];
      var before := if token in sums.at then sums.at[token] else 0.0;
      sums := sums.Put(token, before + ValueOf(t.at[token]));
    }
  }

  lemma {:induction false} TokensAddUp(sums: Values, t: Tokens, n: nat)
    requires n <= |t.order|
    ensures Sum(AddTokens(sums, t, n), Same) == Sum(sums, Same) + SumOver(t.order[..n], t.at, ValueOf)
  {
    hide OrderedDict.Valid, OrderedDict.Put, ValueOf, Sum;
    if n > 0 {
      var before, token := AddTokens(sums, t, n - 1), t.order[n - 1];
      TokensAddUp(sums, t, n - 1);
      SumPut(before, token, At(before, token) + TokenValue(t, token), Same);
      assert t.order[..n] == t.order[..n - 1] + [token];
      SumSnoc(t.order[..n - 1], token, t.at, ValueOf);
    }
  }

  lemma {:induction false} AssetsAddUp(a: Accounts, n: nat)
    requires n <= |a.order|
    ensures Sum(AssetsTo(a, n), Same) == SumOver(a.order[..n], a.at, AccountValue)
  {
    hide OrderedDict.Valid, ValueOf, AddTokens, SumOver;
    if n == 0 {
      NothingAddsUp(a);
    } else {
      var t := TokensOf(a, a.order[n - 1]);
      AssetsAddUp(a, n - 1);
      TokensAddUp(AssetsTo(a, n - 1), t, |t.order|);
      assert t.order[..|t.order|] == t.order;
      assert a.order[..n] == a.order[..n - 1] + [a.order[n - 1]];
      SumSnoc(a.order[..n - 1], a.order[n - 1], a.at, AccountValue);
      DictKeys(a);
    }
  }

  lemma NothingAddsUp(a: Accounts)
    ensures Sum<string, real>(Empty(), Same) == SumOver(a.order[..0], a.at, AccountValue)
  {
  }

  /** However the balances are grouped, by asset or by account, the parts add up to the total value. */
  lemma GroupsAddUp(a: Accounts)
    ensures Sum(ByAsset(a), Same) == TotalValue(a) && Sum(ByAccount(a), Same) == TotalValue(a)
  {
    hide OrderedDict.Valid, ValueOf, AssetsTo;
    AssetsAddUp(a, |a.order|);
    assert a.order[..|a.order|] == a.order;
    AccountsAddUp(a.order, a.at, ByAccount(a).at);
  }

  lemma {:induction false} AccountsAddUp(order: seq<string>, at: map<string, Tokens>, sums: map<string, real>)
    requires sums.Keys == at.Keys && forall k :: k in at ==> sums[k] == AccountValue(at[k])
    ensures SumOver(order, sums, Same) == SumOver(order, at, AccountValue)
  {
    hide OrderedDict.Valid;
    if order != [] { AccountsAddUp(order[..|order| - 1], at, sums); }
  }

  /** One asset's value in the first n accounts. */
  function HeldIn(a: Accounts, n: nat, asset: string): real
    requires n <= |a.order|
  {
    if n == 0 then 0.0 else HeldIn(a, n - 1, asset) + TokenValue(TokensOf(a, a.order[n - 1]), asset)
  }

  lemma {:induction false} AddTokensAt(sums: Values, t: Tokens, n: nat, asset: string)
    requires n <= |t.order|
    ensures var r := AddTokens(sums, t, n);
            && At(r, asset) == At(sums, asset) + (if asset in t.order[..n] then TokenValue(t, asset) else 0.0)
            && (asset in r.at <==> asset in sums.at || asset in t.order[..n])
  {
    hide OrderedDict.Valid, ValueOf;
    if n > 0 {
      AddTokensAt(sums, t, n - 1, asset);
      assert t.order[..n] == t.order[..n - 1] + [t.order[n - 1]];
      DictKeys(t);
    }
  }

  /** Each asset's entry is its value summed over the accounts that hold it, and only assets held
      somewhere have one. */
  lemma {:induction false} AssetsAreHeld(a: Accounts, n: nat, asset: string)
    requires n <= |a.order|
    ensures At(AssetsTo(a, n), asset) == HeldIn(a, n, asset)
    ensures asset in AssetsTo(a, n).at <==> exists i :: 0 <= i < n && asset in TokensOf(a, a.order[i]).at
  {
    hide OrderedDict.Valid, ValueOf, AddTokens;
    if n > 0 {
      AssetsAreHeld(a, n - 1, asset);
      var t := TokensOf(a, a.order[n - 1]);
      AddTokensAt(AssetsTo(a, n - 1), t, |t.order|, asset);
      assert t.order[..|t.order|] == t.order;
      DictKeys(t);
    }
  }

  // ----- percentages -------------------------------------------------------

  function Share(v: real, total: real): real
    requires total > 0.0
  {
    v / total * 100.0
  }

  function ToPct(values: Values): (p: Values)
    ensures p.order == values.order
  {
    var total := Sum(values, Same);
    var at := map k | k in values.at :: if total <= 0.0 then 0.0 else Share(values.at[k], total);
    assert at.Keys == values.at.Keys;
    OrderedDict(values.order, at)
  }

  lemma SharesAdd(a: real, b: real, total: real)
    requires total > 0.0
    ensures Share(a + b, total) == Share(a, total) + Share(b, total)
  {
    var x, y, z := a / total, b / total, (a + b) / total;
    assert x * total == a && y * total == b && z * total == a + b;
    assert (x + y - z) * total == 0.0;
  }

  lemma {:induction false} PercentagesOf(order: seq<string>, at: map<string, real>, pct: map<string, real>, total: real)
    requires total > 0.0 && pct.Keys == at.Keys && forall k :: k in at ==> pct[k] == Share(at[k], total)
    ensures SumOver(order, pct, Same) == Share(SumOver(order, at, Same), total)
  {
    hide Share;
    if order == [] {
      NoShare(total);
    } else {
      PercentagesOf(order[..|order| - 1], at, pct, total);
      SharesAdd(SumOver(order[..|order| - 1], at, Same), Term(at, order[|order| - 1], Same), total);
      NoShare(total);
    }
  }

  lemma NoShare(total: real)
    requires total > 0.0
    ensures Share(0.0, total) == 0.0 && Share(total, total) == 100.0
  {
  }

  /** Of a positive total each part has its hundredfold fraction. */
  lemma PercentageOf(values: Values, k: string)
    requires k in values.at && Sum(values, Same) > 0.0
    ensures k in ToPct(values).at && ToPct(values).at[k] * Sum(values, Same) == 100.0 * values.at[k]
  {
    hide OrderedDict.Valid, Sum;
    var total := Sum(values, Same);
    var x := values.at[k] / total;
    assert x * total == values.at[k];
  }

  /** The percentages add up to 100 exactly when the total is above 0; otherwise all of them are 0. */
  lemma PercentagesAddUp(values: Values)
    ensures Sum(ToPct(values), Same) == if Sum(values, Same) > 0.0 then 100.0 else 0.0
  {
    hide OrderedDict.Valid, SumOver, Share;
    var total := Sum(values, Same);
    if total > 0.0 {
      PercentagesOf(values.order, values.at, ToPct(values).at, total);
      NoShare(total);
    } else {
      SumZero(values.order, ToPct(values).at, Same);
    }
  }
}
