/** The in-memory adapter's outcome-token ledger: fills minus redeems minus sells, floored at zero. */
module MockAdapter {
  import opened Markets
  import opened Money
  import opened Sums

  /** _signed_fill_qty: the taker side first, and only when the side matches. */
  function SignedFillQty(f: Fill, w: string, s: Outcome): real {
    if f.taker != "" && f.taker == w && f.takerSide == s then
      if f.takerIsBuy then f.quantity else -f.quantity
    else if f.maker != "" && f.maker == w && f.makerSide == s then
      if f.makerIsBuy then f.quantity else -f.quantity
    else 0.0
  }

  function OnMarket(w: string, market: string, s: Outcome): Fill -> real {
    (f: Fill) => if f.marketId == market then SignedFillQty(f, w, s) else 0.0
  }

  datatype Bag = Bag(yes: real, no: real) {
    function Get(s: Outcome): real { if s == YES then yes else no }
    function Add(s: Outcome, amount: real): Bag {
      if s == YES then Bag(yes + amount, no) else Bag(yes, no + amount)
    }
  }

  function BagOf(bags: map<(string, string), Bag>, key: (string, string)): Bag {
    if key in bags then bags[key] else Bag(0.0, 0.0)
  }

  /** Outcome index 0 is YES; any other index is NO. */
  function SideOfIndex(outcomeIdx: int): Outcome { if outcomeIdx == 0 then YES else NO }

  class Adapter {
    var fills: seq<Fill>
    var redeemed: map<(string, string), Bag>
    var sold: map<(string, string), Bag>

    constructor (seed: seq<Fill>)
      ensures fills == seed && redeemed == map[] && sold == map[]
    {
      fills, redeemed, sold := seed, map[], map[];
    }

    /** Tokens before the floor at zero. */
    ghost function Raw(w: string, market: string, s: Outcome): real
      reads this
    {
      Sum(fills, OnMarket(w, market, s))
        - BagOf(redeemed, (w, market)).Get(s) - BagOf(sold, (w, market)).Get(s)
    }

    ghost function Balance(w: string, market: string, s: Outcome): real
      reads this
    {
      Max(Raw(w, market, s), 0.0)
    }

    method GetOutcomeBalances(w: string, market: string) returns (yes: real, no: real)
      ensures yes == Balance(w, market, YES) && no == Balance(w, market, NO)
      ensures yes >= 0.0 && no >= 0.0
    {
      yes, no := 0.0, 0.0;
      for i := 0 to |fills|
        invariant yes == Sum(fills[..i], OnMarket(w, market, YES))
        invariant no == Sum(fills[..i], OnMarket(w, market, NO))
      {
        var f := fills[i];
        assert fills[..i + 1][..i] == fills[..i];
        if f.marketId != market { continue; }
        yes := yes + SignedFillQty(f, w, YES);
        no := no + SignedFillQty(f, w, NO);
      }
      assert fills[..|fills|] == fills;
      var r := BagOf(redeemed, (w, market));
      var d := BagOf(sold, (w, market));
      yes := Max(yes - r.yes - d.yes, 0.0);
      no := Max(no - r.no - d.no, 0.0);
    }

    /** amountRaw is in millionths of a token. */
    method RecordRedeem(w: string, market: string, outcomeIdx: int, amountRaw: int)
      modifies this`redeemed
      ensures redeemed.Keys == old(redeemed.Keys) + {(w, market)}
      ensures forall v, m, s :: Balance(v, m, s) ==
                if v == w && m == market && (s == YES <==> outcomeIdx == 0)
                then Max(old(Raw(v, m, s)) - Millionths(amountRaw), 0.0)
                else old(Balance(v, m, s))
    {
      var human := Quantize6(amountRaw as real / 1000000.0);
      MillionthsExact(amountRaw);
      var key := (w, market);
      var bag := BagOf(redeemed, key);
      bag := bag.Add(SideOfIndex(outcomeIdx), human);
      redeemed := redeemed[key := bag];
    }

    method RecordSell(w: string, market: string, outcomeIdx: int, amount: real)
      modifies this`sold
      ensures sold.Keys == old(sold.Keys) + {(w, market)}
      ensures forall v, m, s :: Raw(v, m, s) ==
                old(Raw(v, m, s))
                - if v == w && m == market && (s == YES <==> outcomeIdx == 0) then amount else 0.0
    {
      var key := (w, market);
      var bag := BagOf(sold, key);
      bag := bag.Add(SideOfIndex(outcomeIdx), amount);
      sold := sold[key := bag];
    }
  }

  lemma MillionthsExact(raw: int)
    ensures Quantize6(raw as real / 1000000.0) == Millionths(raw)
  {
    RoundHalfEvenUnique(raw as real / 1000000.0 * 1000000.0, raw);
  }
}
