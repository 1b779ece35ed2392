/** Net YES/NO size per wallet on one Event Contract (list_event_participants). */
module MarketStats {
  import opened Markets
  import opened Sums

  const ZERO_ADDRESS := "0x0000000000000000000000000000000000000000"
  const SEED_WALLETS := {"0xalpha000000000000000000000000000000000001",
                         "0xnova00000000000000000000000000000000000002",
                         "0xorbit0000000000000000000000000000000000003"}

  predicate LowerHexDigit(c: char) { '0' <= c <= '9' || 'a' <= c <= 'f' }

  /** is_onchain_trader_wallet, on a lower-cased address. */
  predicate OnchainWallet(w: string) {
    && w !in SEED_WALLETS && w != ZERO_ADDRESS
    && |w| == 42 && w[0] == '0' && w[1] == 'x'
    && forall i :: 2 <= i < 42 ==> LowerHexDigit(w[i])
  }

  /** The wallets that count: 0x and forty lower-case hex digits, not all of them zero, and none of the three seeds. */
  lemma OnchainWalletIff(w: string)
    ensures OnchainWallet(w) <==>
              && |w| == 42 && w[0] == '0' && w[1] == 'x'
              && (forall i :: 2 <= i < 42 ==> '0' <= w[i] <= '9' || 'a' <= w[i] <= 'f')
              && (exists i :: 2 <= i < 42 && w[i] != '0')
              && w != "0xalpha000000000000000000000000000000000001"
              && w != "0xnova00000000000000000000000000000000000002"
              && w != "0xorbit0000000000000000000000000000000000003"
  {
    assert |ZERO_ADDRESS| == 42 && forall i :: 0 <= i < 42 ==> ZERO_ADDRESS[i] == if i == 1 then 'x' else '0';
    if |w| == 42 && w[0] == '0' && w[1] == 'x' && forall i :: 2 <= i < 42 ==> w[i] == '0' {
      assert w == ZERO_ADDRESS;
    }
  }

  function Signed(isBuy: bool, quantity: real): real { if isBuy then quantity else -quantity }

  /** What the maker side and the taker side of a fill add to a wallet's net size. */
  function MakerQty(f: Fill, w: string, s: Outcome): real {
    if f.maker == w && f.makerSide == s then Signed(f.makerIsBuy, f.quantity) else 0.0
  }

  function TakerQty(f: Fill, w: string, s: Outcome): real {
    if f.taker == w && f.takerSide == s then Signed(f.takerIsBuy, f.quantity) else 0.0
  }

  function ParticipantQty(w: string, s: Outcome): Fill -> real {
    (f: Fill) => MakerQty(f, w, s) + TakerQty(f, w, s)
  }

  function SidesTraded(f: Fill, w: string): nat {
    (if f.maker == w then 1 else 0) + (if f.taker == w then 1 else 0)
  }

  function ParticipantQuote(w: string): Fill -> real {
    (f: Fill) => SidesTraded(f, w) as real * f.quote
  }

  function ParticipantFills(w: string): Fill -> real {
    (f: Fill) => SidesTraded(f, w) as real
  }

  datatype Stats = Stats(yes: real, no: real, quote: real, fills: real)

  const NO_STATS := Stats(0.0, 0.0, 0.0, 0.0)

  function StatsFor(w: string, fills: seq<Fill>): Stats {
    Stats(Sum(fills, ParticipantQty(w, YES)), Sum(fills, ParticipantQty(w, NO)),
          Sum(fills, ParticipantQuote(w)), Sum(fills, ParticipantFills(w)))
  }

  function Lookup(wallets: map<string, Stats>, w: string): Stats {
    if w in wallets then wallets[w] else NO_STATS
  }

  predicate Traded(w: string, fills: seq<Fill>) {
    exists f :: f in fills && (f.maker == w || f.taker == w)
  }

  function Plus(a: Stats, side: Outcome, isBuy: bool, f: Fill): Stats {
    var signed := Signed(isBuy, f.quantity);
    Stats(a.yes + (if side == YES then signed else 0.0), a.no + (if side == NO then signed else 0.0),
          a.quote + f.quote, a.fills + 1.0)
  }

  /** The dictionary after the given fills: a row for each on-chain wallet that traded. */
  ghost predicate Tallied(wallets: map<string, Stats>, fills: seq<Fill>) {
    && (forall w :: w in wallets <==> OnchainWallet(w) && Traded(w, fills))
    && (forall w :: OnchainWallet(w) ==> Lookup(wallets, w) == StatsFor(w, fills))
  }

  /** event_fills keeps only fills of this market. */
  method ListEventParticipants(e: Event, fetched: seq<Fill>) returns (wallets: map<string, Stats>)
    ensures Tallied(wallets, Filter(fetched, (f: Fill) => FillMatchesEvent(f, e)))
  {
    var fills := Filter(fetched, (f: Fill) => FillMatchesEvent(f, e));
    wallets := Tally(fills);
  }

  method Tally(fills: seq<Fill>) returns (wallets: map<string, Stats>)
    ensures Tallied(wallets, fills)
  {
    wallets := map[];
    for i := 0 to |fills|
      invariant Tallied(wallets, fills[..i])
    {
      var f := fills[i];
      var afterMaker := AddSide(wallets, f.maker, f.makerSide, f.makerIsBuy, f);
      var afterTaker := AddSide(afterMaker, f.taker, f.takerSide, f.takerIsBuy, f);
      TalliedNext(wallets, afterMaker, afterTaker, fills[..i], f);
      wallets := afterTaker;
      assert fills[..i + 1] == fills[..i] + [f];
    }
    assert fills[..|fills|] == fills;
  }

  ghost predicate SideAdded(r: map<string, Stats>, wallets: map<string, Stats>, wallet: string,
                            side: Outcome, isBuy: bool, f: Fill) {
    && r.Keys == wallets.Keys + (if OnchainWallet(wallet) then {wallet} else {})
    && forall w :: OnchainWallet(w) ==>
         Lookup(r, w) == if w == wallet then Plus(Lookup(wallets, w), side, isBuy, f) else Lookup(wallets, w)
  }

  lemma TalliedNext(a: map<string, Stats>, b: map<string, Stats>, c: map<string, Stats>, fills: seq<Fill>, f: Fill)
    requires Tallied(a, fills)
    requires SideAdded(b, a, f.maker, f.makerSide, f.makerIsBuy, f)
    requires SideAdded(c, b, f.taker, f.takerSide, f.takerIsBuy, f)
    ensures Tallied(c, fills + [f])
  {
    hide OnchainWallet, StatsFor, Traded;
    forall w ensures w in c <==> OnchainWallet(w) && Traded(w, fills + [f]) {
      TradedNext(w, fills, f);
    }
    forall w | OnchainWallet(w) ensures Lookup(c, w) == StatsFor(w, fills + [f]) {
      StatsForNext(w, fills, f);
    }
  }

  lemma TradedNext(w: string, fills: seq<Fill>, f: Fill)
    ensures Traded(w, fills + [f]) <==> Traded(w, fills) || f.maker == w || f.taker == w
  {
    assert f in fills + [f];
  }

  /** One (wallet, side, is_buy) entry of the inner loop. */
  method AddSide(wallets: map<string, Stats>, wallet: string, side: Outcome, isBuy: bool, f: Fill)
    returns (r: map<string, Stats>)
    ensures SideAdded(r, wallets, wallet, side, isBuy, f)
  {
    r := wallets;
    if OnchainWallet(wallet) {
      var stats := Lookup(r, wallet);
      var signed := if isBuy then f.quantity else -f.quantity;
      if side == NO {
        stats := stats.(no := stats.no + signed);
      } else {
        stats := stats.(yes := stats.yes + signed);
      }
      stats := stats.(quote := stats.quote + f.quote);
      stats := stats.(fills := stats.fills + 1.0);
      r := r[wallet := stats];
    }
  }

  lemma StatsForNext(w: string, fills: seq<Fill>, f: Fill)
    ensures StatsFor(w, fills + [f]) ==
            var a := StatsFor(w, fills);
            var b := if f.maker == w then Plus(a, f.makerSide, f.makerIsBuy, f) else a;
            if f.taker == w then Plus(b, f.takerSide, f.takerIsBuy, f) else b
  {
    assert (fills + [f])[..|fills|] == fills;
  }
}
