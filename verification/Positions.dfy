/** Rebuilding positions from confirmed trades: rounding, status machine, idempotence. */
module Positions {
  import opened Wrappers
  import opened Money
  import opened Sums
  import opened Markets
  import opened FillImport
  import opened LedgerAgreement
  import opened Upserts

  datatype PositionStatus = Open | Closed | SettledUp

  datatype Position = Position(amount: real, entryPrice: real, currentValue: real, status: PositionStatus,
                               pnl: real, settledAt: Option<int>, openedAt: int)

  type Key = (int, Outcome)

  function OutcomeName(s: Outcome): string { if s == YES then "YES" else "NO" }

  /** settlement_payout_price: collateral per share, None until the oracle has posted. */
  function SettlementPayout(e: Event, s: Outcome): Option<real> {
    if e.status == Voided then Some(0.5)
    else if e.status == Resolved || e.status == Finalized then
      if e.winner == "" then None
      else Some(if OutcomeName(s) == e.winner then 1.0 else 0.0)
    else None
  }

  /** A complete set of one YES and one NO share always pays out exactly one unit of collateral,
      whenever it pays out and the posted winner is a side of the market. */
  lemma CompleteSetPaysOne(e: Event)
    requires e.status != Voided ==> e.winner in {"", "YES", "NO"}
    ensures SettlementPayout(e, YES).Some? <==> SettlementPayout(e, NO).Some?
    ensures SettlementPayout(e, YES).Some? ==>
              SettlementPayout(e, YES).value + SettlementPayout(e, NO).value == 1.0
  {
  }

  /** Who is paid: the side the winner names gets one unit a share and the other side nothing, a void pays both one
      half, and nobody is paid before a winner is posted or in any other status. */
  lemma WinnerTakesAll(e: Event)
    ensures e.status in {Resolved, Finalized} && e.winner == "YES" ==>
              SettlementPayout(e, YES) == Some(1.0) && SettlementPayout(e, NO) == Some(0.0)
    ensures e.status in {Resolved, Finalized} && e.winner == "NO" ==>
              SettlementPayout(e, YES) == Some(0.0) && SettlementPayout(e, NO) == Some(1.0)
    ensures e.status == Voided ==> SettlementPayout(e, YES) == Some(0.5) && SettlementPayout(e, NO) == Some(0.5)
    ensures (e.status in {Resolved, Finalized} && e.winner == "") || e.status !in {Resolved, Finalized, Voided} ==>
              SettlementPayout(e, YES) == None && SettlementPayout(e, NO) == None
  {
  }

  const BUY_QTY: Trade -> real := (t: Trade) => if t.side != Sell then t.amount else 0.0
  const SELL_QTY: Trade -> real := (t: Trade) => if t.side == Sell then t.amount else 0.0
  const BUY_COST: Trade -> real := (t: Trade) => if t.side != Sell then t.amount * t.price else 0.0
  const SELL_PROCEEDS: Trade -> real := (t: Trade) => if t.side == Sell then t.amount * t.price else 0.0

  datatype Totals = Totals(buyQty: real, sellQty: real, buyCost: real, sellProceeds: real, earliest: int) {
    function Remaining(): real { buyQty - sellQty }
    predicate NonNegative() { buyQty >= 0.0 && sellQty >= 0.0 }
  }

  function Earliest(g: seq<Trade>): (m: int)
    requires g != []
    ensures (exists t :: t in g && t.openedAt == m) && forall t :: t in g ==> m <= t.openedAt
  {
    var last := g[|g| - 1].openedAt;
    if |g| == 1 then last
    else
      assert g == g[..|g| - 1] + [g[|g| - 1]];
      var m := Earliest(g[..|g| - 1]);
      if last < m then last else m
  }

  function TotalsOf(g: seq<Trade>): Totals
    requires g != []
  {
    Totals(Sum(g, BUY_QTY), Sum(g, SELL_QTY), Sum(g, BUY_COST), Sum(g, SELL_PROCEEDS), Earliest(g))
  }

  predicate InGroup(k: Key, t: Trade) { t.status == Confirmed && (t.event, t.outcome) == k }

  function Group(trades: seq<Trade>, k: Key): seq<Trade> { Filter(trades, (t: Trade) => InGroup(k, t)) }

  function KeysOf(trades: seq<Trade>): set<Key> {
    set t | t in trades && t.status == Confirmed :: (t.event, t.outcome)
  }

  function AverageEntry(t: Totals): real {
    if t.buyQty > 0.0 then Quantize4(t.buyCost / t.buyQty) else 0.0
  }

  function Realized(t: Totals): real {
    if t.sellQty > 0.0 then Quantize4(t.sellQty * (t.sellProceeds / t.sellQty - AverageEntry(t))) else 0.0
  }

  function HeldPnl(remaining: real, avg: real, price: real, realized: real): real {
    Quantize4(realized + Quantize4(remaining * (price - avg)))
  }

  function PaidPnl(remaining: real, avg: real, payout: real, realized: real): real {
    Quantize4(Quantize4(remaining * payout) - remaining * avg + realized)
  }

  datatype Kind = SoldOut | Held | PaidOut

  /** The amounts written to a position row, before its status is decided. */
  datatype Figures = Figures(kind: Kind, amount: real, entryPrice: real, value: real, pnl: real, openedAt: int)

  function FiguresOf(t: Totals, price: real, payout: Option<real>): Figures {
    FiguresAt(t, AverageEntry(t), Realized(t), price, payout)
  }

  function FiguresAt(t: Totals, avg: real, realized: real, price: real, payout: Option<real>): Figures {
    if t.Remaining() <= 0.0 then
      Figures(SoldOut, if t.buyQty > 0.0 then t.buyQty else t.sellQty, avg, 0.0,
              Quantize4(t.sellProceeds - t.buyCost), t.earliest)
    else if payout.None? then
      Figures(Held, t.Remaining(), avg, Quantize4(t.Remaining() * price),
              HeldPnl(t.Remaining(), avg, price, realized), t.earliest)
    else
      Figures(PaidOut, t.Remaining(), avg, Quantize4(t.Remaining() * payout.value),
              PaidPnl(t.Remaining(), avg, payout.value, realized), t.earliest)
  }

  /** The row a group of trades turns into, given the row it had before. */
  function Apply(existing: Option<Position>, f: Figures, now: int): Position {
    var settledBefore := if existing.Some? then existing.value.settledAt else None;
    var settledNow := if settledBefore.Some? then settledBefore else Some(now);
    var wasClosed := existing.Some? && existing.value.status == Closed;
    match f.kind
    case SoldOut => Position(f.amount, f.entryPrice, f.value, Closed, f.pnl, settledNow, f.openedAt)
    case Held => Position(f.amount, f.entryPrice, f.value, Open, f.pnl, settledBefore, f.openedAt)
    case PaidOut => Position(f.amount, f.entryPrice, f.value, if wasClosed then Closed else SettledUp, f.pnl,
                             settledNow, f.openedAt)
  }

  function Abs(x: real): real { if x < 0.0 then -x else x }

  /** Exact profit: what was sold, plus what the remaining shares are worth, minus what was paid. */
  function ExactPnl(t: Totals, worth: real): real {
    t.sellProceeds + t.Remaining() * worth - t.buyCost
  }

  lemma AverageEntryCost(t: Totals)
    requires t.buyQty > 0.0
    ensures Abs(t.buyQty * AverageEntry(t) - t.buyCost) <= 0.00005 * t.buyQty
  {
    RoundedAverage(t.buyQty, t.buyCost, AverageEntry(t), 0.00005);
  }

  lemma RealizedError(t: Totals)
    requires t.sellQty >= 0.0 && SellsPriced(t)
    ensures Abs(Realized(t) - (t.sellProceeds - t.sellQty * AverageEntry(t))) <= 0.00005
  {
    hide AverageEntry, Quantize4, FourPlaces;
    if t.sellQty > 0.0 { RealizedExact(t.sellQty, t.sellProceeds, AverageEntry(t)); }
  }

  /** What the sold shares brought in less their average cost. */
  lemma RealizedExact(q: real, proceeds: real, avg: real)
    requires q > 0.0
    ensures q * (proceeds / q - avg) == proceeds - q * avg
  {
    var perShare := proceeds / q;
    MulDiv(q, proceeds);
    Distribute(q, perShare, avg);
  }

  lemma Distribute(q: real, a: real, b: real)
    ensures q * (a - b) == q * a - q * b
  {
  }

  ghost predicate SellsPriced(t: Totals) { t.sellQty == 0.0 ==> t.sellProceeds == 0.0 }

  ghost predicate PnlWithinBound(pnl: real, t: Totals, price: real, payout: Option<real>) {
    if t.Remaining() <= 0.0 then Abs(pnl - (t.sellProceeds - t.buyCost)) <= 0.00005
    else if payout.None? then Abs(pnl - ExactPnl(t, price)) <= 0.00005 * t.buyQty + 0.0001
    else Abs(pnl - ExactPnl(t, payout.value)) <= 0.00005 * t.buyQty + 0.00015
  }

  /** Stored PnL is within half a quantum per rounding of the exact figure, plus the share of the
      rounded average entry price. */
  lemma PnlRoundingBound(t: Totals, price: real, payout: Option<real>)
    requires t.NonNegative() && SellsPriced(t)
    ensures PnlWithinBound(FiguresOf(t, price, payout).pnl, t, price, payout)
  {
    if t.Remaining() > 0.0 {
      var avg, realized := RoundedParts(t, price, payout);
      PnlBoundAt(t, avg, realized, price, payout);
    }
  }

  /** The rounded average price and realised profit the figures are computed from. */
  lemma RoundedParts(t: Totals, price: real, payout: Option<real>) returns (avg: real, realized: real)
    requires t.NonNegative() && SellsPriced(t) && t.Remaining() > 0.0
    ensures FourPlaces(realized) && FiguresOf(t, price, payout) == FiguresAt(t, avg, realized, price, payout)
    ensures Abs(t.buyQty * avg - t.buyCost) <= 0.00005 * t.buyQty
    ensures Abs(realized - (t.sellProceeds - t.sellQty * avg)) <= 0.00005
  {
    hide Quantize4, FiguresAt;
    avg, realized := AverageEntry(t), Realized(t);
    AverageEntryCost(t);
    RealizedError(t);
    RealizedFourPlaces(t);
  }

  lemma PnlBoundAt(t: Totals, avg: real, realized: real, price: real, payout: Option<real>)
    requires t.Remaining() > 0.0 && FourPlaces(realized)
    requires Abs(t.buyQty * avg - t.buyCost) <= 0.00005 * t.buyQty
    requires Abs(realized - (t.sellProceeds - t.sellQty * avg)) <= 0.00005
    ensures PnlWithinBound(FiguresAt(t, avg, realized, price, payout).pnl, t, price, payout)
  {
    if payout.None? {
      var pnl := HeldPnlError(t.Remaining(), avg, price, realized);
      PnlFromParts(t, price, avg, realized, pnl, 0.00005);
    } else {
      var pnl := PaidPnlError(t.Remaining(), avg, payout.value, realized);
      PnlFromParts(t, payout.value, avg, realized, pnl, 0.0001);
    }
  }

  /** Realised profit plus the held part at the given worth per share, before any rounding. */
  function Unrounded(remaining: real, avg: real, worth: real, realized: real): real {
    realized + remaining * worth - remaining * avg
  }

  /** Adding up the rounding errors of the average price, the realised part and the held part. */
  lemma PnlFromParts(t: Totals, worth: real, avg: real, realized: real, pnl: real, last: real)
    requires Abs(t.buyQty * avg - t.buyCost) <= 0.00005 * t.buyQty
    requires Abs(realized - (t.sellProceeds - t.sellQty * avg)) <= 0.00005
    requires Abs(pnl - Unrounded(t.Remaining(), avg, worth, realized)) <= last
    ensures Abs(pnl - ExactPnl(t, worth)) <= 0.00005 * t.buyQty + 0.00005 + last
  {
    assert t.Remaining() * avg == t.buyQty * avg - t.sellQty * avg;
    ErrorsAdd(t.buyQty * avg - t.buyCost, realized - (t.sellProceeds - t.sellQty * avg),
              pnl - Unrounded(t.Remaining(), avg, worth, realized), 0.00005 * t.buyQty, 0.00005, last);
  }

  lemma ErrorsAdd(a: real, b: real, c: real, x: real, y: real, z: real)
    requires Abs(a) <= x && Abs(b) <= y && Abs(c) <= z
    ensures Abs(c + b - a) <= x + y + z
  {
  }

  /** One rounding: the last quantize of an open position's PnL never changes the value. */
  lemma HeldPnlError(remaining: real, avg: real, price: real, realized: real) returns (pnl: real)
    requires FourPlaces(realized)
    ensures pnl == HeldPnl(remaining, avg, price, realized)
    ensures Abs(pnl - Unrounded(remaining, avg, price, realized)) <= 0.00005
  {
    var unrealized := Quantize4(remaining * (price - avg));
    FourPlacesSum(realized, unrealized);
    Quantize4Exact(realized + unrealized);
    assert remaining * (price - avg) == remaining * price - remaining * avg;
    pnl := realized + unrealized;
  }

  lemma PaidPnlError(remaining: real, avg: real, payout: real, realized: real) returns (pnl: real)
    ensures pnl == PaidPnl(remaining, avg, payout, realized)
    ensures Abs(pnl - Unrounded(remaining, avg, payout, realized)) <= 0.0001
  {
    pnl := PaidPnl(remaining, avg, payout, realized);
  }

  lemma RealizedFourPlaces(t: Totals)
    ensures FourPlaces(Realized(t))
  {
    assert 0.0 == Tenthousandths(0);
  }

  /** The error does grow with the quantity: 0.00005 per bought share is reached. */
  lemma PnlErrorGrowsWithQuantity()
    ensures exists t: Totals :: t.NonNegative() && t.Remaining() > 0.0 && t.buyQty == 20000.0
              && Abs(FiguresOf(t, 0.0, None).pnl - ExactPnl(t, 0.0)) == 0.00005 * t.buyQty
  {
    var t := Totals(20000.0, 0.0, 1.0, 0.0, 0);
    assert t.buyCost / t.buyQty == 0.00005;
    RoundHalfEvenUnique(0.5, 0);
    assert AverageEntry(t) == 0.0;
    RoundHalfEvenUnique(0.0, 0);
    assert FiguresOf(t, 0.0, None).pnl == 0.0;
    assert ExactPnl(t, 0.0) == -1.0;
  }

  /** Which status a sync assigns, in both directions. */
  lemma StatusAfterSync(existing: Option<Position>, t: Totals, price: real, payout: Option<real>, now: int)
    ensures var p := Apply(existing, FiguresOf(t, price, payout), now);
            var wasClosed := existing.Some? && existing.value.status == Closed;
            && (p.status == Closed <==> t.Remaining() <= 0.0 || (payout.Some? && wasClosed))
            && (p.status == Open <==> t.Remaining() > 0.0 && payout.None?)
            && (t.Remaining() > 0.0 ==> p.amount == t.Remaining())
            && p.settledAt == (if existing.Some? && existing.value.settledAt.Some? then existing.value.settledAt
                               else if p.status == Open then None else Some(now))
  {
  }

  ghost predicate Referenced(trades: seq<Trade>, events: map<int, Event>) {
    forall t :: t in trades ==> t.event in events && t.outcome in events[t.event].prices
  }

  lemma GroupNonEmpty(trades: seq<Trade>, k: Key)
    ensures k in KeysOf(trades) <==> Group(trades, k) != []
  {
    FilterMembers(trades, (t: Trade) => InGroup(k, t));
    if k in KeysOf(trades) {
      var t :| t in trades && t.status == Confirmed && (t.event, t.outcome) == k;
      assert t in Group(trades, k);
    }
    if Group(trades, k) != [] {
      assert Group(trades, k)[0] in Group(trades, k);
    }
  }

  function TotalsTable(trades: seq<Trade>): map<Key, Totals> {
    map k | k in KeysOf(trades) :: (GroupNonEmpty(trades, k); TotalsOf(Group(trades, k)))
  }

  ghost predicate Priced(totals: map<Key, Totals>, events: map<int, Event>) {
    forall k :: k in totals ==> k.0 in events && k.1 in events[k.0].prices
  }

  function FiguresTable(totals: map<Key, Totals>, events: map<int, Event>): map<Key, Figures>
    requires Priced(totals, events)
  {
    map k | k in totals :: FiguresOf(totals[k], events[k.0].prices[k.1], SettlementPayout(events[k.0], k.1))
  }

  function ApplyAll(ps: map<Key, Position>, figures: map<Key, Figures>, now: int): map<Key, Position> {
    ps + map k | k in figures :: Apply(Get(ps, k), figures[k], now)
  }

  /** The position table after sync_positions. */
  function Synced(ps: map<Key, Position>, trades: seq<Trade>, events: map<int, Event>, now: int): map<Key, Position>
    requires Referenced(trades, events)
  {
    ApplyAll(ps, FiguresTable(TotalsTable(trades), events), now)
  }

  lemma ApplyAllIdempotent(ps: map<Key, Position>, figures: map<Key, Figures>, now: int, later: int)
    ensures ApplyAll(ApplyAll(ps, figures, now), figures, later) == ApplyAll(ps, figures, now)
  {
    var once := ApplyAll(ps, figures, now);
    hide Apply;
    forall k | k in figures ensures Apply(Get(once, k), figures[k], later) == once[k] {
      assert once[k] == Apply(Get(ps, k), figures[k], now);
      ApplyTwice(Get(ps, k), figures[k], now, later);
    }
  }

  lemma ApplyTwice(existing: Option<Position>, f: Figures, now: int, later: int)
    ensures Apply(Some(Apply(existing, f, now)), f, later) == Apply(existing, f, now)
  {
  }

  /** A second sync on the same data, at any later time, changes nothing. */
  lemma SyncIdempotent(ps: map<Key, Position>, trades: seq<Trade>, events: map<int, Event>, now: int, later: int)
    requires Referenced(trades, events)
    ensures Synced(Synced(ps, trades, events, now), trades, events, later) == Synced(ps, trades, events, now)
  {
    ApplyAllIdempotent(ps, FiguresTable(TotalsTable(trades), events), now, later);
  }

  /** The order trades are returned in does not matter. */
  lemma SyncOrderIndependent(ps: map<Key, Position>, trades: seq<Trade>, shuffled: seq<Trade>, events: map<int, Event>,
                             now: int)
    requires Referenced(trades, events) && Referenced(shuffled, events)
    requires multiset(trades) == multiset(shuffled)
    ensures Synced(ps, trades, events, now) == Synced(ps, shuffled, events, now)
  {
    TotalsTablePermutation(trades, shuffled);
  }

  lemma TotalsTablePermutation(trades: seq<Trade>, shuffled: seq<Trade>)
    requires multiset(trades) == multiset(shuffled)
    ensures TotalsTable(trades) == TotalsTable(shuffled)
  {
    hide KeysOf, Group, TotalsOf;
    SameKeys(trades, shuffled);
    forall k | k in KeysOf(trades) ensures TotalsTable(trades)[k] == TotalsTable(shuffled)[k] {
      GroupPermutation(trades, shuffled, k);
    }
  }

  lemma SameKeys(trades: seq<Trade>, shuffled: seq<Trade>)
    requires multiset(trades) == multiset(shuffled)
    ensures KeysOf(trades) == KeysOf(shuffled)
  {
    assert forall t :: t in trades <==> t in multiset(trades);
    assert forall t :: t in shuffled <==> t in multiset(shuffled);
  }

  lemma GroupPermutation(trades: seq<Trade>, shuffled: seq<Trade>, k: Key)
    requires multiset(trades) == multiset(shuffled)
    requires k in KeysOf(trades) && k in KeysOf(shuffled)
    ensures Group(trades, k) != [] && Group(shuffled, k) != []
    ensures TotalsOf(Group(trades, k)) == TotalsOf(Group(shuffled, k))
  {
    FilterPermutation(trades, shuffled, (t: Trade) => InGroup(k, t));
    GroupNonEmpty(trades, k);
    GroupNonEmpty(shuffled, k);
    TotalsPermutation(Group(trades, k), Group(shuffled, k));
  }

  lemma TotalsPermutation(g: seq<Trade>, h: seq<Trade>)
    requires g != [] && h != [] && multiset(g) == multiset(h)
    ensures TotalsOf(g) == TotalsOf(h)
  {
    SumPermutation(g, h, BUY_QTY);
    SumPermutation(g, h, SELL_QTY);
    SumPermutation(g, h, BUY_COST);
    SumPermutation(g, h, SELL_PROCEEDS);
    assert forall t :: t in g <==> t in multiset(g);
    assert forall t :: t in h <==> t in multiset(h);
  }

  /** The remaining quantity a position is built from is the confirmed net holding. */
  lemma RemainingIsNetHolding(trades: seq<Trade>, k: Key)
    requires k in KeysOf(trades)
    ensures Group(trades, k) != []
    ensures TotalsOf(Group(trades, k)).Remaining() == NetHolding(trades, k.0, k.1)
  {
    GroupNonEmpty(trades, k);
    FilterMembers(trades, (t: Trade) => InGroup(k, t));
    SumFilter(trades, (t: Trade) => InGroup(k, t), NetOf(k.0, k.1), NetOf(k.0, k.1));
    NetIsBuysMinusSells(Group(trades, k), k);
  }

  lemma {:induction false} NetIsBuysMinusSells(g: seq<Trade>, k: Key)
    requires forall t :: t in g ==> InGroup(k, t)
    ensures Sum(g, NetOf(k.0, k.1)) == Sum(g, BUY_QTY) - Sum(g, SELL_QTY)
  {
    if g != [] {
      assert g[|g| - 1] in g;
      NetIsBuysMinusSells(g[..|g| - 1], k);
    }
  }

  /** What a group cost less what it brought in is what its trades put in. */
  lemma CostsAreSpent(trades: seq<Trade>, k: Key)
    requires k in KeysOf(trades)
    ensures Group(trades, k) != []
    ensures var t := TotalsOf(Group(trades, k)); t.buyCost - t.sellProceeds == Sum(trades, SpentOf(k.0, k.1))
  {
    GroupNonEmpty(trades, k);
    FilterMembers(trades, (t: Trade) => InGroup(k, t));
    forall t: Trade ensures SpentOf(k.0, k.1)(t) == if InGroup(k, t) then BUY_COST(t) - SELL_PROCEEDS(t) else 0.0 {
      SpentOnTrade(t, k);
    }
    SumFilter(trades, (t: Trade) => InGroup(k, t), SpentOf(k.0, k.1), SpentOf(k.0, k.1));
    SpentIsCostMinusProceeds(Group(trades, k), k);
  }

  lemma {:induction false} SpentIsCostMinusProceeds(g: seq<Trade>, k: Key)
    requires forall t :: t in g ==> InGroup(k, t)
    ensures Sum(g, SpentOf(k.0, k.1)) == Sum(g, BUY_COST) - Sum(g, SELL_PROCEEDS)
  {
    if g != [] {
      assert g[|g| - 1] in g;
      SpentOnTrade(g[|g| - 1], k);
      SpentIsCostMinusProceeds(g[..|g| - 1], k);
    }
  }

  lemma SpentOnTrade(t: Trade, k: Key)
    ensures SpentOf(k.0, k.1)(t) == if InGroup(k, t) then BUY_COST(t) - SELL_PROCEEDS(t) else 0.0
  {
    var n := NetOf(k.0, k.1)(t);
    assert SpentOf(k.0, k.1)(t) == n * t.price;
    Negated(t.amount, t.price);
  }

  lemma Negated(a: real, p: real)
    ensures -a * p == -(a * p) && 0.0 * p == 0.0
  {
  }

  /** The winner posted for the market is this side. */
  ghost predicate Wins(e: Event, s: Outcome) {
    e.status in {Resolved, Finalized} && ((s == YES && e.winner == "YES") || (s == NO && e.winner == "NO"))
  }

  ghost predicate Loses(e: Event, s: Outcome) {
    e.status in {Resolved, Finalized} && ((s == YES && e.winner == "NO") || (s == NO && e.winner == "YES"))
  }

  ghost predicate Unpaid(e: Event) {
    (e.status in {Resolved, Finalized} && e.winner == "") || e.status !in {Resolved, Finalized, Voided}
  }

  /** A four-place number within half a place of what the shares are worth at the price. */
  ghost predicate RoundedWorth(value: real, shares: real, price: real) {
    -0.00005 <= value - shares * price <= 0.00005 && FourPlaces(value)
  }

  /** The row a sync leaves, on its inputs: what is held is worth its quantity when its side won, nothing when it lost,
      half in a void and the market price otherwise; the entry price is the average cost to four places, and the row
      was opened with the first trade. */
  lemma StoredRow(ps: map<Key, Position>, trades: seq<Trade>, events: map<int, Event>, now: int, k: Key)
    requires Referenced(trades, events) && k in KeysOf(trades)
    ensures k in Synced(ps, trades, events, now) && k.0 in events && k.1 in events[k.0].prices && Group(trades, k) != []
    ensures var row, e, held := Synced(ps, trades, events, now)[k], events[k.0], NetHolding(trades, k.0, k.1);
            && (held <= 0.0 ==> row.status == Closed && row.currentValue == 0.0)
            && (held > 0.0 ==>
                  && row.amount == held
                  && (Wins(e, k.1) ==> row.status != Open && row.currentValue == Quantize4(held))
                  && (Loses(e, k.1) ==> row.status != Open && row.currentValue == 0.0)
                  && (e.status == Voided ==> row.status != Open && row.currentValue == Quantize4(held / 2.0))
                  && (Unpaid(e) ==> row.status == Open && RoundedWorth(row.currentValue, held, e.prices[k.1])))
    ensures var row, t := Synced(ps, trades, events, now)[k], TotalsOf(Group(trades, k));
            && (if t.buyQty > 0.0 then row.entryPrice == Quantize4(t.buyCost / t.buyQty) else row.entryPrice == 0.0)
            && (NetHolding(trades, k.0, k.1) <= 0.0 ==> row.amount == if t.buyQty > 0.0 then t.buyQty else t.sellQty)
    ensures var since := Synced(ps, trades, events, now)[k].openedAt;
            && (exists t :: t in Group(trades, k) && t.openedAt == since)
            && forall t :: t in Group(trades, k) ==> since <= t.openedAt
  {
    hide Group, NetHolding, TotalsOf, Apply, FiguresOf, Totals.Remaining, RoundedWorth, Quantize4, Wins, Loses, Unpaid,
      SettlementPayout;
    GroupNonEmpty(trades, k);
    RemainingIsNetHolding(trades, k);
    var t, e := TotalsOf(Group(trades, k)), events[k.0];
    assert FiguresTable(TotalsTable(trades), events)[k] == FiguresOf(t, e.prices[k.1], SettlementPayout(e, k.1));
    AppliedRow(Get(ps, k), t, e, k.1, now);
    EarliestOfGroup(Group(trades, k));
  }

  lemma EarliestOfGroup(g: seq<Trade>)
    requires g != []
    ensures TotalsOf(g).earliest == Earliest(g)
  {
  }

  lemma AppliedRow(existing: Option<Position>, t: Totals, e: Event, s: Outcome, now: int)
    requires s in e.prices
    ensures var row, held := Apply(existing, FiguresOf(t, e.prices[s], SettlementPayout(e, s)), now), t.Remaining();
            && (held <= 0.0 ==> row.status == Closed && row.currentValue == 0.0
                                && row.amount == if t.buyQty > 0.0 then t.buyQty else t.sellQty)
            && (held > 0.0 ==>
                  && row.amount == held
                  && (Wins(e, s) ==> row.status != Open && row.currentValue == Quantize4(held))
                  && (Loses(e, s) ==> row.status != Open && row.currentValue == 0.0)
                  && (e.status == Voided ==> row.status != Open && row.currentValue == Quantize4(held / 2.0))
                  && (Unpaid(e) ==> row.status == Open && RoundedWorth(row.currentValue, held, e.prices[s])))
            && row.entryPrice == (if t.buyQty > 0.0 then Quantize4(t.buyCost / t.buyQty) else 0.0)
            && row.openedAt == t.earliest
  {
    hide Quantize4, SettlementPayout, FiguresOf, RoundedWorth, Totals.Remaining;
    WinnerTakesAll(e);
    FiguresMean(t, e.prices[s], SettlementPayout(e, s));
  }

  lemma FiguresMean(t: Totals, price: real, payout: Option<real>)
    ensures var f, held := FiguresOf(t, price, payout), t.Remaining();
            && f.kind == (if held <= 0.0 then SoldOut else if payout.None? then Held else PaidOut)
            && (held <= 0.0 ==> f.value == 0.0 && f.amount == if t.buyQty > 0.0 then t.buyQty else t.sellQty)
            && (held > 0.0 ==> f.amount == held)
            && (held > 0.0 && payout.None? ==> RoundedWorth(f.value, held, price))
            && (held > 0.0 && payout == Some(1.0) ==> f.value == Quantize4(held))
            && (held > 0.0 && payout == Some(0.0) ==> f.value == 0.0)
            && (held > 0.0 && payout == Some(0.5) ==> f.value == Quantize4(held / 2.0))
            && f.entryPrice == (if t.buyQty > 0.0 then Quantize4(t.buyCost / t.buyQty) else 0.0)
            && f.openedAt == t.earliest
  {
    hide Quantize4, Realized, HeldPnl, PaidPnl, Totals.Remaining, FourPlaces;
    Shares(t.Remaining());
  }

  lemma Shares(held: real)
    ensures Quantize4(held * 1.0) == Quantize4(held) && Quantize4(held * 0.0) == 0.0
    ensures Quantize4(held * 0.5) == Quantize4(held / 2.0)
  {
    RoundHalfEvenUnique(0.0, 0);
    assert held * 0.0 == 0.0 && held * 0.5 == held / 2.0;
  }

  lemma TotalsWellFormed(trades: seq<Trade>, k: Key)
    requires k in KeysOf(trades)
    requires forall t :: t in trades ==> t.amount > 0.0
    ensures Group(trades, k) != []
    ensures var t := TotalsOf(Group(trades, k));
            t.NonNegative() && SellsPriced(t)
  {
    GroupNonEmpty(trades, k);
    FilterMembers(trades, (t: Trade) => InGroup(k, t));
    var g := Group(trades, k);
    SumNonNegative(g, BUY_QTY);
    SumNonNegative(g, SELL_QTY);
    if Sum(g, SELL_QTY) == 0.0 { NoSellsNoProceeds(g); }
  }

  /** The profit stored by a sync is within the rounding bound of the exact one, whatever row was there before. */
  lemma StoredPnlWithinBound(ps: map<Key, Position>, trades: seq<Trade>, events: map<int, Event>, now: int, k: Key)
    requires Referenced(trades, events) && k in KeysOf(trades) && forall t :: t in trades ==> t.amount > 0.0
    ensures k in Synced(ps, trades, events, now) && Group(trades, k) != [] && k.0 in events && k.1 in events[k.0].prices
    ensures PnlWithinBound(Synced(ps, trades, events, now)[k].pnl, TotalsOf(Group(trades, k)), events[k.0].prices[k.1],
                           SettlementPayout(events[k.0], k.1))
  {
    hide FiguresOf, TotalsOf, Group, PnlWithinBound, SettlementPayout;
    TotalsWellFormed(trades, k);
    var t, price, payout := TotalsOf(Group(trades, k)), events[k.0].prices[k.1], SettlementPayout(events[k.0], k.1);
    PnlRoundingBound(t, price, payout);
    assert FiguresTable(TotalsTable(trades), events)[k] == FiguresOf(t, price, payout);
  }

  lemma {:induction false} NoSellsNoProceeds(g: seq<Trade>)
    requires forall t :: t in g ==> t.amount > 0.0
    requires Sum(g, SELL_QTY) == 0.0
    ensures Sum(g, SELL_PROCEEDS) == 0.0
  {
    if g != [] {
      var n := |g| - 1;
      SumNonNegative(g[..n], SELL_QTY);
      assert g[n] in g;
      NoSellsNoProceeds(g[..n]);
    }
  }

  /** One later sync of the position, with whatever trades and market data it then sees. */
  datatype SyncRun = SyncRun(trades: seq<Trade>, events: map<int, Event>, now: int)

  ghost predicate StillSettled(run: SyncRun, k: Key) {
    k.0 in run.events && SettlementPayout(run.events[k.0], k.1).Some?
  }

  ghost function AfterRuns(ps: map<Key, Position>, runs: seq<SyncRun>): map<Key, Position>
    requires forall r :: r in runs ==> Referenced(r.trades, r.events)
  {
    if runs == [] then ps
    else
      var n := |runs| - 1;
      Synced(AfterRuns(ps, runs[..n]), runs[n].trades, runs[n].events, runs[n].now)
  }

  /** A position marked Closed by a redeem stays Closed through any number of later syncs while
      the market stays resolved or voided, whatever trades arrive in between. */
  lemma {:induction false} ClosedSurvivesResync(ps: map<Key, Position>, k: Key, runs: seq<SyncRun>)
    requires k in ps && ps[k].status == Closed
    requires forall r :: r in runs ==> Referenced(r.trades, r.events) && StillSettled(r, k)
    ensures k in AfterRuns(ps, runs) && AfterRuns(ps, runs)[k].status == Closed
  {
    if runs != [] {
      var n := |runs| - 1;
      ClosedSurvivesResync(ps, k, runs[..n]);
      ClosedStays(AfterRuns(ps, runs[..n]), k, runs[n]);
    }
  }

  lemma OnlyUnsettledIsHeld(totals: map<Key, Totals>, events: map<int, Event>, k: Key)
    requires Priced(totals, events) && k in totals
    ensures FiguresTable(totals, events)[k].kind == Held ==> SettlementPayout(events[k.0], k.1).None?
  {
  }

  lemma ClosedStaysUnlessHeld(ps: map<Key, Position>, k: Key, figures: map<Key, Figures>, now: int)
    requires k in ps && ps[k].status == Closed
    requires k in figures ==> figures[k].kind != Held
    ensures k in ApplyAll(ps, figures, now) && ApplyAll(ps, figures, now)[k].status == Closed
  {
  }

  lemma ClosedStays(ps: map<Key, Position>, k: Key, run: SyncRun)
    requires k in ps && ps[k].status == Closed
    requires Referenced(run.trades, run.events) && StillSettled(run, k)
    ensures var after := Synced(ps, run.trades, run.events, run.now);
            k in after && after[k].status == Closed
  {
    var totals := TotalsTable(run.trades);
    if k in totals { OnlyUnsettledIsHeld(totals, run.events, k); }
    ClosedStaysUnlessHeld(ps, k, FiguresTable(totals, run.events), run.now);
  }
}
