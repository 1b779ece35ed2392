/** Importing on-chain fills into Trade rows: what sync_trades_from_fills adds, why it is
    exactly-once, and when a repeated sync adds nothing. */
module FillImport {
  import opened Wrappers
  import opened Markets

  datatype Side = Buy | Sell

  datatype TradeStatus = Prepared | AwaitingConfirmation | Submitted | Confirmed | Failed | Expired

  /** A Trade row of one user. wallet and fillId come from its metadata. */
  datatype Trade = Trade(event: int, outcome: Outcome, side: Side, amount: real, price: real,
                         extId: string, txHash: string, status: TradeStatus,
                         wallet: string, fillId: string, openedAt: int)

  /** One fill as returned for one of the user's accounts. */
  datatype Found = Found(account: string, fill: Fill)

  function ExtId(p: Found): string { FillKey(p.fill.id, p.account) }

  /** _fill_side_for_wallet: the taker side is tried first. */
  function SideForWallet(f: Fill, w: string): Option<Outcome> {
    if f.taker != "" && f.taker == w then Some(f.takerSide)
    else if f.maker != "" && f.maker == w then Some(f.makerSide)
    else None
  }

  /** _fill_is_buy_for_wallet */
  predicate IsBuyForWallet(f: Fill, w: string) {
    if f.taker != "" && f.taker == w then f.takerIsBuy
    else if f.maker != "" && f.maker == w then f.makerIsBuy
    else true
  }

  predicate Importable(p: Found, ix: Index, events: map<int, Event>) {
    var e := EventForFill(p.fill, ix);
    var s := SideForWallet(p.fill, p.account);
    e.Some? && e.value in events && s.Some? && s.value in events[e.value].prices && p.fill.quantity > 0.0
  }

  function TradeOf(p: Found, ix: Index): Trade
    requires EventForFill(p.fill, ix).Some? && SideForWallet(p.fill, p.account).Some?
  {
    Trade(EventForFill(p.fill, ix).value, SideForWallet(p.fill, p.account).value,
          if IsBuyForWallet(p.fill, p.account) then Buy else Sell,
          p.fill.quantity, p.fill.price, ExtId(p), p.fill.txHash, Confirmed,
          p.account, p.fill.id, p.fill.timestamp)
  }

  /** The user already recorded this transaction from the UI. */
  predicate UiRecorded(trades: seq<Trade>, f: Fill) {
    f.txHash != "" &&
    exists t :: t in trades && t.status == Confirmed && t.extId == "" && t.txHash == f.txHash
  }

  predicate HasExtId(trades: seq<Trade>, id: string) {
    exists t :: t in trades && t.extId == id
  }

  predicate Wanted(p: Found, before: seq<Trade>, ix: Index, events: map<int, Event>) {
    Importable(p, ix, events) && !UiRecorded(before, p.fill)
  }

  /** The rows one sync appends, in the order the fills were found. */
  function Fresh(before: seq<Trade>, found: seq<Found>, ix: Index, events: map<int, Event>): seq<Trade> {
    if found == [] then []
    else
      var prior := Fresh(before, found[..|found| - 1], ix, events);
      var p := found[|found| - 1];
      if Wanted(p, before, ix, events) && !HasExtId(before + prior, ExtId(p))
      then prior + [TradeOf(p, ix)]
      else prior
  }

  /** Non-empty external ids never coincide. */
  ghost predicate IdsUnique(trades: seq<Trade>) {
    forall i, j :: 0 <= i < j < |trades| && trades[i].extId != "" ==> trades[i].extId != trades[j].extId
  }

  lemma ExtIdNonEmpty(p: Found)
    ensures ExtId(p) != ""
  {
    assert |ExtId(p)| >= 1;
  }

  /** Row t is what fill f says about account a: its size, price, time and transaction, on the side the account took,
      the taker's when it took both. */
  ghost predicate BooksFill(t: Trade, a: string, f: Fill) {
    && t.status == Confirmed && t.amount == f.quantity && t.price == f.price
    && t.openedAt == f.timestamp && t.txHash == f.txHash
    && t.wallet == a && t.fillId == f.id && t.extId == f.id + ":" + a
    && (if a == f.taker then t.outcome == f.takerSide && (t.side == Buy <==> f.takerIsBuy)
        else a == f.maker && t.outcome == f.makerSide && (t.side == Buy <==> f.makerIsBuy))
  }

  /** What a fill needs to be imported: a known event, a side the account took and the event has, some size, and no
      confirmed trade that the user placed here with the same transaction. */
  lemma WantedIff(p: Found, before: seq<Trade>, ix: Index, events: map<int, Event>)
    requires p.account != ""
    ensures var f, e := p.fill, EventForFill(p.fill, ix);
            Wanted(p, before, ix, events) <==>
              && e.Some? && e.value in events && f.quantity > 0.0
              && (if f.taker == p.account then f.takerSide in events[e.value].prices
                  else f.maker == p.account && f.makerSide in events[e.value].prices)
              && forall t :: t in before && t.status == Confirmed && t.extId == "" && t.txHash == f.txHash ==>
                   f.txHash == ""
  {
  }

  /** Every appended row books a wanted fill, field by field, on the event the fill was attributed to; ids stay unique,
      and every wanted fill has a row afterwards. */
  lemma {:induction false} FreshIsExactlyOnce(before: seq<Trade>, found: seq<Found>, ix: Index, events: map<int, Event>)
    requires IdsUnique(before)
    ensures IdsUnique(before + Fresh(before, found, ix, events))
    ensures forall t :: t in Fresh(before, found, ix, events) ==>
              !HasExtId(before, t.extId)
              && exists p :: p in found && Wanted(p, before, ix, events) && t == TradeOf(p, ix)
                   && BooksFill(t, p.account, p.fill) && EventForFill(p.fill, ix) == Some(t.event)
    ensures forall p :: p in found && Wanted(p, before, ix, events) ==>
              HasExtId(before + Fresh(before, found, ix, events), ExtId(p))
  {
    if found != [] {
      var n := |found| - 1;
      var prior := Fresh(before, found[..n], ix, events);
      var p := found[n];
      FreshIsExactlyOnce(before, found[..n], ix, events);
      var all := Fresh(before, found, ix, events);
      ExtIdNonEmpty(p);
      if all != prior {
        assert before + all == (before + prior) + [TradeOf(p, ix)];
        assert TradeOf(p, ix) in before + all;
        forall q | HasExtId(before + prior, q) ensures HasExtId(before + all, q) {
          var t :| t in before + prior && t.extId == q;
          assert t in before + all;
        }
      }
      forall q | q in found && Wanted(q, before, ix, events)
        ensures HasExtId(before + all, ExtId(q))
      {
        if q != p { assert q in found[..n]; }
      }
    }
  }

  /** Repeating a sync on unchanged data, in whatever order the fills now come back, adds nothing. */
  lemma {:induction false} RepeatedSyncAddsNothing(before: seq<Trade>, found: seq<Found>, again: seq<Found>,
                                                   ix: Index, events: map<int, Event>)
    requires IdsUnique(before)
    requires forall p :: p in again ==> p in found
    ensures Fresh(before + Fresh(before, found, ix, events), again, ix, events) == []
  {
    if again != [] {
      var after := before + Fresh(before, found, ix, events);
      var n := |again| - 1;
      RepeatedSyncAddsNothing(before, found, again[..n], ix, events);
      FreshIsExactlyOnce(before, found, ix, events);
      var p := again[n];
      if Wanted(p, after, ix, events) {
        assert UiRecorded(before, p.fill) ==> UiRecorded(after, p.fill);
        assert HasExtId(after + [], ExtId(p)) by { assert after + [] == after; }
      }
    }
  }

  predicate NoColon(account: string) { ':' !in account }

  /** The id of a row identifies the fill and the account it came from. */
  lemma ExtIdInjective(p: Found, q: Found)
    requires NoColon(p.account) && NoColon(q.account)
    requires ExtId(p) == ExtId(q)
    ensures p.fill.id == q.fill.id && p.account == q.account
  {
    var s, a, b := ExtId(p), |p.fill.id|, |q.fill.id|;
    assert s[..a] == p.fill.id && s[a] == ':' && s[a + 1..] == p.account;
    assert s[..b] == q.fill.id && s[b] == ':' && s[b + 1..] == q.account;
    assert forall i :: a < i < |s| ==> s[i] == p.account[i - a - 1];
    assert forall i :: b < i < |s| ==> s[i] == q.account[i - b - 1];
    assert a == b;
  }

  /** What a single step may do to the user's Trade table: a fill sync, or a UI trade
      being created or changing status (UI rows have no external id). */
  ghost predicate TableStep(s: seq<Trade>, t: seq<Trade>) {
    || (exists found, ix, events :: t == s + Fresh(s, found, ix, events))
    || (|t| == |s| + 1 && t[..|s|] == s && t[|s|].extId == "")
    || (|t| == |s| && forall i :: 0 <= i < |s| ==> t[i].extId == s[i].extId)
  }

  /** However often fills are synced between user trades, ids never coincide. */
  lemma {:induction false} IdsUniqueOverRuns(run: seq<seq<Trade>>)
    requires |run| > 0 && run[0] == []
    requires forall i :: 0 <= i < |run| - 1 ==> TableStep(run[i], run[i + 1])
    ensures IdsUnique(run[|run| - 1])
  {
    if |run| > 1 {
      var n := |run| - 2;
      IdsUniqueOverRuns(run[..n + 1]);
      var s, t := run[n], run[n + 1];
      assert TableStep(s, t);
      if found, ix, events :| t == s + Fresh(s, found, ix, events) {
        FreshIsExactlyOnce(s, found, ix, events);
      }
    }
  }
}
