/** Event Contract rows, on-chain fills, and the two ways the program decides which event a
    fill belongs to. Addresses, pools and market ids are already lower-cased and stripped. */
module Markets {
  import opened Wrappers

  datatype Outcome = YES | NO

  datatype Status = Listed | Trading | Locked | Settling | Resolved | Voided | Live | Finalized

  /** An EventContract row with its outcome rows: prices has a key for each outcome row. */
  datatype Event = Event(externalId: string, metaMarketId: string, pool: string,
                         status: Status, winner: string, expiry: int,
                         prices: map<Outcome, real>)

  datatype Fill = Fill(id: string, marketId: string, pool: string, price: real,
                       quantity: real, quote: real, maker: string, taker: string,
                       makerSide: Outcome, takerSide: Outcome,
                       makerIsBuy: bool, takerIsBuy: bool, timestamp: int, txHash: string)

  /** The external id of a fill as booked for one account. */
  function FillKey(fillId: string, account: string): string { fillId + ":" + account }

  predicate HexPrefixed(id: string) { |id| >= 2 && id[..2] == "0x" }

  predicate AllZeroDigits(id: string)
    requires HexPrefixed(id)
  {
    forall i :: 2 <= i < |id| ==> id[i] == '0'
  }

  /** A market id an on-chain fill can carry: 0x followed by something other than zeros. */
  predicate ChainMarketId(id: string) { HexPrefixed(id) && !AllZeroDigits(id) }

  /** _usable_market_id: the portfolio also accepts ids without the 0x prefix. */
  predicate UsableMarketId(id: string) {
    if HexPrefixed(id) then !AllZeroDigits(id) else id != ""
  }

  /** Which ids name a market: on the chain, 0x and then not only zeros; for the portfolio anything but the empty text
      and 0x followed by zeros only. A fill belongs to the event whose external or non-empty metadata id it names. */
  lemma MarketIdsMean(id: string, f: Fill, e: Event)
    ensures ChainMarketId(id) <==>
              |id| > 2 && id[0] == '0' && id[1] == 'x' && exists i :: 2 <= i < |id| && id[i] != '0'
    ensures UsableMarketId(id) <==>
              id != "" && !(|id| >= 2 && id[0] == '0' && id[1] == 'x' && forall i :: 2 <= i < |id| ==> id[i] == '0')
    ensures FillMatchesEvent(f, e) <==>
              ChainMarketId(f.marketId)
              && (f.marketId == e.externalId || (f.marketId == e.metaMarketId && e.metaMarketId != ""))
  {
    if |id| >= 2 { assert id[..2] == "0x" <==> id[0] == '0' && id[1] == 'x'; }
  }

  predicate CarriesId(e: Event, id: string) {
    id == e.externalId || (e.metaMarketId != "" && id == e.metaMarketId)
  }

  /** fill_matches_event: market id only, because pools are recycled across windows. */
  predicate FillMatchesEvent(f: Fill, e: Event) {
    ChainMarketId(f.marketId) && CarriesId(e, f.marketId)
  }

  /** The two dictionaries built by _event_maps. */
  datatype Index = Index(byPool: map<string, int>, byMarket: map<string, int>)

  ghost predicate IndexOf(ix: Index, events: map<int, Event>) {
    && (forall p :: p in ix.byPool ==> p != "" && ix.byPool[p] in events && events[ix.byPool[p]].pool == p)
    && (forall e :: e in events && events[e].pool != "" ==> events[e].pool in ix.byPool)
    && (forall m :: m in ix.byMarket ==>
          UsableMarketId(m) && ix.byMarket[m] in events
          && events[ix.byMarket[m]].pool != "" && CarriesId(events[ix.byMarket[m]], m))
    && (forall e, m :: e in events && events[e].pool != "" && UsableMarketId(m) && CarriesId(events[e], m)
          ==> m in ix.byMarket)
  }

  /** _event_maps over the rows in query order; a later row overwrites an earlier one. */
  method EventMaps(rows: seq<int>, events: map<int, Event>) returns (ix: Index)
    requires forall i :: 0 <= i < |rows| ==> rows[i] in events
    requires forall e :: e in events ==> e in rows
    ensures IndexOf(ix, events)
    ensures forall i :: 0 <= i < |rows| && events[rows[i]].pool != ""
                        && (forall j :: i < j < |rows| ==> events[rows[j]].pool != events[rows[i]].pool)
                        ==> events[rows[i]].pool in ix.byPool && ix.byPool[events[rows[i]].pool] == rows[i]
  {
    hide UsableMarketId, CarriesId;
    var byPool: map<string, int> := map[];
    var byMarket: map<string, int> := map[];
    for i := 0 to |rows|
      invariant PoolsUpTo(byPool, rows, events, i) && MarketsUpTo(byMarket, rows, events, i)
    {
      var event := events[rows[i]];
      PoolsNext(byPool, rows, events, i);
      MarketsNext(byMarket, rows, events, i);
      if event.pool != "" {
        byPool := byPool[event.pool := rows[i]];
        if UsableMarketId(event.externalId) {
          byMarket := byMarket[event.externalId := rows[i]];
        }
        if UsableMarketId(event.metaMarketId) {
          byMarket := byMarket[event.metaMarketId := rows[i]];
        }
      }
    }
    ix := Index(byPool, byMarket);
  }

  /** Pools of the first i rows, each pointing to the last of them that has it. */
  ghost predicate PoolsUpTo(byPool: map<string, int>, rows: seq<int>, events: map<int, Event>, i: nat)
    requires i <= |rows| && forall j :: 0 <= j < |rows| ==> rows[j] in events
  {
    && (forall p :: p in byPool ==> p != "" && byPool[p] in events && events[byPool[p]].pool == p)
    && (forall j :: 0 <= j < i && events[rows[j]].pool != "" ==> events[rows[j]].pool in byPool)
    && (forall k :: 0 <= k < i && events[rows[k]].pool != ""
                    && (forall j :: k < j < i ==> events[rows[j]].pool != events[rows[k]].pool)
                    ==> byPool[events[rows[k]].pool] == rows[k])
  }

  /** Usable market ids of the first i rows that have a pool. */
  ghost predicate MarketsUpTo(byMarket: map<string, int>, rows: seq<int>, events: map<int, Event>, i: nat)
    requires i <= |rows| && forall j :: 0 <= j < |rows| ==> rows[j] in events
  {
    && (forall m :: m in byMarket ==>
          UsableMarketId(m) && byMarket[m] in events
          && events[byMarket[m]].pool != "" && CarriesId(events[byMarket[m]], m))
    && (forall j, m :: 0 <= j < i && events[rows[j]].pool != "" && UsableMarketId(m) && CarriesId(events[rows[j]], m)
          ==> m in byMarket)
  }

  lemma PoolsNext(byPool: map<string, int>, rows: seq<int>, events: map<int, Event>, i: nat)
    requires i < |rows| && forall j :: 0 <= j < |rows| ==> rows[j] in events
    requires PoolsUpTo(byPool, rows, events, i)
    ensures var pool := events[rows[i]].pool;
            PoolsUpTo(if pool == "" then byPool else byPool[pool := rows[i]], rows, events, i + 1)
  {
  }

  lemma MarketsNext(byMarket: map<string, int>, rows: seq<int>, events: map<int, Event>, i: nat)
    requires i < |rows| && forall j :: 0 <= j < |rows| ==> rows[j] in events
    requires MarketsUpTo(byMarket, rows, events, i)
    ensures var e := events[rows[i]];
            var external := if UsableMarketId(e.externalId) then byMarket[e.externalId := rows[i]] else byMarket;
            var both := if UsableMarketId(e.metaMarketId) then external[e.metaMarketId := rows[i]] else external;
            MarketsUpTo(if e.pool == "" then byMarket else both, rows, events, i + 1)
  {
    var e := events[rows[i]];
    assert UsableMarketId(e.metaMarketId) ==> e.metaMarketId != "";
    hide UsableMarketId;
  }

  /** _event_for_fill: the pool is tried first, then the market id. */
  function EventForFill(f: Fill, ix: Index): (e: Option<int>) {
    if f.pool != "" && f.pool in ix.byPool then Some(ix.byPool[f.pool])
    else if UsableMarketId(f.marketId) && f.marketId in ix.byMarket then Some(ix.byMarket[f.marketId])
    else None
  }

  /** Unique external ids: no two tradable events carry the same market id. */
  ghost predicate IdsDisjoint(events: map<int, Event>) {
    forall d, e, m :: d in events && e in events && CarriesId(events[d], m) && CarriesId(events[e], m) ==> d == e
  }

  /** The portfolio and the market page put the fill on the same event. */
  ghost predicate SameAttribution(f: Fill, ix: Index, events: map<int, Event>) {
    forall e :: e in events && events[e].pool != "" ==>
      (EventForFill(f, ix) == Some(e) <==> FillMatchesEvent(f, events[e]))
  }

  /** What a caller can check on the dictionaries before syncing. */
  predicate PoolNotRecycled(f: Fill, ix: Index) {
    if f.pool != "" && f.pool in ix.byPool then
      ChainMarketId(f.marketId) && f.marketId in ix.byMarket && ix.byMarket[f.marketId] == ix.byPool[f.pool]
    else
      f.marketId in ix.byMarket ==> HexPrefixed(f.marketId)
  }

  /** The pool-first lookup agrees with the market-id rule exactly when the pool was not recycled. */
  lemma AttributionAgreesIff(f: Fill, ix: Index, events: map<int, Event>)
    requires IndexOf(ix, events) && IdsDisjoint(events)
    ensures SameAttribution(f, ix, events) <==> PoolNotRecycled(f, ix)
  {
    var found := EventForFill(f, ix);
    if found.Some? {
      var e := found.value;
      assert e in events && events[e].pool != "";
      if SameAttribution(f, ix, events) {
        assert FillMatchesEvent(f, events[e]);
      }
    }
  }

  /** One pool, two windows: a fill of the old window is booked on the new one. */
  lemma RecycledPoolMisattributes()
    ensures exists f, ix, events ::
              && IndexOf(ix, events) && IdsDisjoint(events)
              && EventForFill(f, ix) == Some(2)
              && 1 in events && FillMatchesEvent(f, events[1])
  {
    var closed := Event("0x01", "0x01", "0xpool", Resolved, "YES", 0, map[]);
    var next := Event("0x02", "0x02", "0xpool", Trading, "", 100, map[]);
    var events := map[1 := closed, 2 := next];
    var ix := Index(map["0xpool" := 2], map["0x01" := 1, "0x02" := 2]);
    var f := Fill("f", "0x01", "0xpool", 0.5, 1.0, 0.5, "0xa", "0xb", YES, NO, true, true, 0, "");
    assert "0x01"[3] == '1' && "0x02"[3] == '2';
    WindowsIndexed(events, ix, closed, next);
    assert FillMatchesEvent(f, events[1]);
    assert EventForFill(f, ix) == Some(2);
  }

  lemma WindowsIndexed(events: map<int, Event>, ix: Index, closed: Event, next: Event)
    requires events == map[1 := closed, 2 := next]
    requires ix == Index(map["0xpool" := 2], map["0x01" := 1, "0x02" := 2])
    requires closed == Event("0x01", "0x01", "0xpool", Resolved, "YES", 0, map[])
    requires next == Event("0x02", "0x02", "0xpool", Trading, "", 100, map[])
    ensures IndexOf(ix, events)
  {
    assert "0x01"[3] == '1' && "0x02"[3] == '2';
  }
}
