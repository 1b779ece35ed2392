/** One user's Trade and Position tables and the service methods that rewrite them. */
module Portfolio {
  import opened Wrappers
  import opened Sums
  import opened Upserts
  import opened Markets
  import opened FillImport
  import opened LedgerAgreement
  import opened Positions

  /** All fills returned for the accounts that could be read, tagged with their account. */
  function FoundFills(accounts: seq<string>, fetched: seq<Option<seq<Fill>>>): seq<Found>
    requires |accounts| == |fetched|
  {
    if accounts == [] then []
    else
      var n := |accounts| - 1;
      FoundFills(accounts[..n], fetched[..n]) + if fetched[n].Some? then Tagged(accounts[n], fetched[n].value) else []
  }

  function Tagged(account: string, fills: seq<Fill>): seq<Found> {
    seq(|fills|, i requires 0 <= i < |fills| => Found(account, fills[i]))
  }

  predicate AnyConfirmed(trades: seq<Trade>) { exists t :: t in trades && t.status == Confirmed }

  class UserPortfolio {
    var trades: seq<Trade>
    var positions: map<Key, Position>

    constructor ()
      ensures trades == [] && positions == map[]
    {
      trades, positions := [], map[];
    }

    /** sync_trades_from_fills. fetched[i] is None when reading accounts[i] failed. */
    method SyncTradesFromFills(accounts: seq<string>, fetched: seq<Option<seq<Fill>>>, adapterUp: bool,
                               cached: bool, force: bool, ix: Index, events: map<int, Event>)
      returns (imported: nat, skipped: nat, markFresh: bool)
      requires |accounts| == |fetched|
      requires IdsUnique(trades)
      modifies this`trades
      ensures IdsUnique(trades)
      ensures var found := FoundFills(accounts, fetched);
              if accounts == [] || (!force && cached && (exists t :: t in old(trades) && t.status == Confirmed))
                || !adapterUp then
                trades == old(trades) && imported == 0 && skipped == 0 && !markFresh
              else
                && trades == old(trades) + Fresh(old(trades), found, ix, events)
                && imported == |trades| - |old(trades)|
                && imported + skipped == |found|
                && (markFresh <==> None !in fetched)
    {
      imported, skipped, markFresh := 0, 0, false;
      if accounts == [] { return; }
      if !force && cached && AnyConfirmed(trades) { return; }
      if !adapterUp { return; }
      var found, fetchOk := CollectFills(accounts, fetched);
      imported, skipped := ImportFills(found, ix, events);
      markFresh := fetchOk;
    }

    /** The import loop over the fills that were found. */
    method ImportFills(found: seq<Found>, ix: Index, events: map<int, Event>) returns (imported: nat, skipped: nat)
      requires IdsUnique(trades)
      modifies this`trades
      ensures trades == old(trades) + Fresh(old(trades), found, ix, events)
      ensures IdsUnique(trades)
      ensures imported == |trades| - |old(trades)| && imported + skipped == |found|
    {
      imported, skipped := 0, 0;
      var uiTx := set t | t in trades && t.status == Confirmed && t.extId == "" && t.txHash != "" :: t.txHash;
      var seen := set t | t in trades && t.extId != "" :: t.extId;
      ghost var before := trades;
      for i := 0 to |found|
        invariant trades == before + Fresh(before, found[..i], ix, events)
        invariant SeenIds(seen, trades)
        invariant imported == |trades| - |before| && imported + skipped == i
      {
        var p := found[i];
        FreshNext(before, found, i, ix, events);
        ExtIdNonEmpty(p);
        assert p.fill.txHash in uiTx <==> UiRecorded(before, p.fill);
        if ExtId(p) in seen {
          skipped := skipped + 1;
        } else if p.fill.txHash in uiTx {
          skipped := skipped + 1;
        } else if !Importable(p, ix, events) {
          skipped := skipped + 1;
        } else {
          var trade := TradeOf(p, ix);
          SeenIdsNext(seen, trades, trade);
          trades := trades + [trade];
          seen := seen + {trade.extId};
          imported := imported + 1;
        }
      }
      assert found[..|found|] == found;
      FreshIsExactlyOnce(before, found, ix, events);
    }

    /** sync_positions */
    method SyncPositions(events: map<int, Event>, now: int) returns (created: nat, updated: nat)
      requires Referenced(trades, events)
      modifies this`positions
      ensures positions == Synced(old(positions), trades, events, now)
      ensures created == |KeysOf(trades) - old(positions.Keys)|
      ensures created + updated == |KeysOf(trades)|
    {
      hide Grouped, TotalsOfGroups, TotalsTable, FiguresTable, ApplyAll, Priced, Referenced, KeysOf;
      TableCovers(trades, events);
      var keys, grouped := GroupTrades(trades);
      GroupedTotals(keys, grouped, trades);
      var totals := SumGroups(keys, grouped);
      FiguresKeys(totals, events);
      var figures := FiguresTable(totals, events);
      created, updated := UpsertAll(keys, figures, now);
      KeyCount(keys, KeysOf(trades));
    }

    /** The loop over the groups. */
    method UpsertAll(keys: seq<Key>, figures: map<Key, Figures>, now: int) returns (created: nat, updated: nat)
      requires Distinct(keys) && KeySet(keys) == figures.Keys
      modifies this`positions
      ensures positions == ApplyAll(old(positions), figures, now)
      ensures created == |figures.Keys - old(positions.Keys)| && created + updated == |keys|
    {
      created, updated := 0, 0;
      ghost var before := positions;
      for i := 0 to |keys|
        invariant positions == PartlyApplied(before, figures, now, KeySet(keys[..i]))
        invariant created == |KeySet(keys[..i]) - before.Keys| && created + updated == i
      {
        var k := keys[i];
        KeySetNext(keys, i, before.Keys);
        PartlyNext(before, figures, now, KeySet(keys[..i]), k);
        var isNew := UpsertPosition(k, figures[k], now);
        if isNew { created := created + 1; } else { updated := updated + 1; }
      }
      assert keys[..|keys|] == keys;
      PartlyAll(before, figures, now, KeySet(keys));
    }

    /** The body of that loop: write the row for its trades, then settle it if the market has paid out. */
    method UpsertPosition(k: Key, f: Figures, now: int) returns (isNew: bool)
      modifies this`positions
      ensures positions == old(positions)[k := Apply(Get(old(positions), k), f, now)]
      ensures isNew <==> k !in old(positions)
    {
      isNew := k !in positions;
      var wasClosed := k in positions && positions[k].status == Closed;
      var settledAt := if k in positions then positions[k].settledAt else None;
      if f.kind == SoldOut {
        positions := positions[k := Position(f.amount, f.entryPrice, f.value, Closed, f.pnl,
                                             if settledAt.None? then Some(now) else settledAt, f.openedAt)];
        return;
      }
      var position := Position(f.amount, f.entryPrice, f.value, Open, f.pnl, settledAt, f.openedAt);
      if f.kind == PaidOut {
        position := position.(status := if wasClosed then Closed else SettledUp);
        if position.settledAt.None? {
          position := position.(settledAt := Some(now));
        }
      }
      positions := positions[k := position];
    }
  }

  ghost function PartlyApplied(before: map<Key, Position>, figures: map<Key, Figures>, now: int,
                               done: set<Key>): map<Key, Position>
  {
    before + map k | k in figures && k in done :: Apply(Get(before, k), figures[k], now)
  }

  lemma PartlyNext(before: map<Key, Position>, figures: map<Key, Figures>, now: int, done: set<Key>, k: Key)
    requires k in figures && k !in done
    ensures var ps := PartlyApplied(before, figures, now, done);
            && PartlyApplied(before, figures, now, done + {k}) == ps[k := Apply(Get(ps, k), figures[k], now)]
            && (k in ps <==> k in before)
  {
  }

  lemma PartlyAll(before: map<Key, Position>, figures: map<Key, Figures>, now: int, done: set<Key>)
    requires done == figures.Keys
    ensures PartlyApplied(before, figures, now, done) == ApplyAll(before, figures, now)
  {
    assert PartlyApplied(before, figures, now, done).Keys == ApplyAll(before, figures, now).Keys;
  }

  /** The sums over every group. */
  method SumGroups(keys: seq<Key>, grouped: map<Key, seq<Trade>>) returns (totals: map<Key, Totals>)
    requires Distinct(keys) && KeySet(keys) == grouped.Keys
    requires forall k :: k in grouped ==> grouped[k] != []
    ensures totals == TotalsOfGroups(grouped)
  {
    totals := map[];
    ghost var all := TotalsOfGroups(grouped);
    assert all.Keys == grouped.Keys;
    for i := 0 to |keys|
      invariant totals == Restricted(all, KeySet(keys[..i]))
    {
      var k := keys[i];
      KeySetNext(keys, i, {});
      RestrictedNext(all, KeySet(keys[..i]), k);
      totals := totals[k := TotalsOf(grouped[k])];
    }
    assert keys[..|keys|] == keys;
    RestrictedAll(all, KeySet(keys));
  }

  lemma RestrictedAll(m: map<Key, Totals>, keys: set<Key>)
    requires keys == m.Keys
    ensures Restricted(m, keys) == m
  {
  }

  ghost function Restricted(m: map<Key, Totals>, keys: set<Key>): map<Key, Totals> {
    map k | k in m && k in keys :: m[k]
  }

  lemma RestrictedNext(m: map<Key, Totals>, keys: set<Key>, k: Key)
    requires k in m
    ensures Restricted(m, keys + {k}) == Restricted(m, keys)[k := m[k]]
  {
  }

  function TotalsOfGroups(grouped: map<Key, seq<Trade>>): map<Key, Totals>
    requires forall k :: k in grouped ==> grouped[k] != []
  {
    map k | k in grouped :: TotalsOf(grouped[k])
  }

  lemma GroupedKeys(keys: seq<Key>, grouped: map<Key, seq<Trade>>, trades: seq<Trade>)
    requires Grouped(keys, grouped, trades)
    ensures KeySet(keys) == grouped.Keys == KeysOf(trades)
    ensures forall k :: k in grouped ==> grouped[k] != []
  {
    forall k ensures k in grouped <==> k in KeysOf(trades) { GroupNonEmpty(trades, k); }
  }

  lemma GroupedTotal(grouped: map<Key, seq<Trade>>, trades: seq<Trade>, k: Key)
    requires forall k :: k in grouped ==> grouped[k] != []
    requires k in grouped && grouped[k] == Group(trades, k) && k in KeysOf(trades)
    ensures TotalsOfGroups(grouped)[k] == TotalsTable(trades)[k]
  {
  }

  lemma GroupedTotals(keys: seq<Key>, grouped: map<Key, seq<Trade>>, trades: seq<Trade>)
    requires Grouped(keys, grouped, trades)
    ensures Distinct(keys) && KeySet(keys) == grouped.Keys == KeysOf(trades)
    ensures forall k :: k in grouped ==> grouped[k] != []
    ensures TotalsOfGroups(grouped) == TotalsTable(trades)
  {
    GroupedKeys(keys, grouped, trades);
    SameTotals(TotalsOfGroups(grouped), TotalsTable(trades)) by {
      forall k | k in grouped ensures TotalsOfGroups(grouped)[k] == TotalsTable(trades)[k] {
        GroupedTotal(grouped, trades, k);
      }
    }
  }

  lemma SameTotals(a: map<Key, Totals>, b: map<Key, Totals>)
    requires a.Keys == b.Keys && forall k :: k in a ==> a[k] == b[k]
    ensures a == b
  {
  }

  lemma TableCovers(trades: seq<Trade>, events: map<int, Event>)
    requires Referenced(trades, events)
    ensures TotalsTable(trades).Keys == KeysOf(trades) && Priced(TotalsTable(trades), events)
  {
  }

  lemma FiguresKeys(totals: map<Key, Totals>, events: map<int, Event>)
    requires Priced(totals, events)
    ensures FiguresTable(totals, events).Keys == totals.Keys
  {
  }

  ghost predicate SeenIds(seen: set<string>, trades: seq<Trade>) {
    forall id :: id in seen <==> id != "" && HasExtId(trades, id)
  }

  lemma SeenIdsNext(seen: set<string>, trades: seq<Trade>, trade: Trade)
    requires SeenIds(seen, trades) && trade.extId != ""
    ensures SeenIds(seen + {trade.extId}, trades + [trade])
  {
    assert forall t :: t in trades + [trade] <==> t in trades || t == trade;
  }

  lemma FreshNext(before: seq<Trade>, found: seq<Found>, i: nat, ix: Index, events: map<int, Event>)
    requires i < |found|
    ensures before + Fresh(before, found[..i + 1], ix, events) ==
            var now := before + Fresh(before, found[..i], ix, events);
            if Wanted(found[i], before, ix, events) && !HasExtId(now, ExtId(found[i]))
            then now + [TradeOf(found[i], ix)] else now
  {
    assert found[..i + 1][..i] == found[..i];
  }

  /** Reading every account; fetchOk is false when one of the reads failed. */
  method CollectFills(accounts: seq<string>, fetched: seq<Option<seq<Fill>>>) returns (found: seq<Found>, fetchOk: bool)
    requires |accounts| == |fetched|
    ensures found == FoundFills(accounts, fetched)
    ensures fetchOk <==> None !in fetched
  {
    found, fetchOk := [], true;
    for i := 0 to |accounts|
      invariant found == FoundFills(accounts[..i], fetched[..i])
      invariant fetchOk <==> None !in fetched[..i]
    {
      assert accounts[..i + 1][..i] == accounts[..i] && fetched[..i + 1][..i] == fetched[..i];
      match fetched[i]
      case Some(fills) => found := found + Tagged(accounts[i], fills);
      case None => fetchOk := false;
    }
    assert accounts[..|accounts|] == accounts && fetched[..|fetched|] == fetched;
  }

  ghost function KeySet(keys: seq<Key>): set<Key> { set k: Key | k in keys }

  lemma KeySetNext(keys: seq<Key>, i: nat, known: set<Key>)
    requires i < |keys| && Distinct(keys)
    ensures keys[i] !in KeySet(keys[..i]) && keys[i] in KeySet(keys)
    ensures KeySet(keys[..i + 1]) == KeySet(keys[..i]) + {keys[i]}
    ensures |KeySet(keys[..i + 1]) - known| == |KeySet(keys[..i]) - known| + if keys[i] in known then 0 else 1
  {
    var a, b := KeySet(keys[..i]), KeySet(keys[..i + 1]);
    assert b == a + {keys[i]};
    if keys[i] in known {
      assert b - known == a - known;
    } else {
      assert b - known == (a - known) + {keys[i]};
    }
  }

  ghost predicate Grouped(keys: seq<Key>, grouped: map<Key, seq<Trade>>, trades: seq<Trade>) {
    && Distinct(keys)
    && (forall k :: k in keys <==> k in grouped)
    && (forall k :: if k in grouped then Group(trades, k) != [] && grouped[k] == Group(trades, k)
        else Group(trades, k) == [])
  }

  /** The grouping loop: keys in first-seen order, each with its confirmed trades in order. */
  method GroupTrades(trades: seq<Trade>) returns (keys: seq<Key>, grouped: map<Key, seq<Trade>>)
    ensures Grouped(keys, grouped, trades)
    ensures forall k :: k in keys <==> k in KeysOf(trades)
  {
    hide Grouped, KeysOf;
    keys, grouped := [], map[];
    NothingGrouped();
    for i := 0 to |trades|
      invariant Grouped(keys, grouped, trades[..i])
    {
      var t := trades[i];
      ghost var keys0, grouped0 := keys, grouped;
      if t.status == Confirmed {
        var k := (t.event, t.outcome);
        if k !in grouped {
          keys := keys + [k];
          grouped := grouped[k := []];
        }
        grouped := grouped[k := grouped[k] + [t]];
      }
      assert [] + [t] == [t];
      GroupedNext(keys0, grouped0, trades[..i], t, keys, grouped);
      assert trades[..i + 1] == trades[..i] + [t];
    }
    assert trades[..|trades|] == trades;
    GroupedKeys(keys, grouped, trades);
  }

  lemma NothingGrouped()
    ensures Grouped([], map[], [])
  {
  }

  lemma GroupNext(trades: seq<Trade>, t: Trade, k: Key)
    ensures Group(trades + [t], k) == Group(trades, k) + if InGroup(k, t) then [t] else []
  {
    assert (trades + [t])[..|trades|] == trades;
  }

  lemma GroupedNext(keys: seq<Key>, grouped: map<Key, seq<Trade>>, trades: seq<Trade>, t: Trade,
                    keys': seq<Key>, grouped': map<Key, seq<Trade>>)
    requires Grouped(keys, grouped, trades)
    requires var k := (t.event, t.outcome);
             if t.status != Confirmed then keys' == keys && grouped' == grouped
             else if k in grouped then keys' == keys && grouped' == grouped[k := grouped[k] + [t]]
             else keys' == keys + [k] && grouped' == grouped[k := [t]]
    ensures Grouped(keys', grouped', trades + [t])
  {
    forall k
      ensures if k in grouped' then Group(trades + [t], k) != [] && grouped'[k] == Group(trades + [t], k)
              else Group(trades + [t], k) == []
    {
      GroupNext(trades, t, k);
    }
  }

  lemma {:induction false} KeyCount(keys: seq<Key>, all: set<Key>)
    requires Distinct(keys) && forall k :: k in keys <==> k in all
    ensures |keys| == |all|
  {
    if keys != [] {
      var n := |keys| - 1;
      assert keys[n] in all;
      assert forall k :: k in keys[..n] <==> k in all - {keys[n]};
      KeyCount(keys[..n], all - {keys[n]});
    }
  }
}
