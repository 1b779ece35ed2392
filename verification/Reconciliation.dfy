/** The three ledgers side by side, as the program computes them: the trades a sync leaves, the rows of the market
    page, and the token balances the adapter reports. */
module Reconciliation {
  import opened Wrappers
  import opened Money
  import opened Sums
  import opened Markets
  import opened FillImport
  import opened MarketStats
  import opened MockAdapter
  import opened LedgerAgreement
  import opened Positions
  import opened Portfolio

  /** Each account's own fills, every account readable. */
  ghost predicate FetchedAll(accounts: seq<string>, fetched: seq<Option<seq<Fill>>>, history: seq<Fill>) {
    && |accounts| == |fetched|
    && forall i :: 0 <= i < |accounts| ==>
         fetched[i].Some? &&
         forall f :: f in fetched[i].value <==> f in history && (f.maker == accounts[i] || f.taker == accounts[i])
  }

  lemma {:induction false} FoundAre(accounts: seq<string>, fetched: seq<Option<seq<Fill>>>, history: seq<Fill>)
    requires FetchedAll(accounts, fetched, history)
    ensures ListsUserFills(FoundFills(accounts, fetched), accounts, history)
  {
    if accounts != [] {
      var n := |accounts| - 1;
      FoundAre(accounts[..n], fetched[..n], history);
      assert accounts == accounts[..n] + [accounts[n]];
      var last := Tagged(accounts[n], fetched[n].value);
      forall p ensures p in last <==> p.account == accounts[n] && p.fill in fetched[n].value {
        if p.account == accounts[n] && p.fill in fetched[n].value {
          var i :| 0 <= i < |fetched[n].value| && fetched[n].value[i] == p.fill;
          assert last[i] == p;
        }
      }
    }
  }

  function PageSide(rows: map<string, Stats>, s: Outcome): string -> real {
    (a: string) => if s == YES then Lookup(rows, a).yes else Lookup(rows, a).no
  }

  function TokenSide(balances: map<string, (real, real)>, s: Outcome): string -> real {
    (a: string) => if a !in balances then 0.0 else if s == YES then balances[a].0 else balances[a].1
  }

  /** A sum of amounts floored at zero is the sum itself exactly when none was negative. */
  lemma {:induction false} FlooredSumIff(accounts: seq<string>, f: string -> real, floored: string -> real)
    requires forall a :: a in accounts ==> floored(a) == Max(f(a), 0.0)
    ensures Sum(accounts, floored) >= Sum(accounts, f)
    ensures Sum(accounts, floored) == Sum(accounts, f) <==> forall a :: a in accounts ==> f(a) >= 0.0
  {
    if accounts != [] {
      var n := |accounts| - 1;
      FlooredSumIff(accounts[..n], f, floored);
      assert accounts == accounts[..n] + [accounts[n]];
    }
  }

  lemma PageIsPerFill(accounts: seq<string>, history: seq<Fill>, e: Event, s: Outcome, rows: map<string, Stats>)
    requires AccountsDistinct(accounts) && Tallied(rows, Filter(history, (f: Fill) => FillMatchesEvent(f, e)))
    ensures Sum(accounts, PageSide(rows, s)) == Sum(accounts, OverAccounts(history, PageQty(e, s)))
  {
    forall a | a in accounts ensures PageSide(rows, s)(a) == OverAccounts(history, PageQty(e, s))(a) {
      ParticipantRow(history, a, e);
    }
    SumPointwise(accounts, PageSide(rows, s), OverAccounts(history, PageQty(e, s)));
  }

  /** The balances the adapter reports for the accounts. */
  method ReadBalances(adapter: Adapter, accounts: seq<string>, market: string)
    returns (balances: map<string, (real, real)>)
    ensures balances.Keys == set a | a in accounts
    ensures forall a :: a in balances ==>
              balances[a] == (adapter.Balance(a, market, YES), adapter.Balance(a, market, NO))
  {
    balances := map[];
    for i := 0 to |accounts|
      invariant balances.Keys == set a | a in accounts[..i]
      invariant forall a :: a in balances ==>
                  balances[a] == (adapter.Balance(a, market, YES), adapter.Balance(a, market, NO))
    {
      assert accounts[..i + 1] == accounts[..i] + [accounts[i]];
      var yes, no := adapter.GetOutcomeBalances(accounts[i], market);
      balances := balances[accounts[i] := (yes, no)];
    }
    assert accounts[..|accounts|] == accounts;
  }

  lemma TokensArePerFill(adapter: Adapter, accounts: seq<string>, e: Event, s: Outcome,
                         balances: map<string, (real, real)>)
    requires adapter.redeemed == map[] && adapter.sold == map[]
    requires balances.Keys == set a | a in accounts
    requires forall a :: a in balances ==>
               balances[a] == (adapter.Balance(a, e.externalId, YES), adapter.Balance(a, e.externalId, NO))
    ensures Sum(accounts, TokenSide(balances, s)) >= Sum(accounts, OverAccounts(adapter.fills, AdapterQty(e, s)))
    ensures Sum(accounts, TokenSide(balances, s)) == Sum(accounts, OverAccounts(adapter.fills, AdapterQty(e, s)))
            <==> forall a :: a in accounts ==> Sum(adapter.fills, AdapterQty(e, s)(a)) >= 0.0
  {
    var f := OverAccounts(adapter.fills, AdapterQty(e, s));
    forall a | a in accounts ensures TokenSide(balances, s)(a) == Max(f(a), 0.0) {
      assert a in balances;
      assert adapter.Raw(a, e.externalId, s) == Sum(adapter.fills, OnMarket(a, e.externalId, s));
    }
    FlooredSumIff(accounts, f, TokenSide(balances, s));
  }

  /** Sync the portfolio, open the market page and read the token balances: the net holding after the sync equals the
      page's net size over the user's accounts, and the tokens they hold before any redeem or sell, the latter exactly
      when no account is short on the outcome. */
  method Reconcile(u: UserPortfolio, adapter: Adapter, accounts: seq<string>, fetched: seq<Option<seq<Fill>>>,
                   ix: Index, events: map<int, Event>, e: int, s: Outcome)
    returns (rows: map<string, Stats>, balances: map<string, (real, real)>)
    requires FetchedAll(accounts, fetched, adapter.fills)
    requires Agreeable(adapter.fills, accounts, ix, events) && ListedMarket(e, s, events)
    requires IdsUnique(u.trades) && forall t :: t in u.trades ==> t in AllImports(accounts, adapter.fills, ix, events)
    requires adapter.redeemed == map[] && adapter.sold == map[]
    modifies u`trades
    ensures Tallied(rows, Filter(adapter.fills, (f: Fill) => FillMatchesEvent(f, events[e])))
    ensures forall a :: a in accounts ==>
              a in balances
              && balances[a] == (adapter.Balance(a, events[e].externalId, YES),
                                 adapter.Balance(a, events[e].externalId, NO))
    ensures NetHolding(u.trades, e, s) == Sum(accounts, PageSide(rows, s))
    ensures NetHolding(u.trades, e, s) == Sum(accounts, TokenSide(balances, s))
            <==> forall a :: a in accounts ==> PageSide(rows, s)(a) >= 0.0
  {
    hide Agreeable, ListedMarket, FetchedAll, IndexOf, Fresh, AllImports, Sum, NetHolding, PageSide, TokenSide,
      OverAccounts, Tallied,
         FoundFills, IdsUnique, AnyConfirmed, AccountsDistinct, ChainMarketId, SelfTrade, Distinct;
    ghost var before, history := u.trades, adapter.fills;
    SyncedTrades(u.trades, accounts, fetched, history, ix, events, e, s);
    var _, _, _ := u.SyncTradesFromFills(accounts, fetched, true, false, true, ix, events);
    rows := ListEventParticipants(events[e], adapter.fills);
    balances := ReadBalances(adapter, accounts, events[e].externalId);
    PageIsPerFill(accounts, history, events[e], s, rows);
    TokensArePerFill(adapter, accounts, events[e], s, balances);
    SameSigns(accounts, history, events[e], s, rows);
  }

  lemma SyncedTrades(before: seq<Trade>, accounts: seq<string>, fetched: seq<Option<seq<Fill>>>, history: seq<Fill>,
                     ix: Index, events: map<int, Event>, e: int, s: Outcome)
    requires FetchedAll(accounts, fetched, history) && Agreeable(history, accounts, ix, events)
             && ListedMarket(e, s, events)
    requires IdsUnique(before) && forall t :: t in before ==> t in AllImports(accounts, history, ix, events)
    ensures |accounts| == |fetched| && AccountsDistinct(accounts) && e in events
    ensures var after := if accounts == [] then before
                         else before + Fresh(before, FoundFills(accounts, fetched), ix, events);
            NetHolding(after, e, s) == Sum(accounts, OverAccounts(history, PageQty(events[e], s)))
                                    == Sum(accounts, OverAccounts(history, AdapterQty(events[e], s)))
    ensures forall a, f :: a in accounts && f in history ==> f.quantity > 0.0 && !SelfTrade(f, a)
    ensures ChainMarketId(events[e].externalId)
            && (events[e].metaMarketId == "" || events[e].metaMarketId == events[e].externalId)
  {
    FoundAre(accounts, fetched, history);
    ThreeLedgersAgree(history, accounts, before, FoundFills(accounts, fetched), ix, events, e, s);
    if accounts == [] {
      assert FoundFills(accounts, fetched) == [];
      assert before + Fresh(before, [], ix, events) == before;
    }
  }

  /** What one share of an outcome is worth: one, nothing or half when the market has paid, its price before. */
  ghost function ShareWorth(e: Event, s: Outcome): real
    requires s in e.prices
  {
    if Wins(e, s) then 1.0 else if Loses(e, s) then 0.0 else if e.status == Voided then 0.5 else e.prices[s]
  }

  /** The profit is the worth of what is held less what was paid, up to rounding; nothing held, minus what was paid. */
  ghost predicate ProfitWithin(pnl: real, held: real, worth: real, paid: real, bought: real) {
    if held <= 0.0 then Abs(pnl + paid) <= 0.00005
    else Abs(pnl - (held * worth - paid)) <= 0.00005 * bought + 0.00015
  }

  /** Main result, from the fills to the stored profit: after importing the fills and rebuilding the positions, the
      profit stored for an outcome is what the user's accounts hold of it, at its worth, less what they paid in its
      fills, up to the rounding of the average price and of the row; and once nothing is held, what they took out. */
  lemma ProfitFromFills(history: seq<Fill>, accounts: seq<string>, before: seq<Trade>, found: seq<Found>, ix: Index,
                        events: map<int, Event>, e: int, s: Outcome, ps: map<Key, Position>, now: int)
    requires Agreeable(history, accounts, ix, events) && ListsUserFills(found, accounts, history)
    requires ListedMarket(e, s, events) && events[e].winner in {"", "YES", "NO"}
    requires IdsUnique(before) && forall t :: t in before ==> t in AllImports(accounts, history, ix, events)
    requires (e, s) in KeysOf(before + Fresh(before, found, ix, events))
    ensures Referenced(before + Fresh(before, found, ix, events), events)
    ensures var after := before + Fresh(before, found, ix, events);
            && (e, s) in Synced(ps, after, events, now) && Group(after, (e, s)) != []
            && var held := Sum(accounts, OverAccounts(history, PageQty(events[e], s)));
               var paid := Sum(accounts, OverAccounts(history, PaidIn(events[e], s)));
               var bought := TotalsOf(Group(after, (e, s))).buyQty;
               var pnl := Synced(ps, after, events, now)[(e, s)].pnl;
               ProfitWithin(pnl, held, ShareWorth(events[e], s), paid, bought)
  {
    hide Agreeable, ListsUserFills, ListedMarket, IdsUnique, Fresh, AllImports, KeysOf, Referenced, Synced, Group,
      PageQty, PaidIn, Sum, TotalsOf, ShareWorth, PnlWithinBound, OverAccounts,
      ProfitWithin;
    var after, k := before + Fresh(before, found, ix, events), (e, s);
    SyncImportsEverything(history, accounts, before, found, ix, events);
    ImportedRows(history, accounts, ix, events, after);
    ThreeLedgersAgree(history, accounts, before, found, ix, events, e, s);
    MoneyConserved(history, accounts, before, found, ix, events, e, s);
    RemainingIsNetHolding(after, k);
    CostsAreSpent(after, k);
    TotalsWellFormed(after, k);
    StoredPnlWithinBound(ps, after, events, now, k);
    ProfitOfTotals(TotalsOf(Group(after, k)), Synced(ps, after, events, now)[k].pnl, events[e], s,
                   Sum(accounts, OverAccounts(history, PageQty(events[e], s))),
                   Sum(accounts, OverAccounts(history, PaidIn(events[e], s))));
  }

  lemma ImportedRows(history: seq<Fill>, accounts: seq<string>, ix: Index, events: map<int, Event>, after: seq<Trade>)
    requires Agreeable(history, accounts, ix, events)
    requires multiset(after) == multiset(AllImports(accounts, history, ix, events))
    ensures Referenced(after, events) && forall t :: t in after ==> t.amount > 0.0
  {
    var all := AllImports(accounts, history, ix, events);
    AllImportsRows(accounts, history, ix, events);
    forall t | t in after ensures t.event in events && t.outcome in events[t.event].prices && t.amount > 0.0 {
      assert t in multiset(after);
      assert t in all;
      var a, f :| a in accounts && f in history && RowOf(t, a, f, ix, events);
    }
  }

  lemma ProfitOfTotals(t: Totals, pnl: real, e: Event, s: Outcome, held: real, paid: real)
    requires s in e.prices && e.winner in {"", "YES", "NO"} && t.NonNegative()
    requires PnlWithinBound(pnl, t, e.prices[s], SettlementPayout(e, s))
    requires held == t.Remaining() && paid == t.buyCost - t.sellProceeds
    ensures ProfitWithin(pnl, held, ShareWorth(e, s), paid, t.buyQty)
  {
    hide SettlementPayout, Totals.Remaining;
    WinnerTakesAll(e);
    assert SettlementPayout(e, s) == None ==> ShareWorth(e, s) == e.prices[s];
    assert SettlementPayout(e, s).Some? ==> ShareWorth(e, s) == SettlementPayout(e, s).value;
  }

  /** An account is short on the page exactly when its signed fills are. */
  lemma SameSigns(accounts: seq<string>, history: seq<Fill>, e: Event, s: Outcome, rows: map<string, Stats>)
    requires AccountsDistinct(accounts) && Tallied(rows, Filter(history, (f: Fill) => FillMatchesEvent(f, e)))
    requires forall a, f :: a in accounts && f in history ==> f.quantity > 0.0 && !SelfTrade(f, a)
    requires ChainMarketId(e.externalId) && (e.metaMarketId == "" || e.metaMarketId == e.externalId)
    ensures forall a :: a in accounts ==> PageSide(rows, s)(a) == Sum(history, AdapterQty(e, s)(a))
  {
    forall a | a in accounts ensures PageSide(rows, s)(a) == Sum(history, AdapterQty(e, s)(a)) {
      ParticipantRow(history, a, e);
      forall f | f in history ensures PageQty(e, s)(a)(f) == AdapterQty(e, s)(a)(f) {
        AdapterAgreesWithParticipantsIff(f, a);
        assert SignedFillQty(f, a, s) == ParticipantQty(a, s)(f);
      }
      SumPointwise(history, PageQty(e, s)(a), AdapterQty(e, s)(a));
    }
  }
}
