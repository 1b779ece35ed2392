/** The three computations of a wallet's net holding agree: imported trades, the market page's
    participant table, and the adapter's token balance before redeems and sells. */
module LedgerAgreement {
  import opened Wrappers
  import opened Markets
  import opened FillImport
  import opened Sums
  import opened MarketStats
  import opened MockAdapter

  /** _confirmed_net_qty: confirmed buys minus confirmed sells of one outcome. */
  function NetOf(e: int, s: Outcome): Trade -> real {
    (t: Trade) =>
      if t.status != Confirmed || t.event != e || t.outcome != s then 0.0
      else if t.side == Sell then -t.amount else t.amount
  }

  function NetHolding(trades: seq<Trade>, e: int, s: Outcome): real { Sum(trades, NetOf(e, s)) }

  /** What importing the fill for account w adds to the portfolio's net quantity of side s. */
  function ImportedQty(f: Fill, w: string, s: Outcome): real {
    if SideForWallet(f, w) == Some(s) then Signed(IsBuyForWallet(f, w), f.quantity) else 0.0
  }

  predicate SelfTrade(f: Fill, w: string) { f.maker == w && f.taker == w }

  /** Portfolio and participant table agree on a fill exactly when the account is not on both sides. */
  lemma ImportAgreesWithParticipantsIff(f: Fill, w: string)
    requires w != "" && f.quantity > 0.0
    ensures (forall s :: ImportedQty(f, w, s) == ParticipantQty(w, s)(f)) <==> !SelfTrade(f, w)
  {
    if SelfTrade(f, w) {
      assert ImportedQty(f, w, f.makerSide) != ParticipantQty(w, f.makerSide)(f);
    }
  }

  /** The adapter agrees with the participant table exactly when the account is not on both
      sides of the fill with the same outcome. */
  lemma AdapterAgreesWithParticipantsIff(f: Fill, w: string)
    requires w != "" && f.quantity > 0.0
    ensures (forall s :: SignedFillQty(f, w, s) == ParticipantQty(w, s)(f))
            <==> !(SelfTrade(f, w) && f.makerSide == f.takerSide)
  {
    if SelfTrade(f, w) && f.makerSide == f.takerSide {
      assert SignedFillQty(f, w, f.makerSide) != ParticipantQty(w, f.makerSide)(f);
    }
  }

  /** The fills get_user_fills returns for the accounts: each account's own fills, in any order. */
  ghost predicate ListsUserFills(found: seq<Found>, accounts: seq<string>, history: seq<Fill>) {
    forall p :: p in found <==>
      p.account in accounts && p.fill in history && (p.fill.maker == p.account || p.fill.taker == p.account)
  }

  ghost predicate FillsIdentified(history: seq<Fill>) {
    && (forall i, j :: 0 <= i < j < |history| ==> history[i].id != history[j].id)
    && (forall f :: f in history ==> f.quantity > 0.0)
  }

  ghost predicate AccountsDistinct(accounts: seq<string>) {
    Distinct(accounts) && forall a :: a in accounts ==> OnchainWallet(a)
  }

  /** The rows a complete import consists of, account by account. */
  ghost function ImportsOf(a: string, history: seq<Fill>, ix: Index, events: map<int, Event>): seq<Trade> {
    if history == [] then []
    else
      var n := |history| - 1;
      var p := Found(a, history[n]);
      ImportsOf(a, history[..n], ix, events) + if Importable(p, ix, events) then [TradeOf(p, ix)] else []
  }

  ghost function AllImports(accounts: seq<string>, history: seq<Fill>, ix: Index, events: map<int, Event>): seq<Trade> {
    if accounts == [] then []
    else
      var n := |accounts| - 1;
      AllImports(accounts[..n], history, ix, events) + ImportsOf(accounts[n], history, ix, events)
  }

  lemma {:induction false} ImportsOfRows(a: string, history: seq<Fill>, ix: Index, events: map<int, Event>)
    requires FillsIdentified(history)
    ensures Distinct(ImportsOf(a, history, ix, events))
    ensures forall t :: t in ImportsOf(a, history, ix, events) <==>
              exists f :: f in history && Importable(Found(a, f), ix, events) && t == TradeOf(Found(a, f), ix)
  {
    if history != [] {
      var n := |history| - 1;
      ImportsOfRows(a, history[..n], ix, events);
      assert forall f :: f in history <==> f in history[..n] || f == history[n];
      forall t | t in ImportsOf(a, history[..n], ix, events) ensures t.fillId != history[n].id {
        var f :| f in history[..n] && Importable(Found(a, f), ix, events) && t == TradeOf(Found(a, f), ix);
      }
    }
  }

  ghost predicate RowOf(t: Trade, a: string, f: Fill, ix: Index, events: map<int, Event>) {
    Importable(Found(a, f), ix, events) && t == TradeOf(Found(a, f), ix)
  }

  /** The last account's rows after those of the others. */
  lemma RowsOfMore(accounts: seq<string>, history: seq<Fill>, ix: Index, events: map<int, Event>, front: seq<Trade>,
                   back: seq<Trade>)
    requires accounts != []
    requires forall t :: t in front <==>
               exists a, f :: a in accounts[..|accounts| - 1] && f in history && RowOf(t, a, f, ix, events)
    requires forall t :: t in back <==> exists f :: f in history && RowOf(t, accounts[|accounts| - 1], f, ix, events)
    ensures forall t :: t in front + back <==>
              exists a, f :: a in accounts && f in history && RowOf(t, a, f, ix, events)
  {
    hide RowOf;
    assert forall a :: a in accounts <==> a in accounts[..|accounts| - 1] || a == accounts[|accounts| - 1];
  }

  lemma {:induction false} AllImportsRows(accounts: seq<string>, history: seq<Fill>, ix: Index, events: map<int, Event>)
    requires FillsIdentified(history) && Distinct(accounts)
    ensures Distinct(AllImports(accounts, history, ix, events))
    ensures forall t :: t in AllImports(accounts, history, ix, events) <==>
              exists a, f :: a in accounts && f in history && RowOf(t, a, f, ix, events)
  {
    hide FillsIdentified, ImportsOf;
    if accounts != [] {
      var n := |accounts| - 1;
      var last := accounts[n];
      var front, back := AllImports(accounts[..n], history, ix, events), ImportsOf(last, history, ix, events);
      AllImportsRows(accounts[..n], history, ix, events);
      ImportsOfRows(last, history, ix, events);
      assert last !in accounts[..n];
      RowsOfMore(accounts, history, ix, events, front, back);
      assert forall t :: t in front ==> t.wallet != last;
      assert forall t :: t in back ==> t.wallet == last;
      ApartDistinct(front, back, last);
    }
  }

  lemma ApartDistinct(front: seq<Trade>, back: seq<Trade>, wallet: string)
    requires Distinct(front) && Distinct(back)
    requires (forall t :: t in front ==> t.wallet != wallet) && forall t :: t in back ==> t.wallet == wallet
    ensures Distinct(front + back)
  {
    assert forall i, j :: 0 <= i < |front| && 0 <= j < |back| ==> front[i] in front && back[j] in back;
  }

  /** Per-fill quantities summed over the user's accounts. */
  ghost function OverAccounts(history: seq<Fill>, q: string -> Fill -> real): string -> real {
    (a: string) => Sum(history, q(a))
  }

  ghost function PageQty(e: Event, s: Outcome): string -> Fill -> real {
    (a: string) => (f: Fill) => if FillMatchesEvent(f, e) then ParticipantQty(a, s)(f) else 0.0
  }

  ghost function AdapterQty(e: Event, s: Outcome): string -> Fill -> real {
    (a: string) => OnMarket(a, e.externalId, s)
  }

  /** The circumstances under which the three ledgers are meant to agree. */
  ghost predicate Agreeable(history: seq<Fill>, accounts: seq<string>, ix: Index, events: map<int, Event>) {
    && IndexOf(ix, events) && IdsDisjoint(events)
    && FillsIdentified(history) && AccountsDistinct(accounts)
    && (forall f :: f in history ==> PoolNotRecycled(f, ix))
    && (forall a, f :: a in accounts && f in history ==> !SelfTrade(f, a))
  }

  ghost predicate ListedMarket(e: int, s: Outcome, events: map<int, Event>) {
    && e in events && events[e].pool != "" && s in events[e].prices
    && ChainMarketId(events[e].externalId)
    && (events[e].metaMarketId == "" || events[e].metaMarketId == events[e].externalId)
  }

  /** What the row of one fill books for the account, if the fill is imported. */
  ghost function Booked(a: string, f: Fill, ix: Index, events: map<int, Event>, book: Trade -> real): real {
    if Importable(Found(a, f), ix, events) then book(TradeOf(Found(a, f), ix)) else 0.0
  }

  /** Importing one fill moves the net holding by what the participant table adds for it. */
  lemma OneImport(a: string, f: Fill, ix: Index, events: map<int, Event>, e: int, s: Outcome)
    requires IndexOf(ix, events) && IdsDisjoint(events) && ListedMarket(e, s, events)
    requires OnchainWallet(a) && f.quantity > 0.0 && PoolNotRecycled(f, ix) && !SelfTrade(f, a)
    ensures PageQty(events[e], s)(a)(f) == Booked(a, f, ix, events, NetOf(e, s))
  {
    AttributionAgreesIff(f, ix, events);
    assert EventForFill(f, ix) == Some(e) <==> FillMatchesEvent(f, events[e]);
    ImportAgreesWithParticipantsIff(f, a);
    assert ImportedQty(f, a, s) == ParticipantQty(a, s)(f);
  }

  /** And it costs what the account paid in it. */
  lemma OnePayment(a: string, f: Fill, ix: Index, events: map<int, Event>, e: int, s: Outcome)
    requires IndexOf(ix, events) && IdsDisjoint(events) && ListedMarket(e, s, events)
    requires OnchainWallet(a) && f.quantity > 0.0 && PoolNotRecycled(f, ix) && !SelfTrade(f, a)
    ensures PaidIn(events[e], s)(a)(f) == Booked(a, f, ix, events, SpentOf(e, s))
  {
    hide PageQty, NetOf, OnchainWallet, IndexOf, IdsDisjoint, ListedMarket, PoolNotRecycled;
    OneImport(a, f, ix, events, e, s);
    TimesZero(f.price);
  }

  lemma TimesZero(x: real)
    ensures 0.0 * x == 0.0
  {
  }

  lemma OneMoreRow(a: string, history: seq<Fill>, ix: Index, events: map<int, Event>, book: Trade -> real)
    requires history != []
    ensures var n := |history| - 1;
            Sum(ImportsOf(a, history, ix, events), book)
            == Sum(ImportsOf(a, history[..n], ix, events), book) + Booked(a, history[n], ix, events, book)
  {
    hide Importable, Sum;
    var n := |history| - 1;
    var p, prior := Found(a, history[n]), ImportsOf(a, history[..n], ix, events);
    if Importable(p, ix, events) {
      RowIsImportable(p, ix, events);
      SumAppend(prior, TradeOf(p, ix), book);
    } else {
      assert prior + [] == prior;
    }
  }

  lemma RowIsImportable(p: Found, ix: Index, events: map<int, Event>)
    requires Importable(p, ix, events)
    ensures EventForFill(p.fill, ix).Some? && SideForWallet(p.fill, p.account).Some?
  {
  }

  /** Booking an amount for each imported row adds up to seeing it for each fill. */
  lemma {:induction false} ImportsSum(a: string, history: seq<Fill>, ix: Index, events: map<int, Event>,
                                      book: Trade -> real, seen: Fill -> real)
    requires forall f :: f in history ==> seen(f) == Booked(a, f, ix, events, book)
    ensures Sum(ImportsOf(a, history, ix, events), book) == Sum(history, seen)
  {
    hide Booked, ImportsOf;
    if history != [] {
      ImportsSum(a, history[..|history| - 1], ix, events, book, seen);
      OneMoreRow(a, history, ix, events, book);
    } else {
      NoRows(a, ix, events);
    }
  }

  lemma NoRows(a: string, ix: Index, events: map<int, Event>)
    ensures ImportsOf(a, [], ix, events) == []
  {
  }

  lemma {:induction false} AllImportsSum(accounts: seq<string>, history: seq<Fill>, ix: Index, events: map<int, Event>,
                                         book: Trade -> real, seen: string -> Fill -> real)
    requires forall a, f :: a in accounts && f in history ==> seen(a)(f) == Booked(a, f, ix, events, book)
    ensures Sum(AllImports(accounts, history, ix, events), book) == Sum(accounts, OverAccounts(history, seen))
  {
    hide Booked, ImportsOf;
    if accounts != [] {
      var n := |accounts| - 1;
      AllImportsSum(accounts[..n], history, ix, events, book, seen);
      assert accounts[n] in accounts;
      ImportsSum(accounts[n], history, ix, events, book, seen(accounts[n]));
      SumConcat(AllImports(accounts[..n], history, ix, events), ImportsOf(accounts[n], history, ix, events), book);
    }
  }

  /** A sync over all accounts leaves exactly one row for each importable (account, fill) pair. */
  lemma SyncImportsEverything(history: seq<Fill>, accounts: seq<string>, before: seq<Trade>, found: seq<Found>,
                              ix: Index, events: map<int, Event>)
    requires Agreeable(history, accounts, ix, events) && ListsUserFills(found, accounts, history)
    requires IdsUnique(before)
    requires forall t :: t in before ==> t in AllImports(accounts, history, ix, events)
    ensures multiset(before + Fresh(before, found, ix, events)) == multiset(AllImports(accounts, history, ix, events))
  {
    var all := AllImports(accounts, history, ix, events);
    var after := before + Fresh(before, found, ix, events);
    AllImportsRows(accounts, history, ix, events);
    FreshIsExactlyOnce(before, found, ix, events);
    forall t | t in after ensures t in all && t.extId != "" {
      if t !in before {
        var p :| p in found && Wanted(p, before, ix, events) && t == TradeOf(p, ix);
        assert RowOf(t, p.account, p.fill, ix, events);
      }
      var a, f :| a in accounts && f in history && RowOf(t, a, f, ix, events);
      ExtIdNonEmpty(Found(a, f));
    }
    forall t | t in all ensures t in after {
      var a, f :| a in accounts && f in history && RowOf(t, a, f, ix, events);
      var p := Found(a, f);
      assert p in found && Wanted(p, before, ix, events);
      var u :| u in after && u.extId == ExtId(p);
      var b, g :| b in accounts && g in history && RowOf(u, b, g, ix, events);
      NoColonInWallet(a);
      NoColonInWallet(b);
      ExtIdInjective(p, Found(b, g));
    }
    assert Distinct(after);
    DistinctSameElements(after, all);
  }

  lemma NoColonInWallet(a: string)
    requires OnchainWallet(a)
    ensures NoColon(a)
  {
  }

  /** Main result: portfolio == participants == adapter, per outcome, over the user's accounts. */
  lemma ThreeLedgersAgree(history: seq<Fill>, accounts: seq<string>, before: seq<Trade>, found: seq<Found>,
                          ix: Index, events: map<int, Event>, e: int, s: Outcome)
    requires Agreeable(history, accounts, ix, events) && ListsUserFills(found, accounts, history)
    requires ListedMarket(e, s, events)
    requires IdsUnique(before)
    requires forall t :: t in before ==> t in AllImports(accounts, history, ix, events)
    ensures NetHolding(before + Fresh(before, found, ix, events), e, s)
            == Sum(accounts, OverAccounts(history, PageQty(events[e], s)))
            == Sum(accounts, OverAccounts(history, AdapterQty(events[e], s)))
  {
    SyncImportsEverything(history, accounts, before, found, ix, events);
    SumPermutation(before + Fresh(before, found, ix, events), AllImports(accounts, history, ix, events), NetOf(e, s));
    forall a, f | a in accounts && f in history
      ensures PageQty(events[e], s)(a)(f) == Booked(a, f, ix, events, NetOf(e, s))
    {
      OneImport(a, f, ix, events, e, s);
    }
    AllImportsSum(accounts, history, ix, events, NetOf(e, s), PageQty(events[e], s));
    PageEqualsAdapter(history, accounts, events[e], s);
  }

  /** The collateral a confirmed trade of one outcome put in, negative when it took some out. */
  function SpentOf(e: int, s: Outcome): Trade -> real { (t: Trade) => NetOf(e, s)(t) * t.price }

  /** The collateral the account paid in a fill of the market: its net size on the page times the fill's price. */
  ghost function PaidIn(e: Event, s: Outcome): string -> Fill -> real {
    (a: string) => (f: Fill) => PageQty(e, s)(a)(f) * f.price
  }

  /** Main result on money: what the trades of an outcome cost after a sync, less what they brought in, is what the
      user's accounts paid in the market's fills, quantity times price, buys less sells. */
  lemma MoneyConserved(history: seq<Fill>, accounts: seq<string>, before: seq<Trade>, found: seq<Found>,
                       ix: Index, events: map<int, Event>, e: int, s: Outcome)
    requires Agreeable(history, accounts, ix, events) && ListsUserFills(found, accounts, history)
    requires ListedMarket(e, s, events)
    requires IdsUnique(before)
    requires forall t :: t in before ==> t in AllImports(accounts, history, ix, events)
    ensures Sum(before + Fresh(before, found, ix, events), SpentOf(e, s))
            == Sum(accounts, OverAccounts(history, PaidIn(events[e], s)))
  {
    hide SpentOf, PaidIn, PageQty, Fresh, AllImports, Booked, IdsUnique;
    SyncImportsEverything(history, accounts, before, found, ix, events);
    SumPermutation(before + Fresh(before, found, ix, events), AllImports(accounts, history, ix, events), SpentOf(e, s));
    forall a, f | a in accounts && f in history
      ensures PaidIn(events[e], s)(a)(f) == Booked(a, f, ix, events, SpentOf(e, s))
    {
      OnePayment(a, f, ix, events, e, s);
    }
    AllImportsSum(accounts, history, ix, events, SpentOf(e, s), PaidIn(events[e], s));
  }

  /** The market page and the adapter agree whatever the portfolio has imported. */
  lemma PageEqualsAdapter(history: seq<Fill>, accounts: seq<string>, e: Event, s: Outcome)
    requires forall f :: f in history ==> f.quantity > 0.0
    requires forall a, f :: a in accounts && f in history ==> !SelfTrade(f, a)
    requires AccountsDistinct(accounts)
    requires ChainMarketId(e.externalId) && (e.metaMarketId == "" || e.metaMarketId == e.externalId)
    ensures Sum(accounts, OverAccounts(history, PageQty(e, s)))
            == Sum(accounts, OverAccounts(history, AdapterQty(e, s)))
  {
    var page, adapter := PageQty(e, s), AdapterQty(e, s);
    forall a | a in accounts ensures OverAccounts(history, page)(a) == OverAccounts(history, adapter)(a) {
      forall f | f in history ensures page(a)(f) == adapter(a)(f) {
        AdapterAgreesWithParticipantsIff(f, a);
        assert SignedFillQty(f, a, s) == ParticipantQty(a, s)(f);
      }
      SumPointwise(history, page(a), adapter(a));
    }
    SumPointwise(accounts, OverAccounts(history, page), OverAccounts(history, adapter));
  }

  /** The participant row of a wallet is the per-fill sum used above. */
  lemma ParticipantRow(history: seq<Fill>, w: string, e: Event)
    ensures var row := StatsFor(w, Filter(history, (f: Fill) => FillMatchesEvent(f, e)));
            && row.yes == Sum(history, PageQty(e, YES)(w))
            && row.no == Sum(history, PageQty(e, NO)(w))
  {
    var p := (f: Fill) => FillMatchesEvent(f, e);
    SumFilter(history, p, ParticipantQty(w, YES), PageQty(e, YES)(w));
    SumFilter(history, p, ParticipantQty(w, NO), PageQty(e, NO)(w));
  }

  /** Before any redeem or sell, a non-negative token balance is the same sum. */
  lemma UnspentBalance(adapter: Adapter, w: string, e: Event, s: Outcome)
    requires adapter.redeemed == map[] && adapter.sold == map[]
    ensures adapter.Balance(w, e.externalId, s) == Sum(adapter.fills, AdapterQty(e, s)(w))
            <==> Sum(adapter.fills, AdapterQty(e, s)(w)) >= 0.0
  {
  }
}
