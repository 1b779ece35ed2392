/** Indexing on-chain fills into trader profiles and their trades (_write_indexed_fills). */
module TraderIndex {
  import opened Sums
  import opened Markets
  import opened MarketStats

  /** The fills found for one market, and the outcome rows that market has. */
  datatype Source = Source(event: int, outcomes: set<Outcome>, fills: seq<Fill>)

  datatype Sighting = Sighting(event: int, outcomes: set<Outcome>, fill: Fill)

  datatype TraderTrade = TraderTrade(wallet: string, event: int, outcome: Outcome, price: real, amount: real,
                                     openedAt: int, txHash: string, extId: string)

  /** A trade waiting to be written, with the fill it came from. */
  datatype Entry = Entry(trade: TraderTrade, fillId: string, quote: real)

  datatype Profile = Profile(displayName: string, totalTrades: nat, completedTrades: nat, winningTrades: nat,
                             losingTrades: nat, volume: real, pnl: real, lastActive: int)

  datatype WalletStats = WalletStats(total: nat, volume: real)

  /** External ids determine the fill and the wallet, because on-chain wallets have one length. */
  lemma ExtIdInjective(a: string, v: string, b: string, w: string)
    requires OnchainWallet(v) && OnchainWallet(w) && FillKey(a, v) == FillKey(b, w)
    ensures a == b && v == w
  {
    var x, y := FillKey(a, v), FillKey(b, w);
    assert a == x[..|a|] && b == y[..|b|] && v == x[|a| + 1..] && w == y[|b| + 1..];
  }

  /** w took part in the fill on an on-chain account and on an outcome the market has. */
  predicate Party(s: Sighting, w: string, o: Outcome) {
    && ((w == s.fill.maker && o == s.fill.makerSide) || (w == s.fill.taker && o == s.fill.takerSide))
    && OnchainWallet(w) && o in s.outcomes
  }

  function EntryFor(s: Sighting, w: string, o: Outcome): Entry {
    Entry(TraderTrade(w, s.event, o, s.fill.price, s.fill.quantity, s.fill.timestamp, s.fill.txHash,
                      FillKey(s.fill.id, w)),
          s.fill.id, s.fill.quote)
  }

  function Sightings(src: Source, n: nat): seq<Sighting>
    requires n <= |src.fills|
  {
    if n == 0 then [] else Sightings(src, n - 1) + [Sighting(src.event, src.outcomes, src.fills[n - 1])]
  }

  /** Every fill of every market, in the order the loops meet them. */
  function Flat(batch: seq<Source>): seq<Sighting> {
    if batch == [] then [] else Flat(batch[..|batch| - 1]) + Sightings(batch[|batch| - 1], |batch[|batch| - 1].fills|)
  }

  /** The fills of a market follow each other in their order, and so do the markets of a batch. */
  lemma {:induction false} FlatLists(a: seq<Source>, b: seq<Source>, src: Source)
    ensures Flat([src]) == seq(|src.fills|, j requires 0 <= j < |src.fills| =>
                                              Sighting(src.event, src.outcomes, src.fills[j]))
    ensures Flat(a + b) == Flat(a) + Flat(b)
  {
    SightingsList(src, |src.fills|);
    assert [src][..0] == [];
    if b == [] {
      assert a + b == a;
    } else {
      FlatLists(a, b[..|b| - 1], src);
      assert (a + b)[..|a + b| - 1] == a + b[..|b| - 1];
    }
  }

  lemma {:induction false} SightingsList(src: Source, n: nat)
    requires n <= |src.fills|
    ensures Sightings(src, n) == seq(n, j requires 0 <= j < n => Sighting(src.event, src.outcomes, src.fills[j]))
  {
    if n > 0 { SightingsList(src, n - 1); }
  }

  predicate HasEntry(pending: seq<Entry>, id: string) { exists i :: 0 <= i < |pending| && pending[i].trade.extId == id }

  ghost predicate FromSighting(e: Entry, seen: seq<Sighting>) {
    exists s :: s in seen && Party(s, e.trade.wallet, e.trade.outcome) && Records(e, s)
  }

  /** The trade carries the fill's market, price, size, time and transaction. */
  ghost predicate Records(e: Entry, s: Sighting) {
    && e.trade.event == s.event && e.trade.price == s.fill.price && e.trade.amount == s.fill.quantity
    && e.trade.openedAt == s.fill.timestamp && e.trade.txHash == s.fill.txHash
    && e.trade.extId == FillKey(s.fill.id, e.trade.wallet) && e.fillId == s.fill.id && e.quote == s.fill.quote
  }

  /** No pair twice, and only pairs that were seen. */
  ghost predicate Justified(pending: seq<Entry>, seen: seq<Sighting>) {
    && (forall i, j :: 0 <= i < j < |pending| ==> pending[i].trade.extId != pending[j].trade.extId)
    && forall i :: 0 <= i < |pending| ==> FromSighting(pending[i], seen)
  }

  /** Every pair that was seen. */
  ghost predicate Complete(pending: seq<Entry>, seen: seq<Sighting>) {
    forall s, w, o :: s in seen && Party(s, w, o) ==> HasEntry(pending, FillKey(s.fill.id, w))
  }

  /** A fill id stands for one fill of a market. */
  ghost predicate IdsIdentifyFills(seen: seq<Sighting>) {
    forall s, t :: s in seen && t in seen && s.fill.id == t.fill.id && s.event == t.event ==> s == t
  }

  function Of(pending: seq<Entry>, w: string): seq<Entry> { Filter(pending, (e: Entry) => e.trade.wallet == w) }

  function Quote(): Entry -> real { (e: Entry) => e.quote }

  ghost predicate Tallied(stats: map<string, WalletStats>, pending: seq<Entry>) {
    && (forall w :: w in stats <==> Of(pending, w) != [])
    && forall w :: w in stats ==> stats[w] == WalletStats(|Of(pending, w)|, Sum(Of(pending, w), Quote()))
  }

  function StatsAfter(stats: map<string, WalletStats>, e: Entry): map<string, WalletStats> {
    var w := e.trade.wallet;
    var st := if w in stats then stats[w] else WalletStats(0, 0.0);
    stats[w := WalletStats(st.total + 1, st.volume + e.quote)]
  }

  lemma OfAppend(pending: seq<Entry>, e: Entry, w: string)
    ensures Of(pending + [e], w) == if e.trade.wallet == w then Of(pending, w) + [e] else Of(pending, w)
  {
    assert (pending + [e])[..|pending|] == pending;
  }

  lemma TalliedNext(stats: map<string, WalletStats>, pending: seq<Entry>, e: Entry)
    requires Tallied(stats, pending)
    ensures Tallied(StatsAfter(stats, e), pending + [e])
  {
    forall w ensures w in StatsAfter(stats, e) <==> Of(pending + [e], w) != [] {
      OfAppend(pending, e, w);
    }
    forall w | w in StatsAfter(stats, e)
      ensures StatsAfter(stats, e)[w] == WalletStats(|Of(pending + [e], w)|, Sum(Of(pending + [e], w), Quote()))
    {
      OfAppend(pending, e, w);
      if e.trade.wallet == w {
        SumAppend(Of(pending, w), e, Quote());
        assert Quote()(e) == e.quote;
        if w !in stats { assert Of(pending, w) == [] && Sum(Of(pending, w), Quote()) == 0.0; }
      }
    }
  }

  lemma JustifiedNext(pending: seq<Entry>, seen: seq<Sighting>, s: Sighting, w: string, o: Outcome)
    requires Justified(pending, seen) && s in seen && Party(s, w, o) && !HasEntry(pending, FillKey(s.fill.id, w))
    ensures Justified(pending + [EntryFor(s, w, o)], seen)
  {
    assert FromSighting(EntryFor(s, w, o), seen);
  }

  lemma HasEntryGrows(pending: seq<Entry>, e: Entry, id: string)
    ensures HasEntry(pending + [e], id) <==> HasEntry(pending, id) || id == e.trade.extId
  {
    var next := pending + [e];
    assert next[|pending|] == e;
    if HasEntry(pending, id) {
      var i :| 0 <= i < |pending| && pending[i].trade.extId == id;
      assert next[i].trade.extId == id;
    }
  }

  /** One side of a fill: an on-chain wallet on an outcome the market has is listed once for each fill id. */
  function SideAdded(pending: seq<Entry>, s: Sighting, w: string, o: Outcome): seq<Entry> {
    if OnchainWallet(w) && o in s.outcomes && !HasEntry(pending, FillKey(s.fill.id, w)) then
      pending + [EntryFor(s, w, o)]
    else
      pending
  }

  predicate MetBefore(seen: seq<Sighting>, s: Sighting) {
    exists i :: 0 <= i < |seen| && seen[i].fill.id == s.fill.id && seen[i].event == s.event
  }

  /** The trades pending after these fills: a fill id met before in the same market is passed over, otherwise the
      maker is listed and then the taker. */
  function PendingOf(seen: seq<Sighting>): seq<Entry> {
    if seen == [] then []
    else
      var before, s := PendingOf(seen[..|seen| - 1]), seen[|seen| - 1];
      if MetBefore(seen[..|seen| - 1], s) then before
      else SideAdded(SideAdded(before, s, s.fill.maker, s.fill.makerSide), s, s.fill.taker, s.fill.takerSide)
  }

  lemma SideJustified(pending: seq<Entry>, seen: seq<Sighting>, s: Sighting, w: string, o: Outcome)
    requires Justified(pending, seen) && s in seen
    requires (w == s.fill.maker && o == s.fill.makerSide) || (w == s.fill.taker && o == s.fill.takerSide)
    ensures Justified(SideAdded(pending, s, w, o), seen)
    ensures forall id :: HasEntry(SideAdded(pending, s, w, o), id) <==>
              HasEntry(pending, id) || (Party(s, w, o) && id == FillKey(s.fill.id, w))
  {
    hide OnchainWallet;
    if OnchainWallet(w) && o in s.outcomes && !HasEntry(pending, FillKey(s.fill.id, w)) {
      JustifiedNext(pending, seen, s, w, o);
      forall id
        ensures HasEntry(pending + [EntryFor(s, w, o)], id) <==> HasEntry(pending, id) || id == FillKey(s.fill.id, w)
      {
        HasEntryGrows(pending, EntryFor(s, w, o), id);
      }
    }
  }

  /** Pending trades are pairs that were seen, each once; and all of them when fill ids identify fills. */
  lemma {:induction false} PendingJustified(seen: seq<Sighting>)
    ensures Justified(PendingOf(seen), seen)
    ensures IdsIdentifyFills(seen) ==> Complete(PendingOf(seen), seen)
  {
    hide OnchainWallet, Justified, Complete, FillKey, IdsIdentifyFills;
    if seen == [] {
      NothingPending(seen);
    } else {
      var init, s := seen[..|seen| - 1], seen[|seen| - 1];
      assert seen == init + [s] && s in seen;
      PendingJustified(init);
      JustifiedGrows(PendingOf(init), init, s);
      if MetBefore(init, s) {
        MetBeforeAdds(PendingOf(init), init, s);
      } else {
        var maker := SideAdded(PendingOf(init), s, s.fill.maker, s.fill.makerSide);
        SideJustified(PendingOf(init), seen, s, s.fill.maker, s.fill.makerSide);
        SideJustified(maker, seen, s, s.fill.taker, s.fill.takerSide);
        BothSidesAdded(PendingOf(init), PendingOf(seen), init, s);
      }
    }
  }

  lemma NothingPending(seen: seq<Sighting>)
    requires seen == []
    ensures Justified([], seen) && Complete([], seen)
  {
  }

  lemma JustifiedGrows(pending: seq<Entry>, seen: seq<Sighting>, s: Sighting)
    requires Justified(pending, seen)
    ensures Justified(pending, seen + [s])
  {
    forall i | 0 <= i < |pending| ensures FromSighting(pending[i], seen + [s]) {
      assert FromSighting(pending[i], seen);
    }
  }

  /** A fill met before in the same market is the same fill, so it has no pair that is not listed. */
  lemma MetBeforeAdds(pending: seq<Entry>, seen: seq<Sighting>, s: Sighting)
    requires MetBefore(seen, s) && (IdsIdentifyFills(seen) ==> Complete(pending, seen))
    ensures IdsIdentifyFills(seen + [s]) ==> Complete(pending, seen + [s])
  {
    if IdsIdentifyFills(seen + [s]) {
      var i :| 0 <= i < |seen| && seen[i].fill.id == s.fill.id && seen[i].event == s.event;
      assert seen[i] in seen && seen[i] in seen + [s] && s in seen + [s];
      assert forall x :: x in seen + [s] ==> x in seen;
      assert IdsIdentifyFills(seen);
    }
  }

  /** A new fill, once both of its sides have been added. */
  lemma BothSidesAdded(pending: seq<Entry>, pending': seq<Entry>, seen: seq<Sighting>, s: Sighting)
    requires IdsIdentifyFills(seen) ==> Complete(pending, seen)
    requires forall id :: HasEntry(pending, id) ==> HasEntry(pending', id)
    requires forall w, o :: Party(s, w, o) ==> HasEntry(pending', FillKey(s.fill.id, w))
    ensures IdsIdentifyFills(seen + [s]) ==> Complete(pending', seen + [s])
  {
    if IdsIdentifyFills(seen + [s]) {
      assert forall t :: t in seen ==> t in seen + [s];
      assert IdsIdentifyFills(seen);
      forall t, w, o | t in seen + [s] && Party(t, w, o) ensures HasEntry(pending', FillKey(t.fill.id, w)) {
        if t in seen { assert HasEntry(pending, FillKey(t.fill.id, w)); }
      }
    }
  }

  /** The body of the inner loop for the maker or the taker of a fill. */
  method AddSide(s: Sighting, w: string, o: Outcome, stats: map<string, WalletStats>, pending: seq<Entry>,
                 seenExternal: set<string>)
    returns (stats': map<string, WalletStats>, pending': seq<Entry>, seenExternal': set<string>)
    requires Tallied(stats, pending)
    requires forall id :: id in seenExternal <==> HasEntry(pending, id)
    ensures pending' == SideAdded(pending, s, w, o) && Tallied(stats', pending')
    ensures forall id :: id in seenExternal' <==> HasEntry(pending', id)
  {
    hide OnchainWallet, Tallied;
    stats', pending', seenExternal' := stats, pending, seenExternal;
    if !OnchainWallet(w) || o !in s.outcomes { return; }
    var extId := FillKey(s.fill.id, w);
    if extId in seenExternal { return; }
    var e := EntryFor(s, w, o);
    TalliedNext(stats, pending, e);
    forall id ensures HasEntry(pending + [e], id) <==> HasEntry(pending, id) || id == extId {
      HasEntryGrows(pending, e, id);
    }
    seenExternal' := seenExternal + {extId};
    stats' := StatsAfter(stats, e);
    pending' := pending + [e];
  }

  /** Where the collecting loops stand once these fills have been met. */
  ghost predicate Collected(stats: map<string, WalletStats>, pending: seq<Entry>, seenFills: set<(string, int)>,
                            seenExternal: set<string>, seen: seq<Sighting>)
  {
    && pending == PendingOf(seen) && Tallied(stats, pending)
    && (forall id :: id in seenExternal <==> HasEntry(pending, id))
    && (forall k :: k in seenFills <==> SeenKey(k, seen))
  }

  ghost predicate SeenKey(k: (string, int), seen: seq<Sighting>) {
    exists i :: 0 <= i < |seen| && k == (seen[i].fill.id, seen[i].event)
  }

  lemma KeysGrow(seenFills: set<(string, int)>, seen: seq<Sighting>, s: Sighting)
    requires forall k :: k in seenFills <==> SeenKey(k, seen)
    ensures forall k :: k in seenFills + {(s.fill.id, s.event)} <==> SeenKey(k, seen + [s])
    ensures (s.fill.id, s.event) in seenFills <==> MetBefore(seen, s)
  {
    var next := seen + [s];
    forall k ensures k in seenFills + {(s.fill.id, s.event)} <==> SeenKey(k, next) {
      assert next[|seen|] == s;
      if SeenKey(k, seen) {
        var i :| 0 <= i < |seen| && k == (seen[i].fill.id, seen[i].event);
        assert next[i] == seen[i];
      }
    }
    if MetBefore(seen, s) {
      var i :| 0 <= i < |seen| && seen[i].fill.id == s.fill.id && seen[i].event == s.event;
      assert (s.fill.id, s.event) == (seen[i].fill.id, seen[i].event);
    }
  }

  /** The two collecting loops: over markets, and over the fills of each. */
  method Collect(batch: seq<Source>) returns (stats: map<string, WalletStats>, pending: seq<Entry>)
    ensures pending == PendingOf(Flat(batch)) && Tallied(stats, pending)
    ensures Justified(pending, Flat(batch))
    ensures IdsIdentifyFills(Flat(batch)) ==> Complete(pending, Flat(batch))
  {
    hide Justified, Complete, IdsIdentifyFills;
    stats, pending := map[], [];
    var seenFills: set<(string, int)>, seenExternal: set<string> := {}, {};
    for i := 0 to |batch|
      invariant Collected(stats, pending, seenFills, seenExternal, Flat(batch[..i]))
    {
      stats, pending, seenFills, seenExternal := CollectMarket(batch[i], stats, pending, seenFills, seenExternal,
                                                               Flat(batch[..i]));
      assert batch[..i + 1][..i] == batch[..i];
    }
    assert batch[..|batch|] == batch;
    PendingJustified(Flat(batch));
  }

  method CollectMarket(src: Source, stats: map<string, WalletStats>, pending: seq<Entry>, seenFills: set<(string, int)>,
                       seenExternal: set<string>, ghost before: seq<Sighting>)
    returns (stats': map<string, WalletStats>, pending': seq<Entry>, seenFills': set<(string, int)>,
             seenExternal': set<string>)
    requires Collected(stats, pending, seenFills, seenExternal, before)
    ensures Collected(stats', pending', seenFills', seenExternal', before + Sightings(src, |src.fills|))
  {
    hide Collected;
    stats', pending', seenFills', seenExternal' := stats, pending, seenFills, seenExternal;
    assert before + Sightings(src, 0) == before;
    for j := 0 to |src.fills|
      invariant Collected(stats', pending', seenFills', seenExternal', before + Sightings(src, j))
    {
      ghost var seen := before + Sightings(src, j);
      var s := Sighting(src.event, src.outcomes, src.fills[j]);
      assert seen + [s] == before + Sightings(src, j + 1);
      stats', pending', seenFills', seenExternal' := AddFill(s, stats', pending', seenFills', seenExternal', seen);
    }
  }

  method AddFill(s: Sighting, stats: map<string, WalletStats>, pending: seq<Entry>, seenFills: set<(string, int)>,
                 seenExternal: set<string>, ghost seen: seq<Sighting>)
    returns (stats': map<string, WalletStats>, pending': seq<Entry>, seenFills': set<(string, int)>,
             seenExternal': set<string>)
    requires Collected(stats, pending, seenFills, seenExternal, seen)
    ensures Collected(stats', pending', seenFills', seenExternal', seen + [s])
  {
    hide Tallied, SideAdded, MetBefore, HasEntry, SeenKey;
    stats', pending', seenFills', seenExternal' := stats, pending, seenFills, seenExternal;
    KeysGrow(seenFills, seen, s);
    assert (seen + [s])[..|seen|] == seen;
    var fillKey := (s.fill.id, s.event);
    if fillKey in seenFills {
      assert seenFills + {fillKey} == seenFills;
      return;
    }
    seenFills' := seenFills + {fillKey};
    stats', pending', seenExternal' := AddSide(s, s.fill.maker, s.fill.makerSide, stats, pending, seenExternal);
    stats', pending', seenExternal' := AddSide(s, s.fill.taker, s.fill.takerSide, stats', pending', seenExternal');
  }

  predicate Stored(trades: seq<TraderTrade>, id: string) { exists i :: 0 <= i < |trades| && trades[i].extId == id }

  /** Rows written by anything but this index may have no external id. */
  ghost predicate IdsUnique(trades: seq<TraderTrade>) {
    forall i, j :: 0 <= i < j < |trades| && trades[i].extId != "" ==> trades[i].extId != trades[j].extId
  }

  /** The pending trades that are not stored yet, in order. */
  function Unstored(trades: seq<TraderTrade>, pending: seq<Entry>): seq<TraderTrade> {
    if pending == [] then []
    else
      var prior := Unstored(trades, pending[..|pending| - 1]);
      var last := pending[|pending| - 1].trade;
      if Stored(trades, last.extId) then prior else prior + [last]
  }

  lemma {:induction false} UnstoredIds(trades: seq<TraderTrade>, pending: seq<Entry>, id: string)
    ensures Stored(Unstored(trades, pending), id) <==> HasEntry(pending, id) && !Stored(trades, id)
  {
    if pending != [] {
      var n := |pending| - 1;
      UnstoredIds(trades, pending[..n], id);
      HasEntryGrows(pending[..n], pending[n], id);
      assert pending == pending[..n] + [pending[n]];
      var last := pending[n].trade;
      if !Stored(trades, last.extId) {
        StoredConcat(Unstored(trades, pending[..n]), [last], id);
        assert [last][0].extId == last.extId;
      }
    }
  }

  lemma StoredConcat(a: seq<TraderTrade>, b: seq<TraderTrade>, id: string)
    ensures Stored(a + b, id) <==> Stored(a, id) || Stored(b, id)
  {
    var c := a + b;
    if Stored(a, id) { var i :| 0 <= i < |a| && a[i].extId == id; assert c[i].extId == id; }
    if Stored(b, id) { var i :| 0 <= i < |b| && b[i].extId == id; assert c[|a| + i].extId == id; }
  }

  /** One run keeps external ids unique. */
  lemma {:induction false} WriteKeepsIdsUnique(trades: seq<TraderTrade>, pending: seq<Entry>)
    requires IdsUnique(trades)
    requires forall i, j :: 0 <= i < j < |pending| ==> pending[i].trade.extId != pending[j].trade.extId
    ensures IdsUnique(trades + Unstored(trades, pending))
  {
    if pending == [] {
      assert trades + Unstored(trades, pending) == trades;
    } else {
      var n := |pending| - 1;
      var last := pending[n].trade;
      WriteKeepsIdsUnique(trades, pending[..n]);
      var before := trades + Unstored(trades, pending[..n]);
      if Stored(trades, last.extId) {
        assert trades + Unstored(trades, pending) == before;
      } else {
        assert trades + Unstored(trades, pending) == before + [last];
        UnstoredIds(trades, pending[..n], last.extId);
        StoredConcat(trades, Unstored(trades, pending[..n]), last.extId);
        assert forall i :: 0 <= i < |before| ==> before[i].extId != last.extId;
      }
    }
  }

  lemma RunKeepsIdsUnique(trades: seq<TraderTrade>, pending: seq<Entry>, seen: seq<Sighting>)
    requires IdsUnique(trades) && Justified(pending, seen)
    ensures IdsUnique(trades + Unstored(trades, pending))
  {
    WriteKeepsIdsUnique(trades, pending);
  }

  /** Main result: after a run the index holds exactly the trades it held and one for each pair of a
      fill and an on-chain wallet in the batch. */
  lemma IndexedPairs(trades: seq<TraderTrade>, pending: seq<Entry>, seen: seq<Sighting>, id: string)
    requires Justified(pending, seen) && Complete(pending, seen)
    ensures Stored(trades + Unstored(trades, pending), id)
            <==> Stored(trades, id) || exists s, w, o :: s in seen && Party(s, w, o) && id == FillKey(s.fill.id, w)
  {
    StoredConcat(trades, Unstored(trades, pending), id);
    UnstoredIds(trades, pending, id);
    if HasEntry(pending, id) {
      var i :| 0 <= i < |pending| && pending[i].trade.extId == id;
      assert FromSighting(pending[i], seen);
    }
  }

  /** Fills of the batch in which w took part. */
  function FillIds(seen: seq<Sighting>, w: string): set<string> {
    set s | s in seen && (Party(s, w, YES) || Party(s, w, NO)) :: s.fill.id
  }

  /** A wallet is counted once for each fill, however many of its sides the wallet is on. */
  lemma CountsEachFillOnce(pending: seq<Entry>, seen: seq<Sighting>, w: string)
    requires Justified(pending, seen) && Complete(pending, seen)
    ensures |Of(pending, w)| == |FillIds(seen, w)|
  {
    var mine := Of(pending, w);
    var ids := seq(|mine|, i requires 0 <= i < |mine| => mine[i].fillId);
    OfMembers(pending, seen, w);
    forall id | id in FillIds(seen, w) ensures id in ids {
      var k := FillIsMine(pending, seen, w, id);
      assert ids[k] == id;
    }
    forall id | id in ids ensures id in FillIds(seen, w) {
      var i :| 0 <= i < |ids| && ids[i] == id;
      MineIsFill(mine[i], seen, w);
    }
    DistinctSize(ids, FillIds(seen, w));
  }

  lemma MineIsFill(e: Entry, seen: seq<Sighting>, w: string)
    requires FromSighting(e, seen) && e.trade.wallet == w
    ensures e.fillId in FillIds(seen, w)
  {
    var s :| s in seen && Party(s, w, e.trade.outcome) && Records(e, s);
    assert e.trade.outcome.YES? || e.trade.outcome.NO?;
  }

  lemma FillIsMine(pending: seq<Entry>, seen: seq<Sighting>, w: string, id: string) returns (k: nat)
    requires Justified(pending, seen) && Complete(pending, seen) && id in FillIds(seen, w)
    ensures k < |Of(pending, w)| && Of(pending, w)[k].fillId == id
  {
    hide OnchainWallet, Justified;
    var s :| s in seen && (Party(s, w, YES) || Party(s, w, NO)) && s.fill.id == id;
    var i := EntryOfFill(pending, seen, s, w, if Party(s, w, YES) then YES else NO);
    FilterMembers(pending, (e: Entry) => e.trade.wallet == w);
    assert pending[i] in Of(pending, w);
    k :| 0 <= k < |Of(pending, w)| && Of(pending, w)[k] == pending[i];
  }

  lemma EntryOfFill(pending: seq<Entry>, seen: seq<Sighting>, s: Sighting, w: string, o: Outcome) returns (i: nat)
    requires Justified(pending, seen) && Complete(pending, seen) && s in seen && Party(s, w, o)
    ensures i < |pending| && pending[i].trade.wallet == w && pending[i].fillId == s.fill.id
  {
    hide OnchainWallet, FillKey;
    assert HasEntry(pending, FillKey(s.fill.id, w));
    i :| 0 <= i < |pending| && pending[i].trade.extId == FillKey(s.fill.id, w);
    assert FromSighting(pending[i], seen);
    ExtIdInjective(pending[i].fillId, pending[i].trade.wallet, s.fill.id, w);
  }

  lemma {:induction false} OfMembers(pending: seq<Entry>, seen: seq<Sighting>, w: string)
    requires Justified(pending, seen)
    ensures var mine := Of(pending, w);
            && (forall i :: 0 <= i < |mine| ==>
                  mine[i] in pending && mine[i].trade.wallet == w && FromSighting(mine[i], seen))
            && forall i, j :: 0 <= i < j < |mine| ==> mine[i].fillId != mine[j].fillId
  {
    if pending != [] {
      var n := |pending| - 1;
      OfMembers(pending[..n], seen, w);
      assert FromSighting(pending[n], seen);
      var mine := Of(pending[..n], w);
      forall i | 0 <= i < |mine| && pending[n].trade.wallet == w ensures mine[i].fillId != pending[n].fillId {
        assert FromSighting(mine[i], seen);
        var k :| 0 <= k < n && pending[k] == mine[i];
        assert pending[k].trade.extId != pending[n].trade.extId;
      }
    }
  }

  predicate TookPart(s: Sighting, w: string) { Party(s, w, YES) || Party(s, w, NO) }

  predicate TookPartBefore(seen: seq<Sighting>, w: string, id: string) {
    exists i :: 0 <= i < |seen| && TookPart(seen[i], w) && seen[i].fill.id == id
  }

  /** The distinct fills a wallet took part in, each as it was first met. */
  function FirstFills(seen: seq<Sighting>, w: string): seq<Sighting> {
    if seen == [] then []
    else
      var n := |seen| - 1;
      FirstFills(seen[..n], w)
        + if TookPart(seen[n], w) && !TookPartBefore(seen[..n], w, seen[n].fill.id) then [seen[n]] else []
  }

  function FillQuote(): Sighting -> real { (s: Sighting) => s.fill.quote }

  /** A wallet's volume is the quote of every distinct fill it took part in, once. */
  lemma {:induction false} VolumeIsQuotes(seen: seq<Sighting>, w: string)
    requires IdsIdentifyFills(seen)
    ensures Sum(Of(PendingOf(seen), w), Quote()) == Sum(FirstFills(seen, w), FillQuote())
  {
    hide OnchainWallet, IdsIdentifyFills, Party, Complete, Justified;
    if seen != [] {
      var init, s := seen[..|seen| - 1], seen[|seen| - 1];
      assert seen == init + [s];
      PrefixIdentifies(init, s);
      VolumeIsQuotes(init, w);
      PendingJustified(init);
      var first := TookPart(s, w) && !TookPartBefore(init, w, s.fill.id);
      if MetBefore(init, s) {
        MetIsNotFirst(init, s, w);
        assert FirstFills(seen, w) == FirstFills(init, w) + [];
        assert FirstFills(seen, w) == FirstFills(init, w);
      } else {
        SidesAddOne(PendingOf(init), init, s, w);
        if first {
          SumAppend(FirstFills(init, w), s, FillQuote());
        } else {
          assert FirstFills(init, w) + [] == FirstFills(init, w);
        }
      }
    }
  }

  lemma PrefixIdentifies(seen: seq<Sighting>, s: Sighting)
    requires IdsIdentifyFills(seen + [s])
    ensures IdsIdentifyFills(seen)
  {
    assert forall t :: t in seen ==> t in seen + [s];
  }

  lemma MetIsNotFirst(seen: seq<Sighting>, s: Sighting, w: string)
    requires IdsIdentifyFills(seen + [s]) && MetBefore(seen, s)
    ensures TookPart(s, w) ==> TookPartBefore(seen, w, s.fill.id)
  {
    var i :| 0 <= i < |seen| && seen[i].fill.id == s.fill.id && seen[i].event == s.event;
    assert seen[i] in seen + [s] && s in seen + [s];
  }

  /** The sides of a new fill add its quote once to a wallet that is on it and has not been on that fill id before. */
  lemma SidesAddOne(pending: seq<Entry>, seen: seq<Sighting>, s: Sighting, w: string)
    requires Justified(pending, seen) && Complete(pending, seen)
    ensures var maker := SideAdded(pending, s, s.fill.maker, s.fill.makerSide);
            var both := SideAdded(maker, s, s.fill.taker, s.fill.takerSide);
            Sum(Of(both, w), Quote()) == Sum(Of(pending, w), Quote())
              + if TookPart(s, w) && !TookPartBefore(seen, w, s.fill.id) then s.fill.quote else 0.0
  {
    hide OnchainWallet, Of, Justified, Complete, SideAdded, HasEntry, TookPart, TookPartBefore;
    var maker := SideAdded(pending, s, s.fill.maker, s.fill.makerSide);
    SideVolume(pending, s, s.fill.maker, s.fill.makerSide, w);
    SideVolume(maker, s, s.fill.taker, s.fill.takerSide, w);
    if OnchainWallet(w) { ListedIffBefore(pending, seen, s, w); }
    SideEntries(pending, s, s.fill.maker, s.fill.makerSide, FillKey(s.fill.id, w), w);
    TookPartAs(s, w);
  }

  lemma TookPartAs(s: Sighting, w: string)
    ensures TookPart(s, w) <==> OnchainWallet(w) && ((w == s.fill.maker && s.fill.makerSide in s.outcomes)
                                                     || (w == s.fill.taker && s.fill.takerSide in s.outcomes))
  {
    hide OnchainWallet;
    assert s.fill.makerSide.YES? || s.fill.makerSide.NO?;
    assert s.fill.takerSide.YES? || s.fill.takerSide.NO?;
  }

  lemma SideVolume(pending: seq<Entry>, s: Sighting, v: string, o: Outcome, w: string)
    ensures Sum(Of(SideAdded(pending, s, v, o), w), Quote()) == Sum(Of(pending, w), Quote())
              + if v == w && OnchainWallet(v) && o in s.outcomes && !HasEntry(pending, FillKey(s.fill.id, v))
                then s.fill.quote else 0.0
  {
    hide OnchainWallet, HasEntry;
    var e := EntryFor(s, v, o);
    OfAppend(pending, e, w);
    SumAppend(Of(pending, w), e, Quote());
    assert Quote()(e) == s.fill.quote;
  }

  lemma SideEntries(pending: seq<Entry>, s: Sighting, v: string, o: Outcome, id: string, w: string)
    requires id == FillKey(s.fill.id, w)
    ensures OnchainWallet(w) ==>
              (HasEntry(SideAdded(pending, s, v, o), id)
               <==> HasEntry(pending, id) || (v == w && o in s.outcomes))
  {
    HasEntryGrows(pending, EntryFor(s, v, o), id);
    if OnchainWallet(v) && OnchainWallet(w) && FillKey(s.fill.id, v) == id {
      ExtIdInjective(s.fill.id, v, s.fill.id, w);
    }
  }

  lemma ListedIffBefore(pending: seq<Entry>, seen: seq<Sighting>, s: Sighting, w: string)
    requires Justified(pending, seen) && Complete(pending, seen) && OnchainWallet(w)
    ensures HasEntry(pending, FillKey(s.fill.id, w)) <==> TookPartBefore(seen, w, s.fill.id)
  {
    hide OnchainWallet;
    var id := FillKey(s.fill.id, w);
    if HasEntry(pending, id) {
      var i :| 0 <= i < |pending| && pending[i].trade.extId == id;
      assert FromSighting(pending[i], seen);
      var t :| t in seen && Party(t, pending[i].trade.wallet, pending[i].trade.outcome) && Records(pending[i], t);
      ExtIdInjective(t.fill.id, pending[i].trade.wallet, s.fill.id, w);
      assert pending[i].trade.outcome.YES? || pending[i].trade.outcome.NO?;
      var j :| 0 <= j < |seen| && seen[j] == t;
      assert TookPart(seen[j], w);
    }
    if TookPartBefore(seen, w, s.fill.id) {
      var j :| 0 <= j < |seen| && TookPart(seen[j], w) && seen[j].fill.id == s.fill.id;
      assert seen[j] in seen;
    }
  }

  lemma {:induction false} DistinctSize(s: seq<string>, elems: set<string>)
    requires forall i, j :: 0 <= i < j < |s| ==> s[i] != s[j]
    requires (forall x :: x in s ==> x in elems) && forall x :: x in elems ==> x in s
    ensures |s| == |elems|
  {
    if s == [] {
      assert elems == {};
    } else {
      var last := s[|s| - 1];
      assert last !in s[..|s| - 1];
      DistinctSize(s[..|s| - 1], elems - {last});
    }
  }

  function ProfileAfter(profiles: map<string, Profile>, w: string, st: WalletStats, now: int): Profile {
    Profile(if w in profiles then profiles[w].displayName else if |w| < 10 then w else w[..10],
            st.total, st.total, 0, 0, st.volume, 0.0, now)
  }

  class TraderIndex {
    var profiles: map<string, Profile>
    var trades: seq<TraderTrade>

    ghost predicate Valid()
      reads this
    {
      IdsUnique(trades) && forall i :: 0 <= i < |trades| ==> trades[i].wallet in profiles
    }

    constructor ()
      ensures Valid() && profiles == map[] && trades == []
    {
      profiles, trades := map[], [];
    }

    /** _write_indexed_fills. A profile's figures are overwritten with those of this batch. */
    method WriteIndexedFills(batch: seq<Source>, now: int)
      returns (profilesCreated: nat, tradesCreated: nat, pending: seq<Entry>)
      requires Valid()
      modifies this
      ensures Valid()
      ensures pending == PendingOf(Flat(batch))
      ensures Justified(pending, Flat(batch)) && (IdsIdentifyFills(Flat(batch)) ==> Complete(pending, Flat(batch)))
      ensures trades == old(trades) + Unstored(old(trades), pending) && tradesCreated == |trades| - |old(trades)|
      ensures forall w :: w in profiles <==> w in old(profiles) || Of(pending, w) != []
      ensures forall w :: w in profiles ==>
                profiles[w] == if Of(pending, w) == [] then old(profiles)[w]
                               else ProfileAfter(old(profiles), w,
                                                 WalletStats(|Of(pending, w)|, Sum(Of(pending, w), Quote())), now)
      ensures IdsIdentifyFills(Flat(batch)) ==> forall w :: w in profiles && Of(pending, w) != [] ==>
                && profiles[w].totalTrades == |FillIds(Flat(batch), w)|
                && profiles[w].volume == Sum(FirstFills(Flat(batch), w), FillQuote())
      ensures profilesCreated == |profiles.Keys - old(profiles).Keys|
    {
      hide FirstFills, FillIds, PendingOf, Justified, Complete, IdsIdentifyFills, Flat, Unstored, Of, ProfileAfter,
        IdsUnique;
      var stats;
      stats, pending := Collect(batch);
      RunKeepsIdsUnique(trades, pending, Flat(batch));
      var created := MissingTrades(pending);
      UnstoredWallets(trades, pending);
      profilesCreated := |stats.Keys - profiles.Keys|;
      UpdateProfiles(stats, now);
      trades := trades + created;
      tradesCreated := |created|;
      assert profiles.Keys - old(profiles).Keys == stats.Keys - old(profiles).Keys;
      if IdsIdentifyFills(Flat(batch)) {
        forall w | w in profiles && Of(pending, w) != []
          ensures profiles[w].totalTrades == |FillIds(Flat(batch), w)|
          ensures profiles[w].volume == Sum(FirstFills(Flat(batch), w), FillQuote())
        {
          CountsEachFillOnce(pending, Flat(batch), w);
          VolumeIsQuotes(Flat(batch), w);
          FiguresOfProfile(old(profiles), w, WalletStats(|Of(pending, w)|, Sum(Of(pending, w), Quote())), now);
        }
      }
    }

    method MissingTrades(pending: seq<Entry>) returns (created: seq<TraderTrade>)
      ensures created == Unstored(trades, pending)
    {
      created := [];
      for i := 0 to |pending|
        invariant created == Unstored(trades, pending[..i])
      {
        assert pending[..i + 1][..i] == pending[..i];
        if !Stored(trades, pending[i].trade.extId) { created := created + [pending[i].trade]; }
      }
      assert pending[..|pending|] == pending;
    }

    method UpdateProfiles(stats: map<string, WalletStats>, now: int)
      modifies this`profiles
      ensures profiles.Keys == old(profiles).Keys + stats.Keys
      ensures forall w :: w in profiles ==>
                profiles[w] == if w in stats then ProfileAfter(old(profiles), w, stats[w], now) else old(profiles)[w]
    {
      var rest := stats.Keys;
      while rest != {}
        invariant rest <= stats.Keys
        invariant profiles.Keys == old(profiles).Keys + (stats.Keys - rest)
        invariant forall w :: w in profiles ==>
                    profiles[w] == if w in stats && w !in rest then ProfileAfter(old(profiles), w, stats[w], now)
                      else old(profiles)[w]
      {
        var w :| w in rest;
        profiles := profiles[w := ProfileAfter(profiles, w, stats[w], now)];
        rest := rest - {w};
      }
    }

    /** Syncing the same batch again adds nothing. */
    method WriteTwice(batch: seq<Source>, now: int, later: int) returns (added: nat)
      requires Valid()
      modifies this
      ensures Valid() && added == 0
    {
      var _, _, pending := WriteIndexedFills(batch, now);
      NothingUnstored(old(trades), pending);
      var _, n, _ := WriteIndexedFills(batch, later);
      added := n;
    }
  }

  /** What a run writes to a profile: all its trades count as completed, wins, losses and profit are reset, and a new
      profile is named by the first ten characters of the wallet. */
  lemma FiguresOfProfile(profiles: map<string, Profile>, w: string, st: WalletStats, now: int)
    ensures var p := ProfileAfter(profiles, w, st, now);
            && p.totalTrades == p.completedTrades == st.total && p.volume == st.volume
            && p.winningTrades == p.losingTrades == 0 && p.pnl == 0.0 && p.lastActive == now
            && (w in profiles ==> p.displayName == profiles[w].displayName)
            && (w !in profiles && |w| >= 10 ==> p.displayName == w[..10])
            && (w !in profiles && |w| < 10 ==> p.displayName == w)
  {
  }

  lemma {:induction false} UnstoredWallets(trades: seq<TraderTrade>, pending: seq<Entry>)
    ensures forall i :: 0 <= i < |Unstored(trades, pending)| ==> Of(pending, Unstored(trades, pending)[i].wallet) != []
  {
    if pending != [] {
      var n := |pending| - 1;
      UnstoredWallets(trades, pending[..n]);
      assert pending == pending[..n] + [pending[n]];
      forall i | 0 <= i < |Unstored(trades, pending)| ensures Of(pending, Unstored(trades, pending)[i].wallet) != [] {
        OfAppend(pending[..n], pending[n], Unstored(trades, pending)[i].wallet);
      }
    }
  }

  lemma NothingUnstored(trades: seq<TraderTrade>, pending: seq<Entry>)
    ensures Unstored(trades + Unstored(trades, pending), pending) == []
  {
    var after := trades + Unstored(trades, pending);
    if Unstored(after, pending) != [] {
      var id := Unstored(after, pending)[0].extId;
      assert Stored(Unstored(after, pending), id);
      UnstoredIds(after, pending, id);
      UnstoredIds(trades, pending, id);
      StoredConcat(trades, Unstored(trades, pending), id);
    }
  }
}
