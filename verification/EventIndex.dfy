/** The local index of markets: bulk upsert against the one-row upsert. */
module EventIndex {
  import opened Wrappers
  import opened Upserts
  import M = Markets

  type Status = M.Status
  type Outcome = M.Outcome

  /** A market as the exchange reports it; status is its lower-cased status text. */
  datatype Dto = Dto(marketId: string, asset: string, expiry: int, yesToken: string, noToken: string,
                     yesPrice: real, noPrice: real, pool: Option<string>, status: string, winner: Option<Outcome>)

  datatype Fields = Fields(asset: string, expiry: int, yesToken: string, noToken: string, pool: string,
                           status: Status, winner: Option<Outcome>)

  /** createdAt and eventType belong to the row and are never synced. */
  datatype EventRow = EventRow(createdAt: int, eventType: string, updatedAt: int, fields: Fields)

  /** One side of a reported market. */
  datatype Quote = Quote(marketId: string, side: Outcome, token: string, price: real)

  datatype OutcomeRow = OutcomeRow(createdAt: int, updatedAt: int, token: string, price: real)

  datatype Rows = Rows(events: map<string, EventRow>, outcomes: map<(string, Outcome), OutcomeRow>)

  const STATUS_MAP: map<string, Status> :=
    map["live" := M.Trading, "trading" := M.Trading, "listed" := M.Listed, "locked" := M.Locked,
        "settling" := M.Settling,
        "resolved" := M.Resolved, "finalized" := M.Resolved, "voided" := M.Voided]

  function NormalizeStatus(status: string): Status {
    if status in STATUS_MAP then STATUS_MAP[status] else M.Trading
  }

  /** _coerce_event_dto: a posted winner settles, a passed expiry locks. */
  function Coerce(d: Dto, now: int): Dto {
    if d.winner.Some? then d.(status := "finalized")
    else if d.status == "voided" then d
    else if d.expiry <= now && d.status in {"live", "trading", "listed"} then d.(status := "locked")
    else d
  }

  /** _event_defaults */
  function Defaults(d: Dto, now: int): Fields {
    var c := Coerce(d, now);
    Fields(c.asset, c.expiry, c.yesToken, c.noToken, if c.pool.Some? then c.pool.value else "",
           NormalizeStatus(c.status), c.winner)
  }

  /** The stored status of a report, case by case: a winner settles whatever else is said, an expiry in
      the past locks, and a status text nobody knows counts as trading, even past the expiry. */
  ghost predicate StatusFits(s: Status, d: Dto, now: int) {
    && s !in {M.Live, M.Finalized}
    && (s == M.Resolved <==> d.winner.Some? || d.status in {"resolved", "finalized"})
    && (s == M.Voided <==> d.winner.None? && d.status == "voided")
    && (s == M.Settling <==> d.winner.None? && d.status == "settling")
    && (s == M.Locked <==>
          d.winner.None? && (d.status == "locked" || (d.expiry <= now && d.status in {"live", "trading", "listed"})))
    && (s == M.Listed <==> d.winner.None? && d.status == "listed" && d.expiry > now)
    && (s == M.Trading <==>
          && d.winner.None? && (d.status in {"live", "trading"} ==> d.expiry > now)
          && d.status !in {"listed", "locked", "settling", "resolved", "finalized", "voided"})
  }

  /** The synced fields of a row carry the report: asset, expiry, tokens, pool and winner as reported, and status. */
  ghost predicate Carries(f: Fields, d: Dto, now: int) {
    && f.asset == d.asset && f.expiry == d.expiry && f.yesToken == d.yesToken && f.noToken == d.noToken
    && (if d.pool.Some? then f.pool == d.pool.value else f.pool == "")
    && f.winner == d.winner && StatusFits(f.status, d, now)
  }

  lemma StatusOfReport(d: Dto, now: int)
    ensures StatusFits(Defaults(d, now).status, d, now)
  {
    assert "locked" in STATUS_MAP && "finalized" in STATUS_MAP && "voided" in STATUS_MAP;
  }

  /** What is written for a report carries it. */
  lemma FieldsOfReport(d: Dto, now: int)
    ensures Carries(Defaults(d, now), d, now)
  {
    hide StatusFits, NormalizeStatus;
    StatusOfReport(d, now);
  }

  function QuoteOf(d: Dto, side: Outcome): Quote {
    if side == M.YES then Quote(d.marketId, side, d.yesToken, d.yesPrice)
    else Quote(d.marketId, side, d.noToken, d.noPrice)
  }

  function EventAfter(row: Option<EventRow>, d: Dto, now: int): EventRow {
    match row
    case Some(stored) => stored.(updatedAt := now, fields := Defaults(d, now))
    case None => EventRow(now, "BINARY", now, Defaults(d, now))
  }

  function OutcomeAfter(row: Option<OutcomeRow>, q: Quote, now: int): OutcomeRow {
    match row
    case Some(stored) => stored.(updatedAt := now, token := q.token, price := q.price)
    case None => OutcomeRow(now, now, q.token, q.price)
  }

  function EventWriter(now: int): (Option<EventRow>, Dto) -> EventRow {
    (row: Option<EventRow>, d: Dto) => EventAfter(row, d, now)
  }

  function OutcomeWriter(now: int): (Option<OutcomeRow>, Quote) -> OutcomeRow {
    (row: Option<OutcomeRow>, q: Quote) => OutcomeAfter(row, q, now)
  }

  function MarketKey(): Dto -> string { (d: Dto) => d.marketId }

  function SideKey(): Quote -> (string, Outcome) { (q: Quote) => (q.marketId, q.side) }

  /** _upsert_event: update_or_create of the event row, then of its YES and NO outcome rows. */
  function UpsertOne(rows: Rows, d: Dto, now: int): Rows {
    var key, yes, no := d.marketId, QuoteOf(d, M.YES), QuoteOf(d, M.NO);
    var events := rows.events[key := EventAfter(Get(rows.events, key), d, now)];
    var outcomes := rows.outcomes[(key, M.YES) := OutcomeAfter(Get(rows.outcomes, (key, M.YES)), yes, now)];
    Rows(events, outcomes[(key, M.NO) := OutcomeAfter(Get(outcomes, (key, M.NO)), no, now)])
  }

  /** The simple form: one upsert per reported market, in order. */
  function UpsertEach(rows: Rows, dtos: seq<Dto>, now: int): Rows {
    if dtos == [] then rows
    else UpsertOne(UpsertEach(rows, dtos[..|dtos| - 1], now), dtos[|dtos| - 1], now)
  }

  function Quotes(dtos: seq<Dto>): seq<Quote> {
    if dtos == [] then []
    else Quotes(dtos[..|dtos| - 1]) + [QuoteOf(dtos[|dtos| - 1], M.YES)] + [QuoteOf(dtos[|dtos| - 1], M.NO)]
  }

  function Ids(dtos: seq<Dto>): set<string> { set d | d in dtos :: d.marketId }

  /** Both sides of the last report of each market. */
  function SidesOf(latest: map<string, Dto>): map<(string, Outcome), Quote> {
    map key | key in (set id, side | id in latest && side in {M.YES, M.NO} :: (id, side)) ::
        QuoteOf(latest[key.0], key.1)
  }

  lemma FoldAppend<K, V, D>(t: map<K, V>, ds: seq<D>, d: D, key: D -> K, w: (Option<V>, D) -> V)
    ensures Fold(t, ds + [d], key, w) == Fold(t, ds, key, w)[key(d) := w(Get(Fold(t, ds, key, w), key(d)), d)]
  {
    assert (ds + [d])[..|ds|] == ds;
  }

  lemma {:induction false} EachIsTwoFolds(rows: Rows, dtos: seq<Dto>, now: int)
    ensures UpsertEach(rows, dtos, now)
            == Rows(Fold(rows.events, dtos, MarketKey(), EventWriter(now)),
                    Fold(rows.outcomes, Quotes(dtos), SideKey(), OutcomeWriter(now)))
  {
    if dtos != [] {
      var init, d := dtos[..|dtos| - 1], dtos[|dtos| - 1];
      EachIsTwoFolds(rows, init, now);
      FoldAppend(rows.outcomes, Quotes(init), QuoteOf(d, M.YES), SideKey(), OutcomeWriter(now));
      FoldAppend(rows.outcomes, Quotes(init) + [QuoteOf(d, M.YES)], QuoteOf(d, M.NO), SideKey(), OutcomeWriter(now));
    }
  }

  lemma {:induction false} LatestSides(dtos: seq<Dto>)
    ensures Latest(Quotes(dtos), SideKey()) == SidesOf(Latest(dtos, MarketKey()))
  {
    if dtos != [] {
      var init, d := dtos[..|dtos| - 1], dtos[|dtos| - 1];
      LatestSides(init);
      var yes, no := QuoteOf(d, M.YES), QuoteOf(d, M.NO);
      var quotes := Quotes(init);
      assert (quotes + [yes])[..|quotes|] == quotes;
      assert (quotes + [yes] + [no])[..|quotes| + 1] == quotes + [yes];
      SidesNext(Latest(init, MarketKey()), d);
    }
  }

  lemma SidesNext(latest: map<string, Dto>, d: Dto)
    ensures SidesOf(latest[d.marketId := d])
            == SidesOf(latest)[(d.marketId, M.YES) := QuoteOf(d, M.YES)][(d.marketId, M.NO) := QuoteOf(d, M.NO)]
  {
    hide QuoteOf;
    var a := SidesOf(latest[d.marketId := d]);
    var b := SidesOf(latest)[(d.marketId, M.YES) := QuoteOf(d, M.YES)][(d.marketId, M.NO) := QuoteOf(d, M.NO)];
    forall id: string, side: Outcome ensures (id, side) in a <==> (id, side) in b {
      assert side.YES? || side.NO?;
      assert (id, side) in a <==> id in latest[d.marketId := d];
      assert (id, side) in SidesOf(latest) <==> id in latest;
    }
    assert a.Keys == b.Keys;
  }

  /** Main result: writing each market once, from its last report, leaves exactly the rows that
      upserting every report in order leaves. */
  lemma BulkRefinesSimple(rows: Rows, dtos: seq<Dto>, now: int)
    ensures UpsertEach(rows, dtos, now).events == Bulk(rows.events, Latest(dtos, MarketKey()), EventWriter(now))
    ensures UpsertEach(rows, dtos, now).outcomes
            == Bulk(rows.outcomes, SidesOf(Latest(dtos, MarketKey())), OutcomeWriter(now))
  {
    EachIsTwoFolds(rows, dtos, now);
    EventsOverwrite(now);
    OutcomesOverwrite(now);
    FoldIsBulk(rows.events, dtos, MarketKey(), EventWriter(now));
    FoldIsBulk(rows.outcomes, Quotes(dtos), SideKey(), OutcomeWriter(now));
    LatestSides(dtos);
  }

  lemma EventsOverwrite(now: int)
    ensures Overwrites(EventWriter(now))
  {
    forall o: Option<EventRow>, d: Dto, e: Dto
      ensures EventWriter(now)(Some(EventWriter(now)(o, d)), e) == EventWriter(now)(o, e) {
      assert EventAfter(Some(EventAfter(o, d, now)), e, now) == EventAfter(o, e, now);
    }
  }

  lemma OutcomesOverwrite(now: int)
    ensures Overwrites(OutcomeWriter(now))
  {
  }

  /** The rows hold this report: its event row and both of its outcome rows, written now. */
  ghost predicate Written(rows: Rows, d: Dto, now: int) {
    var id := d.marketId;
    && id in rows.events && Carries(rows.events[id].fields, d, now) && rows.events[id].updatedAt == now
    && (id, M.YES) in rows.outcomes && (id, M.NO) in rows.outcomes
    && rows.outcomes[(id, M.YES)].token == d.yesToken && rows.outcomes[(id, M.YES)].price == d.yesPrice
    && rows.outcomes[(id, M.NO)].token == d.noToken && rows.outcomes[(id, M.NO)].price == d.noPrice
    && rows.outcomes[(id, M.YES)].updatedAt == now && rows.outcomes[(id, M.NO)].updatedAt == now
  }

  /** dtos[i] is the last report of its market. */
  ghost predicate IsLast(dtos: seq<Dto>, i: int) {
    0 <= i < |dtos| && forall j :: i < j < |dtos| ==> dtos[j].marketId != dtos[i].marketId
  }

  /** The last report of a market decides its row and both of its outcome rows. What is not synced stays, and a row
      that is new was created now, as a binary market. */
  lemma {:induction false} LastReportWins(rows: Rows, dtos: seq<Dto>, now: int, i: nat)
    requires IsLast(dtos, i)
    ensures Written(UpsertEach(rows, dtos, now), dtos[i], now)
    ensures var row, id := UpsertEach(rows, dtos, now).events[dtos[i].marketId], dtos[i].marketId;
            if id in rows.events then row.createdAt == rows.events[id].createdAt
              && row.eventType == rows.events[id].eventType
            else row.createdAt == now && row.eventType == "BINARY"
    ensures forall side :: side in {M.YES, M.NO} ==>
              var key := (dtos[i].marketId, side);
              UpsertEach(rows, dtos, now).outcomes[key].createdAt
              == if key in rows.outcomes then rows.outcomes[key].createdAt else now
  {
    hide Written, UpsertOne;
    var n := |dtos| - 1;
    var before := UpsertEach(rows, dtos[..n], now);
    if i < n {
      LastReportWins(rows, dtos[..n], now, i);
      OthersKept(before, dtos[n], dtos[i], now);
    } else {
      UnsyncedKept(rows, dtos[..n], now, dtos[i].marketId);
      OneWritten(before, dtos[n], now);
    }
  }

  lemma OneWritten(rows: Rows, d: Dto, now: int)
    ensures Written(UpsertOne(rows, d, now), d, now)
    ensures var row := UpsertOne(rows, d, now).events[d.marketId];
            if d.marketId in rows.events then
              row.createdAt == rows.events[d.marketId].createdAt && row.eventType == rows.events[d.marketId].eventType
            else row.createdAt == now && row.eventType == "BINARY"
    ensures forall side :: side in {M.YES, M.NO} ==>
              var key := (d.marketId, side);
              UpsertOne(rows, d, now).outcomes[key].createdAt
              == if key in rows.outcomes then rows.outcomes[key].createdAt else now
  {
    hide Defaults, Carries;
    FieldsOfReport(d, now);
  }

  /** Upserting another market leaves the rows of this one alone. */
  lemma OthersKept(rows: Rows, other: Dto, d: Dto, now: int)
    requires other.marketId != d.marketId && Written(rows, d, now)
    ensures var after := UpsertOne(rows, other, now);
            && Written(after, d, now) && after.events[d.marketId] == rows.events[d.marketId]
            && forall side :: side in {M.YES, M.NO} ==>
                 after.outcomes[(d.marketId, side)] == rows.outcomes[(d.marketId, side)]
  {
    hide Defaults, Carries;
  }

  lemma {:induction false} UnsyncedKept(rows: Rows, dtos: seq<Dto>, now: int, id: string)
    ensures var after := UpsertEach(rows, dtos, now).events;
            if id in rows.events then
              && id in after && after[id].createdAt == rows.events[id].createdAt
              && after[id].eventType == rows.events[id].eventType
            else id in after ==> after[id].createdAt == now && after[id].eventType == "BINARY"
    ensures forall side ::
              var after, key := UpsertEach(rows, dtos, now).outcomes, (id, side);
              if key in rows.outcomes then key in after && after[key].createdAt == rows.outcomes[key].createdAt
              else key in after ==> after[key].createdAt == now
  {
    hide Defaults;
    if dtos != [] { UnsyncedKept(rows, dtos[..|dtos| - 1], now, id); }
  }

  lemma LastIndex(dtos: seq<Dto>, id: string) returns (i: nat)
    requires id in Ids(dtos)
    ensures i < |dtos| && dtos[i].marketId == id && forall j :: i < j < |dtos| ==> dtos[j].marketId != id
  {
    var n := |dtos| - 1;
    if dtos[n].marketId == id {
      i := n;
    } else {
      assert dtos == dtos[..n] + [dtos[n]];
      i := LastIndex(dtos[..n], id);
    }
  }

  lemma AllWritten(rows: Rows, dtos: seq<Dto>, now: int)
    ensures forall i :: IsLast(dtos, i) ==> Written(UpsertEach(rows, dtos, now), dtos[i], now)
  {
    hide Written;
    forall i | IsLast(dtos, i) ensures Written(UpsertEach(rows, dtos, now), dtos[i], now) {
      LastReportWins(rows, dtos, now, i);
    }
  }

  lemma ReportedRow(rows: Rows, dtos: seq<Dto>, now: int, id: string)
    requires id in Ids(dtos)
    ensures var after := UpsertEach(rows, dtos, now).events;
            id in after &&
            exists i :: IsLast(dtos, i) && dtos[i].marketId == id && Carries(after[id].fields, dtos[i], now)
  {
    var i := LastIndex(dtos, id);
    LastReportWins(rows, dtos, now, i);
  }

  lemma UnreportedRow(rows: Rows, dtos: seq<Dto>, now: int, id: string)
    requires id !in Ids(dtos)
    ensures Get(UpsertEach(rows, dtos, now).events, id) == Get(rows.events, id)
  {
    BulkRefinesSimple(rows, dtos, now);
    LatestKeys(dtos, MarketKey());
  }

  /** The dictionary of the last report of each market, with its keys in order. */
  method DedupeByMarket(dtos: seq<Dto>) returns (order: seq<string>, latest: map<string, Dto>)
    ensures latest == Latest(dtos, MarketKey())
    ensures Lists(order, latest)
  {
    order, latest := [], map[];
    for i := 0 to |dtos|
      invariant latest == Latest(dtos[..i], MarketKey())
      invariant Lists(order, latest)
    {
      assert dtos[..i + 1][..i] == dtos[..i];
      var id := dtos[i].marketId;
      if id !in latest { order := order + [id]; }
      latest := latest[id := dtos[i]];
    }
    assert dtos[..|dtos|] == dtos;
  }

  /** YES and NO of every market, in order. */
  method ListSides(order: seq<string>, latest: map<string, Dto>) returns (sides: seq<(string, Outcome)>)
    requires Lists(order, latest)
    ensures Lists(sides, SidesOf(latest))
  {
    sides := [];
    for i := 0 to |order|
      invariant |sides| == 2 * i
      invariant forall k :: 0 <= k < |sides| ==> sides[k] == (order[k / 2], if k % 2 == 0 then M.YES else M.NO)
    {
      sides := sides + [(order[i], M.YES)] + [(order[i], M.NO)];
    }
    forall id, side: Outcome ensures (id, side) in sides <==> (id, side) in SidesOf(latest) {
      assert side.YES? || side.NO?;
      if id in latest {
        var i :| 0 <= i < |order| && order[i] == id;
        assert sides[2 * i] == (id, M.YES) && sides[2 * i + 1] == (id, M.NO);
      }
    }
    assert forall k :: k in sides <==> k in SidesOf(latest);
  }

  lemma LatestIds(dtos: seq<Dto>)
    ensures Latest(dtos, MarketKey()).Keys == Ids(dtos)
  {
    LatestKeys(dtos, MarketKey());
  }

  lemma SplitByStored(ids: set<string>, stored: set<string>)
    ensures |ids - stored| + |ids * stored| == |ids|
  {
    assert ids == (ids - stored) + ids * stored;
  }

  class EventIndex {
    var events: map<string, EventRow>
    var outcomes: map<(string, Outcome), OutcomeRow>

    ghost function Stored(): Rows
      reads this
    {
      Rows(events, outcomes)
    }

    constructor (rows: Rows)
      ensures Stored() == rows
    {
      events, outcomes := rows.events, rows.outcomes;
    }

    /** _upsert_event */
    method UpsertEvent(d: Dto, now: int) returns (created: bool)
      modifies this
      ensures Stored() == UpsertOne(old(Stored()), d, now)
      ensures created <==> d.marketId !in old(events)
      ensures Written(Stored(), d, now)
    {
      FieldsOfReport(d, now);
      hide Carries;
      created := d.marketId !in events;
      if created {
        events := events[d.marketId := EventRow(now, "BINARY", now, Defaults(d, now))];
      } else {
        events := events[d.marketId := events[d.marketId].(updatedAt := now, fields := Defaults(d, now))];
      }
      UpsertOutcome(QuoteOf(d, M.YES), now);
      UpsertOutcome(QuoteOf(d, M.NO), now);
    }

    method UpsertOutcome(q: Quote, now: int)
      modifies this`outcomes
      ensures var key := (q.marketId, q.side);
              outcomes == old(outcomes)[key := OutcomeAfter(Get(old(outcomes), key), q, now)]
    {
      var key := (q.marketId, q.side);
      if key in outcomes {
        outcomes := outcomes[key := outcomes[key].(updatedAt := now, token := q.token, price := q.price)];
      } else {
        outcomes := outcomes[key := OutcomeRow(now, now, q.token, q.price)];
      }
    }

    /** _upsert_events_bulk: one read, one insert and one update per table, and the counts it reports. */
    method UpsertEventsBulk(dtos: seq<Dto>, now: int) returns (created: nat, updated: nat)
      modifies this
      ensures Stored() == UpsertEach(old(Stored()), dtos, now)
      ensures created == |Ids(dtos) - old(events).Keys| && updated == |Ids(dtos) * old(events).Keys|
      ensures created + updated == |Ids(dtos)|
      ensures forall i :: IsLast(dtos, i) ==> Written(Stored(), dtos[i], now)
    {
      hide Written, IsLast;
      AllWritten(Stored(), dtos, now);
      hide Bulk, Defaults, UpsertEach, Latest, SidesOf, EventWriter, OutcomeWriter;
      var order, latest := DedupeByMarket(dtos);
      BulkRefinesSimple(Stored(), dtos, now);
      LatestIds(dtos);
      created, updated := BulkEvents(order, latest, now);
      BulkOutcomes(order, latest, now);
      SplitByStored(Ids(dtos), old(events).Keys);
    }

    method BulkEvents(order: seq<string>, latest: map<string, Dto>, now: int) returns (created: nat, updated: nat)
      requires Lists(order, latest)
      modifies this`events
      ensures events == Bulk(old(events), latest, EventWriter(now))
      ensures Counted(created, updated, latest, old(events))
    {
      EventsOverwrite(now);
      var toCreate, toUpdate := CollectWrites(events, order, latest, EventWriter(now));
      WriteEvents(toCreate);
      WriteEvents(toUpdate);
      created, updated := |toCreate|, |toUpdate|;
    }

    method BulkOutcomes(order: seq<string>, latest: map<string, Dto>, now: int)
      requires Lists(order, latest)
      modifies this`outcomes
      ensures outcomes == Bulk(old(outcomes), SidesOf(latest), OutcomeWriter(now))
    {
      OutcomesOverwrite(now);
      var sides := ListSides(order, latest);
      var toCreate, toUpdate := CollectWrites(outcomes, sides, SidesOf(latest), OutcomeWriter(now));
      WriteOutcomes(toCreate);
      WriteOutcomes(toUpdate);
    }

    method WriteOutcomes(rows: seq<((string, Outcome), OutcomeRow)>)
      modifies this`outcomes
      ensures outcomes == Put(old(outcomes), rows)
    {
      for i := 0 to |rows|
        invariant outcomes == Put(old(outcomes), rows[..i])
      {
        assert rows[..i + 1][..i] == rows[..i];
        outcomes := outcomes[rows[i].0 := rows[i].1];
      }
      assert rows[..|rows|] == rows;
    }

    method WriteEvents(rows: seq<(string, EventRow)>)
      modifies this`events
      ensures events == Put(old(events), rows)
    {
      for i := 0 to |rows|
        invariant events == Put(old(events), rows[..i])
      {
        assert rows[..i + 1][..i] == rows[..i];
        events := events[rows[i].0 := rows[i].1];
      }
      assert rows[..|rows|] == rows;
    }
  }
}
