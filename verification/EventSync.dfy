/** Synchronising the market index with the exchange: the live list, the markets that left it, and
    optionally the finalized list, as one transaction. */
module EventSync {
  import opened Wrappers
  import opened Upserts
  import opened EventIndex
  import M = Markets

  const REFETCH_LIMIT: nat := 40

  predicate Open(row: EventRow) { row.fields.status == M.Trading || row.fields.status == M.Live }

  /** Rows still shown as open that the live list no longer has. */
  function StaleIds(events: map<string, EventRow>, live: set<string>): set<string> {
    set id | id in events && Open(events[id]) && id !in live
  }

  /** Re-reading markets one by one; those that cannot be read are left alone. */
  function RefreshEach(rows: Rows, ids: seq<string>, fetch: string -> Option<Dto>, now: int): Rows {
    if ids == [] then rows
    else var before := RefreshEach(rows, ids[..|ids| - 1], fetch, now);
         match fetch(ids[|ids| - 1])
         case Some(d) => UpsertOne(before, d, now)
         case None => before
  }

  function Unreadable(ids: seq<string>, fetch: string -> Option<Dto>): set<string> {
    set id | id in ids && fetch(id).None?
  }

  function Locked(row: EventRow): EventRow { row.(fields := row.fields.(status := M.Locked)) }

  function Lock(rows: Rows, ids: set<string>): Rows {
    rows.(events := map id | id in rows.events :: if id in ids then Locked(rows.events[id]) else rows.events[id])
  }

  /** The rows _refresh_dropped_live_markets locks: the unreadable ones, and whatever is still stale
      beyond the ones it picked. */
  function LockIds(rows: Rows, live: set<string>, picked: seq<string>, fetch: string -> Option<Dto>,
                   now: int): set<string>
  {
    Unreadable(picked, fetch) + (StaleIds(RefreshEach(rows, picked, fetch, now).events, live) - set id | id in picked)
  }

  function Refreshed(rows: Rows, live: set<string>, picked: seq<string>, fetch: string -> Option<Dto>, now: int): Rows {
    Lock(RefreshEach(rows, picked, fetch, now), LockIds(rows, live, picked, fetch, now))
  }

  /** sync_events, given the markets it picked to read again. */
  function Synced(rows: Rows, live: seq<Dto>, picked: seq<string>, fetch: string -> Option<Dto>, finalized: seq<Dto>,
                  now: int): Rows
  {
    UpsertEach(Refreshed(UpsertEach(rows, live, now), Ids(live), picked, fetch, now), finalized, now)
  }

  /** At most forty of the stale rows, each once; all of them when there are no more. */
  ghost predicate PickedFrom(picked: seq<string>, stale: set<string>) {
    && (forall id :: id in picked ==> id in stale)
    && (forall i, j :: 0 <= i < j < |picked| ==> picked[i] != picked[j])
    && |picked| == (if |stale| < 40 then |stale| else 40)
  }

  /** The answers to the re-reading, in order; nothing says they are about the market asked for. */
  function Fetched(ids: seq<string>, fetch: string -> Option<Dto>): seq<Dto> {
    if ids == [] then []
    else match fetch(ids[|ids| - 1])
      case Some(d) => Fetched(ids[..|ids| - 1], fetch) + [d]
      case None => Fetched(ids[..|ids| - 1], fetch)
  }

  lemma {:induction false} RefreshUpsertsAnswers(rows: Rows, ids: seq<string>, fetch: string -> Option<Dto>, now: int)
    ensures RefreshEach(rows, ids, fetch, now) == UpsertEach(rows, Fetched(ids, fetch), now)
  {
    hide UpsertOne;
    if ids != [] {
      var init := Fetched(ids[..|ids| - 1], fetch);
      RefreshUpsertsAnswers(rows, ids[..|ids| - 1], fetch, now);
      match fetch(ids[|ids| - 1]) {
        case Some(d) => assert (init + [d])[..|init|] == init;
        case None =>
      }
    }
  }

  /** The fields carry the last of these reports about the market. */
  ghost predicate Reports(dtos: seq<Dto>, id: string, fields: Fields, now: int) {
    exists i :: IsLast(dtos, i) && dtos[i].marketId == id && Carries(fields, dtos[i], now)
  }

  /** A row after the live list and the answers, before anything is locked: the latest word on it, or itself. */
  ghost predicate Known(rows: Rows, live: seq<Dto>, answers: seq<Dto>, now: int, id: string, row: EventRow) {
    if id in Ids(answers) then Reports(answers, id, row.fields, now)
    else if id in Ids(live) then Reports(live, id, row.fields, now)
    else id in rows.events && row == rows.events[id]
  }

  /** Main result, row by row: a finalized row carries its report. Any other row carries the latest word on it, and is
      locked if it was picked and could not be read, or if it is still open although neither listed nor picked. */
  lemma AfterSync(rows: Rows, live: seq<Dto>, picked: seq<string>, fetch: string -> Option<Dto>, finalized: seq<Dto>,
                  now: int, id: string) returns (row: EventRow)
    requires PickedFrom(picked, StaleIds(UpsertEach(rows, live, now).events, Ids(live)))
    ensures var after := Get(Synced(rows, live, picked, fetch, finalized, now).events, id);
            var answers := Fetched(picked, fetch);
            if id in Ids(finalized) then after.Some? && Reports(finalized, id, after.value.fields, now)
            else if id in Ids(answers) || id in Ids(live) || id in rows.events then
              && Known(rows, live, answers, now, id, row)
              && var open := row.fields.status in {M.Trading, M.Live};
                 after == Some(if (id in picked && fetch(id).None?) || (open && id !in Ids(live) && id !in picked)
                               then row.(fields := row.fields.(status := M.Locked)) else row)
            else after == None
  {
    hide UpsertEach, RefreshEach, Refreshed, Reports, Known, Ids, Fetched, PickedFrom;
    var listed := UpsertEach(rows, live, now);
    var read := RefreshEach(listed, picked, fetch, now);
    var refreshed := Refreshed(listed, Ids(live), picked, fetch, now);
    row := KnownBeforeLocking(rows, live, picked, fetch, now, id);
    LockedAt(listed, Ids(live), picked, fetch, now, id);
    ReportWins(refreshed, finalized, now, id);
  }

  lemma ReportWins(rows: Rows, finalized: seq<Dto>, now: int, id: string)
    ensures var after := Get(UpsertEach(rows, finalized, now).events, id);
            if id in Ids(finalized) then after.Some? && Reports(finalized, id, after.value.fields, now)
            else after == Get(rows.events, id)
  {
    hide UpsertEach;
    if id in Ids(finalized) { ReportedRow(rows, finalized, now, id); } else { UnreportedRow(rows, finalized, now, id); }
  }

  /** Which re-read rows are locked. */
  lemma LockedAt(listed: Rows, live: set<string>, picked: seq<string>, fetch: string -> Option<Dto>, now: int,
                 id: string)
    ensures var read := RefreshEach(listed, picked, fetch, now).events;
            Get(Refreshed(listed, live, picked, fetch, now).events, id)
            == if id !in read then None
               else if (id in picked && fetch(id).None?) || (Open(read[id]) && id !in live && id !in picked)
               then Some(Locked(read[id]))
               else Some(read[id])
  {
    hide RefreshEach, Open, Locked;
  }

  lemma KnownBeforeLocking(rows: Rows, live: seq<Dto>, picked: seq<string>, fetch: string -> Option<Dto>, now: int,
                           id: string)
    returns (row: EventRow)
    ensures var read := RefreshEach(UpsertEach(rows, live, now), picked, fetch, now).events;
            var answers := Fetched(picked, fetch);
            && (id in read <==> id in Ids(answers) || id in Ids(live) || id in rows.events)
            && (id in read ==> row == read[id] && Known(rows, live, answers, now, id, row))
  {
    hide UpsertEach, RefreshEach, Ids, Fetched, Reports;
    var listed := UpsertEach(rows, live, now);
    var answers := Fetched(picked, fetch);
    RefreshUpsertsAnswers(listed, picked, fetch, now);
    ReportWins(rows, live, now, id);
    ReportWins(listed, answers, now, id);
    var read := RefreshEach(listed, picked, fetch, now).events;
    row := if id in read then read[id] else EventRow(0, "", 0, Fields("", 0, "", "", "", M.Locked, None));
  }

  /** No row is lost. A row still open afterwards was reported open in this very run, by one of the lists or by an
      answer; otherwise it was picked and the exchange answered with another market. */
  lemma OpenOnlyIfReportedOpen(rows: Rows, live: seq<Dto>, picked: seq<string>, fetch: string -> Option<Dto>,
                               finalized: seq<Dto>, now: int, id: string)
    requires PickedFrom(picked, StaleIds(UpsertEach(rows, live, now).events, Ids(live)))
    ensures var after := Synced(rows, live, picked, fetch, finalized, now).events;
            && (id in rows.events ==> id in after)
            && (id in after && Open(after[id]) ==>
                  || (after[id].fields.status == M.Trading
                      && exists d: Dto :: d.marketId == id && Carries(after[id].fields, d, now)
                                          && (d in live || d in finalized || d in Fetched(picked, fetch)))
                  || (id in picked && fetch(id).Some? && fetch(id).value.marketId != id && id in rows.events
                      && after[id] == rows.events[id]))
  {
    var row := AfterSync(rows, live, picked, fetch, finalized, now, id);
    var answers := Fetched(picked, fetch);
    var after := Synced(rows, live, picked, fetch, finalized, now).events;
    if id in after && Open(after[id]) {
      if id in Ids(finalized) || id in Ids(answers) || id in Ids(live) {
        var d: Dto :| d.marketId == id && Carries(after[id].fields, d, now)
          && (d in live || d in finalized || d in answers);
      } else if id in picked && fetch(id).Some? {
        AnswerIsFetched(picked, fetch, id);
      }
    }
  }

  lemma {:induction false} AnswerIsFetched(ids: seq<string>, fetch: string -> Option<Dto>, id: string)
    requires id in ids && fetch(id).Some?
    ensures fetch(id).value in Fetched(ids, fetch)
  {
    var n := |ids| - 1;
    if ids[n] != id {
      assert ids == ids[..n] + [ids[n]];
      AnswerIsFetched(ids[..n], fetch, id);
    }
  }

  /** An exchange that answers about the market it was asked for, as the query of DreamDEXClient.get_event does. */
  ghost predicate AnswersAsAsked(fetch: string -> Option<Dto>) {
    forall id :: fetch(id).Some? ==> fetch(id).value.marketId == id
  }

  /** With such an exchange the plain guarantee holds: a row is open afterwards only if it was reported as trading in
      this very run, and nothing that nobody reported stays open. */
  lemma OpenMeansReported(rows: Rows, live: seq<Dto>, picked: seq<string>, fetch: string -> Option<Dto>,
                          finalized: seq<Dto>, now: int, id: string)
    requires PickedFrom(picked, StaleIds(UpsertEach(rows, live, now).events, Ids(live))) && AnswersAsAsked(fetch)
    ensures var after := Synced(rows, live, picked, fetch, finalized, now).events;
            id in after && Open(after[id]) ==>
              && after[id].fields.status == M.Trading
              && exists d: Dto :: d.marketId == id && Carries(after[id].fields, d, now)
                   && (d in live || d in finalized || (id in picked && fetch(id) == Some(d)))
  {
    hide Synced, Open, Carries;
    OpenOnlyIfReportedOpen(rows, live, picked, fetch, finalized, now, id);
    forall d: Dto | d in Fetched(picked, fetch) && d.marketId == id ensures id in picked && fetch(id) == Some(d) {
      FetchedIsAnswer(picked, fetch, d);
    }
  }

  lemma {:induction false} FetchedIsAnswer(ids: seq<string>, fetch: string -> Option<Dto>, d: Dto)
    requires d in Fetched(ids, fetch) && AnswersAsAsked(fetch)
    ensures d.marketId in ids && fetch(d.marketId) == Some(d)
  {
    var n := |ids| - 1;
    assert ids == ids[..n] + [ids[n]];
    if fetch(ids[n]) != Some(d) { FetchedIsAnswer(ids[..n], fetch, d); }
  }

  /** A row nobody reported stays open if and only if it was open, was picked, and its request was answered, which
      then was with another market. */
  lemma StaysOpenUnreportedIff(rows: Rows, live: seq<Dto>, picked: seq<string>, fetch: string -> Option<Dto>,
                               finalized: seq<Dto>, now: int, id: string)
    requires PickedFrom(picked, StaleIds(UpsertEach(rows, live, now).events, Ids(live)))
    requires id !in Ids(live) && id !in Ids(finalized) && id !in Ids(Fetched(picked, fetch))
    ensures var after := Synced(rows, live, picked, fetch, finalized, now).events;
            id in after && Open(after[id]) <==>
              id in rows.events && Open(rows.events[id]) && id in picked && fetch(id).Some?
  {
    var row := AfterSync(rows, live, picked, fetch, finalized, now, id);
  }

  /** It happens: one open market off the list, re-read by an exchange that answers with another one. */
  lemma AnotherAnswerLeavesMarketOpen()
    ensures exists rows: Rows, fetch: string -> Option<Dto> ::
              && PickedFrom(["a"], StaleIds(UpsertEach(rows, [], 0).events, {}))
              && "a" in Synced(rows, [], ["a"], fetch, [], 0).events
              && Open(Synced(rows, [], ["a"], fetch, [], 0).events["a"])
              && "a" !in Ids(Fetched(["a"], fetch))
  {
    var row := EventRow(0, "BINARY", 0, Fields("BTC", 100, "1", "2", "0xpool", M.Trading, None));
    var rows := Rows(map["a" := row], map[]);
    var other := Dto("b", "BTC", 100, "1", "2", 0.5, 0.5, None, "live", None);
    var fetch: string -> Option<Dto> := id => Some(other);
    var picked, none: seq<Dto> := ["a"], [];
    assert UpsertEach(rows, none, 0) == rows && Ids(none) == {};
    assert StaleIds(rows.events, {}) == {"a"};
    assert picked[..0] == [] && Fetched(picked, fetch) == [] + [other];
    assert Ids(Fetched(picked, fetch)) == {"b"};
    StaysOpenUnreportedIff(rows, none, picked, fetch, none, 0, "a");
  }

  /** The first forty rows of a queryset, in whatever order the database returns them. */
  method PickStale(stale: set<string>) returns (picked: seq<string>)
    ensures PickedFrom(picked, stale)
  {
    picked := [];
    var rest := stale;
    while rest != {} && |picked| < REFETCH_LIMIT
      invariant rest <= stale && |picked| + |rest| == |stale| && |picked| <= REFETCH_LIMIT
      invariant forall id :: id in picked ==> id in stale && id !in rest
      invariant forall i, j :: 0 <= i < j < |picked| ==> picked[i] != picked[j]
    {
      var id :| id in rest;
      picked := picked + [id];
      rest := rest - {id};
    }
  }

  /** _refresh_dropped_live_markets */
  method RefreshDroppedLiveMarkets(index: EventIndex, live: set<string>, fetch: string -> Option<Dto>, now: int)
    returns (locked: nat, picked: seq<string>)
    modifies index
    ensures PickedFrom(picked, StaleIds(old(index.events), live))
    ensures index.Stored() == Refreshed(old(index.Stored()), live, picked, fetch, now)
    ensures locked == |LockIds(old(index.Stored()), live, picked, fetch, now)|
  {
    hide UpsertOne, Open, RefreshEach, PickedFrom, Locked;
    picked := PickStale(StaleIds(index.events, live));
    var unresolved := RereadEach(index, picked, fetch, now);
    var leftover := StaleIds(index.events, live) - set id | id in picked;
    var lockIds := unresolved + leftover;
    index.events := map id | id in index.events :: if id in lockIds then Locked(index.events[id]) else index.events[id];
    locked := |lockIds|;
  }

  /** The loop over the picked rows; it collects the ones that could not be read. */
  method RereadEach(index: EventIndex, picked: seq<string>, fetch: string -> Option<Dto>, now: int)
    returns (unresolved: set<string>)
    modifies index
    ensures index.Stored() == RefreshEach(old(index.Stored()), picked, fetch, now)
    ensures unresolved == Unreadable(picked, fetch)
  {
    hide UpsertOne;
    unresolved := {};
    for i := 0 to |picked|
      invariant index.Stored() == RefreshEach(old(index.Stored()), picked[..i], fetch, now)
      invariant unresolved == Unreadable(picked[..i], fetch)
    {
      assert picked[..i + 1][..i] == picked[..i];
      assert picked[..i + 1] == picked[..i] + [picked[i]];
      match fetch(picked[i])
      case Some(d) => var _ := index.UpsertEvent(d, now);
      case None => unresolved := unresolved + {picked[i]};
    }
    assert picked[..|picked|] == picked;
  }

  datatype Stats = Stats(created: nat, updated: nat, stale: nat)

  lemma NothingListed(now: int)
    ensures Ids([]) == {} && forall rows: Rows :: UpsertEach(rows, [], now) == rows
  {
  }

  /** sync_events. live and finalized are what the adapter answers (None: it raised); finalized is asked
      for only on request. A failure undoes the whole run. */
  method SyncEvents(index: EventIndex, live: Option<seq<Dto>>, fetch: string -> Option<Dto>,
                    includeFinalized: bool, finalized: Option<seq<Dto>>, now: int)
    returns (stats: Option<Stats>, picked: seq<string>)
    modifies index
    ensures stats.Some? <==> live.Some? && (includeFinalized ==> finalized.Some?)
    ensures stats.None? ==> index.Stored() == old(index.Stored())
    ensures stats.Some? ==>
              var extra := if includeFinalized then finalized.value else [];
              var listed := UpsertEach(old(index.Stored()), live.value, now);
              && PickedFrom(picked, StaleIds(listed.events, Ids(live.value)))
              && index.Stored() == Synced(old(index.Stored()), live.value, picked, fetch, extra, now)
              && stats.value.stale == |LockIds(listed, Ids(live.value), picked, fetch, now)|
              && stats.value.created + stats.value.updated == |Ids(live.value)| + |Ids(extra)|
              && forall i :: IsLast(extra, i) ==> Written(index.Stored(), extra[i], now)
  {
    hide UpsertEach, Ids, Refreshed, LockIds, StaleIds, PickedFrom, Bulk, Latest;
    picked := [];
    if live.None? { return None, []; }
    ghost var rows := index.Stored();
    NothingListed(now);
    var events, outcomes := index.events, index.outcomes;
    var created, updated := index.UpsertEventsBulk(live.value, now);
    var stale;
    stale, picked := RefreshDroppedLiveMarkets(index, Ids(live.value), fetch, now);
    if includeFinalized {
      if finalized.None? {
        index.events, index.outcomes := events, outcomes;
        return None, [];
      }
      var extraCreated, extraUpdated := index.UpsertEventsBulk(finalized.value, now);
      created, updated := created + extraCreated, updated + extraUpdated;
    }
    stats := Some(Stats(created, updated, stale));
  }
}
