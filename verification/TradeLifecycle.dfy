/** The states of a trade the user signs: prepared, confirmed after its receipt, or expired. */
module TradeLifecycle {
  import opened Wrappers
  import F = FillImport

  type Status = F.TradeStatus

  datatype Row = Row(user: int, status: Status, txHash: string, openedAt: int, settledAt: Option<int>)

  /** How waiting for the receipt ended; in mock mode nobody waits. */
  datatype Receipt = NotAwaited | Unavailable | Mined(status: int)

  predicate Open(r: Row) { r.status == F.Prepared || r.status == F.AwaitingConfirmation || r.status == F.Submitted }

  predicate Stale(r: Row, cutoff: int) { r.status == F.AwaitingConfirmation && r.openedAt < cutoff }

  function Expire(r: Row, cutoff: int): Row { if Stale(r, cutoff) then r.(status := F.Expired) else r }

  function CountStale(rows: seq<Row>, cutoff: int): nat {
    if rows == [] then 0
    else CountStale(rows[..|rows| - 1], cutoff) + if Stale(rows[|rows| - 1], cutoff) then 1 else 0
  }

  lemma {:induction false} CountStaleIs(rows: seq<Row>, cutoff: int)
    ensures CountStale(rows, cutoff) == |set i | 0 <= i < |rows| && Stale(rows[i], cutoff)|
  {
    if rows != [] {
      hide Stale;
      var n := |rows| - 1;
      CountStaleIs(rows[..n], cutoff);
      var front := set i | 0 <= i < n && Stale(rows[i], cutoff);
      assert front == set i | 0 <= i < n && Stale(rows[..n][i], cutoff);
      var all := set i | 0 <= i < |rows| && Stale(rows[i], cutoff);
      assert all == if Stale(rows[n], cutoff) then front + {n} else front;
    }
  }

  /** Only waiting trades change, a confirmed one has a transaction, and nothing else about a row moves. */
  ghost predicate Follows(before: seq<Row>, after: seq<Row>) {
    && |before| <= |after|
    && forall i :: 0 <= i < |before| ==>
         && after[i].user == before[i].user && after[i].openedAt == before[i].openedAt
         && (after[i] != before[i] ==>
               before[i].status == F.AwaitingConfirmation
               && (after[i].status == F.Expired || (after[i].status == F.Confirmed && after[i].txHash != "")))
  }

  class TradeBook {
    var rows: seq<Row>

    /** PREPARED, SUBMITTED and FAILED are written inside a transaction but never outlive it. */
    ghost predicate Valid()
      reads this
    {
      forall i :: 0 <= i < |rows| ==> rows[i].status in {F.AwaitingConfirmation, F.Confirmed, F.Expired}
    }

    constructor ()
      ensures Valid() && rows == []
    {
      rows := [];
    }

    /** The end of prepare_trade. */
    method Prepare(user: int, now: int) returns (id: nat)
      requires Valid()
      modifies this
      ensures Valid() && Follows(old(rows), rows)
      ensures id == |old(rows)| && rows == old(rows) + [Row(user, F.AwaitingConfirmation, "", now, None)]
    {
      id := |rows|;
      rows := rows + [Row(user, F.Prepared, "", now, None)];
      rows := rows[id := rows[id].(status := F.AwaitingConfirmation)];
    }

    /** confirm_trade. A reverted transaction is marked FAILED and then raised inside the transaction, so the
        mark, the hash and the SUBMITTED status are all undone and the trade can be confirmed again. */
    method Confirm(id: nat, user: Option<int>, txHash: string, tradable: bool, receipt: Receipt, now: int)
      returns (r: Result<Row>)
      requires Valid()
      modifies this
      ensures Valid() && Follows(old(rows), rows)
      ensures r.Ok? <==>
                && id < |old(rows)| && (user.Some? ==> user.value == old(rows)[id].user)
                && old(rows)[id].status == F.AwaitingConfirmation && txHash != "" && tradable
                && (receipt.NotAwaited? || receipt == Mined(1))
      ensures r.Ok? ==>
                && rows == old(rows)[id := old(rows)[id].(status := F.Confirmed, txHash := txHash,
                                                          settledAt := Some(now))]
                && r.value == rows[id]
      ensures r.Error? ==> rows == old(rows)
    {
      if id >= |rows| || (user.Some? && user.value != rows[id].user) { return Error("not found"); }
      if !Open(rows[id]) { return Error("cannot be confirmed"); }
      if txHash == "" { return Error("Transaction hash required"); }
      if !tradable { return Error("market or outcome not found"); }
      var snapshot := rows;
      rows := rows[id := rows[id].(txHash := txHash, status := F.Submitted)];
      if !receipt.NotAwaited? {
        if receipt.Unavailable? {
          rows := snapshot;
          return Error("not confirmed yet");
        }
        if receipt.status != 1 {
          rows := rows[id := rows[id].(status := F.Failed)];
          rows := snapshot;
          return Error("On-chain transaction failed");
        }
      }
      rows := rows[id := rows[id].(status := F.Confirmed, settledAt := Some(now))];
      r := Ok(rows[id]);
    }

    /** expire_stale_trades */
    method ExpireStaleTrades(now: int, maxAgeMinutes: int) returns (updated: nat)
      requires Valid()
      modifies this
      ensures Valid() && Follows(old(rows), rows)
      ensures |rows| == |old(rows)|
      ensures forall i :: 0 <= i < |rows| ==>
                var row := old(rows)[i];
                rows[i] == if row.status == F.AwaitingConfirmation && row.openedAt < now - maxAgeMinutes * 60
                           then row.(status := F.Expired) else row
      ensures updated == |set i | 0 <= i < |old(rows)| && old(rows)[i].status == F.AwaitingConfirmation
                                && old(rows)[i].openedAt < now - maxAgeMinutes * 60|
    {
      var cutoff := now - maxAgeMinutes * 60;
      updated := 0;
      for i := 0 to |rows|
        invariant |rows| == |old(rows)|
        invariant forall j :: 0 <= j < i ==> rows[j] == Expire(old(rows)[j], cutoff)
        invariant forall j :: i <= j < |rows| ==> rows[j] == old(rows)[j]
        invariant updated == CountStale(old(rows)[..i], cutoff)
      {
        assert old(rows)[..i + 1][..i] == old(rows)[..i];
        if Stale(rows[i], cutoff) {
          rows := rows[i := rows[i].(status := F.Expired)];
          updated := updated + 1;
        }
      }
      assert old(rows)[..|old(rows)|] == old(rows);
      CountStaleIs(old(rows), cutoff);
      assert (set i | 0 <= i < |old(rows)| && Stale(old(rows)[i], cutoff))
          == set i | 0 <= i < |old(rows)| && old(rows)[i].status == F.AwaitingConfirmation
                     && old(rows)[i].openedAt < now - maxAgeMinutes * 60;
    }
  }

  datatype Request =
    | Prepare(user: int)
    | Confirm(id: nat, asUser: Option<int>, txHash: string, tradable: bool, receipt: Receipt)
    | ExpireStale(maxAgeMinutes: int)

  /** Over any run no trade is left PREPARED, SUBMITTED or FAILED, a confirmed or expired trade never
      changes again, and at most one confirmation of each trade succeeds. */
  method Serve(book: TradeBook, requests: seq<(Request, int)>) returns (succeeded: seq<nat>)
    requires book.Valid()
    modifies book
    ensures book.Valid() && Follows(old(book.rows), book.rows)
    ensures forall i, j :: 0 <= i < j < |succeeded| ==> succeeded[i] != succeeded[j]
    ensures forall k :: 0 <= k < |succeeded| ==>
              succeeded[k] < |book.rows| && book.rows[succeeded[k]].status == F.Confirmed
  {
    succeeded := [];
    for n := 0 to |requests|
      invariant book.Valid() && Follows(old(book.rows), book.rows)
      invariant forall i, j :: 0 <= i < j < |succeeded| ==> succeeded[i] != succeeded[j]
      invariant forall k :: 0 <= k < |succeeded| ==>
                  succeeded[k] < |book.rows| && book.rows[succeeded[k]].status == F.Confirmed
    {
      ghost var before := book.rows;
      match requests[n].0
      case Prepare(user) => var _ := book.Prepare(user, requests[n].1);
      case Confirm(id, user, txHash, tradable, receipt) =>
        var r := book.Confirm(id, user, txHash, tradable, receipt, requests[n].1);
        if r.Ok? { succeeded := succeeded + [id]; }
      case ExpireStale(age) => var _ := book.ExpireStaleTrades(requests[n].1, age);
      FollowsTransitive(old(book.rows), before, book.rows);
    }
  }

  lemma FollowsTransitive(a: seq<Row>, b: seq<Row>, c: seq<Row>)
    requires Follows(a, b) && Follows(b, c)
    ensures Follows(a, c)
  {
    forall i | 0 <= i < |a| && c[i] != a[i]
      ensures a[i].status == F.AwaitingConfirmation
              && (c[i].status == F.Expired || (c[i].status == F.Confirmed && c[i].txHash != ""))
    {
      if b[i] == a[i] { assert c[i] != b[i]; }
    }
  }
}
