/** Copying followed traders and trading by hand through the agent, under the signed caps. */
module CopyService {
  import opened Wrappers
  import opened Money
  import opened Sums
  import opened Authority
  import opened Spending

  datatype SourceTrade = SourceTrade(id: int, trader: int, traderKey: string, wallet: string, outcome: string,
                                     expired: bool)

  /** Results of everything outside the database: scoring, the remaining risk checks, signature
      validation, and how far the on-chain execution got. */
  datatype Signals = Signals(scoreSkip: bool, score: int, riskRest: bool, signatureOk: bool,
                             prepared: bool, broadcast: bool, confirmed: bool)

  function Day(now: int): int { now / SECONDS_PER_DAY }

  /** _copy_amount */
  function CopyAmount(r: Relationship): (amount: real)
    ensures amount > 0.0
    ensures r.maxPerTrade.Some? && r.maxPerTrade.value > 0.0 ==> amount == r.maxPerTrade.value
    ensures !(r.maxPerTrade.Some? && r.maxPerTrade.value > 0.0) ==> amount == 10.0
  {
    match r.maxPerTrade
    case Some(x) => if x > 0.0 then x else 10.0
    case None => 10.0
  }

  /** PolicyEngine.evaluate passes. */
  predicate PolicyOk(status: AgentStatus, perm: Permission, t: SourceTrade, score: int, amount: real, daily: real,
                     now: int)
  {
    && status == RUNNING
    && perm.status == Active && perm.expiresAt > now
    && amount <= perm.caps.maxTrade
    && daily + amount <= perm.caps.maxDaily
    && score >= perm.minScore
    && TraderAllowed(perm, t.traderKey, t.wallet)
    && (perm.outcomes == {} || t.outcome in perm.outcomes)
    && !t.expired
  }

  /** The gate collects a reason for each guard that fails and passes when there is none. */
  method EvaluatePolicy(status: AgentStatus, perm: Permission, t: SourceTrade, score: int, amount: real, daily: real,
                        now: int)
    returns (reasons: seq<string>)
    ensures reasons == [] <==>
              && status == RUNNING && perm.status == Active && perm.expiresAt > now
              && amount <= perm.caps.maxTrade && daily + amount <= perm.caps.maxDaily && score >= perm.minScore
              && (perm.traders == [] || t.traderKey in perm.traders || (t.wallet != "" && t.wallet in perm.traders))
              && (perm.outcomes == {} || t.outcome in perm.outcomes) && !t.expired
  {
    reasons := GrantReasons(status, perm, now);
    if amount > perm.caps.maxTrade { reasons := reasons + ["exceeds max per trade"]; }
    var projected := daily + amount;
    if projected > perm.caps.maxDaily { reasons := reasons + ["Daily volume would exceed"]; }
    if score < perm.minScore { reasons := reasons + ["Copy Score below your minimum"]; }
    assert reasons == [] <==> status == RUNNING && perm.status == Active && perm.expiresAt > now
                              && amount <= perm.caps.maxTrade && daily + amount <= perm.caps.maxDaily
                              && score >= perm.minScore;
    var tradeReasons := TradeReasons(perm, t);
    reasons := reasons + tradeReasons;
  }

  /** The guards on the agent and the grant itself. */
  method GrantReasons(status: AgentStatus, perm: Permission, now: int) returns (reasons: seq<string>)
    ensures reasons == [] <==> status == RUNNING && perm.status == Active && perm.expiresAt > now
  {
    reasons := [];
    if status != RUNNING { reasons := reasons + ["Agent is not running"]; }
    if !(perm.status == Active && perm.expiresAt > now) {
      if perm.status == Revoked {
        reasons := reasons + ["Delegation revoked"];
      } else if perm.expiresAt <= now {
        reasons := reasons + ["Delegation expired"];
      } else {
        reasons := reasons + ["Delegation not active"];
      }
    }
  }

  /** The guards on the copied trade. */
  method TradeReasons(perm: Permission, t: SourceTrade) returns (reasons: seq<string>)
    ensures reasons == [] <==>
              && TraderAllowed(perm, t.traderKey, t.wallet) && (perm.outcomes == {} || t.outcome in perm.outcomes)
              && !t.expired
  {
    reasons := [];
    if perm.traders != [] {
      if !(t.traderKey in perm.traders || (t.wallet != "" && t.wallet in perm.traders)) {
        reasons := reasons + ["Trader is not in your allowed list"];
      }
    }
    if perm.outcomes != {} && t.outcome !in perm.outcomes { reasons := reasons + ["Outcome not allowed"]; }
    if t.expired { reasons := reasons + ["Event is no longer active"]; }
  }

  /** The relationship limits RiskEngine.evaluate checks. */
  predicate RiskLimitsOk(r: Relationship, amount: real, daily: real) {
    && r.status == Following
    && (r.maxPerTrade.Some? ==> amount <= r.maxPerTrade.value)
    && (r.maxDaily.Some? ==> daily + amount <= r.maxDaily.value)
  }

  function Synced(r: Relationship, perm: Permission): Relationship {
    r.(maxPerTrade := Some(perm.caps.maxTrade), maxDaily := Some(perm.caps.maxDaily), minScore := perm.minScore)
  }

  /** A copy is at most the follower's own limit and at most the grant's, and is one of the two. A negative limit
      stands for 10, and without a limit, or with a limit of zero, the grant's decides. */
  ghost predicate Sized(r: Relationship, caps: Caps, size: real) {
    var own := if r.maxPerTrade.None? || r.maxPerTrade.value == 0.0 then caps.maxTrade
               else if r.maxPerTrade.value > 0.0 then r.maxPerTrade.value else 10.0;
    size <= own && size <= caps.maxTrade && (size == own || size == caps.maxTrade)
  }

  /** The size the agent copies. */
  function CopySize(r: Relationship, caps: Caps): (amount: real)
    ensures Sized(r, caps, amount)
    ensures amount > 0.0 <==> caps.maxTrade > 0.0
  {
    if r.maxPerTrade.Some? && r.maxPerTrade.value != 0.0 then Min(CopyAmount(r), caps.maxTrade) else caps.maxTrade
  }

  predicate GatesOk(status: AgentStatus, perm: Permission, r: Relationship, t: SourceTrade, sig: Signals, amount: real,
                    daily: real, now: int)
  {
    && PolicyOk(status, perm, t, sig.score, amount, daily, now) && !sig.scoreSkip
    && RiskLimitsOk(r, amount, daily) && sig.riskRest && sig.signatureOk
  }

  /** Everything that has to hold for a running agent to copy a trade under its grant, on the grant, the follower, the
      trade, what was copied for the follower that day, and the answers of scoring, risk and signature checks. */
  ghost predicate Guards(r: Relationship, perm: Permission, t: SourceTrade, sig: Signals, size: real, spent: real,
                         now: int)
  {
    && perm.status == Active && perm.expiresAt > now && r.status == Following
    && size <= perm.caps.maxTrade && spent + size <= perm.caps.maxDaily
    && sig.score >= perm.minScore && !sig.scoreSkip && sig.riskRest && sig.signatureOk
    && (perm.traders == [] || t.traderKey in perm.traders || (t.wallet != "" && t.wallet in perm.traders))
    && (perm.outcomes == {} || t.outcome in perm.outcomes) && !t.expired
  }

  lemma GatesAreGuards(perm: Permission, r: Relationship, t: SourceTrade, sig: Signals, size: real, spent: real,
                       now: int)
    ensures GatesOk(RUNNING, perm, Synced(r, perm), t, sig, size, spent, now)
            <==> Guards(r, perm, t, sig, size, spent, now)
  {
  }

  predicate HasRow(execs: seq<CopyExecution>, r: nat, trade: int) {
    exists i :: 0 <= i < |execs| && execs[i].rel == r && execs[i].trade == trade
  }

  predicate ConfirmedCopy(b: Broadcast) { b.confirmed && b.origin.CopyOf? }

  /** A pair is broadcast again only while no earlier broadcast of it was confirmed. */
  ghost predicate BroadcastsOnce(execs: seq<CopyExecution>, bs: seq<Broadcast>) {
    && (forall i :: 0 <= i < |bs| && ConfirmedCopy(bs[i]) ==> HasRow(execs, bs[i].origin.rel, bs[i].origin.trade))
    && (forall i, j :: 0 <= i < j < |bs| && bs[i].origin == bs[j].origin ==> !ConfirmedCopy(bs[i]))
  }

  /** A user has one relationship with a trader. */
  predicate SamePair(r: Relationship, f: Relationship) { r.user == f.user && r.trader == f.trader }

  ghost predicate RelsUnique(rels: seq<Relationship>) {
    forall i, j :: 0 <= i < j < |rels| ==> rels[i].user != rels[j].user || rels[i].trader != rels[j].trader
  }

  ghost predicate LogsSafe(rels: seq<Relationship>, agents: seq<Agent>, perms: seq<Permission>,
                           execs: seq<CopyExecution>, evals: seq<Evaluation>, bs: seq<Broadcast>)
  {
    && (forall i :: 0 <= i < |execs| ==> execs[i].rel < |rels|)
    && RowsUnique(execs) && AmountsPositive(execs)
    && ExecsGranted(execs, rels, agents, perms) && EvalsGranted(evals, perms) && LogsAgree(execs, evals)
    && BroadcastsOnce(execs, bs) && SendsAgree(evals, bs) && SendsGranted(bs, perms)
  }

  lemma RowsInRange(execs: seq<CopyExecution>, rels: seq<Relationship>, rels': seq<Relationship>)
    requires OwnersKept(rels, rels') && forall i :: 0 <= i < |execs| ==> execs[i].rel < |rels|
    ensures forall i :: 0 <= i < |execs| ==> execs[i].rel < |rels'|
  {
  }

  lemma LogsStaySafe(rels: seq<Relationship>, agents: seq<Agent>, perms: seq<Permission>, execs: seq<CopyExecution>,
                     evals: seq<Evaluation>, bs: seq<Broadcast>, rels': seq<Relationship>, agents': seq<Agent>,
                     perms': seq<Permission>)
    requires LogsSafe(rels, agents, perms, execs, evals, bs)
    requires Evolves(agents, perms, agents', perms') && OwnersKept(rels, rels')
    ensures LogsSafe(rels', agents', perms', execs, evals, bs)
  {
    hide ExecsGranted, EvalsGranted, SendsGranted, Evolves, OwnersKept;
    GrantedForever(execs, evals, rels, agents, perms, rels', agents', perms');
    SendsGrantedForever(bs, agents, perms, agents', perms');
    RowsInRange(execs, rels, rels');
  }

  /** Rows are only appended, settled rows never change, and no row changes owner, trade or size. */
  ghost predicate RowsEvolve(execs: seq<CopyExecution>, execs': seq<CopyExecution>) {
    && |execs| <= |execs'|
    && forall i :: 0 <= i < |execs| ==>
         && execs'[i] == execs[i].(status := execs'[i].status)
         && (execs[i].status in {EXECUTED, SKIPPED} ==> execs'[i].status == execs[i].status)
  }

  /** Who follows whom never changes while copying; only limits are rewritten. */
  ghost predicate SameFollows(rels: seq<Relationship>, rels': seq<Relationship>) {
    && |rels| == |rels'|
    && forall i :: 0 <= i < |rels| ==>
         rels'[i] == rels[i].(maxPerTrade := rels'[i].maxPerTrade, maxDaily := rels'[i].maxDaily,
                              minScore := rels'[i].minScore)
  }

  predicate Follows(r: Relationship, t: SourceTrade) { r.trader == t.trader && r.status == Following }

  lemma AppendRow(rels: seq<Relationship>, agents: seq<Agent>, perms: seq<Permission>, execs: seq<CopyExecution>,
                  evals: seq<Evaluation>, bs: seq<Broadcast>, x: CopyExecution)
    requires LogsSafe(rels, agents, perms, execs, evals, bs)
    requires x.rel < |rels| && !HasRow(execs, x.rel, x.trade)
    requires x.status in {PENDING, SKIPPED} && (x.status == PENDING ==> x.amount > 0.0)
    ensures LogsSafe(rels, agents, perms, execs + [x], evals, bs)
  {
    ExecsAppend(execs, rels, agents, perms, x, 0);
    LogsAppendExec(execs, evals, x);
    RowsGrow(execs, x, bs);
    FreshRow(execs, x);
  }

  lemma FreshRow(execs: seq<CopyExecution>, x: CopyExecution)
    requires RowsUnique(execs) && AmountsPositive(execs) && !HasRow(execs, x.rel, x.trade)
    requires x.status in {PENDING, APPROVED, EXECUTED} ==> x.amount > 0.0
    ensures RowsUnique(execs + [x]) && AmountsPositive(execs + [x])
  {
  }

  lemma CopiedSoFar(execs: seq<CopyExecution>, evals: seq<Evaluation>, r: nat, d: int)
    requires LogsAgree(execs, evals) && AmountsPositive(execs)
    ensures Sum(evals, CopiedFor(r, d)) == ExecutedTotal(execs, r, d) <= DailyCopyTotal(execs, r, d)
  {
    ExecutedBelowCounted(execs, r, d);
  }

  lemma RowsGrow(execs: seq<CopyExecution>, x: CopyExecution, bs: seq<Broadcast>)
    requires BroadcastsOnce(execs, bs)
    ensures BroadcastsOnce(execs + [x], bs)
  {
    forall i | 0 <= i < |bs| && ConfirmedCopy(bs[i]) ensures HasRow(execs + [x], bs[i].origin.rel, bs[i].origin.trade) {
      var j :| 0 <= j < |execs| && execs[j].rel == bs[i].origin.rel && execs[j].trade == bs[i].origin.trade;
      assert (execs + [x])[j] == execs[j];
    }
  }

  lemma AppendEvaluation(rels: seq<Relationship>, agents: seq<Agent>, perms: seq<Permission>, execs: seq<CopyExecution>,
                         evals: seq<Evaluation>, bs: seq<Broadcast>, e: Evaluation)
    requires LogsSafe(rels, agents, perms, execs, evals, bs) && e.decision != Copied
    ensures LogsSafe(rels, agents, perms, execs, evals + [e], bs)
  {
    EvalsAppend(evals, perms, e, 0);
    LogsAppendEval(execs, evals, e);
    SendsAppendEval(evals, bs, e);
  }

  /** A manual trade that fits grant p. */
  ghost predicate ManualWithin(evals: seq<Evaluation>, perms: seq<Permission>, e: Evaluation, p: int) {
    && e.rel == None && 0 <= p < |perms| && perms[p].agent == e.agent
    && 0.0 < e.amount <= perms[p].caps.maxTrade
    && AgentVolume(evals, e.agent, e.day) + e.amount <= perms[p].caps.maxDaily
  }

  /** Recording a confirmed manual trade, within the caps. */
  lemma AppendManual(rels: seq<Relationship>, agents: seq<Agent>, perms: seq<Permission>, execs: seq<CopyExecution>,
                     evals: seq<Evaluation>, bs: seq<Broadcast>, e: Evaluation, p: int)
    requires LogsSafe(rels, agents, perms, execs, evals, bs) && ManualWithin(evals, perms, e, p) && e.decision == Copied
    ensures LogsSafe(rels, agents, perms, execs, evals + [e], bs + [Broadcast(ByHand, e.agent, e.amount, e.day, true)])
  {
    hide ExecsGranted, EvalsGranted, LogsAgree, BroadcastsOnce, RowsUnique, AmountsPositive, SendsAgree, SendsGranted,
      AgentVolume;
    var b := Broadcast(ByHand, e.agent, e.amount, e.day, true);
    EvalsAppend(evals, perms, e, p);
    LogsAppendEval(execs, evals, e);
    SendsAppendBoth(evals, bs, e, b);
    SendsGrow(bs, perms, b, p);
    SentByHand(execs, bs, b);
  }

  lemma SentByHand(execs: seq<CopyExecution>, bs: seq<Broadcast>, b: Broadcast)
    requires BroadcastsOnce(execs, bs) && b.origin == ByHand
    ensures BroadcastsOnce(execs, bs + [b])
  {
  }

  /** A send that was not confirmed leaves nothing but itself. */
  lemma AppendUnconfirmed(rels: seq<Relationship>, agents: seq<Agent>, perms: seq<Permission>,
                          execs: seq<CopyExecution>, evals: seq<Evaluation>, bs: seq<Broadcast>, b: Broadcast, p: int)
    requires LogsSafe(rels, agents, perms, execs, evals, bs) && !b.confirmed
    requires b.origin.CopyOf? ==> !HasRow(execs, b.origin.rel, b.origin.trade)
    requires 0 <= p < |perms| && perms[p].agent == b.agent && 0.0 < b.amount <= perms[p].caps.maxTrade
    ensures LogsSafe(rels, agents, perms, execs, evals, bs + [b])
  {
    hide ExecsGranted, EvalsGranted, LogsAgree, RowsUnique, AmountsPositive, SendsAgree, SendsGranted, HasRow;
    SendsAppendUnconfirmed(evals, bs, b);
    SendsGrow(bs, perms, b, p);
    assert forall i :: 0 <= i < |bs| && bs[i].origin == b.origin ==> !ConfirmedCopy(bs[i]);
  }

  /** A copy by agent a that fits its grant p. */
  ghost predicate CopyWithin(rels: seq<Relationship>, agents: seq<Agent>, perms: seq<Permission>,
                             execs: seq<CopyExecution>, x: CopyExecution, a: nat, p: nat)
  {
    && x.rel < |rels| && !HasRow(execs, x.rel, x.trade) && x.status == EXECUTED
    && p < |perms| && perms[p].agent == a && a < |agents| && agents[a].user == rels[x.rel].user
    && 0.0 < x.amount <= perms[p].caps.maxTrade
    && DailyCopyTotal(execs, x.rel, x.day) + x.amount <= perms[p].caps.maxDaily
  }

  /** Recording a copied trade in both logs, within the caps. */
  lemma AppendCopy(rels: seq<Relationship>, agents: seq<Agent>, perms: seq<Permission>, execs: seq<CopyExecution>,
                   evals: seq<Evaluation>, bs: seq<Broadcast>, x: CopyExecution, a: nat, p: nat)
    requires LogsSafe(rels, agents, perms, execs, evals, bs) && CopyWithin(rels, agents, perms, execs, x, a, p)
    ensures LogsSafe(rels, agents, perms, execs + [x], evals + [Evaluation(a, Copied, x.amount, x.day, Some(x.rel))],
                     bs + [Broadcast(CopyOf(x.rel, x.trade), a, x.amount, x.day, true)])
  {
    hide ExecsGranted, EvalsGranted, LogsAgree, BroadcastsOnce, RowsUnique, AmountsPositive, ExecutedTotal,
      DailyCopyTotal, HasRow, SendsAgree, SendsGranted;
    var e := Evaluation(a, Copied, x.amount, x.day, Some(x.rel));
    var b := Broadcast(CopyOf(x.rel, x.trade), a, x.amount, x.day, true);
    CopiedSoFar(execs, evals, x.rel, x.day);
    ExecsAppend(execs, rels, agents, perms, x, p);
    EvalsAppend(evals, perms, e, p);
    LogsAppendBoth(execs, evals, x, e);
    BroadcastOnceMore(execs, x, bs, b);
    SendsAppendBoth(evals, bs, e, b);
    SendsGrow(bs, perms, b, p);
    FreshRow(execs, x);
  }

  lemma BroadcastOnceMore(execs: seq<CopyExecution>, x: CopyExecution, bs: seq<Broadcast>, b: Broadcast)
    requires BroadcastsOnce(execs, bs) && !HasRow(execs, x.rel, x.trade) && b.origin == CopyOf(x.rel, x.trade)
    ensures BroadcastsOnce(execs + [x], bs + [b])
  {
    RowsGrow(execs, x, bs);
    RowAppended(execs, x);
    assert forall i :: 0 <= i < |bs| && bs[i].origin == b.origin ==> !ConfirmedCopy(bs[i]);
  }

  /** Where the agent's execution of one copied trade ended. */
  datatype CopyOutcome = Refused | Done | Lost

  /** What handling one follower writes. */
  datatype Effects = Effects(rel: Relationship, rows: seq<CopyExecution>, evals: seq<Evaluation>, sends: seq<Broadcast>,
                             lost: bool)

  predicate SendsCopy(status: AgentStatus, perm: Permission, rel: Relationship, t: SourceTrade, sig: Signals,
                      daily: real, now: int)
  {
    && GatesOk(status, perm, Synced(rel, perm), t, sig, CopySize(rel, perm.caps), daily, now)
    && CopySize(rel, perm.caps) > 0.0 && sig.prepared && sig.broadcast
  }

  function OutcomeOf(status: AgentStatus, perm: Permission, rel: Relationship, t: SourceTrade, sig: Signals,
                     daily: real, now: int)
    : CopyOutcome
  {
    if !GatesOk(status, perm, Synced(rel, perm), t, sig, CopySize(rel, perm.caps), daily, now) then Refused
    else if SendsCopy(status, perm, rel, t, sig, daily, now) && sig.confirmed then Done
    else Lost
  }

  function DecisionOf(outcome: CopyOutcome): Decision {
    match outcome case Done => Copied case Refused => Skipped case Lost => Failed
  }

  /** execute_trade on the tables. */
  function TradeEffects(a: nat, status: AgentStatus, perm: Permission, rel: Relationship, r: nat, t: SourceTrade,
                        sig: Signals, daily: real, now: int): Effects
  {
    var outcome := OutcomeOf(status, perm, rel, t, sig, daily, now);
    var amount := CopySize(rel, perm.caps);
    Effects(Synced(rel, perm),
            if outcome == Lost then []
            else [CopyExecution(r, t.id, amount, if outcome == Done then EXECUTED else SKIPPED, Day(now))],
            [Evaluation(a, DecisionOf(outcome), amount, Day(now), Some(r))],
            if SendsCopy(status, perm, rel, t, sig, daily, now) then
              [Broadcast(CopyOf(r, t.id), a, amount, Day(now), sig.confirmed)] else [],
            outcome == Lost)
  }

  /** The review path and the path of an agent without a grant: one row, no transaction. */
  function ReviewEffects(rel: Relationship, r: nat, t: SourceTrade, sig: Signals, daily: real, now: int): Effects {
    var pending := !rel.autoExecute || (!sig.scoreSkip && RiskLimitsOk(rel, CopyAmount(rel), daily) && sig.riskRest);
    Effects(rel, [CopyExecution(r, t.id, CopyAmount(rel), if pending then PENDING else SKIPPED, Day(now))],
            [], [], false)
  }

  function UnlicensedEffects(a: nat, rel: Relationship, r: nat, t: SourceTrade, now: int): Effects {
    Effects(rel, [CopyExecution(r, t.id, CopyAmount(rel), SKIPPED, Day(now))],
            [Evaluation(a, Skipped, CopyAmount(rel), Day(now), Some(r))], [], false)
  }

  /** What the detection loop does for one follower that has no row yet. */
  function FollowEffects(agents: seq<Agent>, perms: seq<Permission>, rel: Relationship, r: nat, t: SourceTrade,
                         sig: Signals, daily: real, order: seq<nat>, now: int): Effects
  {
    if !rel.autoExecute then ReviewEffects(rel, r, t, sig, daily, now)
    else
      match First(order, Running(agents, rel.user))
      case None => ReviewEffects(rel, r, t, sig, daily, now)
      case Some(a) =>
        match GrantInForce(perms, a, now)
        case None => UnlicensedEffects(a, rel, r, t, now)
        case Some(p) => TradeEffects(a, RUNNING, perms[p], rel, r, t, sig, daily, now)
  }

  /** The tables a detection starts from. */
  datatype Books = Books(agents: seq<Agent>, perms: seq<Permission>, rels: seq<Relationship>, execs: seq<CopyExecution>)

  datatype Detection = Detection(rels: seq<Relationship>, rows: seq<CopyExecution>, evals: seq<Evaluation>,
                                 sends: seq<Broadcast>, lost: set<nat>)

  /** A follower of the trader that has no row for this trade yet. */
  predicate Wanted(b: Books, r: nat, t: SourceTrade) {
    r < |b.rels| && Follows(b.rels[r], t) && !HasRow(b.execs, r, t.id)
  }

  function EffectsFor(b: Books, r: nat, t: SourceTrade, sig: Signals, order: seq<nat>, now: int): Effects
    requires r < |b.rels|
  {
    FollowEffects(b.agents, b.perms, b.rels[r], r, t, sig, DailyCopyTotal(b.execs, r, Day(now)), order, now)
  }

  /** detect_and_process_copy for the first n relationships: each follower is handled as the tables stood
      before the call, whatever happened to the others. */
  function DetectUpTo(b: Books, t: SourceTrade, signals: nat -> Signals, order: seq<nat>, now: int,
                      n: nat): (d: Detection)
    requires n <= |b.rels|
    ensures |d.rels| == |b.rels|
  {
    if n == 0 then Detection(b.rels, [], [], [], {})
    else
      var d, r := DetectUpTo(b, t, signals, order, now, n - 1), n - 1;
      if !Wanted(b, r, t) then d
      else
        var e := EffectsFor(b, r, t, signals(r), order, now);
        Detection(d.rels[r := e.rel], d.rows + e.rows, d.evals + e.evals, d.sends + e.sends,
                  if e.lost then d.lost + {r} else d.lost)
  }

  lemma EffectsShape(b: Books, r: nat, t: SourceTrade, sig: Signals, order: seq<nat>, now: int)
    requires r < |b.rels|
    ensures var e := EffectsFor(b, r, t, sig, order, now);
            && e.rel == b.rels[r].(maxPerTrade := e.rel.maxPerTrade, maxDaily := e.rel.maxDaily,
                                   minScore := e.rel.minScore)
            && |e.rows| == (if e.lost then 0 else 1)
            && (forall x :: x in e.rows ==>
                  x.rel == r && x.trade == t.id && x.day == Day(now) && x.status in {PENDING, SKIPPED, EXECUTED})
            && (forall x :: x in e.sends ==> x.origin == CopyOf(r, t.id))
  {
  }

  /** The rows a detection adds: one for each follower that had none and was not lost. */
  lemma {:induction false} DetectedRows(b: Books, t: SourceTrade, signals: nat -> Signals, order: seq<nat>, now: int,
                                        n: nat)
    requires n <= |b.rels|
    ensures var d := DetectUpTo(b, t, signals, order, now, n);
            && SameFollows(b.rels, d.rels) && (forall r :: n <= r < |b.rels| ==> d.rels[r] == b.rels[r])
            && (forall r: nat :: r in d.lost <==>
                  r < n && Wanted(b, r, t) && EffectsFor(b, r, t, signals(r), order, now).lost)
            && (forall x :: x in d.rows ==>
                  && x.rel < n && Wanted(b, x.rel, t) && x.trade == t.id
                  && x in EffectsFor(b, x.rel, t, signals(x.rel), order, now).rows)
            && (forall r: nat :: r < n && Wanted(b, r, t) ==> (HasRow(d.rows, r, t.id) <==> r !in d.lost))
  {
    hide FollowEffects;
    if n > 0 {
      var r := n - 1;
      DetectedRows(b, t, signals, order, now, r);
      if Wanted(b, r, t) {
        var before, e := DetectUpTo(b, t, signals, order, now, r), EffectsFor(b, r, t, signals(r), order, now);
        EffectsShape(b, r, t, signals(r), order, now);
        RowsJoin(before.rows, e.rows, t.id);
        NoRowFrom(before.rows, r, t.id);
        if !e.lost { assert e.rows[0] in e.rows && HasRow(e.rows, r, t.id); }
        NoOtherRow(e.rows, r, t.id);
      }
    }
  }

  lemma NoRowFrom(rows: seq<CopyExecution>, n: nat, trade: int)
    requires forall x :: x in rows ==> x.rel < n
    ensures forall r: nat :: n <= r ==> !HasRow(rows, r, trade)
  {
    assert forall i :: 0 <= i < |rows| ==> rows[i] in rows;
  }

  lemma NoOtherRow(rows: seq<CopyExecution>, n: nat, trade: int)
    requires forall x :: x in rows ==> x.rel == n
    ensures forall r: nat :: r != n ==> !HasRow(rows, r, trade)
    ensures rows == [] ==> !HasRow(rows, n, trade)
  {
    assert forall i :: 0 <= i < |rows| ==> rows[i] in rows;
  }

  lemma RowsJoin(a: seq<CopyExecution>, b: seq<CopyExecution>, trade: int)
    ensures forall r: nat :: HasRow(a + b, r, trade) <==> HasRow(a, r, trade) || HasRow(b, r, trade)
    ensures forall x :: x in a + b <==> x in a || x in b
  {
    var c := a + b;
    forall r: nat | HasRow(a, r, trade) || HasRow(b, r, trade) ensures HasRow(c, r, trade) {
      if HasRow(a, r, trade) {
        var i :| 0 <= i < |a| && a[i].rel == r && a[i].trade == trade;
        assert c[i] == a[i];
      } else {
        var i :| 0 <= i < |b| && b[i].rel == r && b[i].trade == trade;
        assert c[|a| + i] == b[i];
      }
    }
  }

  /** The transactions a detection sends. */
  lemma {:induction false} DetectedSends(b: Books, t: SourceTrade, signals: nat -> Signals, order: seq<nat>, now: int,
                                         n: nat)
    requires n <= |b.rels|
    ensures forall x :: x in DetectUpTo(b, t, signals, order, now, n).sends <==>
              && x.origin.CopyOf? && x.origin.rel < n && Wanted(b, x.origin.rel, t)
              && x in EffectsFor(b, x.origin.rel, t, signals(x.origin.rel), order, now).sends
  {
    hide FollowEffects;
    if n > 0 {
      var r := n - 1;
      DetectedSends(b, t, signals, order, now, r);
      if Wanted(b, r, t) { EffectsShape(b, r, t, signals(r), order, now); }
    }
  }

  /** The follower's running agent and the grant it acts under. */
  ghost predicate ActsUnder(b: Books, r: nat, order: seq<nat>, now: int, a: nat, p: nat) {
    && r < |b.rels| && b.rels[r].autoExecute && First(order, Running(b.agents, b.rels[r].user)) == Some(a)
    && GrantInForce(b.perms, a, now) == Some(p) && p < |b.perms|
  }

  /** An active follower of the trade's trader that has no row for the trade. */
  ghost predicate AwaitsCopy(b: Books, r: nat, t: SourceTrade) {
    && r < |b.rels| && b.rels[r].trader == t.trader && b.rels[r].status == Following
    && forall x :: x in b.execs ==> x.rel != r || x.trade != t.id
  }

  lemma WantedMeans(b: Books, r: nat, t: SourceTrade)
    ensures Wanted(b, r, t) <==> AwaitsCopy(b, r, t)
  {
    if r < |b.rels| && AwaitsCopy(b, r, t) {
      assert forall i :: 0 <= i < |b.execs| ==> b.execs[i] in b.execs;
    }
  }

  /** Agent a may copy the trade for follower r under its grant p, with this size: it is the follower's running agent,
      the grant is in force, and every guard holds. */
  ghost predicate MayCopy(b: Books, r: nat, t: SourceTrade, sig: Signals, order: seq<nat>, now: int, a: nat, p: nat,
                          size: real)
  {
    && ActsUnder(b, r, order, now, a, p) && Sized(b.rels[r], b.perms[p].caps, size)
    && Guards(b.rels[r], b.perms[p], t, sig, size, DailyCopyTotal(b.execs, r, now / 86400), now)
  }

  /** What handling one follower writes, on the tables and the signals alone. Without an agent to act the follower's own
      size, or 10, waits for the user or is skipped; without a grant in force it is skipped; under a grant the limits
      are replaced, a refusal is recorded as SKIPPED, and a copy that passes is sent and recorded, or lost. */
  lemma FollowerHandled(b: Books, r: nat, t: SourceTrade, sig: Signals, order: seq<nat>, now: int)
    requires r < |b.rels|
    ensures var e, rel, day := EffectsFor(b, r, t, sig, order, now), b.rels[r], now / 86400;
            var own := if rel.maxPerTrade.Some? && rel.maxPerTrade.value > 0.0 then rel.maxPerTrade.value else 10.0;
            var spent, agent := DailyCopyTotal(b.execs, r, day), First(order, Running(b.agents, rel.user));
            if !rel.autoExecute || agent.None? then
              var waits := !rel.autoExecute || (!sig.scoreSkip && sig.riskRest && rel.status == Following
                             && (rel.maxPerTrade.Some? ==> own <= rel.maxPerTrade.value)
                             && (rel.maxDaily.Some? ==> spent + own <= rel.maxDaily.value));
              e == Effects(rel, [CopyExecution(r, t.id, own, if waits then PENDING else SKIPPED, day)], [], [], false)
            else if GrantInForce(b.perms, agent.value, now).None? then
              e == Effects(rel, [CopyExecution(r, t.id, own, SKIPPED, day)],
                           [Evaluation(agent.value, Skipped, own, day, Some(r))], [], false)
            else
              var a, p := agent.value, GrantInForce(b.perms, agent.value, now).value;
              p < |b.perms| && |e.evals| == 1 &&
              var perm, size := b.perms[p], e.evals[0].amount;
              && Sized(rel, perm.caps, size)
              && e.rel == rel.(maxPerTrade := Some(perm.caps.maxTrade), maxDaily := Some(perm.caps.maxDaily),
                               minScore := perm.minScore)
              && var sent := Guards(rel, perm, t, sig, size, spent, now) && size > 0.0 && sig.prepared && sig.broadcast;
                 && e.sends == (if sent then [Broadcast(CopyOf(r, t.id), a, size, day, sig.confirmed)] else [])
                 && if !Guards(rel, perm, t, sig, size, spent, now) then
                      && e.rows == [CopyExecution(r, t.id, size, SKIPPED, day)] && !e.lost
                      && e.evals == [Evaluation(a, Skipped, size, day, Some(r))]
                    else if sent && sig.confirmed then
                      && e.rows == [CopyExecution(r, t.id, size, EXECUTED, day)] && !e.lost
                      && e.evals == [Evaluation(a, Copied, size, day, Some(r))]
                    else
                      e.rows == [] && e.lost && e.evals == [Evaluation(a, Failed, size, day, Some(r))]
  {
    hide GatesOk, Guards, DailyCopyTotal, CopySize, CopyAmount, Sized;
    var agent := First(order, Running(b.agents, b.rels[r].user));
    if agent.Some? && GrantInForce(b.perms, agent.value, now).Some? {
      var p := GrantInForce(b.perms, agent.value, now).value;
      GatesAreGuards(b.perms[p], b.rels[r], t, sig, CopySize(b.rels[r], b.perms[p].caps),
                     DailyCopyTotal(b.execs, r, Day(now)), now);
    }
  }

  /** The agent and the grant that were found, and the size that was recorded, are the only ones that may copy. */
  lemma ActsAsFound(b: Books, r: nat, t: SourceTrade, sig: Signals, order: seq<nat>, now: int, a: nat, p: nat)
    requires ActsUnder(b, r, order, now, a, p)
    ensures var e, spent := EffectsFor(b, r, t, sig, order, now), DailyCopyTotal(b.execs, r, now / 86400);
            && |e.evals| == 1 && Sized(b.rels[r], b.perms[p].caps, e.evals[0].amount)
            && var size := e.evals[0].amount;
               && (MayCopy(b, r, t, sig, order, now, a, p, size)
                   <==> Guards(b.rels[r], b.perms[p], t, sig, size, spent, now))
               && (forall other :: MayCopy(b, r, t, sig, order, now, a, p, other) ==> other == size)
               && (e.lost <==> MayCopy(b, r, t, sig, order, now, a, p, size)
                               && !(size > 0.0 && sig.prepared && sig.broadcast && sig.confirmed))
               && e.sends == if MayCopy(b, r, t, sig, order, now, a, p, size) && size > 0.0 && sig.prepared
                  && sig.broadcast
                             then [Broadcast(CopyOf(r, t.id), a, size, now / 86400, sig.confirmed)] else []
  {
    hide Guards, DailyCopyTotal, EffectsFor;
    FollowerHandled(b, r, t, sig, order, now);
    var size := EffectsFor(b, r, t, sig, order, now).evals[0].amount;
    assert forall other :: Sized(b.rels[r], b.perms[p].caps, other) ==> other == size;
  }

  /** Only one agent and one grant can act for a follower. */
  lemma ActsAlone(b: Books, r: nat, t: SourceTrade, sig: Signals, order: seq<nat>, now: int)
    requires r < |b.rels|
    ensures forall a: nat, p: nat, c: nat, q: nat ::
              ActsUnder(b, r, order, now, a, p) && ActsUnder(b, r, order, now, c, q) ==> a == c && p == q
    ensures var e := EffectsFor(b, r, t, sig, order, now);
            e.lost || e.sends != [] ==> exists a: nat, p: nat :: ActsUnder(b, r, order, now, a, p)
  {
    hide Guards, DailyCopyTotal, EffectsFor, Sized;
    FollowerHandled(b, r, t, sig, order, now);
    var agent := First(order, Running(b.agents, b.rels[r].user));
    if b.rels[r].autoExecute && agent.Some? && GrantInForce(b.perms, agent.value, now).Some? {
      assert ActsUnder(b, r, order, now, agent.value, GrantInForce(b.perms, agent.value, now).value);
    }
  }

  /** A copy is lost, leaving no row, if and only if an agent may copy it and the transaction is not confirmed. */
  lemma CopyIsLostIff(b: Books, t: SourceTrade, signals: nat -> Signals, order: seq<nat>, now: int, r: nat)
    ensures var sig := signals(r);
            r in DetectUpTo(b, t, signals, order, now, |b.rels|).lost <==>
              && AwaitsCopy(b, r, t)
              && exists a: nat, p: nat, size: real :: MayCopy(b, r, t, sig, order, now, a, p, size)
                   && !(size > 0.0 && sig.prepared && sig.broadcast && sig.confirmed)
  {
    hide DetectUpTo, EffectsFor, AwaitsCopy, ActsUnder, Sized, Guards, HasRow, Follows, DailyCopyTotal;
    DetectedRows(b, t, signals, order, now, |b.rels|);
    WantedMeans(b, r, t);
    if r < |b.rels| {
      ActsAlone(b, r, t, signals(r), order, now);
      forall a: nat, p: nat | ActsUnder(b, r, order, now, a, p)
        ensures var e, sig := EffectsFor(b, r, t, signals(r), order, now), signals(r);
                e.lost <==> exists size: real :: MayCopy(b, r, t, sig, order, now, a, p, size)
                              && !(size > 0.0 && sig.prepared && sig.broadcast && sig.confirmed)
      {
        ActsAsFound(b, r, t, signals(r), order, now, a, p);
      }
    }
  }

  /** A follower without a row has its transaction sent, again or for the first time, if and only if an agent may copy
      the trade, the size is positive and sending succeeds. What is sent is that agent's transaction of that size. */
  lemma CopyIsSentIff(b: Books, t: SourceTrade, signals: nat -> Signals, order: seq<nat>, now: int, r: nat)
    ensures var sig := signals(r);
            (exists x :: x in DetectUpTo(b, t, signals, order, now, |b.rels|).sends && x.origin == CopyOf(r, t.id)) <==>
              && AwaitsCopy(b, r, t)
              && exists a: nat, p: nat, size: real :: MayCopy(b, r, t, sig, order, now, a, p, size)
                   && size > 0.0 && sig.prepared && sig.broadcast
    ensures var sig := signals(r);
            forall x :: x in DetectUpTo(b, t, signals, order, now, |b.rels|).sends && x.origin == CopyOf(r, t.id) ==>
              exists a: nat, p: nat, size: real :: MayCopy(b, r, t, sig, order, now, a, p, size)
                && x == Broadcast(CopyOf(r, t.id), a, size, now / 86400, sig.confirmed)
  {
    hide DetectUpTo, EffectsFor, AwaitsCopy, ActsUnder, Sized, Guards, HasRow, Follows, DailyCopyTotal;
    DetectedSends(b, t, signals, order, now, |b.rels|);
    WantedMeans(b, r, t);
    if r < |b.rels| {
      var sends := EffectsFor(b, r, t, signals(r), order, now).sends;
      ActsAlone(b, r, t, signals(r), order, now);
      forall a: nat, p: nat | ActsUnder(b, r, order, now, a, p)
        ensures var sig := signals(r);
                && (sends != [] <==> exists size: real :: MayCopy(b, r, t, sig, order, now, a, p, size)
                                       && size > 0.0 && sig.prepared && sig.broadcast)
                && forall x :: x in sends ==> exists size: real :: MayCopy(b, r, t, sig, order, now, a, p, size)
                                                && x == Broadcast(CopyOf(r, t.id), a, size, now / 86400, sig.confirmed)
      {
        ActsAsFound(b, r, t, signals(r), order, now, a, p);
      }
      if sends != [] { assert sends[0] in sends && sends[0].origin == CopyOf(r, t.id); }
    }
  }

  /** The follower's own limit lasts for one trade: the first trade the agent handles replaces it, so every later one
      under the same caps is sized at the grant's maximum, whatever limit the follower had chosen. */
  lemma OwnLimitLastsOneTrade(b: Books, later: Books, r: nat, first: SourceTrade, second: SourceTrade, sig: Signals,
                              again: Signals, order: seq<nat>, reordered: seq<nat>, now: int, afterwards: int,
                              a: nat, p: nat, c: nat, q: nat)
    requires ActsUnder(b, r, order, now, a, p) && ActsUnder(later, r, reordered, afterwards, c, q)
    requires later.rels[r] == EffectsFor(b, r, first, sig, order, now).rel && later.perms[q].caps == b.perms[p].caps
    ensures var e := EffectsFor(later, r, second, again, reordered, afterwards);
            && |e.evals| == 1 && e.evals[0].amount == b.perms[p].caps.maxTrade
            && forall x :: x in e.rows ==> x.amount == b.perms[p].caps.maxTrade
  {
    hide Guards, DailyCopyTotal, EffectsFor;
    FollowerHandled(b, r, first, sig, order, now);
    FollowerHandled(later, r, second, again, reordered, afterwards);
  }

  /** An executed row: a running agent of the follower acted under its grant in force, within the grant's size. */
  ghost predicate ActedUnder(agents: seq<Agent>, perms: seq<Permission>, r: Relationship, a: nat, p: nat, amount: real,
                             now: int)
  {
    && InForce(agents, perms, a, p, now) && agents[a].status == RUNNING && agents[a].user == r.user
    && r.autoExecute && 0.0 < amount <= perms[p].caps.maxTrade && Sized(r, perms[p].caps, amount)
  }

  lemma ExecutedUnderGrant(accounts: map<int, SmartAccount>, b: Books, t: SourceTrade, signals: nat -> Signals,
                           order: seq<nat>, now: int, x: CopyExecution)
    requires Safe(accounts, b.agents, b.perms)
    requires x in DetectUpTo(b, t, signals, order, now, |b.rels|).rows && x.status == EXECUTED
    ensures x.rel < |b.rels|
    ensures exists a: nat, p: nat :: ActedUnder(b.agents, b.perms, b.rels[x.rel], a, p, x.amount, now)
  {
    hide GatesOk, DailyCopyTotal;
    DetectedRows(b, t, signals, order, now, |b.rels|);
    var r := x.rel;
    var a := First(order, Running(b.agents, b.rels[r].user)).value;
    var p := GrantInForce(b.perms, a, now).value;
    FirstMeans(order, Running(b.agents, b.rels[r].user));
    GrantInForceIff(accounts, b.agents, b.perms, a, p, now);
    assert ActedUnder(b.agents, b.perms, b.rels[r], a, p, x.amount, now);
  }

  /** The followers' agents are as they were before the call, except those of followers already handled. */
  ghost predicate OthersUntouched(agents: seq<Agent>, agents': seq<Agent>, rels: seq<Relationship>, t: SourceTrade,
                                  n: nat)
  {
    && |agents'| == |agents|
    && forall j :: 0 <= j < |agents| && agents'[j] != agents[j] ==>
         exists r :: 0 <= r < n && r < |rels| && Follows(rels[r], t) && rels[r].user == agents[j].user
  }

  lemma FirstOfItsUser(rels: seq<Relationship>, t: SourceTrade, r: nat)
    requires RelsUnique(rels) && r < |rels| && Follows(rels[r], t)
    ensures forall q :: 0 <= q < r && Follows(rels[q], t) ==> rels[q].user != rels[r].user
  {
  }

  lemma UsersKept(agents: seq<Agent>, perms: seq<Permission>, agents': seq<Agent>, perms': seq<Permission>)
    requires Evolves(agents, perms, agents', perms')
    ensures |agents| <= |agents'| && forall j :: 0 <= j < |agents| ==> agents'[j].user == agents[j].user
  {
  }

  lemma TouchedOne(agents: seq<Agent>, agents1: seq<Agent>, agents': seq<Agent>, rels: seq<Relationship>,
                   t: SourceTrade, i: nat)
    requires OthersUntouched(agents, agents1, rels, t, i) && |agents'| == |agents1| && i < |rels| && Follows(rels[i], t)
    requires forall j :: 0 <= j < |agents| && agents1[j] != agents[j] ==> agents1[j].user == agents[j].user
    requires forall j :: 0 <= j < |agents1| && agents'[j] != agents1[j] ==> agents1[j].user == rels[i].user
    ensures OthersUntouched(agents, agents', rels, t, i + 1)
  {
    forall j | 0 <= j < |agents| && agents'[j] != agents[j]
      ensures exists r :: 0 <= r < i + 1 && r < |rels| && Follows(rels[r], t) && rels[r].user == agents[j].user
    {
      if agents1[j] != agents[j] {
        var r :| 0 <= r < i && r < |rels| && Follows(rels[r], t) && rels[r].user == agents[j].user;
        assert r < i + 1;
      } else {
        assert Follows(rels[i], t) && rels[i].user == agents[j].user;
      }
    }
  }

  lemma TouchedNone(agents: seq<Agent>, agents1: seq<Agent>, rels: seq<Relationship>, t: SourceTrade, i: nat)
    requires OthersUntouched(agents, agents1, rels, t, i)
    ensures OthersUntouched(agents, agents1, rels, t, i + 1)
  {
    forall j | 0 <= j < |agents| && agents1[j] != agents[j]
      ensures exists r :: 0 <= r < i + 1 && r < |rels| && Follows(rels[r], t) && rels[r].user == agents[j].user
    {
      var r :| 0 <= r < i && r < |rels| && Follows(rels[r], t) && rels[r].user == agents[j].user;
      assert r < i + 1;
    }
  }

  /** Handling other followers first does not change what happens to this one. */
  lemma SameEffects(accounts: map<int, SmartAccount>, b: Books, agents': seq<Agent>, perms': seq<Permission>,
                    execs': seq<CopyExecution>, r: nat, t: SourceTrade, sig: Signals, order: seq<nat>, now: int)
    requires Safe(accounts, b.agents, b.perms) && Safe(accounts, agents', perms') && RelsUnique(b.rels)
    requires Looked(b.agents, b.perms, agents', perms', now) && OthersUntouched(b.agents, agents', b.rels, t, r)
    requires r < |b.rels| && Follows(b.rels[r], t)
    requires DailyCopyTotal(execs', r, Day(now)) == DailyCopyTotal(b.execs, r, Day(now))
    ensures FollowEffects(agents', perms', b.rels[r], r, t, sig, DailyCopyTotal(execs', r, Day(now)), order, now)
            == EffectsFor(b, r, t, sig, order, now)
  {
    hide DailyCopyTotal, TradeEffects, ReviewEffects;
    var user := b.rels[r].user;
    FirstOfItsUser(b.rels, t, r);
    forall a | a in order ensures Running(agents', user)(a) == Running(b.agents, user)(a) {
    }
    FirstPointwise(order, Running(agents', user), Running(b.agents, user));
    var a := First(order, Running(b.agents, user));
    if a.Some? {
      LookedGrants(accounts, b.agents, b.perms, agents', perms', a.value, now);
      var p := GrantInForce(b.perms, a.value, now);
      if p.Some? { LookedUnexpired(accounts, b.agents, b.perms, agents', perms', a.value, p.value, now); }
    }
  }

  /** Rows of other relationships neither count for this one nor are its rows. */
  lemma OtherRows(execs: seq<CopyExecution>, rows: seq<CopyExecution>, r: nat, trade: int, day: int)
    requires forall x :: x in rows ==> x.rel != r
    ensures DailyCopyTotal(execs + rows, r, day) == DailyCopyTotal(execs, r, day)
    ensures HasRow(execs + rows, r, trade) <==> HasRow(execs, r, trade)
  {
    SumConcat(execs, rows, CountedOn(r, day));
    NotCounted(rows, r, day);
    RowsJoin(execs, rows, trade);
    assert !HasRow(rows, r, trade);
  }

  lemma {:induction false} NotCounted(rows: seq<CopyExecution>, r: nat, day: int)
    requires forall x :: x in rows ==> x.rel != r
    ensures DailyCopyTotal(rows, r, day) == 0.0
  {
    if rows != [] {
      var n := |rows| - 1;
      assert rows[n] in rows && CountedOn(r, day)(rows[n]) == 0.0;
      NotCounted(rows[..n], r, day);
    }
  }

  /** The loop comes to follower i with its own limits, rows and effects as they were before the call. */
  lemma BeforeFollower(accounts: map<int, SmartAccount>, b: Books, agents: seq<Agent>, perms: seq<Permission>,
                       t: SourceTrade, signals: nat -> Signals, order: seq<nat>, now: int, i: nat)
    requires Safe(accounts, b.agents, b.perms) && Safe(accounts, agents, perms) && RelsUnique(b.rels)
    requires Looked(b.agents, b.perms, agents, perms, now) && OthersUntouched(b.agents, agents, b.rels, t, i)
             && i < |b.rels|
    ensures var d := DetectUpTo(b, t, signals, order, now, i);
            && d.rels[i] == b.rels[i]
            && (HasRow(b.execs + d.rows, i, t.id) <==> HasRow(b.execs, i, t.id))
            && (Follows(b.rels[i], t) ==>
                  FollowEffects(agents, perms, b.rels[i], i, t, signals(i),
                                DailyCopyTotal(b.execs + d.rows, i, Day(now)), order, now)
                  == EffectsFor(b, i, t, signals(i), order, now))
  {
    hide Safe, RelsUnique, Looked, OthersUntouched, FollowEffects, HasRow, DailyCopyTotal, EffectsFor, Follows, Wanted,
      DetectUpTo;
    var d := DetectUpTo(b, t, signals, order, now, i);
    DetectedRows(b, t, signals, order, now, i);
    OtherRows(b.execs, d.rows, i, t.id, Day(now));
    if Follows(b.rels[i], t) {
      SameEffects(accounts, b, agents, perms, b.execs + d.rows, i, t, signals(i), order, now);
    }
  }

  /** Handling follower i touches nobody but its user's agents. */
  lemma AfterFollower(accounts: map<int, SmartAccount>, b: Books, agents: seq<Agent>, perms: seq<Permission>,
                      agents': seq<Agent>, perms': seq<Permission>, t: SourceTrade, now: int, i: nat)
    requires Safe(accounts, b.agents, b.perms) && Safe(accounts, agents, perms) && Safe(accounts, agents', perms')
    requires Evolves(b.agents, b.perms, agents, perms) && Evolves(agents, perms, agents', perms')
    requires Looked(b.agents, b.perms, agents, perms, now) && Looked(agents, perms, agents', perms', now)
    requires OthersUntouched(b.agents, agents, b.rels, t, i) && i < |b.rels| && Follows(b.rels[i], t)
    requires forall j :: 0 <= j < |agents'| && agents'[j] != agents[j] ==> agents'[j].user == b.rels[i].user
    ensures Evolves(b.agents, b.perms, agents', perms') && Looked(b.agents, b.perms, agents', perms', now)
    ensures OthersUntouched(b.agents, agents', b.rels, t, i + 1) && |agents'| == |b.agents|
  {
    hide Safe, OthersUntouched, Evolves, Follows;
    EvolvesTransitive(b.agents, b.perms, agents, perms, agents', perms');
    LookedTransitive(accounts, b.agents, b.perms, agents, perms, agents', perms', now);
    UsersKept(b.agents, b.perms, agents, perms);
    UsersKept(agents, perms, agents', perms');
    TouchedOne(b.agents, agents, agents', b.rels, t, i);
  }

  /** Running detection again after a run that lost nothing finds nobody without a row. */
  lemma NothingLeftToDetect(b: Books, t: SourceTrade, signals: nat -> Signals, order: seq<nat>, now: int, b': Books,
                            r: nat)
    requires var d := DetectUpTo(b, t, signals, order, now, |b.rels|);
             d.lost == {} && b'.rels == d.rels && b'.execs == b.execs + d.rows
    ensures !Wanted(b', r, t)
  {
    DetectedRows(b, t, signals, order, now, |b.rels|);
    RowsJoin(b.execs, DetectUpTo(b, t, signals, order, now, |b.rels|).rows, t.id);
    if r < |b.rels| { assert Follows(b'.rels[r], t) <==> Follows(b.rels[r], t); }
  }

  lemma {:induction false} NobodyWanted(b: Books, t: SourceTrade, signals: nat -> Signals, order: seq<nat>, now: int,
                                        n: nat)
    requires n <= |b.rels| && forall r: nat :: r < n ==> !Wanted(b, r, t)
    ensures DetectUpTo(b, t, signals, order, now, n) == Detection(b.rels, [], [], [], {})
  {
    if n > 0 { NobodyWanted(b, t, signals, order, now, n - 1); }
  }

  class Service {
    const registry: Registry
    var rels: seq<Relationship>
    var execs: seq<CopyExecution>
    var evals: seq<Evaluation>
    ghost var broadcasts: seq<Broadcast>

    ghost predicate Valid()
      reads this, registry
    {
      && registry.Valid() && RelsUnique(rels)
      && LogsSafe(rels, registry.agents, registry.perms, execs, evals, broadcasts)
    }

    ghost function Tables(): Books
      reads this, registry
    {
      Books(registry.agents, registry.perms, rels, execs)
    }

    constructor ()
      ensures Valid() && fresh(registry)
      ensures rels == [] && execs == [] && evals == [] && broadcasts == []
      ensures registry.accounts == map[] && registry.agents == [] && registry.perms == []
    {
      registry := new Registry();
      rels, execs, evals, broadcasts := [], [], [], [];
      new;
      assert forall r: nat, d: int :: Sum(evals, CopiedFor(r, d)) == ExecutedTotal(execs, r, d);
    }

    /** CopyExecution.objects.create for a row the agent did not execute. */
    method CreateRow(x: CopyExecution)
      requires Valid() && x.rel < |rels| && !HasRow(execs, x.rel, x.trade)
      requires x.status in {PENDING, SKIPPED} && (x.status == PENDING ==> x.amount > 0.0)
      modifies this`execs
      ensures Valid() && execs == old(execs) + [x]
    {
      AppendRow(rels, registry.agents, registry.perms, execs, evals, broadcasts, x);
      execs := execs + [x];
    }

    /** _record_evaluation for a trade that was refused or failed. */
    method RecordEvaluation(e: Evaluation)
      requires Valid() && e.decision != Copied
      modifies this`evals
      ensures Valid() && evals == old(evals) + [e]
    {
      AppendEvaluation(rels, registry.agents, registry.perms, execs, evals, broadcasts, e);
      evals := evals + [e];
    }

    /** A confirmed manual trade: the evaluation and the transaction behind it. */
    method RecordManual(e: Evaluation, ghost p: int)
      requires Valid() && ManualWithin(evals, registry.perms, e, p) && e.decision == Copied
      modifies this`evals, this`broadcasts
      ensures Valid() && evals == old(evals) + [e]
      ensures broadcasts == old(broadcasts) + [Broadcast(ByHand, e.agent, e.amount, e.day, true)]
    {
      AppendManual(rels, registry.agents, registry.perms, execs, evals, broadcasts, e, p);
      broadcasts := broadcasts + [Broadcast(ByHand, e.agent, e.amount, e.day, true)];
      evals := evals + [e];
    }

    /** The grant's limits replace the relationship's, then score, policy, risk and signature decide. */
    method GateCopy(a: nat, p: nat, i: nat, t: SourceTrade, sig: Signals, now: int) returns (amount: real, ok: bool)
      requires a < |registry.agents| && p < |registry.perms| && i < |rels|
      modifies this`rels
      ensures rels == old(rels)[i := Synced(old(rels)[i], registry.perms[p])]
      ensures amount == CopySize(old(rels)[i], registry.perms[p].caps)
      ensures ok <==> GatesOk(registry.agents[a].status, registry.perms[p], rels[i], t, sig, amount,
                              DailyCopyTotal(execs, i, Day(now)), now)
    {
      hide RiskLimitsOk, DailyCopyTotal, CopyAmount;
      var perm := registry.perms[p];
      var rel := rels[i];
      var limited := rel.maxPerTrade.Some? && rel.maxPerTrade.value != 0.0;
      amount := if limited then Min(CopyAmount(rel), perm.caps.maxTrade) else perm.caps.maxTrade;
      if amount <= 0.0 { amount := perm.caps.maxTrade; }
      var daily := DailyCopyTotal(execs, i, Day(now));

      rel := rel.(maxPerTrade := Some(perm.caps.maxTrade));
      rel := rel.(maxDaily := Some(perm.caps.maxDaily));
      rel := rel.(minScore := perm.minScore);
      rels := rels[i := rel];

      var reasons := EvaluatePolicy(registry.agents[a].status, perm, t, sig.score, amount, daily, now);
      if sig.scoreSkip { reasons := reasons + ["Copy Score recommended SKIP"]; }
      if reasons == [] && !(RiskLimitsOk(rel, amount, daily) && sig.riskRest) { reasons := reasons + ["risk"]; }
      if !sig.signatureOk { reasons := reasons + ["Delegation is not active or has expired"]; }
      ok := reasons == [];
    }

    /** A confirmed copy, in both logs. */
    method RecordCopy(a: nat, x: CopyExecution, ghost p: nat)
      requires Valid() && CopyWithin(rels, registry.agents, registry.perms, execs, x, a, p)
      modifies this`execs, this`evals, this`broadcasts
      ensures Valid() && execs == old(execs) + [x]
      ensures evals == old(evals) + [Evaluation(a, Copied, x.amount, x.day, Some(x.rel))]
      ensures broadcasts == old(broadcasts) + [Broadcast(CopyOf(x.rel, x.trade), a, x.amount, x.day, true)]
    {
      AppendCopy(rels, registry.agents, registry.perms, execs, evals, broadcasts, x, a, p);
      broadcasts := broadcasts + [Broadcast(CopyOf(x.rel, x.trade), a, x.amount, x.day, true)];
      execs := execs + [x];
      evals := evals + [Evaluation(a, Copied, x.amount, x.day, Some(x.rel))];
    }

    /** An execution that raised: nothing but the FAILED evaluation is left, even when the transaction had been sent. */
    method RecordLoss(origin: Origin, a: nat, amount: real, day: int, wasSent: bool, ghost p: int)
      requires Valid() && (origin.CopyOf? ==> !HasRow(execs, origin.rel, origin.trade))
      requires wasSent ==> 0 <= p < |registry.perms| && registry.perms[p].agent == a
                           && 0.0 < amount <= registry.perms[p].caps.maxTrade
      modifies this`evals, this`broadcasts
      ensures Valid() && evals == old(evals) + [Evaluation(a, Failed, amount, day, origin.Relation())]
      ensures broadcasts == old(broadcasts) + if wasSent then [Broadcast(origin, a, amount, day, false)] else []
    {
      if wasSent {
        ghost var b := Broadcast(origin, a, amount, day, false);
        AppendUnconfirmed(rels, registry.agents, registry.perms, execs, evals, broadcasts, b, p);
        broadcasts := broadcasts + [b];
      }
      RecordEvaluation(Evaluation(a, Failed, amount, day, origin.Relation()));
    }

    /** Rewriting a relationship's limits or status keeps every invariant. */
    lemma RelsMayChange(rels': seq<Relationship>)
      requires Valid() && OwnersKept(rels, rels')
      ensures LogsSafe(rels', registry.agents, registry.perms, execs, evals, broadcasts)
    {
      assert Evolves(registry.agents, registry.perms, registry.agents, registry.perms);
      LogsStaySafe(rels, registry.agents, registry.perms, execs, evals, broadcasts, rels', registry.agents,
                   registry.perms);
    }

    /** execute_trade for a pair that has no row yet. */
    method ExecuteTrade(a: nat, p: nat, i: nat, t: SourceTrade, sig: Signals, now: int) returns (outcome: CopyOutcome)
      requires Valid() && InForce(registry.agents, registry.perms, a, p, now)
      requires i < |rels| && !HasRow(execs, i, t.id) && registry.agents[a].user == rels[i].user
      modifies this
      ensures Valid()
      ensures outcome == OutcomeOf(registry.agents[a].status, registry.perms[p], old(rels)[i], t, sig,
                                   DailyCopyTotal(old(execs), i, Day(now)), now)
      ensures var e := TradeEffects(a, registry.agents[a].status, registry.perms[p], old(rels)[i], i, t, sig,
                                    DailyCopyTotal(old(execs), i, Day(now)), now);
              && rels == old(rels)[i := e.rel] && execs == old(execs) + e.rows && evals == old(evals) + e.evals
              && broadcasts == old(broadcasts) + e.sends
      ensures !HasRow(execs, i, t.id) <==>
                var perm, size := registry.perms[p], CopySize(old(rels)[i], registry.perms[p].caps);
                && GatesOk(registry.agents[a].status, perm, rels[i], t, sig, size,
                           DailyCopyTotal(old(execs), i, Day(now)), now)
                && !(size > 0.0 && sig.prepared && sig.broadcast && sig.confirmed)
      ensures outcome == Done ==>
                var caps := registry.perms[p].caps;
                (AgentVolume(evals, a, Day(now)) <= caps.maxDaily
                 <==> AgentVolume(old(evals), a, Day(now)) + CopySize(old(rels)[i], caps) <= caps.maxDaily)
    {
      hide LogsSafe, PolicyOk, CopySize, Evolves, AgentVolume;
      RelsMayChange(rels[i := Synced(rels[i], registry.perms[p])]);
      ghost var execs0 := execs;
      var amount, ok := GateCopy(a, p, i, t, sig, now);
      var x := CopyExecution(i, t.id, amount, if ok then EXECUTED else SKIPPED, Day(now));
      RowAppended(execs0, x);
      if !ok {
        CreateRow(x);
        RecordEvaluation(Evaluation(a, Skipped, amount, Day(now), Some(i)));
        return Refused;
      }
      GatesGiveRoom(registry.agents[a].status, registry.perms[p], rels[i], t, sig, amount,
                    DailyCopyTotal(execs, i, Day(now)), now);
      // prepare_trade refuses a size that is not positive
      var sent := amount > 0.0 && sig.prepared && sig.broadcast;
      if !sent || !sig.confirmed {
        RecordLoss(CopyOf(i, t.id), a, amount, Day(now), sent, p);
        return Lost;
      }
      CopyKeepsMaximumIff(evals, Evaluation(a, Copied, amount, Day(now), Some(i)), registry.perms[p].caps);
      RecordCopy(a, x, p);
      outcome := Done;
    }

    /** The branch for an agent without a grant in force. */
    method SkipUnlicensed(a: nat, i: nat, t: SourceTrade, now: int)
      requires Valid() && i < |rels| && !HasRow(execs, i, t.id)
      modifies this
      ensures Valid()
      ensures Wrote(UnlicensedEffects(a, old(rels)[i], i, t, now), old(rels), old(execs), old(evals), old(broadcasts),
                    i,
                    false)
    {
      hide LogsSafe;
      var amount := CopyAmount(rels[i]);
      CreateRow(CopyExecution(i, t.id, amount, SKIPPED, Day(now)));
      RecordEvaluation(Evaluation(a, Skipped, amount, Day(now), Some(i)));
      assert rels[i := rels[i]] == rels && broadcasts + [] == broadcasts;
    }

    /** evaluate_and_maybe_execute for a running agent. */
    method AgentCopy(a: nat, i: nat, t: SourceTrade, sig: Signals, now: int) returns (lost: bool)
      requires Valid() && a < |registry.agents| && i < |rels| && !HasRow(execs, i, t.id)
      requires registry.agents[a].user == rels[i].user && registry.agents[a].status == RUNNING
      modifies this, registry
      ensures Valid() && Evolves(old(registry.agents), old(registry.perms), registry.agents, registry.perms)
      ensures Looked(old(registry.agents), old(registry.perms), registry.agents, registry.perms, now)
      ensures forall j :: 0 <= j < |registry.agents| && j != a ==> registry.agents[j] == old(registry.agents)[j]
      ensures registry.accounts == old(registry.accounts)
      ensures match GrantInForce(old(registry.perms), a, now)
              case None => Wrote(UnlicensedEffects(a, old(rels)[i], i, t, now), old(rels), old(execs), old(evals),
                                 old(broadcasts), i, lost)
              case Some(p) => Wrote(TradeEffects(a, RUNNING, old(registry.perms)[p], old(rels)[i], i, t, sig,
                                                 DailyCopyTotal(old(execs), i, Day(now)), now),
                                    old(rels), old(execs), old(evals), old(broadcasts), i, lost)
    {
      hide LogsSafe, Evolves, TradeEffects, UnlicensedEffects, DailyCopyTotal, CopySize, OutcomeOf, GatesOk;
      ghost var agents0, perms0 := registry.agents, registry.perms;
      var p := registry.ActivePermission(a, now);
      LogsStaySafe(rels, agents0, perms0, execs, evals, broadcasts, rels, registry.agents, registry.perms);
      if p.None? {
        SkipUnlicensed(a, i, t, now);
        return false;
      }
      var outcome := ExecuteTrade(a, p.value, i, t, sig, now);
      lost := outcome == Lost;
      OutcomeSaysLost(a, registry.perms[p.value], old(rels)[i], i, t, sig, DailyCopyTotal(old(execs), i, Day(now)),
                      now);
    }

    /** These effects, and no others, were written. */
    ghost predicate Wrote(e: Effects, rels0: seq<Relationship>, execs0: seq<CopyExecution>, evals0: seq<Evaluation>,
                          broadcasts0: seq<Broadcast>, i: nat, lost: bool)
      reads this
    {
      && i < |rels0| && rels == rels0[i := e.rel] && execs == execs0 + e.rows && evals == evals0 + e.evals
      && broadcasts == broadcasts0 + e.sends && lost == e.lost
    }

    /** The review path: notify-me follows always wait for the user; the rest pass score and risk first. */
    method ReviewCopy(i: nat, t: SourceTrade, sig: Signals, now: int)
      requires Valid() && i < |rels| && !HasRow(execs, i, t.id)
      modifies this`execs
      ensures Valid()
      ensures Wrote(ReviewEffects(rels[i], i, t, sig, DailyCopyTotal(old(execs), i, Day(now)), now),
                    rels, old(execs), evals, broadcasts, i, false)
    {
      hide LogsSafe;
      var amount := CopyAmount(rels[i]);
      var status := PENDING;
      if !rels[i].autoExecute {
        status := PENDING;
      } else if sig.scoreSkip {
        status := SKIPPED;
      } else {
        var ok := RiskLimitsOk(rels[i], amount, DailyCopyTotal(execs, i, Day(now))) && sig.riskRest;
        if !ok { status := SKIPPED; }
      }
      CreateRow(CopyExecution(i, t.id, amount, status, Day(now)));
      assert rels[i := rels[i]] == rels && evals + [] == evals && broadcasts + [] == broadcasts;
    }

    /** The body of the detection loop for a follower without a row. */
    method ProcessFollow(i: nat, t: SourceTrade, sig: Signals, order: seq<nat>, now: int) returns (lost: bool)
      requires Valid() && i < |rels| && !HasRow(execs, i, t.id)
      requires forall k :: 0 <= k < |order| ==> order[k] < |registry.agents|
      modifies this, registry
      ensures Valid() && Evolves(old(registry.agents), old(registry.perms), registry.agents, registry.perms)
      ensures Looked(old(registry.agents), old(registry.perms), registry.agents, registry.perms, now)
      ensures forall j :: 0 <= j < |registry.agents| && registry.agents[j] != old(registry.agents)[j] ==>
                registry.agents[j].user == old(rels)[i].user
      ensures registry.accounts == old(registry.accounts)
      ensures Wrote(FollowEffects(old(registry.agents), old(registry.perms), old(rels)[i], i, t, sig,
                                  DailyCopyTotal(old(execs), i, Day(now)), order, now),
                    old(rels), old(execs), old(evals), old(broadcasts), i, lost)
    {
      hide LogsSafe, TradeEffects, ReviewEffects, UnlicensedEffects, DailyCopyTotal, Safe;
      if rels[i].autoExecute {
        var a := registry.GetRunningAgent(rels[i].user, order);
        if a.Some? {
          lost := AgentCopy(a.value, i, t, sig, now);
          return;
        }
      }
      LookedRefl(registry.agents, registry.perms, now);
      ReviewCopy(i, t, sig, now);
      lost := false;
    }

    /** detect_and_process_copy. lost collects the relationships whose execution raised. */
    method DetectAndProcessCopy(t: SourceTrade, signals: nat -> Signals, order: seq<nat>, now: int)
      returns (lost: set<nat>)
      requires Valid() && forall k :: 0 <= k < |order| ==> order[k] < |registry.agents|
      modifies this, registry
      ensures Valid() && Evolves(old(registry.agents), old(registry.perms), registry.agents, registry.perms)
      ensures Looked(old(registry.agents), old(registry.perms), registry.agents, registry.perms, now)
      ensures registry.accounts == old(registry.accounts)
      ensures var d := DetectUpTo(old(Tables()), t, signals, order, now, |old(rels)|);
              && rels == d.rels && execs == old(execs) + d.rows && evals == old(evals) + d.evals
              && broadcasts == old(broadcasts) + d.sends && lost == d.lost
      ensures forall x :: x in execs[|old(execs)|..] && x.status == EXECUTED ==>
                && x.rel < |old(rels)|
                && exists a: nat, p: nat ::
                     ActedUnder(old(registry.agents), old(registry.perms), old(rels)[x.rel], a, p, x.amount, now)
    {
      hide LogsSafe, Evolves, Looked, FollowEffects, DailyCopyTotal, Safe, OthersUntouched, RelsUnique;
      lost := {};
      ghost var b := Tables();
      DetectStarts(this);
      for i := 0 to |rels|
        invariant Valid() && Evolves(b.agents, b.perms, registry.agents, registry.perms)
        invariant Looked(b.agents, b.perms, registry.agents, registry.perms, now) && |registry.agents| == |b.agents|
        invariant OthersUntouched(b.agents, registry.agents, b.rels, t, i)
                  && registry.accounts == old(registry.accounts)
        invariant |rels| == |b.rels|
        invariant var d := DetectUpTo(b, t, signals, order, now, i);
                  && rels == d.rels && execs == b.execs + d.rows && evals == old(evals) + d.evals
                  && broadcasts == old(broadcasts) + d.sends && lost == d.lost
      {
        ghost var agents1, perms1, d := registry.agents, registry.perms, DetectUpTo(b, t, signals, order, now, i);
        BeforeFollower(registry.accounts, b, agents1, perms1, t, signals, order, now, i);
        if Follows(rels[i], t) && !HasRow(execs, i, t.id) {
          var failed := ProcessFollow(i, t, signals(i), order, now);
          AfterFollower(registry.accounts, b, agents1, perms1, registry.agents, registry.perms, t, now, i);
          if failed { lost := lost + {i}; }
        } else {
          TouchedNone(b.agents, agents1, b.rels, t, i);
        }
      }
      AllActedUnder(old(registry.accounts), b, t, signals, order, now);
      assert execs[|b.execs|..] == DetectUpTo(b, t, signals, order, now, |b.rels|).rows;
    }

    /** Running detection again after a run that lost nothing writes nothing. */
    method DetectTwice(t: SourceTrade, signals: nat -> Signals, again: nat -> Signals, order: seq<nat>,
                       reordered: seq<nat>, now: int, later: int)
      returns (lost: set<nat>, added: nat)
      requires Valid() && forall k :: 0 <= k < |order| ==> order[k] < |registry.agents|
      requires forall k :: 0 <= k < |reordered| ==> reordered[k] < |registry.agents|
      modifies this, registry
      ensures Valid() && (lost == {} ==> added == 0)
    {
      hide FollowEffects, Follows, HasRow;
      ghost var b := Tables();
      lost := DetectAndProcessCopy(t, signals, order, now);
      ghost var between := Tables();
      var n := |execs|;
      var _ := DetectAndProcessCopy(t, again, reordered, later);
      added := |execs| - n;
      if lost == {} {
        forall r: nat | r < |between.rels| ensures !Wanted(between, r, t) {
          NothingLeftToDetect(b, t, signals, order, now, between, r);
        }
        NobodyWanted(between, t, again, reordered, later, |between.rels|);
      }
    }

    /** Changing the status of a row that is not settled. */
    method SetRowStatus(k: nat, status: ExecStatus)
      requires Valid() && k < |execs| && execs[k].status in {PENDING, APPROVED} && status in {APPROVED, SKIPPED}
      modifies this`execs
      ensures Valid() && execs == old(execs)[k := old(execs)[k].(status := status)]
    {
      UpdateRow(rels, registry.agents, registry.perms, execs, evals, broadcasts, k, status);
      execs := execs[k := execs[k].(status := status)];
    }

    /** skip_copy_execution */
    method SkipCopyExecution(k: nat, user: int) returns (r: Result<nat>)
      requires Valid()
      modifies this`execs
      ensures Valid() && RowsEvolve(old(execs), execs)
      ensures r.Ok? <==> k < |old(execs)| && rels[old(execs)[k].rel].user == user && old(execs)[k].status == PENDING
      ensures r.Ok? ==> execs == old(execs)[k := old(execs)[k].(status := SKIPPED)]
      ensures r.Error? ==> execs == old(execs)
    {
      if k >= |execs| || rels[execs[k].rel].user != user { return Error("Copy execution not found"); }
      if execs[k].status != PENDING { return Error("Execution not skippable"); }
      SetRowStatus(k, SKIPPED);
      r := Ok(k);
    }

    /** prepare_copy_trade. A risk refusal marks the row SKIPPED and then raises inside the transaction,
        so that mark is rolled back with everything else. */
    method PrepareCopyTrade(k: nat, user: int, riskRest: bool, prepared: bool, now: int) returns (r: Result<nat>)
      requires Valid()
      modifies this`execs
      ensures Valid() && RowsEvolve(old(execs), execs)
      ensures r.Ok? <==>
                && k < |old(execs)| && rels[old(execs)[k].rel].user == user
                && old(execs)[k].status in {PENDING, APPROVED}
                && var x, rel := old(execs)[k], rels[old(execs)[k].rel];
                   && rel.status == Following && riskRest && prepared
                   && (rel.maxPerTrade.Some? ==> x.amount <= rel.maxPerTrade.value)
                   && (rel.maxDaily.Some? ==>
                         DailyCopyTotal(old(execs), x.rel, now / 86400) + x.amount <= rel.maxDaily.value)
      ensures r.Ok? ==> execs == old(execs)[k := old(execs)[k].(status := APPROVED)]
      ensures r.Error? ==> execs == old(execs)
    {
      if k >= |execs| || rels[execs[k].rel].user != user { return Error("Copy execution not found"); }
      var x := execs[k];
      if x.status != PENDING && x.status != APPROVED { return Error("Execution not confirmable"); }
      assert x in execs;
      var rel := rels[x.rel];
      var amount := if x.amount != 0.0 then x.amount else CopyAmount(rel);
      var snapshot := execs;
      var ok := RiskLimitsOk(rel, amount, DailyCopyTotal(execs, x.rel, Day(now))) && riskRest;
      if !ok {
        execs := execs[k := x.(status := SKIPPED)];
        execs := snapshot;
        return Error("risk");
      }
      if !prepared { return Error("trade could not be prepared"); }
      SetRowStatus(k, APPROVED);
      r := Ok(k);
    }

    /** execute_agent_manual_trade */
    method ExecuteAgentManualTrade(user: int, amount: real, outcome: string, found: bool, sig: Signals, order: seq<nat>,
                                   now: int)
      returns (r: Result<(nat, nat)>)
      requires Valid() && forall k :: 0 <= k < |order| ==> order[k] < |registry.agents|
      modifies this`evals, this`broadcasts, registry
      ensures Valid() && Evolves(old(registry.agents), old(registry.perms), registry.agents, registry.perms)
      ensures Looked(old(registry.agents), old(registry.perms), registry.agents, registry.perms, now)
      ensures registry.accounts == old(registry.accounts)
      ensures var w := ManualWrites(old(registry.agents), old(registry.perms), old(evals), user, amount, outcome, found,
                                    sig, order, now);
              evals == old(evals) + w.evals && broadcasts == old(broadcasts) + w.sends
      ensures var h := Holder(old(registry.agents), old(registry.perms), user, {RUNNING, AUTHORIZED}, order, now);
              if amount <= 0.0 || h.None? || !sig.signatureOk || !found then
                r.Error? && evals == old(evals) && broadcasts == old(broadcasts)
              else
                var (a, p) := h.value;
                p < |old(registry.perms)| &&
                var perm, day, done := old(registry.perms)[p], now / 86400, sig.prepared && sig.broadcast
                  && sig.confirmed;
                if !(sig.riskRest && amount <= perm.caps.maxTrade && (perm.outcomes == {} || outcome in perm.outcomes)
                     && AgentVolume(old(evals), a, day) + amount <= perm.caps.maxDaily) then
                  && r.Error? && evals == old(evals) + [Evaluation(a, Skipped, amount, day, None)]
                  && broadcasts == old(broadcasts)
                else
                  && (r.Ok? <==> done)
                  && evals == old(evals) + [Evaluation(a, if done then Copied else Failed, amount, day, None)]
                  && broadcasts == old(broadcasts) + if sig.prepared && sig.broadcast
                                                     then [Broadcast(ByHand, a, amount, day, sig.confirmed)] else []
      ensures r.Ok? ==>
                var (a, p) := r.value;
                && Some((a, p))
                   == Holder(old(registry.agents), old(registry.perms), user, {RUNNING, AUTHORIZED}, order, now)
                && InForce(registry.agents, registry.perms, a, p, now) && registry.agents[a].user == user
                && registry.agents[a].status in {RUNNING, AUTHORIZED}
                && evals == old(evals) + [Evaluation(a, Copied, amount, Day(now), None)]
                && 0.0 < amount <= registry.perms[p].caps.maxTrade
                && AgentVolume(evals, a, Day(now)) <= registry.perms[p].caps.maxDaily
      ensures r.Error? ==> forall a: nat, d: int :: AgentVolume(evals, a, d) == AgentVolume(old(evals), a, d)
    {
      hide LogsSafe, Evolves, Looked, Safe, Holder, AgentVolume;
      if amount <= 0.0 {
        LookedRefl(registry.agents, registry.perms, now);
        return Error("Amount must be positive");
      }
      ghost var agents0, perms0 := registry.agents, registry.perms;
      var tradable := registry.GetTradableAgent(user, order, now);
      LogsStaySafe(rels, agents0, perms0, execs, evals, broadcasts, rels, registry.agents, registry.perms);
      if tradable.None? { return Error("Activate DreamAgent"); }
      var a, p := tradable.value.0, tradable.value.1;
      var perm := registry.perms[p];
      if !sig.signatureOk { return Error("Delegation is not valid"); }
      if !found { return Error("Event or outcome not found"); }
      var daily := AgentVolume(evals, a, Day(now));
      var reasons: seq<string> := [];
      if amount > perm.caps.maxTrade { reasons := reasons + ["exceeds max per trade"]; }
      if daily + amount > perm.caps.maxDaily { reasons := reasons + ["Daily volume would exceed"]; }
      if perm.outcomes != {} && outcome !in perm.outcomes { reasons := reasons + ["Outcome not allowed"]; }
      if !sig.riskRest { reasons := reasons + ["risk"]; }
      assert reasons == [] <==> sig.riskRest && !ManualRefused(perm, amount, outcome, daily);
      if reasons != [] {
        VolumeUnchanged(evals, Evaluation(a, Skipped, amount, Day(now), None));
        RecordEvaluation(Evaluation(a, Skipped, amount, Day(now), None));
        return Error("refused");
      }
      if !sig.prepared || !sig.broadcast || !sig.confirmed {
        VolumeUnchanged(evals, Evaluation(a, Failed, amount, Day(now), None));
        RecordLoss(ByHand, a, amount, Day(now), sig.prepared && sig.broadcast, p);
        return Error("trade failed");
      }
      var e := Evaluation(a, Copied, amount, Day(now), None);
      CopyKeepsMaximumIff(evals, e, perm.caps);
      RecordManual(e, p);
      r := Ok((a, p));
    }

    /** _upsert_copy_relationship: one row per user and trader; the user's active grants learn the trader. */
    method UpsertFollow(f: Relationship, traderKey: string, wallet: string) returns (i: nat)
      requires Valid()
      modifies this`rels, registry
      ensures Valid() && Evolves(old(registry.agents), old(registry.perms), registry.agents, registry.perms)
      ensures registry.agents == old(registry.agents) && registry.accounts == old(registry.accounts)
      ensures i < |rels| && rels[i] == f
      ensures if i < |old(rels)|
              then rels == old(rels)[i := f] && old(rels)[i].user == f.user && old(rels)[i].trader == f.trader
              else rels == old(rels) + [f] && forall j :: 0 <= j < |old(rels)| ==>
                                                old(rels)[j].user != f.user || old(rels)[j].trader != f.trader
      ensures |registry.perms| == |old(registry.perms)| && forall p :: 0 <= p < |registry.perms| ==>
                registry.perms[p] == WithTrader(old(registry.agents), old(registry.perms)[p], f.user, traderKey, wallet)
    {
      hide LogsSafe;
      i := 0;
      while i < |rels| && !SamePair(rels[i], f)
        invariant i <= |rels|
        invariant forall j :: 0 <= j < i ==> !SamePair(rels[j], f)
      {
        i := i + 1;
      }
      ghost var next := if i < |rels| then rels[i := f] else rels + [f];
      RelsMayChange(next);
      ghost var perms0 := registry.perms;
      if i < |rels| { rels := rels[i := f]; } else { rels := rels + [f]; }
      registry.IncludeTrader(f.user, traderKey, wallet);
      LogsStaySafe(rels, registry.agents, perms0, execs, evals, broadcasts, rels, registry.agents, registry.perms);
    }

    /** update_copy_relationship: f is the row with any of its settings replaced. */
    method UpdateFollow(i: nat, f: Relationship, traderKey: string, wallet: string)
      requires Valid() && i < |rels| && f.user == rels[i].user && f.trader == rels[i].trader
      modifies this`rels, registry
      ensures Valid() && Evolves(old(registry.agents), old(registry.perms), registry.agents, registry.perms)
      ensures registry.agents == old(registry.agents) && registry.accounts == old(registry.accounts)
      ensures rels == old(rels)[i := f]
      ensures |registry.perms| == |old(registry.perms)| && forall p :: 0 <= p < |registry.perms| ==>
                registry.perms[p] ==
                  if f.status == Following
                  then WithTrader(old(registry.agents), old(registry.perms)[p], f.user, traderKey, wallet)
                  else old(registry.perms)[p]
    {
      hide LogsSafe;
      RelsMayChange(rels[i := f]);
      ghost var perms0 := registry.perms;
      rels := rels[i := f];
      if f.status == Following {
        registry.IncludeTrader(f.user, traderKey, wallet);
        LogsStaySafe(rels, registry.agents, perms0, execs, evals, broadcasts, rels, registry.agents, registry.perms);
      }
    }

    /** delete_copy_relationship */
    method StopFollow(i: nat)
      requires Valid() && i < |rels|
      modifies this`rels
      ensures Valid() && rels == old(rels)[i := old(rels)[i].(status := Stopped)]
    {
      hide LogsSafe;
      RelsMayChange(rels[i := rels[i].(status := Stopped)]);
      rels := rels[i := rels[i].(status := Stopped)];
    }
  }

  predicate ManualRefused(perm: Permission, amount: real, outcome: string, daily: real) {
    || amount > perm.caps.maxTrade || daily + amount > perm.caps.maxDaily
    || (perm.outcomes != {} && outcome !in perm.outcomes)
  }

  /** What a manual trade writes. */
  datatype Written = Written(evals: seq<Evaluation>, sends: seq<Broadcast>)

  function ManualWrites(agents: seq<Agent>, perms: seq<Permission>, evals: seq<Evaluation>, user: int, amount: real,
                        outcome: string, found: bool, sig: Signals, order: seq<nat>, now: int): Written
  {
    var h := Holder(agents, perms, user, {RUNNING, AUTHORIZED}, order, now);
    if amount <= 0.0 || h.None? || h.value.1 >= |perms| || !sig.signatureOk || !found then Written([], [])
    else
      var (a, p) := h.value;
      var sent := sig.prepared && sig.broadcast;
      if !sig.riskRest || ManualRefused(perms[p], amount, outcome, AgentVolume(evals, a, Day(now))) then
        Written([Evaluation(a, Skipped, amount, Day(now), None)], [])
      else
        Written([Evaluation(a, if sent && sig.confirmed then Copied else Failed, amount, Day(now), None)],
                if sent then [Broadcast(ByHand, a, amount, Day(now), sig.confirmed)] else [])
  }

  lemma GatesGiveRoom(status: AgentStatus, perm: Permission, r: Relationship, t: SourceTrade, sig: Signals,
                      amount: real, daily: real, now: int)
    requires GatesOk(status, perm, r, t, sig, amount, daily, now)
    ensures amount <= perm.caps.maxTrade && daily + amount <= perm.caps.maxDaily && status == RUNNING
  {
  }

  lemma RowAppended(execs: seq<CopyExecution>, x: CopyExecution)
    ensures HasRow(execs + [x], x.rel, x.trade)
  {
    assert (execs + [x])[|execs|] == x;
  }

  lemma OutcomeSaysLost(a: nat, perm: Permission, rel: Relationship, r: nat, t: SourceTrade, sig: Signals, daily: real,
                        now: int)
    ensures TradeEffects(a, RUNNING, perm, rel, r, t, sig, daily, now).lost
            <==> OutcomeOf(RUNNING, perm, rel, t, sig, daily, now) == Lost
  {
  }

  lemma DetectStarts(s: Service)
    ensures Evolves(s.registry.agents, s.registry.perms, s.registry.agents, s.registry.perms)
    ensures forall now :: Looked(s.registry.agents, s.registry.perms, s.registry.agents, s.registry.perms, now)
    ensures forall t :: OthersUntouched(s.registry.agents, s.registry.agents, s.rels, t, 0)
    ensures s.execs + [] == s.execs && s.evals + [] == s.evals && s.broadcasts + [] == s.broadcasts
  {
  }

  lemma AllActedUnder(accounts: map<int, SmartAccount>, b: Books, t: SourceTrade, signals: nat -> Signals,
                      order: seq<nat>, now: int)
    requires Safe(accounts, b.agents, b.perms)
    ensures forall x :: x in DetectUpTo(b, t, signals, order, now, |b.rels|).rows && x.status == EXECUTED ==>
              && x.rel < |b.rels|
              && exists a: nat, p: nat :: ActedUnder(b.agents, b.perms, b.rels[x.rel], a, p, x.amount, now)
  {
    forall x | x in DetectUpTo(b, t, signals, order, now, |b.rels|).rows && x.status == EXECUTED
      ensures x.rel < |b.rels|
      ensures exists a: nat, p: nat :: ActedUnder(b.agents, b.perms, b.rels[x.rel], a, p, x.amount, now)
    {
      ExecutedUnderGrant(accounts, b, t, signals, order, now, x);
    }
  }

  lemma VolumeUnchanged(evals: seq<Evaluation>, e: Evaluation)
    requires e.decision != Copied
    ensures forall a: nat, d: int :: AgentVolume(evals + [e], a, d) == AgentVolume(evals, a, d)
  {
    forall a: nat, d: int ensures AgentVolume(evals + [e], a, d) == AgentVolume(evals, a, d) {
      SumAppend(evals, e, VolumeOn(a, d));
    }
  }

  lemma UpdateRow(rels: seq<Relationship>, agents: seq<Agent>, perms: seq<Permission>, execs: seq<CopyExecution>,
                  evals: seq<Evaluation>, bs: seq<Broadcast>, k: nat, status: ExecStatus)
    requires LogsSafe(rels, agents, perms, execs, evals, bs)
    requires k < |execs| && execs[k].status in {PENDING, APPROVED} && status in {APPROVED, SKIPPED}
    ensures LogsSafe(rels, agents, perms, execs[k := execs[k].(status := status)], evals, bs)
  {
    var x := execs[k].(status := status);
    var next := execs[k := x];
    assert execs[k] in execs;
    ExecsUpdate(execs, rels, agents, perms, k, x);
    assert LogsAgree(next, evals);
    assert forall y :: y in next ==> y in execs || y == x;
    forall i | 0 <= i < |bs| && ConfirmedCopy(bs[i]) ensures HasRow(next, bs[i].origin.rel, bs[i].origin.trade) {
      var j :| 0 <= j < |execs| && execs[j].rel == bs[i].origin.rel && execs[j].trade == bs[i].origin.trade;
      assert next[j].rel == bs[i].origin.rel && next[j].trade == bs[i].origin.trade;
    }
  }

  /** A waiting copy counts itself in the daily total, so on the day it was created it can be confirmed
      exactly when the other copies of that day plus twice its own size fit the limit. */
  lemma PendingCountsItself(execs: seq<CopyExecution>, k: nat, r: Relationship, limit: real)
    requires k < |execs| && execs[k].status in {PENDING, APPROVED}
    requires r.status == Following && r.maxDaily == Some(limit)
             && (r.maxPerTrade.Some? ==> execs[k].amount <= r.maxPerTrade.value)
    ensures var x := execs[k];
            RiskLimitsOk(r, x.amount, DailyCopyTotal(execs, x.rel, x.day))
            <==> DailyCopyTotal(execs[..k] + execs[k + 1..], x.rel, x.day) + 2.0 * x.amount <= limit
  {
    SumRemove(execs, k, CountedOn(execs[k].rel, execs[k].day));
  }
}
