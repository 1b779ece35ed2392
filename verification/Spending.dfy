/** The copy and evaluation logs, and the caps they obey: per relationship and day on the copy
    path, per agent and day after every manual trade. */
module Spending {
  import opened Wrappers
  import opened Sums
  import opened Authority

  datatype FollowStatus = Following | Paused | Stopped

  datatype Relationship = Relationship(user: int, trader: int, status: FollowStatus, maxPerTrade: Option<real>,
                                       maxDaily: Option<real>, minScore: int, autoExecute: bool)

  datatype ExecStatus = PENDING | APPROVED | EXECUTED | SKIPPED | FAILED

  datatype CopyExecution = CopyExecution(rel: nat, trade: int, amount: real, status: ExecStatus, day: int)

  datatype Decision = Copied | Skipped | Failed

  /** rel is the relationship of the linked copy execution; a manual trade has none. */
  datatype Evaluation = Evaluation(agent: nat, decision: Decision, amount: real, day: int, rel: Option<nat>)

  /** What a transaction was for: a copied trade, or a trade the user placed by hand. */
  datatype Origin = CopyOf(rel: nat, trade: int) | ByHand {
    function Relation(): Option<nat> { if CopyOf? then Some(rel) else None }
  }

  /** A redeemDelegations transaction that an agent sent to the chain. */
  datatype Broadcast = Broadcast(origin: Origin, agent: nat, amount: real, day: int, confirmed: bool)

  function ExecutedOn(r: nat, d: int): CopyExecution -> real {
    (x: CopyExecution) => if x.rel == r && x.day == d && x.status == EXECUTED then x.amount else 0.0
  }

  /** _daily_copy_total also counts rows still waiting for the user. */
  function CountedOn(r: nat, d: int): CopyExecution -> real {
    (x: CopyExecution) =>
      if x.rel == r && x.day == d && x.status in {PENDING, APPROVED, EXECUTED} then x.amount else 0.0
  }

  function DailyCopyTotal(execs: seq<CopyExecution>, r: nat, d: int): real { Sum(execs, CountedOn(r, d)) }

  function ExecutedTotal(execs: seq<CopyExecution>, r: nat, d: int): real { Sum(execs, ExecutedOn(r, d)) }

  function CopiedAmount(a: nat, d: int, e: Evaluation): real {
    if e.agent == a && e.day == d && e.decision == Copied then e.amount else 0.0
  }

  function VolumeOn(a: nat, d: int): Evaluation -> real { (e: Evaluation) => CopiedAmount(a, d, e) }

  /** _daily_agent_volume */
  function AgentVolume(evals: seq<Evaluation>, a: nat, d: int): real { Sum(evals, VolumeOn(a, d)) }

  function SentAmount(a: nat, d: int, b: Broadcast): real { if b.agent == a && b.day == d then b.amount else 0.0 }

  /** Everything an agent sent to the chain on a day, confirmed or not. */
  function SentVolume(bs: seq<Broadcast>, a: nat, d: int): real { Sum(bs, SentOn(a, d)) }

  function SentOn(a: nat, d: int): Broadcast -> real { (b: Broadcast) => SentAmount(a, d, b) }

  /** The part of it that raised before it was confirmed. It may be mined all the same. */
  function UnconfirmedVolume(bs: seq<Broadcast>, a: nat, d: int): real { Sum(bs, UnconfirmedOn(a, d)) }

  function UnconfirmedOn(a: nat, d: int): Broadcast -> real {
    (b: Broadcast) => if b.confirmed then 0.0 else SentAmount(a, d, b)
  }

  function CopiedFor(r: nat, d: int): Evaluation -> real {
    (e: Evaluation) => if e.rel == Some(r) && e.day == d && e.decision == Copied then e.amount else 0.0
  }

  function ManualOn(a: nat, d: int): Evaluation -> real {
    (e: Evaluation) => if e.rel == None then CopiedAmount(a, d, e) else 0.0
  }

  ghost predicate RowsUnique(execs: seq<CopyExecution>) {
    forall i, j :: 0 <= i < j < |execs| ==> execs[i].rel != execs[j].rel || execs[i].trade != execs[j].trade
  }

  ghost predicate AmountsPositive(execs: seq<CopyExecution>) {
    forall x :: x in execs && x.status in {PENDING, APPROVED, EXECUTED} ==> x.amount > 0.0
  }

  /** Row i was executed within the caps of grant p, a grant of the follower: its own size, and the
      relationship's executed total of that day once it was recorded. */
  ghost predicate ExecutedWithin(execs: seq<CopyExecution>, rels: seq<Relationship>, agents: seq<Agent>,
                                 perms: seq<Permission>, i: int, p: int)
  {
    && 0 <= i < |execs| && execs[i].rel < |rels| && 0 <= p < |perms| && perms[p].agent < |agents|
    && agents[perms[p].agent].user == rels[execs[i].rel].user
    && 0.0 < execs[i].amount <= perms[p].caps.maxTrade
    && ExecutedTotal(execs[..i + 1], execs[i].rel, execs[i].day) <= perms[p].caps.maxDaily
  }

  ghost predicate ExecsGranted(execs: seq<CopyExecution>, rels: seq<Relationship>, agents: seq<Agent>,
                               perms: seq<Permission>)
  {
    forall i :: 0 <= i < |execs| && execs[i].status == EXECUTED ==>
      exists p :: ExecutedWithin(execs, rels, agents, perms, i, p)
  }

  /** Evaluation i was made under grant p of its own agent: a copy left its relationship within the daily cap,
      a manual trade left the whole agent within it. */
  ghost predicate CopiedWithin(evals: seq<Evaluation>, perms: seq<Permission>, i: int, p: int) {
    && 0 <= i < |evals| && 0 <= p < |perms| && perms[p].agent == evals[i].agent
    && 0.0 < evals[i].amount <= perms[p].caps.maxTrade
    && match evals[i].rel
       case None => AgentVolume(evals[..i + 1], evals[i].agent, evals[i].day) <= perms[p].caps.maxDaily
       case Some(r) => Sum(evals[..i + 1], CopiedFor(r, evals[i].day)) <= perms[p].caps.maxDaily
  }

  ghost predicate EvalsGranted(evals: seq<Evaluation>, perms: seq<Permission>) {
    forall i :: 0 <= i < |evals| && evals[i].decision == Copied ==> exists p :: CopiedWithin(evals, perms, i, p)
  }

  /** The two logs record the same copied volume. */
  ghost predicate LogsAgree(execs: seq<CopyExecution>, evals: seq<Evaluation>) {
    forall r: nat, d: int :: Sum(evals, CopiedFor(r, d)) == ExecutedTotal(execs, r, d)
  }

  /** The evaluations record what was sent and confirmed, and nothing of what was sent and not confirmed. */
  ghost predicate SendsAgree(evals: seq<Evaluation>, bs: seq<Broadcast>) {
    forall a: nat, d: int :: SentVolume(bs, a, d) == AgentVolume(evals, a, d) + UnconfirmedVolume(bs, a, d)
  }

  /** A transaction, confirmed or not, of a size within a grant of its own agent. */
  ghost predicate SentWithin(b: Broadcast, perms: seq<Permission>) {
    exists p :: 0 <= p < |perms| && perms[p].agent == b.agent && 0.0 < b.amount <= perms[p].caps.maxTrade
  }

  ghost predicate SendsGranted(bs: seq<Broadcast>, perms: seq<Permission>) {
    forall b :: b in bs ==> SentWithin(b, perms)
  }

  /** What each total counts: a new row or evaluation or send enters it only for its own relationship or agent, on its
      own day, and in the right state. */
  lemma WhatTotalsCount(execs: seq<CopyExecution>, evals: seq<Evaluation>, bs: seq<Broadcast>, x: CopyExecution,
                        e: Evaluation, b: Broadcast, r: nat, a: nat, d: int)
    ensures DailyCopyTotal(execs + [x], r, d) == DailyCopyTotal(execs, r, d)
              + if x.rel == r && x.day == d && x.status != SKIPPED && x.status != FAILED then x.amount else 0.0
    ensures ExecutedTotal(execs + [x], r, d) == ExecutedTotal(execs, r, d)
              + if x.rel == r && x.day == d && x.status == EXECUTED then x.amount else 0.0
    ensures AgentVolume(evals + [e], a, d) == AgentVolume(evals, a, d)
              + if e.agent == a && e.day == d && e.decision == Copied then e.amount else 0.0
    ensures SentVolume(bs + [b], a, d) == SentVolume(bs, a, d)
              + if b.agent == a && b.day == d then b.amount else 0.0
    ensures UnconfirmedVolume(bs + [b], a, d) == UnconfirmedVolume(bs, a, d)
              + if b.agent == a && b.day == d && !b.confirmed then b.amount else 0.0
  {
    SumAppend(execs, x, CountedOn(r, d));
    SumAppend(execs, x, ExecutedOn(r, d));
    SumAppend(evals, e, VolumeOn(a, d));
    SumAppend(bs, b, SentOn(a, d));
    SumAppend(bs, b, UnconfirmedOn(a, d));
  }

  lemma ExecutedBelowCounted(execs: seq<CopyExecution>, r: nat, d: int)
    requires AmountsPositive(execs)
    ensures ExecutedTotal(execs, r, d) <= DailyCopyTotal(execs, r, d)
  {
    SumBelow(execs, ExecutedOn(r, d), CountedOn(r, d));
  }

  lemma ExecsAppend(execs: seq<CopyExecution>, rels: seq<Relationship>, agents: seq<Agent>, perms: seq<Permission>,
                    x: CopyExecution, p: int)
    requires ExecsGranted(execs, rels, agents, perms)
    requires x.status == EXECUTED ==>
               && x.rel < |rels| && 0 <= p < |perms| && perms[p].agent < |agents|
               && agents[perms[p].agent].user == rels[x.rel].user
               && 0.0 < x.amount <= perms[p].caps.maxTrade
               && ExecutedTotal(execs, x.rel, x.day) + x.amount <= perms[p].caps.maxDaily
    ensures ExecsGranted(execs + [x], rels, agents, perms)
  {
    var next := execs + [x];
    forall i | 0 <= i < |next| && next[i].status == EXECUTED
      ensures exists q :: ExecutedWithin(next, rels, agents, perms, i, q) {
      if i < |execs| {
        assert next[..i + 1] == execs[..i + 1];
        var q :| ExecutedWithin(execs, rels, agents, perms, i, q);
        assert ExecutedWithin(next, rels, agents, perms, i, q);
      } else {
        assert next[..i + 1] == next;
        SumAppend(execs, x, ExecutedOn(x.rel, x.day));
        assert ExecutedWithin(next, rels, agents, perms, i, p);
      }
    }
  }

  /** Relationships keep their owners. */
  ghost predicate OwnersKept(rels: seq<Relationship>, rels': seq<Relationship>) {
    |rels| <= |rels'| && forall i :: 0 <= i < |rels| ==> rels'[i].user == rels[i].user
  }

  /** Grants keep their agents and caps, agents and relationships their owners, so what was granted stays granted. */
  lemma GrantedForever(execs: seq<CopyExecution>, evals: seq<Evaluation>, rels: seq<Relationship>, agents: seq<Agent>,
                       perms: seq<Permission>, rels': seq<Relationship>, agents': seq<Agent>, perms': seq<Permission>)
    requires ExecsGranted(execs, rels, agents, perms) && EvalsGranted(evals, perms)
    requires Evolves(agents, perms, agents', perms') && OwnersKept(rels, rels')
    ensures ExecsGranted(execs, rels', agents', perms') && EvalsGranted(evals, perms')
  {
    forall i | 0 <= i < |execs| && execs[i].status == EXECUTED
      ensures exists p :: ExecutedWithin(execs, rels', agents', perms', i, p) {
      var p :| ExecutedWithin(execs, rels, agents, perms, i, p);
      assert ExecutedWithin(execs, rels', agents', perms', i, p);
    }
    forall i | 0 <= i < |evals| && evals[i].decision == Copied ensures exists p :: CopiedWithin(evals, perms', i, p) {
      var p :| CopiedWithin(evals, perms, i, p);
      assert CopiedWithin(evals, perms', i, p);
    }
  }

  lemma SendsGrantedForever(bs: seq<Broadcast>, agents: seq<Agent>, perms: seq<Permission>, agents': seq<Agent>,
                            perms': seq<Permission>)
    requires SendsGranted(bs, perms) && Evolves(agents, perms, agents', perms')
    ensures SendsGranted(bs, perms')
  {
    forall b | b in bs ensures SentWithin(b, perms') {
      var p :| 0 <= p < |perms| && perms[p].agent == b.agent && 0.0 < b.amount <= perms[p].caps.maxTrade;
      assert perms'[p].agent == b.agent && perms'[p].caps == perms[p].caps;
    }
  }

  lemma SendsGrow(bs: seq<Broadcast>, perms: seq<Permission>, b: Broadcast, p: int)
    requires SendsGranted(bs, perms)
    requires 0 <= p < |perms| && perms[p].agent == b.agent && 0.0 < b.amount <= perms[p].caps.maxTrade
    ensures SendsGranted(bs + [b], perms)
  {
    assert SentWithin(b, perms);
  }

  /** A confirmed send enters both sides. */
  lemma SendsAppendBoth(evals: seq<Evaluation>, bs: seq<Broadcast>, e: Evaluation, b: Broadcast)
    requires SendsAgree(evals, bs) && e.decision == Copied && b.confirmed
    requires e.agent == b.agent && e.day == b.day && e.amount == b.amount
    ensures SendsAgree(evals + [e], bs + [b])
  {
    forall a: nat, d: int
      ensures SentVolume(bs + [b], a, d) == AgentVolume(evals + [e], a, d) + UnconfirmedVolume(bs + [b], a, d)
    {
      SumAppend(evals, e, VolumeOn(a, d));
      SumAppend(bs, b, SentOn(a, d));
      SumAppend(bs, b, UnconfirmedOn(a, d));
      assert SentVolume(bs, a, d) == AgentVolume(evals, a, d) + UnconfirmedVolume(bs, a, d);
    }
  }

  lemma SendsAppendUnconfirmed(evals: seq<Evaluation>, bs: seq<Broadcast>, b: Broadcast)
    requires SendsAgree(evals, bs) && !b.confirmed
    ensures SendsAgree(evals, bs + [b])
  {
    forall a: nat, d: int
      ensures SentVolume(bs + [b], a, d) == AgentVolume(evals, a, d) + UnconfirmedVolume(bs + [b], a, d)
    {
      SumAppend(bs, b, SentOn(a, d));
      SumAppend(bs, b, UnconfirmedOn(a, d));
      assert SentVolume(bs, a, d) == AgentVolume(evals, a, d) + UnconfirmedVolume(bs, a, d);
    }
  }

  lemma SendsAppendEval(evals: seq<Evaluation>, bs: seq<Broadcast>, e: Evaluation)
    requires SendsAgree(evals, bs) && e.decision != Copied
    ensures SendsAgree(evals + [e], bs)
  {
    forall a: nat, d: int
      ensures SentVolume(bs, a, d) == AgentVolume(evals + [e], a, d) + UnconfirmedVolume(bs, a, d)
    {
      SumAppend(evals, e, VolumeOn(a, d));
      assert SentVolume(bs, a, d) == AgentVolume(evals, a, d) + UnconfirmedVolume(bs, a, d);
    }
  }

  lemma {:induction false} SameSums<T>(s: seq<T>, t: seq<T>, f: T -> real)
    requires |s| == |t| && forall i :: 0 <= i < |s| ==> f(s[i]) == f(t[i])
    ensures Sum(s, f) == Sum(t, f)
  {
    if s != [] { SameSums(s[..|s| - 1], t[..|t| - 1], f); }
  }

  /** Changing a row that neither was nor becomes executed leaves every executed total alone. */
  lemma ExecsUpdate(execs: seq<CopyExecution>, rels: seq<Relationship>, agents: seq<Agent>, perms: seq<Permission>,
                    k: nat, x: CopyExecution)
    requires ExecsGranted(execs, rels, agents, perms) && k < |execs|
    requires execs[k].status != EXECUTED && x.status != EXECUTED
    ensures ExecsGranted(execs[k := x], rels, agents, perms)
    ensures forall r: nat, d: int :: ExecutedTotal(execs[k := x], r, d) == ExecutedTotal(execs, r, d)
  {
    var next := execs[k := x];
    forall i | 0 <= i < |next| && next[i].status == EXECUTED
      ensures exists p :: ExecutedWithin(next, rels, agents, perms, i, p) {
      var p :| ExecutedWithin(execs, rels, agents, perms, i, p);
      SameSums(execs[..i + 1], next[..i + 1], ExecutedOn(next[i].rel, next[i].day));
      assert ExecutedWithin(next, rels, agents, perms, i, p);
    }
    forall r: nat, d: int ensures ExecutedTotal(next, r, d) == ExecutedTotal(execs, r, d) {
      SameSums(execs, next, ExecutedOn(r, d));
    }
  }

  lemma EvalsAppend(evals: seq<Evaluation>, perms: seq<Permission>, e: Evaluation, p: int)
    requires EvalsGranted(evals, perms)
    requires e.decision == Copied ==>
               && 0 <= p < |perms| && perms[p].agent == e.agent && 0.0 < e.amount <= perms[p].caps.maxTrade
               && (match e.rel
                   case None => AgentVolume(evals, e.agent, e.day) + e.amount <= perms[p].caps.maxDaily
                   case Some(r) => Sum(evals, CopiedFor(r, e.day)) + e.amount <= perms[p].caps.maxDaily)
    ensures EvalsGranted(evals + [e], perms)
  {
    var next := evals + [e];
    forall i | 0 <= i < |next| && next[i].decision == Copied ensures exists q :: CopiedWithin(next, perms, i, q) {
      if i < |evals| {
        assert next[..i + 1] == evals[..i + 1];
        var q :| CopiedWithin(evals, perms, i, q);
        assert CopiedWithin(next, perms, i, q);
      } else {
        assert next[..i + 1] == next;
        SumAppend(evals, e, VolumeOn(e.agent, e.day));
        if e.rel.Some? { SumAppend(evals, e, CopiedFor(e.rel.value, e.day)); }
        assert CopiedWithin(next, perms, i, p);
      }
    }
  }

  lemma LogsAppendBoth(execs: seq<CopyExecution>, evals: seq<Evaluation>, x: CopyExecution, e: Evaluation)
    requires LogsAgree(execs, evals)
    requires x.status == EXECUTED && e.decision == Copied && e.rel == Some(x.rel) && e.day == x.day
             && e.amount == x.amount
    ensures LogsAgree(execs + [x], evals + [e])
  {
    forall r: nat, d: int ensures Sum(evals + [e], CopiedFor(r, d)) == ExecutedTotal(execs + [x], r, d) {
      SumAppend(evals, e, CopiedFor(r, d));
      SumAppend(execs, x, ExecutedOn(r, d));
      assert Sum(evals, CopiedFor(r, d)) == ExecutedTotal(execs, r, d);
    }
  }

  lemma LogsAppendExec(execs: seq<CopyExecution>, evals: seq<Evaluation>, x: CopyExecution)
    requires LogsAgree(execs, evals) && x.status != EXECUTED
    ensures LogsAgree(execs + [x], evals)
  {
    forall r: nat, d: int ensures Sum(evals, CopiedFor(r, d)) == ExecutedTotal(execs + [x], r, d) {
      SumAppend(execs, x, ExecutedOn(r, d));
      assert Sum(evals, CopiedFor(r, d)) == ExecutedTotal(execs, r, d);
    }
  }

  lemma LogsAppendEval(execs: seq<CopyExecution>, evals: seq<Evaluation>, e: Evaluation)
    requires LogsAgree(execs, evals) && (e.decision != Copied || e.rel == None)
    ensures LogsAgree(execs, evals + [e])
  {
    forall r: nat, d: int ensures Sum(evals + [e], CopiedFor(r, d)) == ExecutedTotal(execs, r, d) {
      SumAppend(evals, e, CopiedFor(r, d));
      assert Sum(evals, CopiedFor(r, d)) == ExecutedTotal(execs, r, d);
    }
  }

  /** A relationship's executed total stays within the daily caps of its follower's grants. */
  lemma {:induction false} RelationshipDailyCap(execs: seq<CopyExecution>, rels: seq<Relationship>, agents: seq<Agent>,
                                                perms: seq<Permission>, r: nat, d: int, daily: real)
    requires ExecsGranted(execs, rels, agents, perms) && daily >= 0.0 && r < |rels|
    requires forall p :: 0 <= p < |perms| && perms[p].agent < |agents| && agents[perms[p].agent].user == rels[r].user
               ==> perms[p].caps.maxDaily <= daily
    ensures ExecutedTotal(execs, r, d) <= daily
  {
    if execs != [] {
      var n := |execs| - 1;
      if execs[n].rel == r && execs[n].day == d && execs[n].status == EXECUTED {
        var p :| ExecutedWithin(execs, rels, agents, perms, n, p);
        assert execs[..n + 1] == execs;
      } else {
        ExecsPrefix(execs, rels, agents, perms, n);
        RelationshipDailyCap(execs[..n], rels, agents, perms, r, d, daily);
      }
    }
  }

  lemma ExecsPrefix(execs: seq<CopyExecution>, rels: seq<Relationship>, agents: seq<Agent>, perms: seq<Permission>,
                    n: nat)
    requires ExecsGranted(execs, rels, agents, perms) && n <= |execs|
    ensures ExecsGranted(execs[..n], rels, agents, perms)
  {
    forall i | 0 <= i < n && execs[i].status == EXECUTED
      ensures exists p :: ExecutedWithin(execs[..n], rels, agents, perms, i, p) {
      var p :| ExecutedWithin(execs, rels, agents, perms, i, p);
      assert execs[..n][..i + 1] == execs[..i + 1];
      assert ExecutedWithin(execs[..n], rels, agents, perms, i, p);
    }
  }

  lemma EvalsPrefix(evals: seq<Evaluation>, perms: seq<Permission>, n: nat)
    requires EvalsGranted(evals, perms) && n <= |evals|
    ensures EvalsGranted(evals[..n], perms)
  {
    forall i | 0 <= i < n && evals[i].decision == Copied ensures exists p :: CopiedWithin(evals[..n], perms, i, p) {
      var p :| CopiedWithin(evals, perms, i, p);
      assert evals[..n][..i + 1] == evals[..i + 1];
      assert CopiedWithin(evals[..n], perms, i, p);
    }
  }

  lemma CopiedPositive(evals: seq<Evaluation>, perms: seq<Permission>)
    requires EvalsGranted(evals, perms)
    ensures forall e :: e in evals && e.decision == Copied ==> e.amount > 0.0
  {
    forall e | e in evals && e.decision == Copied ensures e.amount > 0.0 {
      var i :| 0 <= i < |evals| && evals[i] == e;
      var p :| CopiedWithin(evals, perms, i, p);
    }
  }

  /** Every grant ever signed for the agent has a daily maximum of at most `daily`. */
  ghost predicate MaximaWithin(perms: seq<Permission>, a: nat, daily: real) {
    forall p :: 0 <= p < |perms| && perms[p].agent == a ==> perms[p].caps.maxDaily <= daily
  }

  /** The manual part of an agent's day stays within the cap: the last manual trade saw all of it. */
  lemma {:induction false} ManualDailyCap(evals: seq<Evaluation>, perms: seq<Permission>, a: nat, d: int, daily: real)
    requires EvalsGranted(evals, perms) && daily >= 0.0 && MaximaWithin(perms, a, daily)
    ensures Sum(evals, ManualOn(a, d)) <= daily
  {
    if evals != [] {
      var n := |evals| - 1;
      var e := evals[n];
      if e.agent == a && e.day == d && e.decision == Copied && e.rel == None {
        var p :| CopiedWithin(evals, perms, n, p);
        assert evals[..n + 1] == evals;
        CopiedPositive(evals, perms);
        SumBelow(evals, ManualOn(a, d), VolumeOn(a, d));
      } else {
        assert ManualOn(a, d)(e) == 0.0;
        EvalsPrefix(evals, perms, n);
        ManualDailyCap(evals[..n], perms, a, d, daily);
      }
    }
  }

  function CopiedBy(a: nat, d: int, r: nat): Evaluation -> real {
    (e: Evaluation) => if e.rel == Some(r) then CopiedAmount(a, d, e) else 0.0
  }

  /** What an agent copies of one relationship in a day stays within the cap of the agent's own grants. */
  lemma {:induction false} CopiedDailyCap(evals: seq<Evaluation>, perms: seq<Permission>, a: nat, d: int, r: nat,
                                          daily: real)
    requires EvalsGranted(evals, perms) && daily >= 0.0 && MaximaWithin(perms, a, daily)
    ensures Sum(evals, CopiedBy(a, d, r)) <= daily
  {
    if evals != [] {
      var n := |evals| - 1;
      var e := evals[n];
      if e.agent == a && e.day == d && e.decision == Copied && e.rel == Some(r) {
        var p :| CopiedWithin(evals, perms, n, p);
        assert evals[..n + 1] == evals;
        CopiedPositive(evals, perms);
        SumBelow(evals, CopiedBy(a, d, r), CopiedFor(r, d));
      } else {
        assert CopiedBy(a, d, r)(e) == 0.0;
        EvalsPrefix(evals, perms, n);
        CopiedDailyCap(evals[..n], perms, a, d, r, daily);
      }
    }
  }

  function CopiedByFor(a: nat, d: int, rels: set<nat>): Evaluation -> real {
    (e: Evaluation) => if e.rel.Some? && e.rel.value in rels then CopiedAmount(a, d, e) else 0.0
  }

  /** Copied volume over a set of relationships, one relationship at a time. */
  lemma {:induction false} CopiedVolumeBound(evals: seq<Evaluation>, perms: seq<Permission>, a: nat, d: int,
                                             rels: set<nat>, daily: real)
    requires EvalsGranted(evals, perms) && daily >= 0.0 && MaximaWithin(perms, a, daily)
    ensures Sum(evals, CopiedByFor(a, d, rels)) <= Times(|rels|, daily)
  {
    if rels == {} {
      NothingCopied(evals, a, d);
    } else {
      var r :| r in rels;
      var rest := rels - {r};
      CopiedVolumeBound(evals, perms, a, d, rest, daily);
      CopiedDailyCap(evals, perms, a, d, r, daily);
      OneRelMore(evals, perms, a, d, rest, r);
      assert rest + {r} == rels && |rels| == |rest| + 1;
    }
  }

  /** n daily caps. */
  function Times(n: nat, daily: real): real { if n == 0 then 0.0 else Times(n - 1, daily) + daily }

  lemma {:induction false} TimesIsProduct(n: nat, daily: real)
    ensures Times(n, daily) == n as real * daily
  {
    if n > 0 { TimesIsProduct(n - 1, daily); }
  }

  lemma OneRelMore(evals: seq<Evaluation>, perms: seq<Permission>, a: nat, d: int, rest: set<nat>, r: nat)
    requires EvalsGranted(evals, perms)
    ensures Sum(evals, CopiedByFor(a, d, rest + {r}))
            <= Sum(evals, CopiedByFor(a, d, rest)) + Sum(evals, CopiedBy(a, d, r))
  {
    CopiedPositive(evals, perms);
    SumBelowPair(evals, CopiedByFor(a, d, rest + {r}), CopiedByFor(a, d, rest), CopiedBy(a, d, r));
  }

  lemma {:induction false} NothingCopied(evals: seq<Evaluation>, a: nat, d: int)
    ensures Sum(evals, CopiedByFor(a, d, {})) == 0.0
  {
    if evals != [] { NothingCopied(evals[..|evals| - 1], a, d); }
  }

  lemma {:induction false} SumBelowPair<T>(s: seq<T>, f: T -> real, g: T -> real, h: T -> real)
    requires forall x :: x in s ==> f(x) <= g(x) + h(x)
    ensures Sum(s, f) <= Sum(s, g) + Sum(s, h)
  {
    if s != [] {
      assert s[|s| - 1] in s;
      SumBelowPair(s[..|s| - 1], f, g, h);
    }
  }

  ghost predicate CopiedOn(e: Evaluation, a: nat, d: int) { e.agent == a && e.day == d && e.decision == Copied }

  /** The relationships an agent copied on a day. */
  ghost function CopiedRels(evals: seq<Evaluation>, a: nat, d: int): set<nat> {
    set e | e in evals && CopiedOn(e, a, d) && e.rel.Some? :: e.rel.value
  }

  ghost predicate TradedByHand(evals: seq<Evaluation>, a: nat, d: int) {
    exists e :: e in evals && CopiedOn(e, a, d) && e.rel == None
  }

  /** How many separate daily maxima an agent drew on: one for each relationship it copied, one for manual trades. */
  ghost function Maxima(evals: seq<Evaluation>, a: nat, d: int): nat {
    |CopiedRels(evals, a, d)| + if TradedByHand(evals, a, d) then 1 else 0
  }

  /** Main result: an agent records at most one signed daily maximum for each relationship it copies on a day, and
      one more if it also trades by hand. */
  lemma AgentDailyBound(evals: seq<Evaluation>, perms: seq<Permission>, a: nat, d: int, daily: real)
    requires EvalsGranted(evals, perms) && daily >= 0.0 && MaximaWithin(perms, a, daily)
    ensures AgentVolume(evals, a, d) <= Maxima(evals, a, d) as real * daily
  {
    hide AgentVolume, CopiedRels, TradedByHand, EvalsGranted, MaximaWithin, Times, Sum;
    var rels := CopiedRels(evals, a, d);
    if TradedByHand(evals, a, d) {
      ManualDailyCap(evals, perms, a, d, daily);
    } else {
      NothingByHand(evals, a, d);
    }
    CopiedVolumeBound(evals, perms, a, d, rels, daily);
    VolumeSplits(evals, a, d);
    OneMoreTimes(AgentVolume(evals, a, d), Sum(evals, ManualOn(a, d)), |rels|, TradedByHand(evals, a, d), daily);
  }

  lemma OneMoreTimes(volume: real, hand: real, n: nat, byHand: bool, daily: real)
    requires volume <= hand + Times(n, daily) && hand <= if byHand then daily else 0.0
    ensures volume <= (n + if byHand then 1 else 0) as real * daily
  {
    TimesIsProduct(n + if byHand then 1 else 0, daily);
  }

  lemma {:induction false} NothingByHand(evals: seq<Evaluation>, a: nat, d: int)
    requires !TradedByHand(evals, a, d)
    ensures Sum(evals, ManualOn(a, d)) == 0.0
  {
    if evals != [] {
      var n := |evals| - 1;
      assert evals[n] in evals && forall e :: e in evals[..n] ==> e in evals;
      NothingByHand(evals[..n], a, d);
    }
  }

  lemma VolumeSplits(evals: seq<Evaluation>, a: nat, d: int)
    ensures AgentVolume(evals, a, d)
            <= Sum(evals, ManualOn(a, d)) + Sum(evals, CopiedByFor(a, d, CopiedRels(evals, a, d)))
  {
    SumBelowPair(evals, VolumeOn(a, d), ManualOn(a, d), CopiedByFor(a, d, CopiedRels(evals, a, d)));
  }

  /** Every transaction the agent sent that day was confirmed. */
  ghost predicate AllConfirmed(bs: seq<Broadcast>, a: nat, d: int) {
    forall b :: b in bs && b.agent == a && b.day == d ==> b.confirmed
  }

  /** Main result on what reaches the chain: the maxima of the day plus whatever was sent and not confirmed, so on a
      day without an unconfirmed send the bound holds of everything sent. */
  lemma SentDailyBound(evals: seq<Evaluation>, bs: seq<Broadcast>, perms: seq<Permission>, a: nat, d: int, daily: real)
    requires SendsAgree(evals, bs) && EvalsGranted(evals, perms) && daily >= 0.0 && MaximaWithin(perms, a, daily)
    ensures SentVolume(bs, a, d) <= Maxima(evals, a, d) as real * daily + UnconfirmedVolume(bs, a, d)
    ensures AllConfirmed(bs, a, d) ==> SentVolume(bs, a, d) <= Maxima(evals, a, d) as real * daily
  {
    hide AgentVolume, Maxima, EvalsGranted, MaximaWithin, SentVolume;
    AgentDailyBound(evals, perms, a, d, daily);
    if AllConfirmed(bs, a, d) { NothingUnconfirmed(bs, a, d); }
  }

  lemma {:induction false} NothingUnconfirmed(bs: seq<Broadcast>, a: nat, d: int)
    requires AllConfirmed(bs, a, d)
    ensures UnconfirmedVolume(bs, a, d) == 0.0
  {
    if bs != [] {
      var n := |bs| - 1;
      assert bs[n] in bs && forall b :: b in bs[..n] ==> b in bs;
      NothingUnconfirmed(bs[..n], a, d);
    }
  }

  /** A copy leaves the agent within its daily maximum if and only if the agent's whole day had room for it before:
      the test manual trades pass and copies do not. */
  lemma CopyKeepsMaximumIff(evals: seq<Evaluation>, e: Evaluation, caps: Caps)
    requires e.decision == Copied
    ensures AgentVolume(evals + [e], e.agent, e.day) <= caps.maxDaily
            <==> AgentVolume(evals, e.agent, e.day) + e.amount <= caps.maxDaily
  {
    SumAppend(evals, e, VolumeOn(e.agent, e.day));
  }
}
