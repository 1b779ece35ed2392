/** Whole runs of the authority and spending protocol, and the two ways it promises less than it seems to: the daily
    maximum counts per source, and it counts no transaction that was sent and not confirmed. */
module Runs {
  import opened Wrappers
  import opened Sums
  import opened Authority
  import opened Spending
  import opened CopyService

  /** One request, with the results of everything outside the database. */
  datatype Step =
    | OpenAccount(account: int, user: int)
    | Fund(account: int, deposit: Option<real>)
    | IssueGrant(account: int, grant: Grant, sessionOk: bool, delegationOk: bool, activate: bool)
    | RevokeAgent(user: int, agent: Option<nat>)
    | SetStatus(user: int, status: AgentStatus, agent: Option<nat>)
    | Follow(follow: Relationship, traderKey: string, wallet: string)
    | Update(relationship: nat, follow: Relationship, traderKey: string, wallet: string)
    | Unfollow(relationship: nat)
    | Detect(trade: SourceTrade, signals: nat -> Signals)
    | Skip(row: nat, user: int)
    | Prepare(row: nat, user: int, riskRest: bool, prepared: bool)
    | Manual(user: int, amount: real, outcome: string, found: bool, sig: Signals)
    | Claim(user: int)

  function Existing(order: seq<nat>, n: nat): seq<nat> { Filter(order, (a: nat) => a < n) }

  lemma ExistingBelow(order: seq<nat>, n: nat)
    ensures forall k :: 0 <= k < |Existing(order, n)| ==> Existing(order, n)[k] < n
  {
    FilterMembers(order, (a: nat) => a < n);
    assert forall k :: 0 <= k < |Existing(order, n)| ==> Existing(order, n)[k] in Existing(order, n);
  }

  /** The copy tables are as they were. */
  twostate predicate CopiesKept(s: Service)
    reads s
  {
    s.rels == old(s.rels) && s.execs == old(s.execs) && s.evals == old(s.evals) && s.broadcasts == old(s.broadcasts)
  }

  /** One request: what every request keeps, and what opening an account, signing a grant, following, trading
      by hand and detecting a trade do. */
  method Perform(s: Service, step: Step, order: seq<nat>, now: int)
    requires s.Valid()
    modifies s, s.registry
    ensures s.Valid()
    ensures Evolves(old(s.registry.agents), old(s.registry.perms), s.registry.agents, s.registry.perms)
    ensures RowsEvolve(old(s.execs), s.execs)
    ensures old(s.broadcasts) <= s.broadcasts
    ensures step.OpenAccount? ==>
              && CopiesKept(s) && s.registry.agents == old(s.registry.agents)
              && s.registry.perms == old(s.registry.perms)
              && s.registry.accounts == if step.account in old(s.registry.accounts) then old(s.registry.accounts)
                                        else old(s.registry.accounts)[step.account := SmartAccount(step.user, false)]
    ensures step.IssueGrant? ==>
              && CopiesKept(s) && s.registry.accounts == old(s.registry.accounts)
              && (step.account in s.registry.accounts && step.sessionOk && step.delegationOk ==>
                    exists a: nat ::
                      Issued(old(s.registry.agents), old(s.registry.perms), s.registry.agents, s.registry.perms,
                             step.account, s.registry.accounts, step.grant, step.activate, now, a))
              && (!(step.account in s.registry.accounts && step.sessionOk && step.delegationOk) ==>
                    s.registry.agents == old(s.registry.agents) && s.registry.perms == old(s.registry.perms))
    ensures step.Follow? || step.Manual? || step.Detect? ==> s.registry.accounts == old(s.registry.accounts)
    ensures step.Follow? ==>
              && s.execs == old(s.execs) && s.evals == old(s.evals) && s.broadcasts == old(s.broadcasts)
              && s.registry.agents == old(s.registry.agents) && |s.registry.perms| == |old(s.registry.perms)|
              && (forall q :: 0 <= q < |s.registry.perms| ==>
                    s.registry.perms[q] == WithTrader(old(s.registry.agents), old(s.registry.perms)[q],
                                                      step.follow.user, step.traderKey, step.wallet))
              && ((forall r :: 0 <= r < |old(s.rels)| ==> old(s.rels)[r].user != step.follow.user
                                                          || old(s.rels)[r].trader != step.follow.trader) ==>
                    s.rels == old(s.rels) + [step.follow])
              && forall r :: (0 <= r < |old(s.rels)| && old(s.rels)[r].user == step.follow.user
                              && old(s.rels)[r].trader == step.follow.trader) ==>
                   s.rels == old(s.rels)[r := step.follow]
    ensures step.Manual? ==>
              && s.rels == old(s.rels) && s.execs == old(s.execs)
              && Looked(old(s.registry.agents), old(s.registry.perms), s.registry.agents, s.registry.perms, now)
              && var known := Existing(order, |old(s.registry.agents)|);
                 var w := ManualWrites(old(s.registry.agents), old(s.registry.perms), old(s.evals), step.user,
                                       step.amount, step.outcome, step.found, step.sig, known, now);
                 s.evals == old(s.evals) + w.evals && s.broadcasts == old(s.broadcasts) + w.sends
    ensures step.Detect? ==>
              && Looked(old(s.registry.agents), old(s.registry.perms), s.registry.agents, s.registry.perms, now)
              && var d := DetectUpTo(old(s.Tables()), step.trade, step.signals,
                                     Existing(order, |old(s.registry.agents)|), now, |old(s.rels)|);
                 s.rels == d.rels && s.execs == old(s.execs) + d.rows && s.evals == old(s.evals) + d.evals
                 && s.broadcasts == old(s.broadcasts) + d.sends
  {
    hide LogsSafe, Safe, Looked, ManualWrites, Issued, WithTrader, Evolves, DetectUpTo;
    var rows := Existing(order, |s.registry.agents|);
    ExistingBelow(order, |s.registry.agents|);
    AccountStep(s);
    match step {
      case OpenAccount(account, user) => s.registry.CreateAccount(account, user);
      case Fund(account, deposit) => PerformFund(s, account, deposit);
      case IssueGrant(account, grant, sessionOk, delegationOk, activate) => PerformGrant(s, step, now);
      case RevokeAgent(user, agent) => PerformRevoke(s, user, agent, rows);
      case SetStatus(user, status, agent) => PerformStatus(s, user, status, agent, rows);
      case Follow(follow, traderKey, wallet) => var _ := s.UpsertFollow(follow, traderKey, wallet);
      case Update(i, follow, traderKey, wallet) =>
        if i < |s.rels| {
          s.UpdateFollow(i, follow.(user := s.rels[i].user, trader := s.rels[i].trader), traderKey, wallet);
        }
      case Unfollow(i) => if i < |s.rels| { s.StopFollow(i); }
      case Detect(trade, signals) => PerformDetect(s, trade, signals, rows, now);
      case Skip(row, user) => var _ := s.SkipCopyExecution(row, user);
      case Prepare(row, user, riskRest, prepared) => var _ := s.PrepareCopyTrade(row, user, riskRest, prepared, now);
      case Manual(user, amount, outcome, found, sig) =>
        var _ := s.ExecuteAgentManualTrade(user, amount, outcome, found, sig, rows, now);
      case Claim(user) => PerformClaim(s, user, rows, now);
    }
  }

  lemma AccountStep(s: Service)
    ensures Evolves(s.registry.agents, s.registry.perms, s.registry.agents, s.registry.perms)
  {
  }

  /** The copy tables stay safe when the registry takes a step. */
  twostate lemma RegistryStep(s: Service)
    requires old(s.Valid()) && s.registry.Valid() && CopiesKept(s)
    requires Evolves(old(s.registry.agents), old(s.registry.perms), s.registry.agents, s.registry.perms)
    ensures s.Valid()
  {
    LogsStaySafe(s.rels, old(s.registry.agents), old(s.registry.perms), s.execs, s.evals, s.broadcasts,
                 s.rels, s.registry.agents, s.registry.perms);
  }

  method PerformFund(s: Service, account: int, deposit: Option<real>)
    requires s.Valid()
    modifies s.registry
    ensures s.Valid() && Evolves(old(s.registry.agents), old(s.registry.perms), s.registry.agents, s.registry.perms)
  {
    AccountStep(s);
    if account in s.registry.accounts { s.registry.MarkFunded(account, deposit); }
    RegistryStep(s);
  }

  method PerformGrant(s: Service, step: Step, now: int)
    requires s.Valid() && step.IssueGrant?
    modifies s.registry
    ensures s.Valid() && Evolves(old(s.registry.agents), old(s.registry.perms), s.registry.agents, s.registry.perms)
    ensures s.registry.accounts == old(s.registry.accounts)
    ensures step.account in s.registry.accounts && step.sessionOk && step.delegationOk ==>
              exists a: nat ::
                Issued(old(s.registry.agents), old(s.registry.perms), s.registry.agents, s.registry.perms,
                       step.account, s.registry.accounts, step.grant, step.activate, now, a)
    ensures !(step.account in s.registry.accounts && step.sessionOk && step.delegationOk) ==>
              s.registry.agents == old(s.registry.agents) && s.registry.perms == old(s.registry.perms)
  {
    var _ := s.registry.GrantAgent(step.account, step.grant, step.sessionOk, step.delegationOk, step.activate, now);
    RegistryStep(s);
  }

  method PerformRevoke(s: Service, user: int, agent: Option<nat>, order: seq<nat>)
    requires s.Valid() && forall k :: 0 <= k < |order| ==> order[k] < |s.registry.agents|
    modifies s.registry
    ensures s.Valid() && Evolves(old(s.registry.agents), old(s.registry.perms), s.registry.agents, s.registry.perms)
  {
    var _ := s.registry.RevokeAgent(user, agent, order);
    RegistryStep(s);
  }

  method PerformStatus(s: Service, user: int, status: AgentStatus, agent: Option<nat>, order: seq<nat>)
    requires s.Valid() && forall k :: 0 <= k < |order| ==> order[k] < |s.registry.agents|
    modifies s.registry
    ensures s.Valid() && Evolves(old(s.registry.agents), old(s.registry.perms), s.registry.agents, s.registry.perms)
  {
    var _ := s.registry.SetAgentStatus(user, status, agent, order);
    RegistryStep(s);
  }

  method PerformClaim(s: Service, user: int, order: seq<nat>, now: int)
    requires s.Valid() && forall k :: 0 <= k < |order| ==> order[k] < |s.registry.agents|
    modifies s.registry
    ensures s.Valid() && Evolves(old(s.registry.agents), old(s.registry.perms), s.registry.agents, s.registry.perms)
  {
    var _ := s.registry.GetSessionKeyAgent(user, order, now);
    RegistryStep(s);
  }

  method PerformDetect(s: Service, t: SourceTrade, signals: nat -> Signals, order: seq<nat>, now: int)
    requires s.Valid() && forall k :: 0 <= k < |order| ==> order[k] < |s.registry.agents|
    modifies s, s.registry
    ensures s.Valid()
    ensures Evolves(old(s.registry.agents), old(s.registry.perms), s.registry.agents, s.registry.perms)
    ensures Looked(old(s.registry.agents), old(s.registry.perms), s.registry.agents, s.registry.perms, now)
    ensures RowsEvolve(old(s.execs), s.execs) && old(s.broadcasts) <= s.broadcasts
    ensures s.registry.accounts == old(s.registry.accounts)
    ensures var d := DetectUpTo(old(s.Tables()), t, signals, order, now, |old(s.rels)|);
            s.rels == d.rels && s.execs == old(s.execs) + d.rows && s.evals == old(s.evals) + d.evals
            && s.broadcasts == old(s.broadcasts) + d.sends
  {
    hide LogsSafe, Safe, Looked, DetectUpTo;
    var _ := s.DetectAndProcessCopy(t, signals, order, now);
    assert forall i :: 0 <= i < |old(s.execs)| ==> s.execs[i] == old(s.execs)[i];
  }

  lemma RowsEvolveTransitive(a: seq<CopyExecution>, b: seq<CopyExecution>, c: seq<CopyExecution>)
    requires RowsEvolve(a, b) && RowsEvolve(b, c)
    ensures RowsEvolve(a, c)
  {
  }

  /** Every run from the empty database, of any length and in any order: authority stays safe, a pair has one
      row, every executed copy, every manual trade and every transaction sent was within a stored grant, and an agent
      records in a day at most one signed daily maximum for each relationship it copies plus one if it also trades
      by hand. With one such source only, the signed maximum is a cap on what the agent records. What it sends is
      exactly what it records plus what was not confirmed, so the bound holds of everything sent on a day without an
      unconfirmed send. */
  method Run(steps: seq<(Step, seq<nat>, int)>) returns (s: Service)
    ensures s.Valid()
    ensures Safe(s.registry.accounts, s.registry.agents, s.registry.perms) && RowsUnique(s.execs)
    ensures ExecsGranted(s.execs, s.rels, s.registry.agents, s.registry.perms)
            && EvalsGranted(s.evals, s.registry.perms)
    ensures forall a: nat, d: int, daily: real ::
              daily >= 0.0 && MaximaWithin(s.registry.perms, a, daily)
              ==> AgentVolume(s.evals, a, d) <= Maxima(s.evals, a, d) as real * daily
                  && (Maxima(s.evals, a, d) <= 1 ==> AgentVolume(s.evals, a, d) <= daily)
    ensures forall r: nat, d: int, daily: real ::
              r < |s.rels| && daily >= 0.0
              && OwnersMaximaWithin(s.registry.agents, s.registry.perms, s.rels[r].user, daily)
              ==> ExecutedTotal(s.execs, r, d) <= daily
    ensures SendsGranted(s.broadcasts, s.registry.perms)
    ensures forall a: nat, d: int ::
              SentVolume(s.broadcasts, a, d) == AgentVolume(s.evals, a, d) + UnconfirmedVolume(s.broadcasts, a, d)
    ensures forall a: nat, d: int, daily: real ::
              daily >= 0.0 && MaximaWithin(s.registry.perms, a, daily) && AllConfirmed(s.broadcasts, a, d)
              ==> SentVolume(s.broadcasts, a, d) <= Maxima(s.evals, a, d) as real * daily
  {
    hide AgentVolume, Maxima, ExecutedTotal, MaximaWithin, OwnersMaximaWithin, ExecsGranted, EvalsGranted, Safe,
      SendsGranted, SentVolume, UnconfirmedVolume, AllConfirmed;
    s := new Service();
    for i := 0 to |steps|
      invariant s.Valid() && fresh(s) && fresh(s.registry)
    {
      Perform(s, steps[i].0, steps[i].1, steps[i].2);
    }
    CapsHold(s.execs, s.rels, s.registry.agents, s.registry.perms, s.evals);
    SentCapsHold(s.registry.perms, s.evals, s.broadcasts);
  }

  lemma SentCapsHold(perms: seq<Permission>, evals: seq<Evaluation>, bs: seq<Broadcast>)
    requires EvalsGranted(evals, perms) && SendsAgree(evals, bs)
    ensures forall a: nat, d: int, daily: real ::
              daily >= 0.0 && MaximaWithin(perms, a, daily) && AllConfirmed(bs, a, d)
              ==> SentVolume(bs, a, d) <= Maxima(evals, a, d) as real * daily
  {
    hide AgentVolume, Maxima, MaximaWithin, EvalsGranted, SendsAgree, SentVolume, UnconfirmedVolume, AllConfirmed;
    forall a: nat, d: int, daily: real | daily >= 0.0 && MaximaWithin(perms, a, daily) && AllConfirmed(bs, a, d)
      ensures SentVolume(bs, a, d) <= Maxima(evals, a, d) as real * daily
    {
      SentDailyBound(evals, bs, perms, a, d, daily);
    }
  }

  lemma CapsHold(execs: seq<CopyExecution>, rels: seq<Relationship>, agents: seq<Agent>, perms: seq<Permission>,
                 evals: seq<Evaluation>)
    requires ExecsGranted(execs, rels, agents, perms) && EvalsGranted(evals, perms)
    ensures forall a: nat, d: int, daily: real ::
              daily >= 0.0 && MaximaWithin(perms, a, daily)
              ==> AgentVolume(evals, a, d) <= Maxima(evals, a, d) as real * daily
                  && (Maxima(evals, a, d) <= 1 ==> AgentVolume(evals, a, d) <= daily)
    ensures forall r: nat, d: int, daily: real ::
              r < |rels| && daily >= 0.0 && OwnersMaximaWithin(agents, perms, rels[r].user, daily)
              ==> ExecutedTotal(execs, r, d) <= daily
  {
    hide AgentVolume, Maxima, ExecutedTotal, MaximaWithin, ExecsGranted, EvalsGranted;
    forall a: nat, d: int, daily: real | daily >= 0.0 && MaximaWithin(perms, a, daily)
      ensures AgentVolume(evals, a, d) <= Maxima(evals, a, d) as real * daily
      ensures Maxima(evals, a, d) <= 1 ==> AgentVolume(evals, a, d) <= daily
    {
      AgentDailyBound(evals, perms, a, d, daily);
      if Maxima(evals, a, d) <= 1 { AtMostOne(Maxima(evals, a, d), daily); }
    }
    forall r: nat, d: int, daily: real
      | r < |rels| && daily >= 0.0 && OwnersMaximaWithin(agents, perms, rels[r].user, daily)
      ensures ExecutedTotal(execs, r, d) <= daily
    {
      RelationshipDailyCap(execs, rels, agents, perms, r, d, daily);
    }
  }

  /** Every grant of every agent of the user has a daily maximum of at most `daily`. */
  ghost predicate OwnersMaximaWithin(agents: seq<Agent>, perms: seq<Permission>, user: int, daily: real) {
    forall p :: 0 <= p < |perms| && perms[p].agent < |agents| && agents[perms[p].agent].user == user ==>
      perms[p].caps.maxDaily <= daily
  }

  lemma AtMostOne(n: nat, daily: real)
    requires n <= 1 && daily >= 0.0
    ensures n as real * daily <= daily
  {
  }

  /** Continuing a run from any valid state keeps everything that came before. */
  method Continue(s: Service, steps: seq<(Step, seq<nat>, int)>)
    requires s.Valid()
    modifies s, s.registry
    ensures s.Valid()
    ensures Evolves(old(s.registry.agents), old(s.registry.perms), s.registry.agents, s.registry.perms)
    ensures RowsEvolve(old(s.execs), s.execs)
    ensures old(s.broadcasts) <= s.broadcasts
  {
    for i := 0 to |steps|
      invariant s.Valid()
      invariant Evolves(old(s.registry.agents), old(s.registry.perms), s.registry.agents, s.registry.perms)
      invariant RowsEvolve(old(s.execs), s.execs)
      invariant old(s.broadcasts) <= s.broadcasts
    {
      ghost var agents, perms, rows := s.registry.agents, s.registry.perms, s.execs;
      Perform(s, steps[i].0, steps[i].1, steps[i].2);
      EvolvesTransitive(old(s.registry.agents), old(s.registry.perms), agents, perms, s.registry.agents,
                        s.registry.perms);
      RowsEvolveTransitive(old(s.execs), rows, s.execs);
    }
  }

  const GOOD := Signals(false, 100, true, true, true, true, true)
  const UNCONFIRMED := Signals(false, 100, true, true, true, true, false)

  const MAXIMUM := 10.0

  /** A grant of 10 per trade and 10 per day, signed on day 0 for thirty days. */
  const SIGNED := Grant(Caps(MAXIMUM, MAXIMUM), 30, 75, [], {})
  const STORED := Permission(0, Caps(MAXIMUM, MAXIMUM), 75, [], {}, 30 * SECONDS_PER_DAY, Active)
  const RUNNER := Agent(1, 7, RUNNING, 0.0)

  function FollowOf(trader: int): Relationship {
    Relationship(1, trader, Following, Some(MAXIMUM), Some(50.0), 70, true)
  }

  /** Followed by user 1 with the grant's size, for the agent to copy. */
  predicate CopiedInFull(rel: Relationship, trader: int) {
    && rel.user == 1 && rel.trader == trader && rel.status == Following && rel.maxPerTrade == Some(MAXIMUM)
    && rel.autoExecute
  }

  function TradeBy(id: int, trader: int): SourceTrade { SourceTrade(id, trader, "t", "0xt", "YES", false) }

  /** One running agent of user 1 under the grant. */
  ghost predicate Granted(agents: seq<Agent>, perms: seq<Permission>) { agents == [RUNNER] && perms == [STORED] }

  lemma FirstGrant(agents: seq<Agent>, perms: seq<Permission>, accounts: map<int, SmartAccount>, a: nat)
    requires accounts == map[7 := SmartAccount(1, false)]
    requires Issued([], [], agents, perms, 7, accounts, SIGNED, true, 0, a)
    ensures Granted(agents, perms)
  {
    assert Deactivated([], a) == [];
  }

  lemma StillGranted(agents: seq<Agent>, perms: seq<Permission>, agents': seq<Agent>, perms': seq<Permission>)
    requires Granted(agents, perms) && Looked(agents, perms, agents', perms', 0)
    ensures Granted(agents', perms')
  {
    assert GrantInForce(perms, 0, 0) == Some(0);
  }

  /** User 1 opens an account, signs the grant and follows traders 0 to k - 1. */
  method GrantedFollower(k: nat) returns (s: Service)
    ensures fresh(s) && fresh(s.registry) && s.Valid() && s.execs == [] && s.evals == [] && s.broadcasts == []
    ensures Granted(s.registry.agents, s.registry.perms)
    ensures |s.rels| == k && forall j :: 0 <= j < k ==> s.rels[j] == FollowOf(j)
  {
    hide LogsSafe, Safe;
    s := new Service();
    Perform(s, OpenAccount(7, 1), [], 0);
    Perform(s, IssueGrant(7, SIGNED, true, true, true), [], 0);
    ghost var a: nat :| Issued([], [], s.registry.agents, s.registry.perms, 7, s.registry.accounts, SIGNED, true, 0, a);
    FirstGrant(s.registry.agents, s.registry.perms, s.registry.accounts, a);
    for j := 0 to k
      invariant fresh(s) && fresh(s.registry) && s.Valid() && s.execs == [] && s.evals == [] && s.broadcasts == []
      invariant Granted(s.registry.agents, s.registry.perms)
      invariant |s.rels| == j && forall i :: 0 <= i < j ==> s.rels[i] == FollowOf(i)
    {
      Perform(s, Follow(FollowOf(j), "t", "0xt"), [], 0);
    }
  }

  /** When one relationship follows the trader, a detection handles exactly that one. */
  lemma {:induction false} OnlyFollower(b: Books, t: SourceTrade, signals: nat -> Signals, order: seq<nat>, now: int,
                                        j: nat, n: nat)
    requires n <= |b.rels| && forall r: nat :: Wanted(b, r, t) <==> r == j
    ensures var e := if j < |b.rels| then EffectsFor(b, j, t, signals(j), order, now)
                     else Effects(FollowOf(0), [], [], [], false);
            DetectUpTo(b, t, signals, order, now, n)
            == if n <= j then Detection(b.rels, [], [], [], {})
               else Detection(b.rels[j := e.rel], e.rows, e.evals, e.sends, if e.lost then {j} else {})
  {
    hide FollowEffects, Wanted;
    if n > 0 {
      OnlyFollower(b, t, signals, order, now, j, n - 1);
      if n - 1 == j {
        var e := EffectsFor(b, j, t, signals(j), order, now);
        assert [] + e.rows == e.rows && [] + e.evals == e.evals && [] + e.sends == e.sends && {} + {j} == {j};
      }
    }
  }

  /** What the agent does with a trade of trader j, the first of the day. */
  lemma CopiesInFull(b: Books, j: nat, id: int, sig: Signals)
    requires Granted(b.agents, b.perms) && j < |b.rels| && CopiedInFull(b.rels[j], j)
             && (sig == GOOD || sig == UNCONFIRMED)
    requires forall x :: x in b.execs ==> x.rel != j
    ensures var e := EffectsFor(b, j, TradeBy(id, j), sig, Existing([0], 1), 0);
            && e.evals == [Evaluation(0, if sig.confirmed then Copied else Failed, MAXIMUM, 0, Some(j))]
            && e.rows == (if sig.confirmed then [CopyExecution(j, id, MAXIMUM, EXECUTED, 0)] else [])
            && e.sends == [Broadcast(CopyOf(j, id), 0, MAXIMUM, 0, sig.confirmed)] && CopiedInFull(e.rel, j)
  {
    hide TradeEffects, Synced;
    TradesUnderGrant(b, j, TradeBy(id, j), sig);
    NotCounted(b.execs, j, 0);
    GatesOpen(b.rels[j], j, id, sig);
    TradesInFull(b.rels[j], j, TradeBy(id, j), sig);
  }

  lemma TradesUnderGrant(b: Books, j: nat, t: SourceTrade, sig: Signals)
    requires Granted(b.agents, b.perms) && j < |b.rels| && b.rels[j].user == 1 && b.rels[j].autoExecute
    ensures EffectsFor(b, j, t, sig, Existing([0], 1), 0)
            == TradeEffects(0, RUNNING, STORED, b.rels[j], j, t, sig, DailyCopyTotal(b.execs, j, Day(0)), 0)
  {
    hide TradeEffects, ReviewEffects, DailyCopyTotal;
    assert Existing([0], 1) == [0] by { assert [0][..0] == []; }
    var order: seq<nat> := [0];
    FirstFound(order, Running(b.agents, 1), 0);
    assert GrantInForce(b.perms, 0, 0) == Some(0);
  }

  lemma TradesInFull(rel: Relationship, j: nat, t: SourceTrade, sig: Signals)
    requires CopiedInFull(rel, j) && sig.prepared && sig.broadcast && CopySize(rel, STORED.caps) == MAXIMUM
    requires GatesOk(RUNNING, STORED, Synced(rel, STORED), t, sig, MAXIMUM, 0.0, 0)
    ensures var e := TradeEffects(0, RUNNING, STORED, rel, j, t, sig, 0.0, 0);
            && e.evals == [Evaluation(0, if sig.confirmed then Copied else Failed, MAXIMUM, 0, Some(j))]
            && e.rows == (if sig.confirmed then [CopyExecution(j, t.id, MAXIMUM, EXECUTED, 0)] else [])
            && e.sends == [Broadcast(CopyOf(j, t.id), 0, MAXIMUM, 0, sig.confirmed)] && CopiedInFull(e.rel, j)
  {
    hide GatesOk, CopySize;
  }

  lemma GatesOpen(rel: Relationship, j: int, id: int, sig: Signals)
    requires CopiedInFull(rel, j) && (sig == GOOD || sig == UNCONFIRMED)
    ensures CopySize(rel, STORED.caps) == MAXIMUM
    ensures GatesOk(RUNNING, STORED, Synced(rel, STORED), TradeBy(id, j), sig, MAXIMUM, 0.0, 0)
  {
  }

  /** The signed daily maximum is no cap on the agent: for every k, a manual trade and k copied traders record
      k + 1 signed maxima in one day. Maxima counts exactly those. */
  method ReachesEveryMultiple(k: nat) returns (s: Service)
    ensures s.Valid() && s.registry.perms == [STORED] && STORED.agent == 0 && STORED.caps.maxDaily == MAXIMUM > 0.0
    ensures |CopiedRels(s.evals, 0, 0)| == k && TradedByHand(s.evals, 0, 0) && Maxima(s.evals, 0, 0) == k + 1
    ensures AgentVolume(s.evals, 0, 0) == (k + 1) as real * MAXIMUM
  {
    hide LogsSafe, Safe, Looked, Holder, ManualWrites, AgentVolume, CopiedRels, TradedByHand, Existing;
    s := GrantedFollower(k);
    ManualFirst(s.registry.agents, s.registry.perms);
    Perform(s, Manual(1, MAXIMUM, "YES", true, GOOD), [0], 0);
    StillGranted(RunnerOnly(), StoredOnly(), s.registry.agents, s.registry.perms);
    HandVolume(s.evals);
    for j := 0 to k
      invariant fresh(s) && fresh(s.registry) && s.Valid() && MovedSoFar(s, j, k)
    {
      CopyNext(s, j, k);
    }
    BelowSize(k);
  }

  /** After the manual trade and the copies of traders 0 to j - 1. */
  ghost predicate MovedSoFar(s: Service, j: nat, k: nat)
    reads s, s.registry
  {
    && Granted(s.registry.agents, s.registry.perms)
    && |s.rels| == k && (forall i :: 0 <= i < k ==> CopiedInFull(s.rels[i], i))
    && (forall x :: x in s.execs ==> x.rel < j)
    && TradedByHand(s.evals, 0, 0) && CopiedRels(s.evals, 0, 0) == Below(j)
    && AgentVolume(s.evals, 0, 0) == (j + 1) as real * MAXIMUM
  }

  method CopyNext(s: Service, j: nat, k: nat)
    requires s.Valid() && j < k && MovedSoFar(s, j, k)
    modifies s, s.registry
    ensures s.Valid() && MovedSoFar(s, j + 1, k)
  {
    hide LogsSafe, Safe, Looked, DetectUpTo, Wanted, FollowEffects, EffectsFor, Evolves, RowsEvolve, AgentVolume,
      CopiedRels, TradedByHand, Existing;
    ghost var b, evals0 := s.Tables(), s.evals;
    var t := TradeBy(100 + j, j);
    var signals: nat -> Signals := m => GOOD;
    OneWanted(b, j, t);
    OnlyFollower(b, t, signals, Existing([0], 1), 0, j, k);
    CopiesInFull(b, j, 100 + j, GOOD);
    Perform(s, Detect(t, signals), [0], 0);
    StillGranted(RunnerOnly(), StoredOnly(), s.registry.agents, s.registry.perms);
    OneMoreMaximum(evals0, j);
  }

  ghost function RunnerOnly(): seq<Agent> { [RUNNER] }

  ghost function StoredOnly(): seq<Permission> { [STORED] }

  ghost function Below(n: nat): set<nat> { if n == 0 then {} else Below(n - 1) + {n - 1} }

  lemma {:induction false} BelowSize(n: nat)
    ensures |Below(n)| == n && forall j :: j in Below(n) ==> j < n
  {
    if n > 0 { BelowSize(n - 1); }
  }

  lemma ManualFirst(agents: seq<Agent>, perms: seq<Permission>)
    requires Granted(agents, perms)
    ensures var known := Existing([0], |agents|);
            ManualWrites(agents, perms, [], 1, MAXIMUM, "YES", true, GOOD, known, 0)
            == Written([Evaluation(0, Copied, MAXIMUM, 0, None)], [Broadcast(ByHand, 0, MAXIMUM, 0, true)])
  {
    assert Existing([0], 1) == [0] by { assert [0][..0] == []; }
    var order: seq<nat> := [0];
    assert GrantInForce(perms, 0, 0) == Some(0);
    FirstFound(order, Holding(agents, perms, 1, {RUNNING, AUTHORIZED}, 0), 0);
    var none: seq<Evaluation> := [];
    assert AgentVolume(none, 0, 0) == 0.0;
  }

  lemma HandVolume(evals: seq<Evaluation>)
    requires evals == [] + [Evaluation(0, Copied, MAXIMUM, 0, None)]
    ensures AgentVolume(evals, 0, 0) == MAXIMUM && TradedByHand(evals, 0, 0) && CopiedRels(evals, 0, 0) == Below(0)
  {
    var none: seq<Evaluation> := [];
    var e := Evaluation(0, Copied, MAXIMUM, 0, None);
    SumAppend(none, e, VolumeOn(0, 0));
    assert evals == none + [e] && e in evals && CopiedOn(e, 0, 0);
  }

  lemma OneWanted(b: Books, j: nat, t: SourceTrade)
    requires j < |b.rels| && t.trader == j && forall i :: 0 <= i < |b.rels| ==> CopiedInFull(b.rels[i], i)
    requires forall x :: x in b.execs ==> x.rel < j
    ensures forall r: nat :: Wanted(b, r, t) <==> r == j
  {
    NoRowFrom(b.execs, j, t.id);
  }

  lemma OneMoreMaximum(evals: seq<Evaluation>, j: nat)
    requires TradedByHand(evals, 0, 0) && CopiedRels(evals, 0, 0) == Below(j)
             && AgentVolume(evals, 0, 0) == (j + 1) as real * MAXIMUM
    ensures var next := evals + [Evaluation(0, Copied, MAXIMUM, 0, Some(j))];
            && TradedByHand(next, 0, 0) && CopiedRels(next, 0, 0) == Below(j + 1)
            && AgentVolume(next, 0, 0) == (j + 2) as real * MAXIMUM
  {
    var e := Evaluation(0, Copied, MAXIMUM, 0, Some(j));
    var next := evals + [e];
    SumAppend(evals, e, VolumeOn(0, 0));
    var h :| h in evals && CopiedOn(h, 0, 0) && h.rel == None;
    assert h in next && e in next && CopiedOn(e, 0, 0);
    assert forall x :: x in next <==> x in evals || x == e;
    assert CopiedRels(next, 0, 0) == CopiedRels(evals, 0, 0) + {j};
  }

  const UNSEEN := Broadcast(CopyOf(0, 11), 0, MAXIMUM, 0, false)

  /** A transaction that was sent but not confirmed leaves no row and enters no total, so the next detection sends it
      again: for every n, an agent sends n signed daily maxima for one trade on one day and has recorded nothing. */
  method UnconfirmedSendsHaveNoBound(n: nat) returns (s: Service)
    ensures s.Valid() && s.registry.perms == [STORED] && STORED.agent == 0 && STORED.caps.maxDaily == MAXIMUM > 0.0
    ensures |s.broadcasts| == n && forall i :: 0 <= i < n ==> s.broadcasts[i] == UNSEEN
    ensures s.execs == [] && AgentVolume(s.evals, 0, 0) == 0.0
    ensures SentVolume(s.broadcasts, 0, 0) == n as real * MAXIMUM
  {
    hide LogsSafe, Safe, AgentVolume, SentVolume;
    s := GrantedFollower(1);
    NothingYet();
    for k := 0 to n
      invariant fresh(s) && fresh(s.registry) && ReadyToSend(s)
      invariant |s.broadcasts| == k && forall i :: 0 <= i < k ==> s.broadcasts[i] == UNSEEN
      invariant AgentVolume(s.evals, 0, 0) == 0.0 && SentVolume(s.broadcasts, 0, 0) == k as real * MAXIMUM
    {
      SendUnconfirmed(s);
    }
  }

  lemma NothingYet()
    ensures AgentVolume([], 0, 0) == SentVolume([], 0, 0) == 0.0
  {
  }

  /** User 1 follows trader 0 in full, and nothing was copied yet. */
  ghost predicate ReadyToSend(s: Service)
    reads s, s.registry
  {
    && s.Valid() && Granted(s.registry.agents, s.registry.perms) && |s.rels| == 1
    && CopiedInFull(s.rels[0], 0) && s.execs == []
  }

  method SendUnconfirmed(s: Service)
    requires ReadyToSend(s)
    modifies s, s.registry
    ensures ReadyToSend(s) && s.broadcasts == old(s.broadcasts) + [UNSEEN]
    ensures AgentVolume(s.evals, 0, 0) == AgentVolume(old(s.evals), 0, 0)
    ensures SentVolume(s.broadcasts, 0, 0) == SentVolume(old(s.broadcasts), 0, 0) + MAXIMUM
  {
    hide LogsSafe, Safe, Looked, DetectUpTo, Wanted, FollowEffects, Existing, AgentVolume;
    ghost var b := s.Tables();
    var t := TradeBy(11, 0);
    var signals: nat -> Signals := m => UNCONFIRMED;
    OneWanted(b, 0, t);
    OnlyFollower(b, t, signals, Existing([0], 1), 0, 0, 1);
    CopiesInFull(b, 0, 11, UNCONFIRMED);
    VolumeUnchanged(s.evals, Evaluation(0, Failed, MAXIMUM, 0, Some(0)));
    SumAppend(s.broadcasts, UNSEEN, SentOn(0, 0));
    Perform(s, Detect(t, signals), [0], 0);
    StillGranted(RunnerOnly(), StoredOnly(), s.registry.agents, s.registry.perms);
  }

  /** Once a copy was confirmed, no later transaction is for the same relationship and trade. */
  method ConfirmedIsNeverResent(s: Service, steps: seq<(Step, seq<nat>, int)>, i: nat)
    requires s.Valid() && i < |s.broadcasts| && s.broadcasts[i].confirmed && s.broadcasts[i].origin.CopyOf?
    modifies s, s.registry
    ensures s.Valid() && old(s.broadcasts) <= s.broadcasts
    ensures forall j :: i < j < |s.broadcasts| ==> s.broadcasts[j].origin != s.broadcasts[i].origin
  {
    Continue(s, steps);
  }
}
