/** Who may trade: agents, their permissions, and the service methods that change them. */
module Authority {
  import opened Wrappers
  import opened Sums

  datatype AgentStatus = CREATED | FUNDED | CONFIGURED | AUTHORIZED | RUNNING | PAUSED | EXPIRED | REVOKED

  datatype PermissionStatus = Pending | Active | Expired | Revoked

  datatype SmartAccount = SmartAccount(user: int, funded: bool)

  datatype Agent = Agent(user: int, account: int, status: AgentStatus, capital: real)

  /** The caps a grant fixes for its whole life. */
  datatype Caps = Caps(maxTrade: real, maxDaily: real)

  datatype Permission = Permission(agent: nat, caps: Caps, minScore: int, traders: seq<string>, outcomes: set<string>,
                                   expiresAt: int, status: PermissionStatus)

  /** DreamAgent.can_transition_to */
  predicate CanTransition(a: AgentStatus, b: AgentStatus) {
    if b == REVOKED then a != REVOKED
    else match a
      case CREATED => b in {FUNDED, CONFIGURED}
      case FUNDED => b in {CONFIGURED}
      case CONFIGURED => b in {AUTHORIZED}
      case AUTHORIZED => b in {RUNNING, PAUSED}
      case RUNNING => b in {PAUSED, EXPIRED, AUTHORIZED}
      case PAUSED => b in {RUNNING, AUTHORIZED}
      case EXPIRED => b in {CONFIGURED, AUTHORIZED}
      case REVOKED => false
  }

  /** The table itself: anything live may be revoked, setup goes forward only, running, paused and authorized agents
      move between each other except that an authorized one never expires, and an expired one is set up again. */
  lemma TransitionTable(a: AgentStatus, b: AgentStatus)
    ensures CanTransition(a, b) <==>
              || (a != REVOKED && b == REVOKED)
              || (a, b) in {(CREATED, FUNDED), (CREATED, CONFIGURED), (FUNDED, CONFIGURED), (CONFIGURED, AUTHORIZED)}
              || (a != b && a in {AUTHORIZED, RUNNING, PAUSED} && b in {AUTHORIZED, RUNNING, PAUSED})
              || (a, b) in {(RUNNING, EXPIRED), (EXPIRED, CONFIGURED), (EXPIRED, AUTHORIZED)}
  {
  }

  /** Along any path through the table an agent runs, pauses or expires only after it was authorized,
      and nothing follows a revocation. */
  lemma {:induction false} RunsOnlyOnceAuthorized(path: seq<AgentStatus>)
    requires path != [] && path[0] in {CREATED, FUNDED, CONFIGURED}
    requires forall i :: 0 <= i < |path| - 1 ==> CanTransition(path[i], path[i + 1])
    ensures path[|path| - 1] in {RUNNING, PAUSED, EXPIRED} ==> AUTHORIZED in path
    ensures AUTHORIZED !in path ==> path[|path| - 1] in {CREATED, FUNDED, CONFIGURED, REVOKED}
    ensures forall i :: 0 <= i < |path| - 1 ==> path[i] != REVOKED
  {
    var n := |path| - 1;
    if n > 0 {
      RunsOnlyOnceAuthorized(path[..n]);
      assert CanTransition(path[n - 1], path[n]);
      assert path[..n][n - 1] == path[n - 1];
    }
  }

  /** At most one active permission per agent, at most one live agent per account, and nothing
      active on a revoked agent. */
  ghost predicate Safe(accounts: map<int, SmartAccount>, agents: seq<Agent>, perms: seq<Permission>) {
    && (forall i :: 0 <= i < |agents| ==>
          agents[i].account in accounts && accounts[agents[i].account].user == agents[i].user)
    && (forall i, j :: 0 <= i < j < |agents| && agents[i].account == agents[j].account
          ==> agents[i].status == REVOKED || agents[j].status == REVOKED)
    && (forall p :: 0 <= p < |perms| ==> perms[p].agent < |agents|)
    && (forall p, q :: 0 <= p < q < |perms| && perms[p].status == Active && perms[q].status == Active
          ==> perms[p].agent != perms[q].agent)
    && (forall p :: 0 <= p < |perms| && perms[p].status == Active ==> agents[perms[p].agent].status != REVOKED)
  }

  /** What every step keeps: rows are never lost, owners and caps never change, REVOKED is terminal,
      and a permission that stopped being active never becomes active again. */
  ghost predicate Evolves(agents: seq<Agent>, perms: seq<Permission>, agents': seq<Agent>, perms': seq<Permission>) {
    && |agents| <= |agents'| && |perms| <= |perms'|
    && (forall i :: 0 <= i < |agents| ==>
          && agents'[i].user == agents[i].user && agents'[i].account == agents[i].account
          && (agents[i].status == REVOKED ==> agents'[i].status == REVOKED))
    && (forall p :: 0 <= p < |perms| ==>
          && perms'[p].agent == perms[p].agent && perms'[p].caps == perms[p].caps
          && perms'[p].expiresAt == perms[p].expiresAt
          && (perms'[p].status == Active ==> perms[p].status == Active))
  }

  lemma EvolvesTransitive(a: seq<Agent>, p: seq<Permission>, b: seq<Agent>, q: seq<Permission>, c: seq<Agent>,
                          r: seq<Permission>)
    requires Evolves(a, p, b, q) && Evolves(b, q, c, r)
    ensures Evolves(a, p, c, r)
  {
  }

  /** The permission lets its agent act now. */
  predicate InForce(agents: seq<Agent>, perms: seq<Permission>, a: nat, p: nat, now: int) {
    && a < |agents| && p < |perms|
    && perms[p].agent == a && perms[p].status == Active && perms[p].expiresAt > now
    && agents[a].status != REVOKED
  }

  /** The newest active grant of an agent. */
  function ActiveGrant(perms: seq<Permission>, a: nat): Option<nat> {
    if perms == [] then None
    else
      var n := |perms| - 1;
      if perms[n].agent == a && perms[n].status == Active then Some(n) else ActiveGrant(perms[..n], a)
  }

  function GrantInForce(perms: seq<Permission>, a: nat, now: int): Option<nat> {
    var p := ActiveGrant(perms, a);
    if p.Some? && p.value < |perms| && perms[p.value].expiresAt > now then p else None
  }

  lemma {:induction false} ActiveGrantMeans(perms: seq<Permission>, a: nat)
    ensures var p := ActiveGrant(perms, a);
            if p.Some? then p.value < |perms| && perms[p.value].agent == a && perms[p.value].status == Active
            else forall q :: 0 <= q < |perms| ==> !(perms[q].agent == a && perms[q].status == Active)
  {
    if perms != [] {
      var n := |perms| - 1;
      ActiveGrantMeans(perms[..n], a);
      if ActiveGrant(perms, a).None? {
        forall q | 0 <= q < |perms| ensures !(perms[q].agent == a && perms[q].status == Active) {
          if q < n { assert perms[q] == perms[..n][q]; }
        }
      }
    }
  }

  /** In a safe registry the grant an agent acts under is the only one in force. */
  lemma GrantInForceIff(accounts: map<int, SmartAccount>, agents: seq<Agent>, perms: seq<Permission>, a: nat, p: nat,
                        now: int)
    requires Safe(accounts, agents, perms)
    ensures GrantInForce(perms, a, now) == Some(p) <==> InForce(agents, perms, a, p, now)
  {
    ActiveGrantMeans(perms, a);
  }

  /** Agents looked up at one moment: grants that ran out were marked, and running agents left without
      a grant in force were expired. */
  ghost predicate Looked(agents: seq<Agent>, perms: seq<Permission>, agents': seq<Agent>, perms': seq<Permission>,
                         now: int)
  {
    && |agents'| == |agents| && |perms'| == |perms|
    && (forall p :: 0 <= p < |perms| ==>
          perms'[p] == perms[p]
          || (perms[p].status == Active && perms[p].expiresAt <= now && perms'[p] == perms[p].(status := Expired)))
    && (forall i :: 0 <= i < |agents| ==>
          agents'[i] == agents[i]
          || (agents[i].status == RUNNING && GrantInForce(perms, i, now) == None
              && agents'[i] == agents[i].(status := EXPIRED)))
  }

  /** Looking does not change which grants are in force. */
  lemma LookedGrants(accounts: map<int, SmartAccount>, agents: seq<Agent>, perms: seq<Permission>, agents': seq<Agent>,
                     perms': seq<Permission>, a: nat, now: int)
    requires Safe(accounts, agents, perms) && Safe(accounts, agents', perms')
             && Looked(agents, perms, agents', perms', now)
    ensures GrantInForce(perms', a, now) == GrantInForce(perms, a, now)
  {
    var g, h := GrantInForce(perms, a, now), GrantInForce(perms', a, now);
    if g.Some? {
      GrantInForceIff(accounts, agents, perms, a, g.value, now);
      GrantInForceIff(accounts, agents', perms', a, g.value, now);
    }
    if h.Some? {
      GrantInForceIff(accounts, agents', perms', a, h.value, now);
      GrantInForceIff(accounts, agents, perms, a, h.value, now);
    }
  }

  lemma LookedTransitive(accounts: map<int, SmartAccount>, a: seq<Agent>, p: seq<Permission>, b: seq<Agent>,
                         q: seq<Permission>, c: seq<Agent>, r: seq<Permission>, now: int)
    requires Safe(accounts, a, p) && Safe(accounts, b, q)
    requires Looked(a, p, b, q, now) && Looked(b, q, c, r, now)
    ensures Looked(a, p, c, r, now)
  {
    forall i | 0 <= i < |a|
      ensures c[i] == a[i]
              || (a[i].status == RUNNING && GrantInForce(p, i, now) == None && c[i] == a[i].(status := EXPIRED))
    {
      LookedGrants(accounts, a, p, b, q, i, now);
    }
  }

  function Running(agents: seq<Agent>, user: int): nat -> bool {
    (a: nat) => a < |agents| && agents[a].user == user && agents[a].status == RUNNING
  }

  function Live(agents: seq<Agent>, user: int, agentId: Option<nat>): nat -> bool {
    (a: nat) => a < |agents| && Matches(agents[a], a, user, agentId)
  }

  function Holding(agents: seq<Agent>, perms: seq<Permission>, user: int, statuses: set<AgentStatus>,
                   now: int): nat -> bool
  {
    (a: nat) => a < |agents| && agents[a].user == user && agents[a].status in statuses
      && GrantInForce(perms, a, now).Some?
  }

  /** The first agent of the user in one of the statuses that has a grant in force, with that grant. */
  function Holder(agents: seq<Agent>, perms: seq<Permission>, user: int, statuses: set<AgentStatus>, order: seq<nat>,
                  now: int)
    : Option<(nat, nat)>
  {
    match First(order, Holding(agents, perms, user, statuses, now))
    case Some(a) =>
      var p := GrantInForce(perms, a, now);
      if p.Some? then Some((a, p.value)) else None
    case None => None
  }

  /** The agent that is found is the first in query order that belongs to the user, is in one of the statuses and has a
      permission in force, with that permission; nobody is found exactly when there is no such agent. */
  lemma HolderMeans(accounts: map<int, SmartAccount>, agents: seq<Agent>, perms: seq<Permission>, user: int,
                    statuses: set<AgentStatus>, order: seq<nat>, now: int)
    requires Safe(accounts, agents, perms) && forall k :: 0 <= k < |order| ==> order[k] < |agents|
    ensures match Holder(agents, perms, user, statuses, order, now)
            case Some((a, p)) =>
              && InForce(agents, perms, a, p, now) && agents[a].user == user && agents[a].status in statuses
              && exists k :: 0 <= k < |order| && order[k] == a
                   && forall j, q :: 0 <= j < k && InForce(agents, perms, order[j], q, now) ==>
                        agents[order[j]].user != user || agents[order[j]].status !in statuses
            case None =>
              forall j, q :: 0 <= j < |order| && InForce(agents, perms, order[j], q, now) ==>
                agents[order[j]].user != user || agents[order[j]].status !in statuses
  {
    hide Safe, InForce, GrantInForce;
    var holding := Holding(agents, perms, user, statuses, now);
    FirstMeans(order, holding);
    forall j, q | 0 <= j < |order| && InForce(agents, perms, order[j], q, now) && !holding(order[j])
      ensures agents[order[j]].user != user || agents[order[j]].status !in statuses
    {
      InForceIsAgent(agents, perms, order[j], q, now);
      GrantInForceIff(accounts, agents, perms, order[j], q, now);
    }
    var a := First(order, holding);
    if a.Some? {
      var p := GrantInForce(perms, a.value, now).value;
      GrantInForceIff(accounts, agents, perms, a.value, p, now);
      InForceIsAgent(agents, perms, a.value, p, now);
    }
  }

  lemma InForceIsAgent(agents: seq<Agent>, perms: seq<Permission>, a: nat, p: nat, now: int)
    requires InForce(agents, perms, a, p, now)
    ensures a < |agents| && p < |perms|
  {
  }

  datatype Grant = Grant(caps: Caps, expiresInDays: int, minScore: int, traders: seq<string>, outcomes: set<string>)

  const SECONDS_PER_DAY := 86400

  /** grant_agent went through for agent a: its older grants are retired, the new one is appended, and no
      other agent or grant moved. */
  ghost predicate Issued(agents: seq<Agent>, perms: seq<Permission>, agents': seq<Agent>, perms': seq<Permission>,
                         account: int, accounts: map<int, SmartAccount>, g: Grant, activate: bool, now: int, a: nat)
  {
    && account in accounts && a < |agents'| && agents'[a].account == account
    && agents'[a].status == (if activate then RUNNING else AUTHORIZED)
    && (if a < |agents| then agents'[a] == agents[a].(status := agents'[a].status) && |agents'| == |agents|
        else a == |agents| && |agents'| == a + 1
             && agents'[a] == Agent(accounts[account].user, account, agents'[a].status, 0.0))
    && (forall i :: 0 <= i < |agents| && i != a ==> agents'[i] == agents[i])
    && perms' == Deactivated(perms, a)
                 + [Permission(a, g.caps, g.minScore, g.traders, g.outcomes,
                               now + g.expiresInDays * 86400, Active)]
  }

  class Registry {
    var accounts: map<int, SmartAccount>
    var agents: seq<Agent>
    var perms: seq<Permission>

    ghost predicate Valid()
      reads this
    {
      Safe(accounts, agents, perms)
    }

    constructor ()
      ensures Valid()
      ensures accounts == map[] && agents == [] && perms == []
    {
      accounts, agents, perms := map[], [], [];
    }

    /** create_account for a user without one; an existing account keeps its owner. */
    method CreateAccount(id: int, user: int)
      requires Valid()
      modifies this`accounts
      ensures Valid() && id in accounts
      ensures accounts == if id in old(accounts) then old(accounts) else old(accounts)[id := SmartAccount(user, false)]
    {
      if id !in accounts {
        accounts := accounts[id := SmartAccount(user, false)];
      }
    }

    /** mark_funded */
    method MarkFunded(account: int, amount: Option<real>)
      requires Valid() && account in accounts
      modifies this`accounts, this`agents
      ensures Valid() && Evolves(old(agents), perms, agents, perms) && |agents| == |old(agents)|
      ensures accounts == old(accounts)[account := old(accounts)[account].(funded := true)]
      ensures forall i :: 0 <= i < |agents| ==>
                var a := old(agents)[i];
                agents[i] == if a.account == account && a.status == CREATED
                             then a.(status := FUNDED,
                                     capital := if amount.Some? && a.capital <= 0.0 then amount.value else a.capital)
                             else a
    {
      accounts := accounts[account := accounts[account].(funded := true)];
      for i := 0 to |agents|
        invariant |agents| == |old(agents)|
        invariant accounts == old(accounts)[account := old(accounts)[account].(funded := true)]
        invariant forall j :: i <= j < |agents| ==> agents[j] == old(agents)[j]
        invariant forall j :: 0 <= j < i ==>
                    var a := old(agents)[j];
                    agents[j] == if a.account == account && a.status == CREATED
                                 then a.(status := FUNDED,
                                         capital := if amount.Some? && a.capital <= 0.0 then amount.value
                                                    else a.capital)
                                 else a
      {
        var a := agents[i];
        if a.account == account && a.status != REVOKED && a.status != RUNNING {
          if a.status == CREATED && CanTransition(a.status, FUNDED) {
            a := a.(status := FUNDED);
            if amount.Some? && a.capital <= 0.0 { a := a.(capital := amount.value); }
            agents := agents[i := a];
          }
        }
      }
    }

    /** ensure_agent: the account's live agent, or a new one. */
    method EnsureAgent(account: int, sessionOk: bool) returns (r: Result<nat>)
      requires Valid() && account in accounts
      modifies this`agents
      ensures Valid() && Evolves(old(agents), perms, agents, perms)
      ensures r.Error? <==> !sessionOk
      ensures r.Error? ==> agents == old(agents)
      ensures r.Ok? ==>
                && r.value < |agents| && agents[r.value].account == account && agents[r.value].status != REVOKED
                && (if r.value < |old(agents)| then agents == old(agents)
                    else agents == old(agents) + [Agent(accounts[account].user, account, CREATED, 0.0)])
    {
      var i := 0;
      while i < |agents| && !(agents[i].account == account && agents[i].status != REVOKED)
        invariant i <= |agents|
        invariant forall j :: 0 <= j < i ==> !(agents[j].account == account && agents[j].status != REVOKED)
      {
        i := i + 1;
      }
      if !sessionOk { return Error("session key unavailable"); }
      if i < |agents| { return Ok(i); }
      agents := agents + [Agent(accounts[account].user, account, CREATED, 0.0)];
      r := Ok(|agents| - 1);
    }

    /** UPDATE ... SET status=REVOKED WHERE agent=a AND status=ACTIVE */
    method RevokeActive(a: nat)
      modifies this`perms
      ensures perms == Deactivated(old(perms), a)
    {
      for p := 0 to |perms|
        invariant |perms| == |old(perms)|
        invariant forall q :: 0 <= q < p ==> perms[q] == Deactivated(old(perms), a)[q]
        invariant forall q :: p <= q < |perms| ==> perms[q] == old(perms)[q]
      {
        if perms[p].agent == a && perms[p].status == Active {
          perms := perms[p := perms[p].(status := Revoked)];
        }
      }
    }

    /** grant_agent, inside one transaction: an error leaves every table as it was. */
    method GrantAgent(account: int, g: Grant, sessionOk: bool, delegationOk: bool, activate: bool, now: int)
      returns (r: Result<(nat, nat)>)
      requires Valid()
      modifies this`agents, this`perms
      ensures Valid() && Evolves(old(agents), old(perms), agents, perms)
      ensures r.Ok? <==> account in accounts && sessionOk && delegationOk
      ensures r.Error? ==> agents == old(agents) && perms == old(perms)
      ensures r.Ok? ==> r.value.1 == |old(perms)|
                        && Issued(old(agents), old(perms), agents, perms, account, accounts, g, activate, now,
                                  r.value.0)
    {
      if account !in accounts { return Error("Create a DreamLens Smart Account first"); }
      var snapshot := agents;
      var ensured := EnsureAgent(account, sessionOk);
      if ensured.Error? { return Error(ensured.message); }
      var a := ensured.value;
      Configure(a);
      if !delegationOk {
        agents := snapshot;
        return Error("invalid delegation");
      }
      Issue(a, Permission(a, g.caps, g.minScore, g.traders, g.outcomes,
                          now + g.expiresInDays * SECONDS_PER_DAY, Active), activate);
      r := Ok((a, |perms| - 1));
    }

    /** The steps towards CONFIGURED that a grant takes first. */
    method Configure(a: nat)
      requires Valid() && a < |agents| && agents[a].status != REVOKED
      modifies this`agents
      ensures Valid() && Evolves(old(agents), perms, agents, perms)
      ensures |agents| == |old(agents)| && agents[a].status != REVOKED
      ensures agents == old(agents)[a := old(agents)[a].(status := agents[a].status)]
      ensures agents[a].status == if old(agents)[a].status == CREATED || old(agents)[a].status == FUNDED then CONFIGURED
                                  else old(agents)[a].status
    {
      if accounts[agents[a].account].funded && agents[a].status == CREATED {
        agents := agents[a := agents[a].(status := FUNDED)];
      }
      if agents[a].status == CREATED || agents[a].status == FUNDED {
        agents := agents[a := agents[a].(status := CONFIGURED)];
      }
    }

    /** Replacing the active permission of an agent by a new one. */
    method Issue(a: nat, grant: Permission, activate: bool)
      requires Valid() && a < |agents| && agents[a].status != REVOKED && grant.agent == a
      modifies this`agents, this`perms
      ensures Valid() && Evolves(old(agents), old(perms), agents, perms)
      ensures agents == old(agents)[a := old(agents)[a].(status := if activate then RUNNING else AUTHORIZED)]
      ensures perms == Deactivated(old(perms), a) + [grant]
    {
      RevokeActive(a);
      perms := perms + [grant];
      agents := agents[a := agents[a].(status := AUTHORIZED)];
      if activate {
        agents := agents[a := agents[a].(status := RUNNING)];
      }
      GrantKeepsSafe(accounts, old(agents), old(perms), a, if activate then RUNNING else AUTHORIZED, grant);
    }

    /** The newest matching live agent of the user; order lists rows as the query returns them. */
    method PickLive(user: int, agentId: Option<nat>, order: seq<nat>) returns (a: Option<nat>)
      requires forall k :: 0 <= k < |order| ==> order[k] < |agents|
      ensures a == First(order, Live(agents, user, agentId))
      ensures a.Some? ==> a.value < |agents| && Matches(agents[a.value], a.value, user, agentId)
      ensures a.None? ==> forall k :: 0 <= k < |order| ==>
                            || agents[order[k]].user != user || agents[order[k]].status == REVOKED
                            || (agentId.Some? && order[k] != agentId.value)
    {
      FirstMeans(order, Live(agents, user, agentId));
      for k := 0 to |order|
        invariant First(order[..k], Live(agents, user, agentId)) == None
        invariant forall j :: 0 <= j < k ==> !Matches(agents[order[j]], order[j], user, agentId)
      {
        assert order[..k + 1][..k] == order[..k];
        if Matches(agents[order[k]], order[k], user, agentId) {
          FirstFound(order, Live(agents, user, agentId), k);
          return Some(order[k]);
        }
      }
      assert order[..|order|] == order;
      a := None;
    }

    /** revoke_agent */
    method RevokeAgent(user: int, agentId: Option<nat>, order: seq<nat>) returns (r: Result<nat>)
      requires Valid() && forall k :: 0 <= k < |order| ==> order[k] < |agents|
      modifies this`agents, this`perms
      ensures Valid() && Evolves(old(agents), old(perms), agents, perms)
      ensures r.Error? ==> agents == old(agents) && perms == old(perms)
      ensures r.Ok? <==> First(order, Live(old(agents), user, agentId)).Some?
      ensures r.Error? ==> forall k :: 0 <= k < |order| ==>
                             || old(agents)[order[k]].user != user || old(agents)[order[k]].status == REVOKED
                             || (agentId.Some? && order[k] != agentId.value)
      ensures r.Ok? ==>
                && First(order, Live(old(agents), user, agentId)) == Some(r.value)
                && r.value < |old(agents)| && old(agents)[r.value].user == user
                && old(agents)[r.value].status != REVOKED && (agentId.Some? ==> r.value == agentId.value)
                && agents == old(agents)[r.value := old(agents)[r.value].(status := REVOKED)]
                && perms == Deactivated(old(perms), r.value)
    {
      var a := PickLive(user, agentId, order);
      if a.None? { return Error("No active DreamAgent to revoke"); }
      RevokeActive(a.value);
      agents := agents[a.value := agents[a.value].(status := REVOKED)];
      r := Ok(a.value);
    }

    /** set_agent_status */
    method SetAgentStatus(user: int, status: AgentStatus, agentId: Option<nat>, order: seq<nat>)
      returns (r: Result<nat>)
      requires Valid() && forall k :: 0 <= k < |order| ==> order[k] < |agents|
      modifies this`agents, this`perms
      ensures Valid() && Evolves(old(agents), old(perms), agents, perms)
      ensures r.Error? ==> agents == old(agents) && perms == old(perms)
      ensures var a: Option<nat> := First(order, Live(old(agents), user, agentId));
              r.Ok? <==> a.Some? && a.value < |old(agents)| && CanTransition(old(agents)[a.value].status, status)
      ensures r.Ok? ==>
                && First(order, Live(old(agents), user, agentId)) == Some(r.value)
                && r.value < |old(agents)| && old(agents)[r.value].user == user
                && old(agents)[r.value].status != REVOKED && (agentId.Some? ==> r.value == agentId.value)
                && agents == old(agents)[r.value := old(agents)[r.value].(status := status)]
                && perms == if status == REVOKED then Deactivated(old(perms), r.value) else old(perms)
    {
      var a := PickLive(user, agentId, order);
      if a.None? { return Error("DreamAgent not found"); }
      if status == REVOKED {
        FirstFound([a.value], Live(agents, user, Some(a.value)), 0);
        r := RevokeAgent(user, Some(a.value), [a.value]);
        return;
      }
      if !CanTransition(agents[a.value].status, status) { return Error("Cannot transition"); }
      agents := agents[a.value := agents[a.value].(status := status)];
      r := Ok(a.value);
    }

    /** active_permission: the newest active grant, expired on the spot when its time is up. */
    method ActivePermission(a: nat, now: int) returns (p: Option<nat>)
      requires Valid() && a < |agents|
      modifies this`agents, this`perms
      ensures Valid() && Evolves(old(agents), old(perms), agents, perms)
      ensures p == GrantInForce(old(perms), a, now)
      ensures p.Some? ==> InForce(agents, perms, a, p.value, now) && agents == old(agents) && perms == old(perms)
      ensures OnlyExpired(old(agents), old(perms), agents, perms, a, now)
      ensures Looked(old(agents), old(perms), agents, perms, now)
    {
      hide Looked, OnlyExpired, Evolves;
      p := FindActive(a);
      ActiveGrantMeans(perms, a);
      if p.Some? && perms[p.value].expiresAt <= now {
        ExpiryKeepsSafe(accounts, agents, perms, a, p.value, now);
        perms := perms[p.value := perms[p.value].(status := Expired)];
        if agents[a].status == RUNNING {
          agents := agents[a := agents[a].(status := EXPIRED)];
        }
        return None;
      }
      NothingToExpire(accounts, agents, perms, a, now);
    }

    method FindActive(a: nat) returns (p: Option<nat>)
      ensures p == ActiveGrant(perms, a)
    {
      var k := |perms|;
      assert perms[..k] == perms;
      while k > 0 && !(perms[k - 1].agent == a && perms[k - 1].status == Active)
        invariant 0 <= k <= |perms|
        invariant ActiveGrant(perms, a) == ActiveGrant(perms[..k], a)
      {
        assert perms[..k][..k - 1] == perms[..k - 1];
        k := k - 1;
      }
      p := if k == 0 then None else Some(k - 1);
    }

    /** _include_trader_on_agent_allowlist: a non-empty allowlist of an active grant gains the trader. */
    method IncludeTrader(user: int, trader: string, wallet: string)
      requires Valid()
      modifies this`perms
      ensures Valid() && Evolves(agents, old(perms), agents, perms) && |perms| == |old(perms)|
      ensures forall p :: 0 <= p < |perms| ==>
                perms[p] == WithTrader(agents, old(perms)[p], user, trader, wallet)
      ensures forall p :: 0 <= p < |perms| ==>
                var perm := old(perms)[p];
                perms[p] == if agents[perm.agent].user == user && perm.status == Active && perm.traders != []
                               && trader !in perm.traders && (wallet == "" || wallet !in perm.traders)
                            then perm.(traders := perm.traders + [trader]) else perm
    {
      for p := 0 to |perms|
        invariant |perms| == |old(perms)|
        invariant forall q :: 0 <= q < p ==> perms[q] == WithTrader(agents, old(perms)[q], user, trader, wallet)
        invariant forall q :: p <= q < |perms| ==> perms[q] == old(perms)[q]
      {
        var perm := perms[p];
        if agents[perm.agent].user == user && perm.status == Active {
          var allowed := perm.traders;
          if allowed != [] && trader !in allowed && !(wallet != "" && wallet in allowed) {
            allowed := allowed + [trader];
            perms := perms[p := perm.(traders := allowed)];
          }
        }
      }
    }

    /** get_running_agent */
    method GetRunningAgent(user: int, order: seq<nat>) returns (a: Option<nat>)
      requires forall k :: 0 <= k < |order| ==> order[k] < |agents|
      ensures a == First(order, Running(agents, user))
      ensures a.Some? ==> a.value < |agents| && agents[a.value].user == user && agents[a.value].status == RUNNING
      ensures a.None? ==> forall k :: 0 <= k < |order| ==>
                            agents[order[k]].user != user || agents[order[k]].status != RUNNING
    {
      FirstMeans(order, Running(agents, user));
      for k := 0 to |order|
        invariant First(order[..k], Running(agents, user)) == None
        invariant forall j :: 0 <= j < k ==> agents[order[j]].user != user || agents[order[j]].status != RUNNING
      {
        assert order[..k + 1][..k] == order[..k];
        if agents[order[k]].user == user && agents[order[k]].status == RUNNING {
          FirstFound(order, Running(agents, user), k);
          return Some(order[k]);
        }
      }
      assert order[..|order|] == order;
      a := None;
    }

    /** get_tradable_agent: a signed grant is enough for a manual trade. */
    method GetTradableAgent(user: int, order: seq<nat>, now: int) returns (r: Option<(nat, nat)>)
      requires Valid() && forall k :: 0 <= k < |order| ==> order[k] < |agents|
      modifies this`agents, this`perms
      ensures Valid() && Evolves(old(agents), old(perms), agents, perms)
              && Looked(old(agents), old(perms), agents, perms, now)
      ensures r == Holder(old(agents), old(perms), user, {RUNNING, AUTHORIZED}, order, now)
      ensures r.Some? ==>
                && InForce(agents, perms, r.value.0, r.value.1, now) && perms[r.value.1] == old(perms)[r.value.1]
                && agents[r.value.0].user == user && agents[r.value.0].status in {RUNNING, AUTHORIZED}
    {
      r := AgentWithPermission(user, {RUNNING, AUTHORIZED}, order, now);
    }

    /** get_session_key_agent: claims also work while copying is paused. */
    method GetSessionKeyAgent(user: int, order: seq<nat>, now: int) returns (r: Option<(nat, nat)>)
      requires Valid() && forall k :: 0 <= k < |order| ==> order[k] < |agents|
      modifies this`agents, this`perms
      ensures Valid() && Evolves(old(agents), old(perms), agents, perms)
              && Looked(old(agents), old(perms), agents, perms, now)
      ensures r == Holder(old(agents), old(perms), user, {RUNNING, AUTHORIZED, PAUSED}, order, now)
      ensures r.Some? ==>
                && InForce(agents, perms, r.value.0, r.value.1, now) && perms[r.value.1] == old(perms)[r.value.1]
                && agents[r.value.0].user == user && agents[r.value.0].status in {RUNNING, AUTHORIZED, PAUSED}
    {
      r := AgentWithPermission(user, {RUNNING, AUTHORIZED, PAUSED}, order, now);
    }

    /** _agent_with_permission: the first agent in the listed statuses that holds a live grant. */
    method AgentWithPermission(user: int, statuses: set<AgentStatus>, order: seq<nat>, now: int)
      returns (r: Option<(nat, nat)>)
      requires Valid() && forall k :: 0 <= k < |order| ==> order[k] < |agents|
      modifies this`agents, this`perms
      ensures Valid() && Evolves(old(agents), old(perms), agents, perms)
              && Looked(old(agents), old(perms), agents, perms, now)
      ensures r == Holder(old(agents), old(perms), user, statuses, order, now)
      ensures r.Some? ==>
                && InForce(agents, perms, r.value.0, r.value.1, now) && perms[r.value.1] == old(perms)[r.value.1]
                && agents[r.value.0].user == user && agents[r.value.0].status in statuses
    {
      hide Safe, Looked, InForce, ActiveGrant, GrantInForce;
      ghost var agents0, perms0 := agents, perms;
      ghost var holding := Holding(agents, perms, user, statuses, now);
      LookedRefl(agents, perms, now);
      for k := 0 to |order|
        invariant Valid() && Evolves(agents0, perms0, agents, perms) && Looked(agents0, perms0, agents, perms, now)
        invariant |agents| == |agents0|
        invariant First(order[..k], holding) == None
      {
        assert order[..k + 1][..k] == order[..k];
        var a := order[k];
        LookedHolding(accounts, agents0, perms0, agents, perms, user, statuses, a, now);
        if agents[a].user == user && agents[a].status in statuses {
          ghost var agents1, perms1 := agents, perms;
          var p := ActivePermission(a, now);
          EvolvesTransitive(agents0, perms0, agents1, perms1, agents, perms);
          LookedTransitive(accounts, agents0, perms0, agents1, perms1, agents, perms, now);
          if p.Some? {
            FirstFound(order, holding, k);
            LookedGrants(accounts, agents0, perms0, agents, perms, a, now);
            LookedUnexpired(accounts, agents0, perms0, agents, perms, a, p.value, now);
            return Some((a, p.value));
          }
        }
      }
      assert order[..|order|] == order;
      r := None;
    }
  }

  lemma LookedRefl(agents: seq<Agent>, perms: seq<Permission>, now: int)
    ensures Looked(agents, perms, agents, perms, now) && Evolves(agents, perms, agents, perms)
  {
  }

  /** Whether an agent counts as a holder is not changed by looking. */
  lemma LookedHolding(accounts: map<int, SmartAccount>, agents: seq<Agent>, perms: seq<Permission>, agents': seq<Agent>,
                      perms': seq<Permission>, user: int, statuses: set<AgentStatus>, a: nat, now: int)
    requires Safe(accounts, agents, perms) && Safe(accounts, agents', perms')
             && Looked(agents, perms, agents', perms', now)
    requires a < |agents|
    ensures Holding(agents, perms, user, statuses, now)(a)
            <==> agents[a].user == user && agents[a].status in statuses && GrantInForce(perms, a, now).Some?
    ensures GrantInForce(perms', a, now) == GrantInForce(perms, a, now)
    ensures GrantInForce(perms, a, now).Some? ==> agents'[a] == agents[a]
    ensures agents'[a].user == agents[a].user && |agents'| == |agents| && |perms'| == |perms|
  {
    LookedGrants(accounts, agents, perms, agents', perms', a, now);
  }

  lemma LookedUnexpired(accounts: map<int, SmartAccount>, agents: seq<Agent>, perms: seq<Permission>,
                        agents': seq<Agent>, perms': seq<Permission>, a: nat, p: nat, now: int)
    requires Safe(accounts, agents, perms) && Looked(agents, perms, agents', perms', now)
    requires GrantInForce(perms, a, now) == Some(p)
    ensures p < |perms| == |perms'| && perms'[p] == perms[p] && perms[p].agent == a
  {
    GrantInForceIff(accounts, agents, perms, a, p, now);
  }

  lemma GrantKeepsSafe(accounts: map<int, SmartAccount>, agents: seq<Agent>, perms: seq<Permission>, a: nat,
                       status: AgentStatus, grant: Permission)
    requires Safe(accounts, agents, perms) && a < |agents| && agents[a].status != REVOKED && grant.agent == a
    requires status != REVOKED
    ensures var agents' := agents[a := agents[a].(status := status)];
            && Safe(accounts, agents', Deactivated(perms, a) + [grant])
            && Evolves(agents, perms, agents', Deactivated(perms, a) + [grant])
  {
  }

  lemma ExpiryKeepsSafe(accounts: map<int, SmartAccount>, agents: seq<Agent>, perms: seq<Permission>, a: nat, p: nat,
                        now: int)
    requires Safe(accounts, agents, perms) && a < |agents| && p < |perms|
    requires perms[p].agent == a && perms[p].status == Active && perms[p].expiresAt <= now
    ensures var perms' := perms[p := perms[p].(status := Expired)];
            var agents' := if agents[a].status == RUNNING then agents[a := agents[a].(status := EXPIRED)] else agents;
            && Safe(accounts, agents', perms') && Evolves(agents, perms, agents', perms')
            && OnlyExpired(agents, perms, agents', perms', a, now) && Looked(agents, perms, agents', perms', now)
            && GrantInForce(perms, a, now) == None
  {
    assert perms[p := perms[p].(status := Expired)][p] != perms[p];
    ActiveGrantMeans(perms, a);
  }

  lemma NothingToExpire(accounts: map<int, SmartAccount>, agents: seq<Agent>, perms: seq<Permission>, a: nat, now: int)
    requires Safe(accounts, agents, perms) && ActiveGrant(perms, a) == GrantInForce(perms, a, now)
    ensures OnlyExpired(agents, perms, agents, perms, a, now) && Looked(agents, perms, agents, perms, now)
    ensures Evolves(agents, perms, agents, perms)
  {
    ActiveGrantMeans(perms, a);
  }

  function WithTrader(agents: seq<Agent>, p: Permission, user: int, trader: string, wallet: string): Permission
    requires p.agent < |agents|
  {
    if agents[p.agent].user == user && p.status == Active && p.traders != [] && !TraderAllowed(p, trader, wallet)
    then p.(traders := p.traders + [trader]) else p
  }

  /** An empty allowlist allows everyone. */
  predicate TraderAllowed(p: Permission, trader: string, wallet: string) {
    p.traders == [] || trader in p.traders || (wallet != "" && wallet in p.traders)
  }

  predicate Matches(a: Agent, id: nat, user: int, agentId: Option<nat>) {
    a.user == user && a.status != REVOKED && (agentId.Some? ==> id == agentId.value)
  }

  /** Every active permission of agent a becomes Revoked; nothing else changes. */
  function Deactivated(perms: seq<Permission>, a: nat): (r: seq<Permission>)
    ensures |r| == |perms|
    ensures forall p :: 0 <= p < |perms| ==>
              r[p] == if perms[p].agent == a && perms[p].status == Active then perms[p].(status := Revoked)
                      else perms[p]
  {
    seq(|perms|, p requires 0 <= p < |perms| =>
      if perms[p].agent == a && perms[p].status == Active then perms[p].(status := Revoked) else perms[p])
  }

  /** Only active grants of a that ran out were touched, and only a running agent was expired with them. */
  ghost predicate OnlyExpired(agents: seq<Agent>, perms: seq<Permission>, agents': seq<Agent>, perms': seq<Permission>,
                              a: nat, now: int)
  {
    && |agents'| == |agents| && |perms'| == |perms|
    && (forall p :: 0 <= p < |perms| ==>
          perms'[p] == if perms[p].agent == a && perms[p].status == Active && perms[p].expiresAt <= now
                       then perms[p].(status := Expired) else perms[p])
    && (forall i :: 0 <= i < |agents| ==>
          agents'[i] == if i == a && agents[i].status == RUNNING && perms' != perms
                        then agents[i].(status := EXPIRED) else agents[i])
  }
}
