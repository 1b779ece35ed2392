/** Claiming a won or voided position: which account is redeemed, and what is left afterwards. */
module Claims {
  import opened Wrappers
  import opened Money
  import opened Markets
  import opened FillImport
  import opened LedgerAgreement
  import opened Positions
  import opened Portfolio
  import opened MockAdapter

  datatype PositionResult = ClosedOut | Void | Claimed | Won | Lost | Unsettled | ClosedEarly | StillOpen

  predicate HasSell(trades: seq<Trade>, k: Key) {
    exists t :: t in trades && InGroup(k, t) && t.side == Sell
  }

  /** position_result */
  function ResultOf(trades: seq<Trade>, k: Key, p: Position, e: Event, now: int): PositionResult {
    var payout := SettlementPayout(e, k.1);
    if NetHolding(trades, k.0, k.1) <= 0.0 && p.status == Closed && HasSell(trades, k) then ClosedOut
    else if payout.Some? then
      if e.status == Voided then Void
      else if payout.value > 0.0 then (if p.status == Closed then Claimed else Won)
      else Lost
    else if e.status == Locked || e.status == Settling || e.expiry <= now then Unsettled
    else if p.status == Closed then ClosedEarly
    else StillOpen
  }

  /** The position was closed by selling: nothing is held any more, and there is a confirmed sale of this outcome. */
  ghost predicate SoldOff(trades: seq<Trade>, k: Key, p: Position) {
    && NetHolding(trades, k.0, k.1) <= 0.0 && p.status == Closed
    && exists t :: t in trades && t.status == Confirmed && t.event == k.0 && t.outcome == k.1 && t.side == Sell
  }

  /** What the card of a position says, case by case. */
  lemma ResultMeans(trades: seq<Trade>, k: Key, p: Position, e: Event, now: int)
    ensures var r, sold := ResultOf(trades, k, p, e, now), SoldOff(trades, k, p);
            var waiting := e.status in {Locked, Settling} || e.expiry <= now;
            && (r == ClosedOut <==> sold)
            && (r == Void <==> !sold && e.status == Voided)
            && (r == Won <==> !sold && Wins(e, k.1) && p.status != Closed)
            && (r == Claimed <==> !sold && Wins(e, k.1) && p.status == Closed)
            && (r == Lost <==> !sold && e.status in {Resolved, Finalized} && e.winner != "" && !Wins(e, k.1))
            && (r == Unsettled <==> !sold && Unpaid(e) && waiting)
            && (r == ClosedEarly <==> !sold && Unpaid(e) && !waiting && p.status == Closed)
            && (r == StillOpen <==> !sold && Unpaid(e) && !waiting && p.status != Closed)
  {
    assert HasSell(trades, k) <==>
           exists t :: t in trades && t.status == Confirmed && t.event == k.0 && t.outcome == k.1 && t.side == Sell;
  }

  /** There is something to claim: the market is void, or this side won and was not claimed yet. */
  ghost predicate Claimable(trades: seq<Trade>, k: Key, p: Position, e: Event) {
    !SoldOff(trades, k, p) && (e.status == Voided || (Wins(e, k.1) && p.status != Closed))
  }

  /** A redeemed win is never offered again; a void is offered again for as long as it is void. */
  lemma ClosedIsClaimableIffVoid(trades: seq<Trade>, k: Key, p: Position, e: Event, now: int)
    requires p.status == Closed && NetHolding(trades, k.0, k.1) > 0.0
    ensures ResultOf(trades, k, p, e, now) in {Won, Void} <==> e.status == Voided
  {
  }

  /** The user's accounts, the wallet of the newest trade, and the Smart Account with its owner. */
  datatype Holder = Holder(accounts: seq<string>, tradeWallet: string, smartAccount: string, owner: string) {
    /** The wallet of the newest trade comes first unless it is one of the accounts. */
    function Candidates(): seq<string> {
      if tradeWallet != "" && tradeWallet !in accounts then [tradeWallet] + accounts else accounts
    }
    predicate IsSmartAccount(a: string) { smartAccount != "" && a == smartAccount }
    function SignerFor(a: string): string {
      if IsSmartAccount(a) then (if owner != "" then owner else a) else a
    }
  }

  /** The candidates are the accounts in their order, and the trade's wallet before them when it is not one of them. */
  lemma CandidatesMean(h: Holder)
    ensures var c := h.Candidates();
            && (forall a :: a in c <==> a in h.accounts || (a == h.tradeWallet && a != ""))
            && |c| == |h.accounts| + (if h.tradeWallet != "" && h.tradeWallet !in h.accounts then 1 else 0)
            && c[|c| - |h.accounts|..] == h.accounts
  {
  }

  /** A token read for this market side: which accounts could be read, and what each holds. */
  ghost predicate Holds(adapter: Adapter, e: Event, s: Outcome, failing: set<string>, a: string)
    reads adapter
  {
    a != "" && a !in failing && adapter.Balance(a, e.externalId, s) > 0.0
  }

  /** The Smart Account first, then the wallet of the newest trade, then the first holder. */
  ghost predicate Chosen(adapter: Adapter, h: Holder, e: Event, s: Outcome, failing: set<string>, a: string)
    reads adapter
  {
    var c := h.Candidates();
    && a in c && Holds(adapter, e, s, failing, a)
    && (h.smartAccount in c && Holds(adapter, e, s, failing, h.smartAccount) ==> a == h.smartAccount)
    && (h.tradeWallet in c && Holds(adapter, e, s, failing, h.tradeWallet) && !h.IsSmartAccount(a) ==>
          a == h.tradeWallet)
    && (!h.IsSmartAccount(a) && a != h.tradeWallet ==>
          exists i :: 0 <= i < |c| && c[i] == a && forall j :: 0 <= j < i ==> !Holds(adapter, e, s, failing, c[j]))
  }

  ghost predicate SomeoneHolds(adapter: Adapter, h: Holder, e: Event, s: Outcome, failing: set<string>)
    reads adapter
  {
    exists a :: a in h.Candidates() && Holds(adapter, e, s, failing, a)
  }

  datatype Claim = Claim(holder: string, held: real, viaSmartAccount: bool, signer: string)

  ghost function FirstHolder(adapter: Adapter, c: seq<string>, e: Event, s: Outcome,
                             failing: set<string>): Option<string>
    reads adapter
  {
    if c == [] then None
    else
      var n := |c| - 1;
      match FirstHolder(adapter, c[..n], e, s, failing)
      case Some(a) => Some(a)
      case None => if Holds(adapter, e, s, failing, c[n]) then Some(c[n]) else None
  }

  lemma {:induction false} FirstHolderIs(adapter: Adapter, c: seq<string>, e: Event, s: Outcome, failing: set<string>)
    ensures match FirstHolder(adapter, c, e, s, failing)
            case None => forall a :: a in c ==> !Holds(adapter, e, s, failing, a)
            case Some(a) => a in c && exists i :: 0 <= i < |c| && c[i] == a && Holds(adapter, e, s, failing, a)
                                        && forall m :: 0 <= m < i ==> !Holds(adapter, e, s, failing, c[m])
  {
    if c != [] {
      var n := |c| - 1;
      FirstHolderIs(adapter, c[..n], e, s, failing);
      assert c == c[..n] + [c[n]];
      assert forall m :: 0 <= m < n ==> c[..n][m] == c[m] && c[m] in c[..n];
    }
  }

  /** The account whose tokens are claimed: the Smart Account, else the newest trade's wallet, else the first holder. */
  ghost function ClaimHolder(adapter: Adapter, h: Holder, e: Event, s: Outcome, failing: set<string>): Option<string>
    reads adapter
  {
    var c := h.Candidates();
    if h.smartAccount in c && Holds(adapter, e, s, failing, h.smartAccount) then Some(h.smartAccount)
    else if h.tradeWallet in c && Holds(adapter, e, s, failing, h.tradeWallet) then Some(h.tradeWallet)
    else FirstHolder(adapter, c, e, s, failing)
  }

  predicate NoneReadable(h: Holder, failing: set<string>) {
    forall a :: a in h.Candidates() ==> a != "" && a in failing
  }

  lemma NoneReadableMeans(h: Holder, failing: set<string>)
    ensures NoneReadable(h, failing) <==>
              && (forall a :: a in h.accounts ==> a != "" && a in failing)
              && (h.tradeWallet == "" || h.tradeWallet in failing)
  {
    var c := h.Candidates();
    CandidatesMean(h);
    assert h.tradeWallet != "" ==> h.tradeWallet in c;
    assert forall a :: a in h.accounts ==> a in c;
  }

  /** The account assumed to hold the stored amount when no account could be read. */
  function AssumedHolder(h: Holder, agentFill: bool): string {
    if h.smartAccount != "" && agentFill then h.smartAccount
    else if h.tradeWallet != "" then h.tradeWallet
    else if h.Candidates() != [] then h.Candidates()[0] else ""
  }

  ghost function ResolvedClaim(adapter: Adapter, h: Holder, e: Event, s: Outcome, failing: set<string>,
                               positionAmount: real, agentFill: bool): Claim
    reads adapter
  {
    match ClaimHolder(adapter, h, e, s, failing)
    case Some(a) => Claim(a, adapter.Balance(a, e.externalId, s), h.IsSmartAccount(a), h.SignerFor(a))
    case None =>
      if NoneReadable(h, failing) && positionAmount > 0.0 then
        var a := AssumedHolder(h, agentFill);
        Claim(a, positionAmount, h.IsSmartAccount(a), h.SignerFor(a))
      else Claim("", 0.0, false, "")
  }

  /** _resolve_claim */
  method ResolveClaim(adapter: Adapter, h: Holder, e: Event, s: Outcome, failing: set<string>, positionAmount: real,
                      agentFill: bool)
    returns (claim: Claim)
    requires e.externalId != ""
    ensures claim == ResolvedClaim(adapter, h, e, s, failing, positionAmount, agentFill)
    ensures SomeoneHolds(adapter, h, e, s, failing) ==>
              && Chosen(adapter, h, e, s, failing, claim.holder)
              && claim.held == adapter.Balance(claim.holder, e.externalId, s)
    ensures !SomeoneHolds(adapter, h, e, s, failing) ==>
              if positionAmount > 0.0 && (forall a :: a in h.accounts ==> a != "" && a in failing)
                 && (h.tradeWallet == "" || h.tradeWallet in failing) then
                && claim.held == positionAmount
                && claim.holder == (if agentFill && h.smartAccount != "" then h.smartAccount
                                    else if h.tradeWallet != "" then h.tradeWallet
                                    else if h.accounts != [] then h.accounts[0] else "")
              else claim == Claim("", 0.0, false, "")
    ensures claim.viaSmartAccount <==> claim.holder != "" && claim.holder == h.smartAccount
    ensures claim.signer == if claim.viaSmartAccount && h.owner != "" then h.owner else claim.holder
  {
    NoneReadableMeans(h, failing);
    hide ClaimHolder, Holds, Chosen, SomeoneHolds, NoneReadable;
    var c := h.Candidates();
    var heldBy, anyRead := FindHolders(adapter, c, e, s, failing);
    ClaimHolderIsChosen(adapter, h, e, s, failing);
    if heldBy != [] {
      var i := PickFrom(heldBy, h.smartAccount, h.tradeWallet);
      PickedIsClaimHolder(adapter, h, e, s, failing, heldBy, i);
      var account, qty := heldBy[i].0, heldBy[i].1;
      return Claim(account, qty, h.IsSmartAccount(account), h.SignerFor(account));
    }
    NobodyToClaim(adapter, h, e, s, failing, heldBy, anyRead);
    if !anyRead && positionAmount > 0.0 {
      var fallback := if h.smartAccount != "" && agentFill then h.smartAccount
                      else if h.tradeWallet != "" then h.tradeWallet
                      else if c != [] then c[0] else "";
      return Claim(fallback, positionAmount, h.IsSmartAccount(fallback), h.SignerFor(fallback));
    }
    return Claim("", 0.0, false, "");
  }

  lemma ClaimHolderIsChosen(adapter: Adapter, h: Holder, e: Event, s: Outcome, failing: set<string>)
    ensures ClaimHolder(adapter, h, e, s, failing).Some? <==> SomeoneHolds(adapter, h, e, s, failing)
    ensures ClaimHolder(adapter, h, e, s, failing).Some? ==>
              Chosen(adapter, h, e, s, failing, ClaimHolder(adapter, h, e, s, failing).value)
  {
    FirstHolderIs(adapter, h.Candidates(), e, s, failing);
  }

  ghost predicate FoundHolders(adapter: Adapter, c: seq<string>, e: Event, s: Outcome, failing: set<string>,
                               heldBy: seq<(string, real)>)
    reads adapter
  {
    && (forall x :: x in heldBy ==> Listed(adapter, c, e, s, failing, x))
    && (forall a :: a in c && Holds(adapter, e, s, failing, a) ==> exists x :: x in heldBy && x.0 == a)
    && (heldBy != [] ==> exists j :: 0 <= j < |c| && c[j] == heldBy[0].0
                                    && forall m :: 0 <= m < j ==> !Holds(adapter, e, s, failing, c[m]))
  }

  ghost predicate PickedRight(heldBy: seq<(string, real)>, smartAccount: string, tradeWallet: string, i: nat) {
    && i < |heldBy|
    && (smartAccount != "" && (exists x :: x in heldBy && x.0 == smartAccount) ==> heldBy[i].0 == smartAccount)
    && ((smartAccount == "" || heldBy[i].0 != smartAccount) && tradeWallet != ""
        && (exists x :: x in heldBy && x.0 == tradeWallet)
        ==> heldBy[i].0 == tradeWallet)
    && ((smartAccount == "" || heldBy[i].0 != smartAccount) && (tradeWallet == "" || heldBy[i].0 != tradeWallet) ==>
          i == 0)
  }

  lemma PickedIsClaimHolder(adapter: Adapter, h: Holder, e: Event, s: Outcome, failing: set<string>,
                            heldBy: seq<(string, real)>, i: nat)
    requires FoundHolders(adapter, h.Candidates(), e, s, failing, heldBy)
    requires PickedRight(heldBy, h.smartAccount, h.tradeWallet, i)
    ensures ClaimHolder(adapter, h, e, s, failing) == Some(heldBy[i].0)
    ensures heldBy[i].1 == adapter.Balance(heldBy[i].0, e.externalId, s)
  {
    var c := h.Candidates();
    FirstHolderIs(adapter, c, e, s, failing);
    assert heldBy[i] in heldBy && heldBy[0] in heldBy;
    if i == 0 && heldBy[0].0 != h.smartAccount && heldBy[0].0 != h.tradeWallet {
      FirstListed(adapter, c, e, s, failing, heldBy);
    }
  }

  lemma FirstListed(adapter: Adapter, c: seq<string>, e: Event, s: Outcome, failing: set<string>,
                    heldBy: seq<(string, real)>)
    requires FoundHolders(adapter, c, e, s, failing, heldBy) && heldBy != []
    ensures FirstHolder(adapter, c, e, s, failing) == Some(heldBy[0].0)
  {
    FirstHolderIs(adapter, c, e, s, failing);
    assert heldBy[0] in heldBy;
    var j :| 0 <= j < |c| && c[j] == heldBy[0].0 && forall m :: 0 <= m < j ==> !Holds(adapter, e, s, failing, c[m]);
    assert c[j] in c && Holds(adapter, e, s, failing, c[j]);
    var a := FirstHolder(adapter, c, e, s, failing).value;
    var i :| 0 <= i < |c| && c[i] == a && Holds(adapter, e, s, failing, a)
             && forall m :: 0 <= m < i ==> !Holds(adapter, e, s, failing, c[m]);
    assert !(i < j) && !(j < i);
  }

  lemma NobodyToClaim(adapter: Adapter, h: Holder, e: Event, s: Outcome, failing: set<string>,
                      heldBy: seq<(string, real)>, anyRead: bool)
    requires FoundHolders(adapter, h.Candidates(), e, s, failing, heldBy) && heldBy == []
    requires anyRead <==>
               exists j :: 0 <= j < |h.Candidates()| && (h.Candidates()[j] == "" || h.Candidates()[j] !in failing)
    ensures ClaimHolder(adapter, h, e, s, failing) == None
    ensures anyRead <==> !NoneReadable(h, failing)
  {
    var c := h.Candidates();
    FirstHolderIs(adapter, c, e, s, failing);
    assert forall a :: a in c ==> !Holds(adapter, e, s, failing, a);
    if j :| 0 <= j < |c| && (c[j] == "" || c[j] !in failing) { assert c[j] in c; }
  }

  /** x lists a candidate that holds tokens, with its balance. */
  ghost predicate Listed(adapter: Adapter, c: seq<string>, e: Event, s: Outcome, failing: set<string>,
                         x: (string, real))
    reads adapter
  {
    x.0 in c && Holds(adapter, e, s, failing, x.0) && x.1 == adapter.Balance(x.0, e.externalId, s)
  }

  method FindHolders(adapter: Adapter, c: seq<string>, e: Event, s: Outcome, failing: set<string>)
    returns (heldBy: seq<(string, real)>, anyRead: bool)
    ensures FoundHolders(adapter, c, e, s, failing, heldBy)
    ensures anyRead <==> exists j :: 0 <= j < |c| && (c[j] == "" || c[j] !in failing)
  {
    heldBy, anyRead := [], false;
    for i := 0 to |c|
      invariant forall x :: x in heldBy ==> Listed(adapter, c, e, s, failing, x)
      invariant forall j :: 0 <= j < i && Holds(adapter, e, s, failing, c[j]) ==> exists x :: x in heldBy && x.0 == c[j]
      invariant heldBy != [] ==> exists j :: 0 <= j < i && c[j] == heldBy[0].0
                                       && forall m :: 0 <= m < j ==> !Holds(adapter, e, s, failing, c[m])
      invariant anyRead <==> exists j :: 0 <= j < i && (c[j] == "" || c[j] !in failing)
    {
      var a := c[i];
      if a != "" && a in failing { continue; }
      anyRead := true;
      var qty := 0.0;
      if a != "" {
        var yes, no := adapter.GetOutcomeBalances(a, e.externalId);
        qty := if s == YES then yes else no;
      }
      if qty > 0.0 {
        ghost var before := heldBy;
        heldBy := heldBy + [(a, qty)];
        assert Listed(adapter, c, e, s, failing, (a, qty));
        assert forall x :: x in heldBy <==> x in before || x == (a, qty);
      }
    }
  }

  /** The order of preference among the holders that were found. */
  method PickFrom(heldBy: seq<(string, real)>, smartAccount: string, tradeWallet: string) returns (i: nat)
    requires heldBy != []
    ensures PickedRight(heldBy, smartAccount, tradeWallet, i)
  {
    i := 0;
    while smartAccount != "" && i < |heldBy|
      invariant i <= |heldBy|
      invariant smartAccount != "" ==> forall j :: 0 <= j < i ==> heldBy[j].0 != smartAccount
    {
      if heldBy[i].0 == smartAccount { return; }
      i := i + 1;
    }
    i := 0;
    while tradeWallet != "" && i < |heldBy|
      invariant i <= |heldBy|
      invariant tradeWallet != "" ==> forall j :: 0 <= j < i ==> heldBy[j].0 != tradeWallet
    {
      if heldBy[i].0 == tradeWallet { return; }
      i := i + 1;
    }
    i := 0;
  }

  lemma RawExact(human: real)
    requires SixPlaces(human)
    ensures Max(human - Millionths(ToRaw(human)), 0.0) == 0.0
  {
    var n :| human == Millionths(n);
    RoundHalfEvenUnique(human * 1000000.0, n);
  }

  /** Redeeming a balance leaves nothing behind exactly when what the balance has beyond whole raw units rounds up
      or is nothing: above one half, or one half after an odd number of units. */
  lemma RedeemLeavesNothingIff(held: real)
    requires held > 0.0
    ensures var units := held * 1000000.0;
            var rest := units - units.Floor as real;
            Max(held - Millionths(ToRaw(held)), 0.0) == 0.0
            <==> rest == 0.0 || rest > 0.5 || (rest == 0.5 && units.Floor % 2 == 1)
  {
    var units := held * 1000000.0;
    assert ToRaw(held) as real >= units <==> Millionths(ToRaw(held)) >= held;
  }

  /** prepare_position_redeem up to the hand-over: a transaction for the wallet to sign, or, for tokens on the Smart
      Account, the session key's redemption. The claim must be a positive number of raw units, and the connected wallet
      the one that signs unless the session key does. */
  method PreparePositionRedeem(u: UserPortfolio, k: Key, adapter: Adapter, h: Holder, e: Event, failing: set<string>,
                               wallet: string, agentFill: bool, now: int, txBuilt: bool)
    returns (r: Result<(Claim, int)>)
    requires e.externalId != ""
    ensures r.Ok? <==>
              && k in u.positions && Claimable(u.trades, k, u.positions[k], e) && txBuilt
              && var c := ResolvedClaim(adapter, h, e, k.1, failing, u.positions[k].amount, agentFill);
                 && c.held > 0.0 && c.holder != "" && ToRaw(c.held) > 0
                 && (c.viaSmartAccount || (wallet != "" && (c.signer == "" || c.signer == wallet)))
    ensures r.Ok? ==>
              && r.value.0 == ResolvedClaim(adapter, h, e, k.1, failing, u.positions[k].amount, agentFill)
              && r.value.1 == ToRaw(r.value.0.held) > 0
              && (SomeoneHolds(adapter, h, e, k.1, failing) ==>
                    Chosen(adapter, h, e, k.1, failing, r.value.0.holder)
                    && r.value.0.held == adapter.Balance(r.value.0.holder, e.externalId, k.1))
  {
    hide Chosen, SomeoneHolds, Holds, ResultOf, ToRaw, ResolvedClaim, SoldOff, Wins, Unpaid;
    if k !in u.positions { return Error("Position not found"); }
    ResultMeans(u.trades, k, u.positions[k], e, now);
    var result := ResultOf(u.trades, k, u.positions[k], e, now);
    if result != Won && result != Void { return Error("This position has nothing to claim yet."); }
    var claim := ResolveClaim(adapter, h, e, k.1, failing, u.positions[k].amount, agentFill);
    if claim.held <= 0.0 || claim.holder == "" { return Error("Nothing left to claim on-chain for this position."); }
    if claim.signer != "" && claim.signer != wallet && !claim.viaSmartAccount {
      return Error("Switch MetaMask to the wallet that holds these outcome tokens.");
    }
    var amountRaw := ToRaw(claim.held);
    if amountRaw <= 0 { return Error("Claim size is below the venue lot size."); }
    if !txBuilt { return Error("redeem transaction could not be built"); }
    if !claim.viaSmartAccount && wallet == "" { return Error("These winnings are in MetaMask."); }
    r := Ok((claim, amountRaw));
  }

  /** What a confirmation takes off the books: the claim, else the balance, else the stored amount. */
  method RecordClaim(adapter: Adapter, holder: string, market: string, s: Outcome, claimed: real, stored: real)
    modifies adapter`redeemed
    ensures var balance := old(adapter.Balance(holder, market, s));
            var amount := if claimed > 0.0 then claimed else if balance > 0.0 then balance else stored;
            forall a, m, side :: adapter.Balance(a, m, side) ==
              if a == holder && m == market && side == s
              then Max(old(adapter.Raw(a, m, side)) - Millionths(ToRaw(amount)), 0.0)
              else old(adapter.Balance(a, m, side))
  {
    hide ToRaw, Millionths;
    var held := claimed;
    if held <= 0.0 {
      var yes, no := adapter.GetOutcomeBalances(holder, market);
      held := if s == YES then yes else no;
    }
    adapter.RecordRedeem(holder, market, if s == YES then 0 else 1, ToRaw(if held > 0.0 then held else stored));
  }

  /** confirm_position_redeem against the in-memory adapter: the account and the amount that are recorded. */
  method ConfirmPositionRedeem(u: UserPortfolio, k: Key, adapter: Adapter, h: Holder, e: Event, failing: set<string>,
                               agentFill: bool, txHashOk: bool)
    returns (r: Result<string>)
    requires e.externalId != ""
    modifies u`positions, adapter`redeemed
    ensures r.Ok? <==> txHashOk && k in old(u.positions)
    ensures r.Error? ==> u.positions == old(u.positions) && adapter.redeemed == old(adapter.redeemed)
    ensures r.Ok? ==> u.positions == old(u.positions)[k := old(u.positions)[k].(status := Closed)]
    ensures r.Ok? ==>
              var c := old(ResolvedClaim(adapter, h, e, k.1, failing, u.positions[k].amount, agentFill));
              && r.value == (if c.holder == "" then h.tradeWallet else c.holder)
              && if c.held <= 0.0 && r.value in failing then adapter.redeemed == old(adapter.redeemed)
                 else
                 var balance := old(adapter.Balance(r.value, e.externalId, k.1));
                 var redeemed := if c.held > 0.0 then c.held else if balance > 0.0 then balance
                                 else old(u.positions)[k].amount;
                 forall a, m, s :: adapter.Balance(a, m, s) ==
                   if a == r.value && m == e.externalId && s == k.1
                   then Max(old(adapter.Raw(a, m, s)) - Millionths(ToRaw(redeemed)), 0.0)
                   else old(adapter.Balance(a, m, s))
    ensures r.Ok? && old(SomeoneHolds(adapter, h, e, k.1, failing)) ==>
              old(Chosen(adapter, h, e, k.1, failing, r.value))
  {
    hide SomeoneHolds, ToRaw, ResolvedClaim, Millionths;
    if !txHashOk { return Error("Transaction hash required"); }
    if k !in u.positions { return Error("Position not found"); }
    var position := u.positions[k];
    var claim := ResolveClaim(adapter, h, e, k.1, failing, position.amount, agentFill);
    var holder := if claim.holder == "" then h.tradeWallet else claim.holder;
    // a failed balance read is caught, and then nothing is recorded
    if claim.held > 0.0 || holder !in failing {
      RecordClaim(adapter, holder, e.externalId, k.1, claim.held, position.amount);
    }
    u.positions := u.positions[k := position.(status := Closed)];
    r := Ok(holder);
  }

  /** The claimed account really holds what is claimed. */
  lemma HeldClaim(adapter: Adapter, h: Holder, e: Event, s: Outcome, failing: set<string>, positionAmount: real,
                  agentFill: bool)
    requires SomeoneHolds(adapter, h, e, s, failing)
    ensures var c := ResolvedClaim(adapter, h, e, s, failing, positionAmount, agentFill);
            c.holder != "" && c.held == adapter.Balance(c.holder, e.externalId, s) > 0.0
            && (SixPlaces(c.held) ==> ToRaw(c.held) > 0)
  {
    FirstHolderIs(adapter, h.Candidates(), e, s, failing);
    var c := ResolvedClaim(adapter, h, e, s, failing, positionAmount, agentFill);
    if SixPlaces(c.held) {
      var n :| c.held == Millionths(n);
      RoundHalfEvenUnique(c.held * 1000000.0, n);
    }
  }

  /** Prepare then confirm, for six-decimal balances, some account being readable and holding tokens: it goes through
      exactly when the transaction can be built and signed; then the chosen holder ends at zero, no other balance
      moves, none is negative, and a won position cannot be prepared again, so its tokens are all redeemed exactly
      when no other readable account held any. */
  method ClaimWon(u: UserPortfolio, k: Key, adapter: Adapter, h: Holder, e: Event, failing: set<string>, wallet: string,
                  agentFill: bool, now: int, txBuilt: bool, sessionClaims: bool)
    returns (r: Result<string>)
    requires e.externalId != ""
    requires forall a :: SixPlaces(adapter.Balance(a, e.externalId, k.1))
    requires SomeoneHolds(adapter, h, e, k.1, failing)
    requires k in u.positions && Wins(e, k.1) && Claimable(u.trades, k, u.positions[k], e)
    modifies u`positions, adapter`redeemed
    ensures r.Ok? <==>
              var c := old(ResolvedClaim(adapter, h, e, k.1, failing, u.positions[k].amount, agentFill));
              && txBuilt
              && if c.viaSmartAccount then sessionClaims else wallet != "" && (c.signer == "" || c.signer == wallet)
    ensures r.Error? ==> u.positions == old(u.positions) && adapter.redeemed == old(adapter.redeemed)
    ensures r.Ok? ==>
              && old(Chosen(adapter, h, e, k.1, failing, r.value))
              && (forall a, m, s :: adapter.Balance(a, m, s) ==
                    if a == r.value && m == e.externalId && s == k.1 then 0.0 else old(adapter.Balance(a, m, s)))
              && (forall a, m, s :: adapter.Balance(a, m, s) >= 0.0)
              && k in u.positions && !Claimable(u.trades, k, u.positions[k], e)
              && (SomeoneHolds(adapter, h, e, k.1, failing) <==>
                    exists a :: a in h.Candidates() && a != r.value && old(Holds(adapter, e, k.1, failing, a)))
  {
    hide Chosen, ResultOf, ToRaw, SixPlaces, ResolvedClaim;
    HeldClaim(adapter, h, e, k.1, failing, u.positions[k].amount, agentFill);
    var prepared := PreparePositionRedeem(u, k, adapter, h, e, failing, wallet, agentFill, now, txBuilt);
    if prepared.Error? { return Error(prepared.message); }
    if prepared.value.0.viaSmartAccount && !sessionClaims {
      return Error("These winnings are on your Smart Account.");
    }
    r := ConfirmPositionRedeem(u, k, adapter, h, e, failing, agentFill, true);
    RawExact(old(adapter.Balance(r.value, e.externalId, k.1)));
    assert forall a :: Holds(adapter, e, k.1, failing, a) <==> a != r.value && old(Holds(adapter, e, k.1, failing, a));
  }
}
