/** Caveat terms: which function selectors a signed grant lets the session key call. */
module Selectors {
  import opened Wrappers
  import opened Bytes
  import opened Abi
  import opened Delegation

  type Selector = s: seq<Byte> | |s| == 4 witness Zeros(4)

  const PLACE_BINARY_ORDER: Selector := [0x71, 0x8c, 0x2d, 0x4d]
  const APPROVE: Selector := [0x09, 0x5e, 0xa7, 0xb3]
  const SET_OPERATOR: Selector := [0x55, 0x8a, 0x72, 0x97]
  const REDEEM: Selector := [0x5b, 0x1f, 0xfc, 0xf2]
  const FINALIZE_MARKET: Selector := [0x62, 0x6c, 0xb2, 0x57]
  const POKE_ORACLE: Selector := [0xbd, 0xdb, 0x5d, 0xef]
  const SYNC_SETTLEMENT: Selector := [0x68, 0x7d, 0x0a, 0x78]
  const TRANSFER: Selector := [0xa9, 0x05, 0x9c, 0xbb]

  const ALLOWED_CALL_SELECTORS: seq<Selector> :=
    [PLACE_BINARY_ORDER, APPROVE, SET_OPERATOR, REDEEM, FINALIZE_MARKET, POKE_ORACLE, SYNC_SETTLEMENT]

  function Join(ss: seq<Selector>): seq<Byte> {
    if ss == [] then [] else ss[0] + Join(ss[1..])
  }

  /** The 4-byte chunks of packed terms. */
  function Chunks(raw: seq<Byte>): set<seq<Byte>> {
    if raw == [] then {} else if |raw| < 4 then {raw} else {raw[..4]} + Chunks(raw[4..])
  }

  function SetOf(ss: seq<Selector>): set<seq<Byte>> { set s: seq<Byte> | s in ss }

  lemma {:induction false} ChunksOfJoin(ss: seq<Selector>)
    ensures |Join(ss)| == 4 * |ss|
    ensures Chunks(Join(ss)) == SetOf(ss)
  {
    if ss != [] {
      ChunksOfJoin(ss[1..]);
      assert Join(ss)[..4] == ss[0] && Join(ss)[4..] == Join(ss[1..]);
      assert SetOf(ss) == {ss[0]} + SetOf(ss[1..]) by { assert ss == [ss[0]] + ss[1..]; }
    }
  }

  /** Terms that can be read as packed selectors: hex, non-empty, a multiple of four bytes. */
  function PackedTerms(c: Caveat): Option<seq<Byte>> {
    if c.terms == "" || c.terms == "0x" then None
    else
      var raw := HexToBytes(c.terms);
      if raw.None? || raw.value == [] || |raw.value| % 4 != 0 then None else raw
  }

  predicate FromMethodsEnforcer(c: Caveat, methods: Option<Address>) {
    methods.Some? && c.enforcer == methods.value && PackedTerms(c).Some?
  }

  /** Without the methods enforcer, terms of any other length than one word are taken. */
  predicate LooksLikeSelectors(c: Caveat) { PackedTerms(c).Some? && |PackedTerms(c).value| != 32 }

  ghost predicate FirstFromEnforcer(cs: seq<Caveat>, methods: Option<Address>, i: int) {
    && 0 <= i < |cs| && FromMethodsEnforcer(cs[i], methods)
    && forall j :: 0 <= j < i ==> !FromMethodsEnforcer(cs[j], methods)
  }

  ghost predicate FirstLooking(cs: seq<Caveat>, i: int) {
    0 <= i < |cs| && LooksLikeSelectors(cs[i]) && forall j :: 0 <= j < i ==> !LooksLikeSelectors(cs[j])
  }

  ghost predicate NoneFromEnforcer(cs: seq<Caveat>, methods: Option<Address>) {
    forall c :: c in cs ==> !FromMethodsEnforcer(c, methods)
  }

  /** The first caveat of the methods enforcer decides; failing that, the first whose terms look
      like selectors; failing that, nothing is restricted. */
  ghost predicate Allows(cs: seq<Caveat>, methods: Option<Address>, r: Option<set<seq<Byte>>>) {
    || (exists i :: FirstFromEnforcer(cs, methods, i) && r == Some(Chunks(PackedTerms(cs[i]).value)))
    || (NoneFromEnforcer(cs, methods) && exists i :: FirstLooking(cs, i) && r == Some(Chunks(PackedTerms(cs[i]).value)))
    || (NoneFromEnforcer(cs, methods) && (forall c :: c in cs ==> !LooksLikeSelectors(c)) && r == None)
  }

  /** allowed_method_selectors: None means unrestricted. */
  method AllowedMethodSelectors(cs: seq<Caveat>, methods: Option<Address>) returns (r: Option<set<seq<Byte>>>)
    ensures Allows(cs, methods, r)
  {
    var found: Option<set<seq<Byte>>> := None;
    for i := 0 to |cs|
      invariant forall j :: 0 <= j < i ==> !FromMethodsEnforcer(cs[j], methods)
      invariant found.None? ==> forall j :: 0 <= j < i ==> !LooksLikeSelectors(cs[j])
      invariant found.Some? ==> exists j :: FirstLooking(cs, j) && found == Some(Chunks(PackedTerms(cs[j]).value))
    {
      var raw := PackedTerms(cs[i]);
      if raw.None? { continue; }
      var packed := Chunks(raw.value);
      if methods.Some? && cs[i].enforcer == methods.value {
        assert FirstFromEnforcer(cs, methods, i);
        return Some(packed);
      }
      if |raw.value| == 32 { continue; }
      if found.None? {
        found := Some(packed);
        assert FirstLooking(cs, i);
      }
    }
    r := found;
  }

  /** grant_allows_calldata, for the selector set read from the grant. */
  predicate AllowsCalldata(allowed: Option<set<seq<Byte>>>, data: string) {
    allowed.None? ||
    var raw := HexToBytes(if data == "" then "0x" else data);
    raw.Some? && |raw.value| >= 4 && raw.value[..4] in allowed.value
  }

  function BytesCaveat(enforcer: Address, terms: seq<Byte>): Caveat { Caveat(enforcer, "0x" + Hex(terms), "0x") }

  function SelectorCaveat(enforcer: Address, ss: seq<Selector>): Caveat { BytesCaveat(enforcer, Join(ss)) }

  lemma SelectorTermsReadBack(enforcer: Address, ss: seq<Selector>)
    requires ss != []
    ensures PackedTerms(SelectorCaveat(enforcer, ss)) == Some(Join(ss))
  {
    hide Chunks, SetOf, Join, Hex, HexToBytes;
    ChunksOfJoin(ss);
    HexRoundTrip(Join(ss));
    HexLength(Join(ss));
  }

  /** Main result: one methods-enforcer caveat with packed selectors S restricts the grant to exactly
      S, whatever other caveats stand before and after it. */
  lemma SelectorsRoundTrip(before: seq<Caveat>, methods: Address, ss: seq<Selector>, after: seq<Caveat>,
                           r: Option<set<seq<Byte>>>)
    requires ss != []
    requires forall c :: c in before || c in after ==> c.enforcer != methods
    requires Allows(before + [SelectorCaveat(methods, ss)] + after, Some(methods), r)
    ensures r == Some(SetOf(ss))
  {
    var c := SelectorCaveat(methods, ss);
    var cs := before + [c] + after;
    SelectorTermsReadBack(methods, ss);
    ChunksOfJoin(ss);
    assert cs[|before|] == c && c in cs;
    assert FromMethodsEnforcer(c, Some(methods));
    assert forall j :: 0 <= j < |before| ==> cs[j] in before;
    assert forall i :: FirstFromEnforcer(cs, Some(methods), i) ==> i == |before|;
  }

  datatype Enforcers = Enforcers(methods: Option<Address>, targets: Option<Address>, valueLte: Option<Address>,
                                 timestamp: Option<Address>)

  /** Timestamp terms: a 16-byte lower bound of zero and a 16-byte upper bound. */
  function TimestampTerms(expiresAt: int): seq<Byte> {
    ToBytes(0, 16) + ToBytes(if expiresAt < 0 then 0 else expiresAt, 16)
  }

  lemma TimestampRoundTrip(expiresAt: int)
    requires expiresAt < TIMESTAMP_LIMIT
    ensures |TimestampTerms(expiresAt)| == 32
    ensures FromBytes(TimestampTerms(expiresAt)[..16]) == 0
    ensures FromBytes(TimestampTerms(expiresAt)[16..]) == if expiresAt < 0 then 0 else expiresAt
  {
    var terms := TimestampTerms(expiresAt);
    assert Pow256(4) == 0x1_00000000;
    Pow256Add(4, 4);
    Pow256Add(8, 8);
    assert terms[..16] == ToBytes(0, 16) && terms[16..] == ToBytes(if expiresAt < 0 then 0 else expiresAt, 16);
    IntegerRoundTrip(0, 16);
    IntegerRoundTrip(if expiresAt < 0 then 0 else expiresAt, 16);
  }

  const TIMESTAMP_LIMIT := 0x1_00000000_00000000_00000000_00000000

  /** A caveat is added only when its enforcer is configured. */
  function IfConfigured(enforcer: Option<Address>, terms: seq<Byte>): seq<Caveat> {
    if enforcer.Some? then [BytesCaveat(enforcer.value, terms)] else []
  }

  predicate TimestampOverflows(env: Enforcers, expiresAt: int) { env.timestamp.Some? && expiresAt >= TIMESTAMP_LIMIT }

  /** The caveats both grants end with: no native value, and an expiry. */
  function ValueAndExpiry(env: Enforcers, expiresAt: int): seq<Caveat> {
    IfConfigured(env.valueLte, Uint256(0)) + IfConfigured(env.timestamp, TimestampTerms(expiresAt))
  }

  /** function_call_caveats */
  function FunctionCallCaveats(env: Enforcers, expiresAt: int): Result<seq<Caveat>> {
    if TimestampOverflows(env, expiresAt) then Error("int too big to convert")
    else Ok(IfConfigured(env.methods, Join(ALLOWED_CALL_SELECTORS)) + ValueAndExpiry(env, expiresAt))
  }

  /** owner_withdraw_caveats */
  function OwnerWithdrawCaveats(env: Enforcers, expiresAt: int, token: Option<Address>): Result<seq<Caveat>> {
    if TimestampOverflows(env, expiresAt) then Error("int too big to convert")
    else
      var targets := if token.Some? then IfConfigured(env.targets, token.value) else [];
      Ok(IfConfigured(env.methods, TRANSFER) + targets + ValueAndExpiry(env, expiresAt))
  }

  /** A caveat of this enforcer whose terms are these bytes, without arguments. */
  ghost predicate IsCaveat(c: Caveat, enforcer: Address, terms: seq<Byte>) {
    c.enforcer == enforcer && HexToBytes(c.terms) == Some(terms) && c.args == "0x"
  }

  /** Sixteen zero bytes and the expiry in sixteen more, zero when it is negative. */
  ghost predicate IsExpiry(terms: seq<Byte>, expiresAt: int) {
    && |terms| == 32 && (forall i :: 0 <= i < 16 ==> terms[i] == 0)
    && FromBytes(terms[16..]) == if expiresAt < 0 then 0 else expiresAt
  }

  /** The caveats of a grant, one for each configured enforcer and in this order: the allowed methods, for a withdrawal
      the token, no native value, and the expiry. */
  ghost predicate IsGrant(cs: seq<Caveat>, env: Enforcers, methods: seq<Byte>, token: Option<Address>, expiresAt: int) {
    var m := if env.methods.Some? then 1 else 0;
    var k := m + if env.targets.Some? && token.Some? then 1 else 0;
    var v := k + if env.valueLte.Some? then 1 else 0;
    var n := v + if env.timestamp.Some? then 1 else 0;
    && |cs| == n
    && (env.methods.Some? ==> IsCaveat(cs[0], env.methods.value, methods))
    && (env.targets.Some? && token.Some? ==> IsCaveat(cs[m], env.targets.value, token.value))
    && (env.valueLte.Some? ==> IsCaveat(cs[k], env.valueLte.value, seq(32, _ => 0)))
    && (env.timestamp.Some? ==>
          exists terms :: IsCaveat(cs[v], env.timestamp.value, terms) && IsExpiry(terms, expiresAt))
  }

  /** Both grants carry exactly their caveats, each only when its enforcer is configured; the expiry has to fit 16 bytes
      when its enforcer is. */
  lemma GrantsCarry(env: Enforcers, expiresAt: int, token: Option<Address>)
    ensures var r := FunctionCallCaveats(env, expiresAt);
            && (r.Error? <==> env.timestamp.Some? && expiresAt >= Pow256(16))
            && (r.Ok? ==> IsGrant(r.value, env, PLACE_BINARY_ORDER + APPROVE + SET_OPERATOR + REDEEM + FINALIZE_MARKET
                                                + POKE_ORACLE + SYNC_SETTLEMENT, None, expiresAt))
    ensures var r := OwnerWithdrawCaveats(env, expiresAt, token);
            && (r.Error? <==> env.timestamp.Some? && expiresAt >= Pow256(16))
            && (r.Ok? ==> IsGrant(r.value, env, TRANSFER, token, expiresAt))
  {
    hide IsGrant, Join, IfConfigured, ValueAndExpiry, Pow256;
    TimestampLimit();
    SevenSelectors();
    if !TimestampOverflows(env, expiresAt) {
      GrantOf(env, Join(ALLOWED_CALL_SELECTORS), None, expiresAt);
      GrantOf(env, TRANSFER, token, expiresAt);
      var methods := IfConfigured(env.methods, Join(ALLOWED_CALL_SELECTORS));
      assert methods + [] == methods;
    }
  }

  lemma GrantOf(env: Enforcers, methods: seq<Byte>, token: Option<Address>, expiresAt: int)
    requires !TimestampOverflows(env, expiresAt)
    ensures var targets := if token.Some? then IfConfigured(env.targets, token.value) else [];
            IsGrant(IfConfigured(env.methods, methods) + targets + ValueAndExpiry(env, expiresAt), env, methods, token,
                    expiresAt)
  {
    hide IsCaveat, IsExpiry, IfConfigured, TimestampTerms, Uint256;
    ConfiguredReads(env.methods, methods);
    if token.Some? { ConfiguredReads(env.targets, token.value); }
    ZeroWord();
    ConfiguredReads(env.valueLte, Uint256(0));
    ConfiguredReads(env.timestamp, TimestampTerms(expiresAt));
    if env.timestamp.Some? { ExpiryTerms(expiresAt); }
  }

  lemma ConfiguredReads(enforcer: Option<Address>, terms: seq<Byte>)
    ensures enforcer.Some? ==> |IfConfigured(enforcer, terms)| == 1
                               && IsCaveat(IfConfigured(enforcer, terms)[0], enforcer.value, terms)
    ensures enforcer.None? ==> IfConfigured(enforcer, terms) == []
  {
    HexRoundTrip(terms);
  }

  lemma TimestampLimit()
    ensures TIMESTAMP_LIMIT == Pow256(16)
  {
    assert Pow256(4) == 0x1_00000000;
    Pow256Add(4, 4);
    Pow256Add(8, 8);
  }

  lemma SevenSelectors()
    ensures Join(ALLOWED_CALL_SELECTORS) == PLACE_BINARY_ORDER + APPROVE + SET_OPERATOR + REDEEM + FINALIZE_MARKET
                                            + POKE_ORACLE + SYNC_SETTLEMENT
  {
    var s := ALLOWED_CALL_SELECTORS;
    assert s[1..][1..] == s[2..] && s[2..][1..] == s[3..] && s[3..][1..] == s[4..];
    assert s[4..][1..] == s[5..] && s[5..][1..] == s[6..] && s[6..][1..] == [];
    assert Join(s[6..]) == SYNC_SETTLEMENT;
    assert Join(s[5..]) == POKE_ORACLE + SYNC_SETTLEMENT;
    assert Join(s[4..]) == FINALIZE_MARKET + POKE_ORACLE + SYNC_SETTLEMENT;
    assert Join(s[3..]) == REDEEM + FINALIZE_MARKET + POKE_ORACLE + SYNC_SETTLEMENT;
    assert Join(s[2..]) == SET_OPERATOR + REDEEM + FINALIZE_MARKET + POKE_ORACLE + SYNC_SETTLEMENT;
    assert Join(s[1..]) == APPROVE + SET_OPERATOR + REDEEM + FINALIZE_MARKET + POKE_ORACLE + SYNC_SETTLEMENT;
  }

  lemma ZeroWord()
    ensures Uint256(0) == seq(32, _ => 0)
  {
    forall i | 0 <= i < 32 ensures Digit(0, 32, i) == 0 { Pow256Positive(31 - i); }
  }

  lemma ExpiryTerms(expiresAt: int)
    requires expiresAt < TIMESTAMP_LIMIT
    ensures IsExpiry(TimestampTerms(expiresAt), expiresAt)
  {
    TimestampRoundTrip(expiresAt);
    forall i | 0 <= i < 16 ensures TimestampTerms(expiresAt)[i] == 0 {
      Pow256Positive(15 - i);
      assert TimestampTerms(expiresAt)[i] == Digit(0, 16, i);
    }
  }

  /** The configured enforcer contracts are different contracts. */
  predicate EnforcersDiffer(env: Enforcers) {
    env.methods.Some? ==> env.targets != env.methods && env.valueLte != env.methods && env.timestamp != env.methods
  }

  /** What a trade grant allows: exactly its seven selectors when the methods enforcer is configured,
      and everything when it is not. */
  lemma TradeGrantAllows(env: Enforcers, expiresAt: int, r: Option<set<seq<Byte>>>)
    requires EnforcersDiffer(env) && !TimestampOverflows(env, expiresAt)
    requires Allows(FunctionCallCaveats(env, expiresAt).value, env.methods, r)
    ensures r == if env.methods.Some? then Some(SetOf(ALLOWED_CALL_SELECTORS)) else None
  {
    hide ValueAndExpiry, Allows, SetOf;
    var tail := ValueAndExpiry(env, expiresAt);
    if env.methods.Some? {
      ExpiryIsElsewhere(env, expiresAt);
      ConfiguredSelectors(env.methods.value, ALLOWED_CALL_SELECTORS, tail, r);
    } else {
      ExpiryIsNoSelectorList(env, expiresAt);
      assert [] + tail == tail;
      NothingConfigured(tail, r);
    }
  }

  lemma ExpiryIsElsewhere(env: Enforcers, expiresAt: int)
    requires EnforcersDiffer(env) && env.methods.Some? && !TimestampOverflows(env, expiresAt)
    ensures forall c :: c in ValueAndExpiry(env, expiresAt) ==> Some(c.enforcer) != env.methods
  {
  }

  lemma ExpiryIsNoSelectorList(env: Enforcers, expiresAt: int)
    requires !TimestampOverflows(env, expiresAt)
    ensures forall c :: c in ValueAndExpiry(env, expiresAt) ==> !LooksLikeSelectors(c)
  {
    hide LooksLikeSelectors;
    WordTermsAreNotSelectors(Uint256(0));
    if env.timestamp.Some? { WordTermsAreNotSelectors(TimestampTerms(expiresAt)); }
  }

  lemma NothingConfigured(cs: seq<Caveat>, r: Option<set<seq<Byte>>>)
    requires Allows(cs, None, r) && forall c :: c in cs ==> !LooksLikeSelectors(c)
    ensures r == None
  {
  }

  lemma ConfiguredSelectors(methods: Address, ss: seq<Selector>, tail: seq<Caveat>, r: Option<set<seq<Byte>>>)
    requires ss != [] && forall c :: c in tail ==> c.enforcer != methods
    requires Allows(IfConfigured(Some(methods), Join(ss)) + tail, Some(methods), r)
    ensures r == Some(SetOf(ss))
  {
    assert IfConfigured(Some(methods), Join(ss)) + tail == [] + [SelectorCaveat(methods, ss)] + tail;
    SelectorsRoundTrip([], methods, ss, tail, r);
  }

  lemma WordTermsAreNotSelectors(word: seq<Byte>)
    requires |word| == 32
    ensures forall a :: !LooksLikeSelectors(BytesCaveat(a, word))
  {
    HexRoundTrip(word);
  }

  /** What a withdraw grant allows: only transfer when the methods enforcer is configured. Without it, a pinned
      token makes the five four-byte pieces of its address the allowed selectors, because twenty bytes of terms look
      like selectors; and without a pinned token nothing is restricted. */
  lemma WithdrawGrantAllows(env: Enforcers, expiresAt: int, token: Option<Address>, r: Option<set<seq<Byte>>>)
    requires EnforcersDiffer(env) && !TimestampOverflows(env, expiresAt)
    requires Allows(OwnerWithdrawCaveats(env, expiresAt, token).value, env.methods, r)
    ensures r == if env.methods.Some? then Some(SetOf([TRANSFER]))
                 else if env.targets.Some? && token.Some? then Some(Chunks(token.value)) else None
  {
    hide ValueAndExpiry, Allows, SetOf, Chunks;
    var targets := if token.Some? then IfConfigured(env.targets, token.value) else [];
    var tail := targets + ValueAndExpiry(env, expiresAt);
    if env.methods.Some? {
      ExpiryIsElsewhere(env, expiresAt);
      assert Join([TRANSFER]) == TRANSFER;
      var head := IfConfigured(env.methods, TRANSFER);
      assert head + targets + ValueAndExpiry(env, expiresAt) == head + tail;
      ConfiguredSelectors(env.methods.value, [TRANSFER], tail, r);
    } else {
      ExpiryIsNoSelectorList(env, expiresAt);
      assert IfConfigured(env.methods, TRANSFER) + targets + ValueAndExpiry(env, expiresAt) == tail;
      if targets == [] {
        assert [] + ValueAndExpiry(env, expiresAt) == ValueAndExpiry(env, expiresAt);
        NothingConfigured(tail, r);
      } else {
        TokenLooksLikeSelectors(env.targets.value, token.value);
        FirstLooksLike(targets[0], ValueAndExpiry(env, expiresAt), r);
      }
    }
  }

  lemma TokenLooksLikeSelectors(enforcer: Address, token: Address)
    ensures PackedTerms(BytesCaveat(enforcer, token)) == Some(token) && LooksLikeSelectors(BytesCaveat(enforcer, token))
  {
    hide Hex, HexToBytes;
    HexRoundTrip(token);
    HexLength(token);
  }

  lemma FirstLooksLike(c: Caveat, rest: seq<Caveat>, r: Option<set<seq<Byte>>>)
    requires LooksLikeSelectors(c) && Allows([c] + rest, None, r)
    ensures r == Some(Chunks(PackedTerms(c).value))
  {
    hide Chunks, PackedTerms;
    assert FirstLooking([c] + rest, 0);
  }

  /** encode_erc20_transfer */
  function EncodeErc20Transfer(to: Address, amount: nat): string {
    "0x" + Hex(TRANSFER + EncodeAll([VWord(AddressWord(to)), VWord(Uint256(amount))]))
  }

  /** Calldata of any function: a grant decides on its selector alone. */
  lemma CalldataDecidedBySelector(allowed: set<seq<Byte>>, s: Selector, args: seq<Byte>)
    ensures AllowsCalldata(Some(allowed), "0x" + Hex(s + args)) <==> s in allowed
  {
    HexRoundTrip(s + args);
    assert (s + args)[..4] == s;
  }

  /** The trade grant never moves tokens out; the withdraw grant does nothing else. */
  lemma TransferOnlyByWithdrawGrant(to: Address, amount: nat)
    ensures !AllowsCalldata(Some(SetOf(ALLOWED_CALL_SELECTORS)), EncodeErc20Transfer(to, amount))
    ensures AllowsCalldata(Some(SetOf([TRANSFER])), EncodeErc20Transfer(to, amount))
    ensures forall s :: s in ALLOWED_CALL_SELECTORS ==> s != TRANSFER
  {
    var args := EncodeAll([VWord(AddressWord(to)), VWord(Uint256(amount))]);
    assert forall s :: s in ALLOWED_CALL_SELECTORS ==> s[0] != TRANSFER[0];
    CalldataDecidedBySelector(SetOf(ALLOWED_CALL_SELECTORS), TRANSFER, args);
    CalldataDecidedBySelector(SetOf([TRANSFER]), TRANSFER, args);
  }
}
