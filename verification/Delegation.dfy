/** redeemDelegations calldata: several permission contexts in one transaction, each with one
    ERC-7579 packed execution in the single-default mode, and the decoder that inverts it. */
module Delegation {
  import opened Wrappers
  import opened Bytes
  import opened Abi

  type Address = a: seq<Byte> | |a| == 20 witness Zeros(20)

  datatype Caveat = Caveat(enforcer: Address, terms: string, args: string)

  datatype SignedDelegation = SignedDelegation(delegate: Address, delegator: Address, authority: string,
                                               caveats: seq<Caveat>, salt: int, signature: string)

  /** A (target, value, calldata) triple with the calldata still in hex. */
  datatype Call = Call(target: Address, value: int, data: string)

  datatype Execution = Execution(target: Address, value: nat, data: seq<Byte>)

  datatype PlainCaveat = PlainCaveat(enforcer: Address, terms: seq<Byte>, args: seq<Byte>)

  datatype PlainDelegation = PlainDelegation(delegate: Address, delegator: Address, authority: seq<Byte>,
                                             caveats: seq<PlainCaveat>, salt: nat, signature: seq<Byte>)

  const REDEEM_DELEGATIONS_SELECTOR: seq<Byte> := [0xce, 0xf6, 0xd2, 0x09]
  const SINGLE_DEFAULT_MODE: seq<Byte> := Zeros(32)

  predicate StartsWith(s: string, prefix: string) { |s| >= |prefix| && s[..|prefix|] == prefix }

  function OrEmptyHex(s: string): string { if s == "" then "0x" else s }

  function PlainCaveatOf(c: Caveat): Option<PlainCaveat> {
    var terms, args := HexToBytes(OrEmptyHex(c.terms)), HexToBytes(OrEmptyHex(c.args));
    if terms.None? || args.None? then None else Some(PlainCaveat(c.enforcer, terms.value, args.value))
  }

  function PlainCaveatsOf(cs: seq<Caveat>): Option<seq<PlainCaveat>> {
    if cs == [] then Some([])
    else
      var front, last := PlainCaveatsOf(cs[..|cs| - 1]), PlainCaveatOf(cs[|cs| - 1]);
      if front.None? || last.None? then None else Some(front.value + [last.value])
  }

  /** A signature that is not real hex is replaced by 65 zero bytes. */
  function SignatureBytes(signature: string): Option<seq<Byte>> {
    if StartsWith(signature, "0x") && !StartsWith(signature, "0xmock") then HexToBytes(signature) else Some(Zeros(65))
  }

  /** bytes32 values shorter than a word are padded on the right; longer ones are rejected. */
  function Bytes32(data: seq<Byte>): Option<seq<Byte>> {
    if |data| > WORD then None else Some(data + Zeros(WORD - |data|))
  }

  function AuthorityWord(authority: string): Option<seq<Byte>> {
    var raw := HexToBytes(authority);
    if raw.None? then None else Bytes32(raw.value)
  }

  predicate IsUint256(n: int) { 0 <= n && Fits(n) }

  function PlainDelegationOf(d: SignedDelegation): Option<PlainDelegation> {
    var caveats, sig, authority := PlainCaveatsOf(d.caveats), SignatureBytes(d.signature), AuthorityWord(d.authority);
    if caveats.None? || sig.None? || authority.None? || !IsUint256(d.salt) then None
    else Some(PlainDelegation(d.delegate, d.delegator, authority.value, caveats.value, d.salt, sig.value))
  }

  function ExecutionOf(c: Call): Option<Execution> {
    var data := HexToBytes(c.data);
    if data.None? || !IsUint256(c.value) then None else Some(Execution(c.target, c.value, data.value))
  }

  function ExecutionsOf(cs: seq<Call>): Option<seq<Execution>> {
    if cs == [] then Some([])
    else
      var front, last := ExecutionsOf(cs[..|cs| - 1]), ExecutionOf(cs[|cs| - 1]);
      if front.None? || last.None? then None else Some(front.value + [last.value])
  }

  /** encode_single_execution_packed: target, 32-byte value, calldata, nothing between them. */
  function Pack(e: Execution): seq<Byte> { e.target + Uint256(e.value) + e.data }

  function Unpack(p: seq<Byte>): Option<Execution> {
    if |p| < 52 then None else Some(Execution(p[..20], FromBytes(p[20..52]), p[52..]))
  }

  lemma PackRoundTrip(e: Execution)
    requires Fits(e.value)
    ensures Unpack(Pack(e)) == Some(e)
  {
    Uint256RoundTrip(e.value);
    var p := Pack(e);
    assert p[..20] == e.target && p[20..52] == Uint256(e.value) && p[52..] == e.data;
  }

  /** Every byte string long enough is the packing of exactly one execution. */
  lemma UnpackRoundTrip(p: seq<Byte>)
    requires |p| >= 52
    ensures Pack(Unpack(p).value) == p
  {
    BytesRoundTrip(p[20..52]);
    assert p == p[..20] + p[20..52] + p[52..];
  }

  function AddressWord(a: Address): seq<Byte> { Zeros(12) + a }

  function CaveatVal(c: PlainCaveat): Val { VTuple([VWord(AddressWord(c.enforcer)), VBlob(c.terms), VBlob(c.args)]) }

  function DelegationVal(d: PlainDelegation): Val {
    VTuple([VWord(AddressWord(d.delegate)), VWord(AddressWord(d.delegator)), VWord(d.authority),
            VArray(seq(|d.caveats|, i requires 0 <= i < |d.caveats| => CaveatVal(d.caveats[i]))),
            VWord(Uint256(d.salt)), VBlob(d.signature)])
  }

  const CAVEAT_TYPE := Tuple([Word, Blob, Blob])
  const DELEGATION_TYPE := Tuple([Word, Word, Word, Array(CAVEAT_TYPE), Word, Blob])
  const CONTEXT_TYPES := [Array(DELEGATION_TYPE)]
  const REDEEM_TYPES := [Array(Blob), Array(Word), Array(Blob)]

  /** A permission context is the ABI encoding of a one-element delegation array. */
  function Context(d: PlainDelegation): seq<Byte> { EncodeAll([VArray([DelegationVal(d)])]) }

  function Blobs(bs: seq<seq<Byte>>): Val { VArray(seq(|bs|, i requires 0 <= i < |bs| => VBlob(bs[i]))) }

  function Words(ws: seq<seq<Byte>>): Val { VArray(seq(|ws|, i requires 0 <= i < |ws| => VWord(ws[i]))) }

  function Copies(b: seq<Byte>, n: nat): seq<seq<Byte>> { seq(n, _ => b) }

  function PackAll(es: seq<Execution>): seq<seq<Byte>> { seq(|es|, i requires 0 <= i < |es| => Pack(es[i])) }

  function RedeemArgs(d: PlainDelegation, es: seq<Execution>): seq<Val> {
    [Blobs(Copies(Context(d), |es|)), Words(Copies(SINGLE_DEFAULT_MODE, |es|)), Blobs(PackAll(es))]
  }

  function RedeemBytes(d: PlainDelegation, es: seq<Execution>): seq<Byte> {
    REDEEM_DELEGATIONS_SELECTOR + EncodeAll(RedeemArgs(d, es))
  }

  /** The hex calldata, or an error when a field is not hex or out of range. */
  function RedeemCalldata(d: SignedDelegation, calls: seq<Call>): Result<string> {
    var plain, es := PlainDelegationOf(d), ExecutionsOf(calls);
    if plain.None? || es.None? then Error("cannot encode") else Ok("0x" + Hex(RedeemBytes(plain.value, es.value)))
  }

  /** A signature is taken as it stands when it starts with 0x and is not a placeholder. */
  ghost predicate RealSignature(signature: string) {
    && |signature| >= 2 && signature[0] == '0' && signature[1] == 'x'
    && !(|signature| >= 6 && signature[..6] == "0xmock")
  }

  ghost predicate HexOrEmpty(s: string) { s == "" || HexToBytes(s).Some? }

  /** Everything a caller has to pass for an encoding to exist. */
  ghost predicate Encodable(d: SignedDelegation, calls: seq<Call>) {
    && (forall c :: c in calls ==> HexToBytes(c.data).Some? && 0 <= c.value < UINT256_LIMIT)
    && (forall c :: c in d.caveats ==> HexOrEmpty(c.terms) && HexOrEmpty(c.args))
    && HexToBytes(d.authority).Some? && |HexToBytes(d.authority).value| <= 32
    && (RealSignature(d.signature) ==> HexToBytes(d.signature).Some?)
    && 0 <= d.salt < UINT256_LIMIT
  }

  /** Calldata is built if and only if every field is hex and in range. */
  lemma EncodesIff(d: SignedDelegation, calls: seq<Call>)
    ensures RedeemCalldata(d, calls).Ok? <==> Encodable(d, calls)
  {
    hide HexToBytes, RedeemBytes;
    CaveatsEncodeIff(d.caveats);
    CallsEncodeIff(calls);
    RealSignatureMeans(d.signature);
  }

  lemma RealSignatureMeans(signature: string)
    ensures RealSignature(signature) <==> StartsWith(signature, "0x") && !StartsWith(signature, "0xmock")
    ensures HexToBytes(OrEmptyHex("")) == Some([])
  {
    if |signature| >= 2 { assert signature[..2] == [signature[0], signature[1]]; }
  }

  lemma {:induction false} CaveatsEncodeIff(cs: seq<Caveat>)
    ensures PlainCaveatsOf(cs).Some? <==> forall c :: c in cs ==> HexOrEmpty(c.terms) && HexOrEmpty(c.args)
  {
    hide HexToBytes;
    RealSignatureMeans("");
    if cs != [] {
      CaveatsEncodeIff(cs[..|cs| - 1]);
      assert cs == cs[..|cs| - 1] + [cs[|cs| - 1]];
    }
  }

  lemma {:induction false} CallsEncodeIff(cs: seq<Call>)
    ensures ExecutionsOf(cs).Some? <==> forall c :: c in cs ==> HexToBytes(c.data).Some? && 0 <= c.value < UINT256_LIMIT
  {
    hide HexToBytes;
    if cs != [] {
      CallsEncodeIff(cs[..|cs| - 1]);
      assert cs == cs[..|cs| - 1] + [cs[|cs| - 1]];
    }
  }

  /** encode_redeem_delegations_calldata: pre executions, then the main call, then extras. */
  method EncodeRedeemDelegationsCalldata(d: SignedDelegation, target: Address, callData: string, value: int,
                                         extra: seq<Call>, pre: seq<Call>)
    returns (r: Result<string>)
    ensures r == RedeemCalldata(d, pre + [Call(target, value, callData)] + extra)
    ensures r.Ok? <==> Encodable(d, pre + [Call(target, value, callData)] + extra)
  {
    EncodesIff(d, pre + [Call(target, value, callData)] + extra);
    hide Encodable, PlainCaveatsOf, ExecutionsOf, HexToBytes;
    var caveats := EncodeCaveats(d.caveats);
    var sig, authority := SignatureBytes(d.signature), AuthorityWord(d.authority);
    if caveats.None? || sig.None? || authority.None? || !IsUint256(d.salt) { return Error("cannot encode"); }
    var plain := PlainDelegation(d.delegate, d.delegator, authority.value, caveats.value, d.salt, sig.value);
    var context := Context(plain);
    var packed := PackExecutions(pre + [Call(target, value, callData)] + extra);
    if packed.None? { return Error("cannot encode"); }
    var n := |packed.value|;
    var encoded := EncodeAll([Blobs(Copies(context, n)), Words(Copies(SINGLE_DEFAULT_MODE, n)), Blobs(packed.value)]);
    r := Ok("0x" + Hex(REDEEM_DELEGATIONS_SELECTOR + encoded));
  }

  /** The loop over caveats. */
  method EncodeCaveats(cs: seq<Caveat>) returns (r: Option<seq<PlainCaveat>>)
    ensures r == PlainCaveatsOf(cs)
  {
    var done: seq<PlainCaveat> := [];
    for i := 0 to |cs|
      invariant PlainCaveatsOf(cs[..i]) == Some(done)
    {
      assert cs[..i + 1][..i] == cs[..i];
      var c := PlainCaveatOf(cs[i]);
      if c.None? {
        CaveatPrefix(cs, i + 1);
        return None;
      }
      done := done + [c.value];
    }
    assert cs[..|cs|] == cs;
    r := Some(done);
  }

  /** The loops collecting and packing the executions. */
  method PackExecutions(calls: seq<Call>) returns (r: Option<seq<seq<Byte>>>)
    ensures ExecutionsOf(calls).None? ==> r.None?
    ensures ExecutionsOf(calls).Some? ==> r == Some(PackAll(ExecutionsOf(calls).value))
  {
    var executions: seq<Execution> := [];
    for i := 0 to |calls|
      invariant ExecutionsOf(calls[..i]) == Some(executions)
    {
      assert calls[..i + 1][..i] == calls[..i];
      var e := ExecutionOf(calls[i]);
      if e.None? {
        ExecutionPrefix(calls, i + 1);
        return None;
      }
      executions := executions + [e.value];
    }
    assert calls[..|calls|] == calls;
    var packed: seq<seq<Byte>> := [];
    for i := 0 to |executions|
      invariant packed == PackAll(executions[..i])
    {
      packed := packed + [Pack(executions[i])];
    }
    assert executions[..|executions|] == executions;
    r := Some(packed);
  }

  lemma {:induction false} CaveatPrefix(cs: seq<Caveat>, n: nat)
    requires n <= |cs| && PlainCaveatsOf(cs[..n]).None?
    ensures PlainCaveatsOf(cs).None?
    decreases |cs|
  {
    if n < |cs| {
      assert cs[..|cs| - 1][..n] == cs[..n];
      CaveatPrefix(cs[..|cs| - 1], n);
    } else {
      assert cs[..n] == cs;
    }
  }

  lemma {:induction false} ExecutionPrefix(cs: seq<Call>, n: nat)
    requires n <= |cs| && ExecutionsOf(cs[..n]).None?
    ensures ExecutionsOf(cs).None?
    decreases |cs|
  {
    if n < |cs| {
      assert cs[..|cs| - 1][..n] == cs[..n];
      ExecutionPrefix(cs[..|cs| - 1], n);
    } else {
      assert cs[..n] == cs;
    }
  }
}
