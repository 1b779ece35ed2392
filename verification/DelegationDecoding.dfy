/** Reading redeemDelegations calldata back, and the proof that nothing is lost or reordered. */
module DelegationDecoding {
  import opened Wrappers
  import opened Bytes
  import opened Abi
  import opened Delegation

  /** One (permission context, mode, execution) triple as the DelegationManager sees it. */
  datatype Redemption = Redemption(delegation: PlainDelegation, mode: seq<Byte>, execution: Execution)

  function AddressFromWord(w: seq<Byte>): Option<Address> {
    if |w| == WORD && w[..12] == Zeros(12) then Some(w[12..]) else None
  }

  function CaveatFromVal(v: Val): Option<PlainCaveat> {
    if v.VTuple? && |v.elems| == 3 && v.elems[0].VWord? && v.elems[1].VBlob? && v.elems[2].VBlob? then
      var enforcer := AddressFromWord(v.elems[0].word);
      if enforcer.None? then None else Some(PlainCaveat(enforcer.value, v.elems[1].data, v.elems[2].data))
    else None
  }

  function CaveatsFromVals(vs: seq<Val>): Option<seq<PlainCaveat>> {
    if vs == [] then Some([])
    else
      var front, last := CaveatsFromVals(vs[..|vs| - 1]), CaveatFromVal(vs[|vs| - 1]);
      if front.None? || last.None? then None else Some(front.value + [last.value])
  }

  function DelegationFromVal(v: Val): Option<PlainDelegation> {
    if v.VTuple? && |v.elems| == 6 && v.elems[0].VWord? && v.elems[1].VWord? && v.elems[2].VWord?
       && v.elems[3].VArray? && v.elems[4].VWord? && v.elems[5].VBlob?
    then
      var delegate, delegator := AddressFromWord(v.elems[0].word), AddressFromWord(v.elems[1].word);
      var caveats := CaveatsFromVals(v.elems[3].elems);
      if delegate.None? || delegator.None? || caveats.None? then None
      else Some(PlainDelegation(delegate.value, delegator.value, v.elems[2].word, caveats.value,
                                FromBytes(v.elems[4].word), v.elems[5].data))
    else None
  }

  function DecodeContext(b: seq<Byte>): Option<PlainDelegation> {
    var r := DecodeAll(CONTEXT_TYPES, b, 0);
    if r.Some? && |r.value| == 1 && r.value[0].VArray? && |r.value[0].elems| == 1
    then DelegationFromVal(r.value[0].elems[0])
    else None
  }

  function RedemptionFrom(context: Val, mode: Val, packed: Val): Option<Redemption> {
    if !context.VBlob? || !mode.VWord? || !packed.VBlob? then None
    else
      var d, e := DecodeContext(context.data), Unpack(packed.data);
      if d.None? || e.None? then None else Some(Redemption(d.value, mode.word, e.value))
  }

  function RedemptionsFrom(contexts: seq<Val>, modes: seq<Val>, packed: seq<Val>): Option<seq<Redemption>>
    requires |contexts| == |modes| == |packed|
  {
    if contexts == [] then Some([])
    else
      var n := |contexts| - 1;
      var front, last := RedemptionsFrom(contexts[..n], modes[..n], packed[..n]),
        RedemptionFrom(contexts[n], modes[n], packed[n]);
      if front.None? || last.None? then None else Some(front.value + [last.value])
  }

  function DecodeRedeemBytes(b: seq<Byte>): Option<seq<Redemption>> {
    if |b| < 4 || b[..4] != REDEEM_DELEGATIONS_SELECTOR then None
    else
      var r := DecodeAll(REDEEM_TYPES, b[4..], 0);
      if r.Some? && |r.value| == 3 && r.value[0].VArray? && r.value[1].VArray? && r.value[2].VArray?
         && |r.value[0].elems| == |r.value[1].elems| == |r.value[2].elems|
      then RedemptionsFrom(r.value[0].elems, r.value[1].elems, r.value[2].elems)
      else None
  }

  function DecodeRedeemCalldata(hex: string): Option<seq<Redemption>> {
    var b := HexToBytes(hex);
    if b.None? then None else DecodeRedeemBytes(b.value)
  }

  ghost predicate PlainWellFormed(d: PlainDelegation) { |d.authority| == WORD && Fits(d.salt) }

  lemma CaveatValRoundTrip(c: PlainCaveat)
    ensures CaveatFromVal(CaveatVal(c)) == Some(c)
    ensures Typed(CaveatVal(c), CAVEAT_TYPE)
  {
    var w := AddressWord(c.enforcer);
    assert w[..12] == Zeros(12) && w[12..] == c.enforcer;
    AllTypedPointwise(CaveatVal(c).elems, CAVEAT_TYPE.elems);
  }

  lemma {:induction false} AllTypedPointwise(vs: seq<Val>, tys: seq<Ty>)
    requires |vs| == |tys|
    requires forall i :: 0 <= i < |vs| ==> Typed(vs[i], tys[i])
    ensures AllTyped(vs, tys)
  {
    if vs != [] { AllTypedPointwise(vs[1..], tys[1..]); }
  }

  function CaveatVals(cs: seq<PlainCaveat>): seq<Val> { seq(|cs|, i requires 0 <= i < |cs| => CaveatVal(cs[i])) }

  lemma {:induction false} CaveatsRoundTrip(cs: seq<PlainCaveat>)
    ensures CaveatsFromVals(CaveatVals(cs)) == Some(cs)
  {
    if cs != [] {
      var n := |cs| - 1;
      CaveatsRoundTrip(cs[..n]);
      CaveatValRoundTrip(cs[n]);
      assert CaveatVals(cs)[..n] == CaveatVals(cs[..n]);
      assert cs == cs[..n] + [cs[n]];
    }
  }

  lemma DelegationValTyped(d: PlainDelegation)
    requires PlainWellFormed(d)
    ensures Typed(DelegationVal(d), DELEGATION_TYPE)
  {
    var cs := CaveatVals(d.caveats);
    forall i | 0 <= i < |cs| ensures Typed(cs[i], CAVEAT_TYPE) {
      CaveatValRoundTrip(d.caveats[i]);
    }
    AllTypedPointwise(cs, Repeat(CAVEAT_TYPE, |cs|));
    var v := DelegationVal(d);
    assert v.elems[3] == VArray(cs);
    AllTypedPointwise(v.elems, DELEGATION_TYPE.elems);
  }

  lemma DelegationValRoundTrip(d: PlainDelegation)
    requires PlainWellFormed(d)
    ensures DelegationFromVal(DelegationVal(d)) == Some(d)
  {
    CaveatsRoundTrip(d.caveats);
    Uint256RoundTrip(d.salt);
    var w0, w1 := AddressWord(d.delegate), AddressWord(d.delegator);
    assert w0[12..] == d.delegate && w0[..12] == Zeros(12);
    assert w1[12..] == d.delegator && w1[..12] == Zeros(12);
    assert DelegationVal(d).elems[3] == VArray(CaveatVals(d.caveats));
  }

  lemma ContextRoundTrip(d: PlainDelegation)
    requires PlainWellFormed(d) && Fits(|Context(d)|)
    ensures DecodeContext(Context(d)) == Some(d)
  {
    var v := DelegationVal(d);
    DelegationValTyped(d);
    AllTypedPointwise([v], Repeat(DELEGATION_TYPE, 1));
    AllTypedPointwise([VArray([v])], CONTEXT_TYPES);
    DecodeWhole(CONTEXT_TYPES, [VArray([v])], []);
    assert Context(d) + [] == Context(d);
    DelegationValRoundTrip(d);
  }

  lemma RedeemArgsTyped(d: PlainDelegation, es: seq<Execution>)
    ensures AllTyped(RedeemArgs(d, es), REDEEM_TYPES)
  {
    var args := RedeemArgs(d, es);
    AllTypedPointwise(args[0].elems, Repeat(Blob, |es|));
    AllTypedPointwise(args[1].elems, Repeat(Word, |es|));
    AllTypedPointwise(args[2].elems, Repeat(Blob, |es|));
    AllTypedPointwise(args, REDEEM_TYPES);
  }

  /** A dynamic first element fits whenever the whole does. */
  lemma FirstFits(vs: seq<Val>)
    requires vs != [] && Dynamic(vs[0]) && Fits(|EncodeAll(vs)|)
    ensures |Encode(vs[0])| <= |EncodeAll(vs)|
  {
  }

  lemma ContextFits(d: PlainDelegation, es: seq<Execution>)
    requires es != [] && Fits(|EncodeAll(RedeemArgs(d, es))|)
    ensures Fits(|Context(d)|)
  {
    var args := RedeemArgs(d, es);
    FirstFits(args);
    assert Encode(args[0]) == Uint256(|es|) + EncodeAll(args[0].elems);
    FirstFits(args[0].elems);
    assert args[0].elems[0] == VBlob(Context(d));
  }

  /** Each execution, paired with the same delegation and the single-default mode. */
  function Expected(d: PlainDelegation, es: seq<Execution>): seq<Redemption> {
    seq(|es|, i requires 0 <= i < |es| => Redemption(d, SINGLE_DEFAULT_MODE, es[i]))
  }

  lemma RedemptionRoundTrip(d: PlainDelegation, e: Execution)
    requires PlainWellFormed(d) && Fits(|Context(d)|) && Fits(e.value)
    ensures RedemptionFrom(VBlob(Context(d)), VWord(SINGLE_DEFAULT_MODE), VBlob(Pack(e)))
            == Some(Redemption(d, SINGLE_DEFAULT_MODE, e))
  {
    hide Context, DecodeContext, Pack, Unpack;
    ContextRoundTrip(d);
    PackRoundTrip(e);
  }

  /** The last column of the three argument arrays. */
  lemma RedeemArgsAt(d: PlainDelegation, es: seq<Execution>)
    requires es != []
    ensures var args, front, n := RedeemArgs(d, es), RedeemArgs(d, es[..|es| - 1]), |es| - 1;
            && |args[0].elems| == |args[1].elems| == |args[2].elems| == n + 1
            && args[0].elems[..n] == front[0].elems && args[0].elems[n] == VBlob(Context(d))
            && args[1].elems[..n] == front[1].elems && args[1].elems[n] == VWord(SINGLE_DEFAULT_MODE)
            && args[2].elems[..n] == front[2].elems && args[2].elems[n] == VBlob(Pack(es[n]))
  {
    hide Context, Pack;
  }

  lemma LastColumn(contexts: seq<Val>, modes: seq<Val>, packed: seq<Val>, n: nat)
    requires |contexts| == |modes| == |packed| == n + 1
    ensures var front, last := RedemptionsFrom(contexts[..n], modes[..n], packed[..n]),
            RedemptionFrom(contexts[n], modes[n], packed[n]);
            front.Some? && last.Some? ==> RedemptionsFrom(contexts, modes, packed) == Some(front.value + [last.value])
  {
    hide RedemptionFrom;
  }

  lemma {:induction false} RedemptionsRoundTrip(d: PlainDelegation, es: seq<Execution>)
    requires PlainWellFormed(d) && (es != [] ==> Fits(|Context(d)|))
    requires forall e :: e in es ==> Fits(e.value)
    ensures var args := RedeemArgs(d, es);
            RedemptionsFrom(args[0].elems, args[1].elems, args[2].elems) == Some(Expected(d, es))
  {
    hide Context, Pack, RedemptionFrom, DecodeContext, PlainWellFormed;
    if es == [] {
      assert Expected(d, es) == [];
      assert RedeemArgs(d, es)[0].elems == [];
    } else {
      var n := |es| - 1;
      var args, front := RedeemArgs(d, es), RedeemArgs(d, es[..n]);
      RedemptionsRoundTrip(d, es[..n]);
      RedeemArgsAt(d, es);
      LastColumn(args[0].elems, args[1].elems, args[2].elems, n);
      assert es[n] in es;
      RedemptionRoundTrip(d, es[n]);
      assert Expected(d, es) == Expected(d, es[..n]) + [Redemption(d, SINGLE_DEFAULT_MODE, es[n])];
    }
  }

  lemma RedeemBytesRoundTrip(d: PlainDelegation, es: seq<Execution>)
    requires PlainWellFormed(d) && Fits(|RedeemBytes(d, es)|)
    requires forall e :: e in es ==> Fits(e.value)
    ensures DecodeRedeemBytes(RedeemBytes(d, es)) == Some(Expected(d, es))
  {
    var b, args := RedeemBytes(d, es), RedeemArgs(d, es);
    assert b[..4] == REDEEM_DELEGATIONS_SELECTOR && b[4..] == EncodeAll(args);
    RedeemArgsTyped(d, es);
    DecodeWhole(REDEEM_TYPES, args, []);
    assert EncodeAll(args) + [] == EncodeAll(args);
    if es != [] { ContextFits(d, es); }
    RedemptionsRoundTrip(d, es);
  }

  lemma {:induction false} ExecutionsFit(calls: seq<Call>)
    requires ExecutionsOf(calls).Some?
    ensures |ExecutionsOf(calls).value| == |calls|
    ensures forall i :: 0 <= i < |calls| ==> ExecutionOf(calls[i]) == Some(ExecutionsOf(calls).value[i])
    ensures forall e :: e in ExecutionsOf(calls).value ==> Fits(e.value)
  {
    if calls != [] { ExecutionsFit(calls[..|calls| - 1]); }
  }

  lemma RedeemCalldataDecodes(d: SignedDelegation, calls: seq<Call>)
    requires RedeemCalldata(d, calls).Ok?
    requires Fits(|RedeemBytes(PlainDelegationOf(d).value, ExecutionsOf(calls).value)|)
    ensures DecodeRedeemCalldata(RedeemCalldata(d, calls).value)
            == Some(Expected(PlainDelegationOf(d).value, ExecutionsOf(calls).value))
  {
    ExecutionsFit(calls);
    HexRoundTrip(RedeemBytes(PlainDelegationOf(d).value, ExecutionsOf(calls).value));
    RedeemBytesRoundTrip(PlainDelegationOf(d).value, ExecutionsOf(calls).value);
  }

  /** The execution has the call's target and value, and the bytes its text stands for. */
  ghost predicate KeepsCall(e: Execution, c: Call) {
    e.target == c.target && e.value == c.value && HexToBytes(c.data) == Some(e.data)
  }

  ghost predicate AllZero(b: seq<Byte>) { forall i :: 0 <= i < |b| ==> b[i] == 0 }

  ghost predicate KeepsText(b: seq<Byte>, text: string) { if text == "" then b == [] else HexToBytes(text) == Some(b) }

  /** The delegation has the signed one's parties, salt and caveats in order, its authority padded to a word on the
      right, and its signature, or 65 zeros in place of one that is not real hex. */
  ghost predicate KeepsDelegation(p: PlainDelegation, d: SignedDelegation) {
    && p.delegate == d.delegate && p.delegator == d.delegator && p.salt == d.salt
    && |p.authority| == 32 && HexToBytes(d.authority).Some?
    && HexToBytes(d.authority).value <= p.authority && AllZero(p.authority[|HexToBytes(d.authority).value|..])
    && (if RealSignature(d.signature) then HexToBytes(d.signature) == Some(p.signature)
        else |p.signature| == 65 && AllZero(p.signature))
    && |p.caveats| == |d.caveats|
    && forall i :: 0 <= i < |d.caveats| ==>
         && p.caveats[i].enforcer == d.caveats[i].enforcer
         && KeepsText(p.caveats[i].terms, d.caveats[i].terms) && KeepsText(p.caveats[i].args, d.caveats[i].args)
  }

  /** Main result, on the caller's arguments: the calldata calls redeemDelegations and decodes to one redemption for
      each call, in order, with that call's target, value and bytes, the signed delegation, and the all-zero mode. */
  lemma RedeemCalldataRoundTrip(d: SignedDelegation, calls: seq<Call>)
    requires RedeemCalldata(d, calls).Ok? && |RedeemCalldata(d, calls).value| < 2 * UINT256_LIMIT
    ensures var hex := RedeemCalldata(d, calls).value;
            var r := DecodeRedeemCalldata(hex);
            && HexToBytes(hex).Some? && [0xce, 0xf6, 0xd2, 0x09] <= HexToBytes(hex).value
            && r.Some? && |r.value| == |calls|
            && forall i :: 0 <= i < |calls| ==>
                 && KeepsCall(r.value[i].execution, calls[i]) && KeepsDelegation(r.value[i].delegation, d)
                 && |r.value[i].mode| == 32 && AllZero(r.value[i].mode)
  {
    hide RedeemBytes, DecodeRedeemCalldata, HexToBytes, KeepsCall, KeepsDelegation, PlainDelegationOf, ExecutionOf,
      ExecutionsOf;
    var p, es := PlainDelegationOf(d).value, ExecutionsOf(calls).value;
    var b := RedeemBytes(p, es);
    HexLength(b);
    HexRoundTrip(b);
    StartsWithSelector(p, es);
    RedeemCalldataDecodes(d, calls);
    ExecutionsFit(calls);
    DelegationKept(d);
    forall i | 0 <= i < |calls| ensures KeepsCall(es[i], calls[i]) { CallKept(calls[i]); }
    var r := Expected(p, es);
    assert DecodeRedeemCalldata(RedeemCalldata(d, calls).value) == Some(r);
    assert HexToBytes(RedeemCalldata(d, calls).value) == Some(b);
    assert forall i :: 0 <= i < |calls| ==> r[i].execution == es[i] && r[i].delegation == p;
    assert forall i :: 0 <= i < |calls| ==> r[i].mode == SINGLE_DEFAULT_MODE;
    ModeIsZero();
  }

  lemma ModeIsZero()
    ensures |SINGLE_DEFAULT_MODE| == 32 && AllZero(SINGLE_DEFAULT_MODE)
  {
  }

  lemma StartsWithSelector(p: PlainDelegation, es: seq<Execution>)
    ensures [0xce, 0xf6, 0xd2, 0x09] <= RedeemBytes(p, es)
  {
    hide EncodeAll, RedeemArgs;
  }

  lemma CallKept(c: Call)
    requires ExecutionOf(c).Some?
    ensures KeepsCall(ExecutionOf(c).value, c)
  {
    hide HexToBytes;
  }

  lemma DelegationKept(d: SignedDelegation)
    requires PlainDelegationOf(d).Some?
    ensures KeepsDelegation(PlainDelegationOf(d).value, d)
  {
    hide HexToBytes;
    PlainCaveatsKept(d.caveats);
    RealSignatureMeans(d.signature);
  }

  /** What a delegation keeps through encoding: every caveat in order, salt, signature, authority. */
  lemma {:induction false} PlainCaveatsKept(cs: seq<Caveat>)
    requires PlainCaveatsOf(cs).Some?
    ensures |PlainCaveatsOf(cs).value| == |cs|
    ensures forall i :: 0 <= i < |cs| ==>
              var p := PlainCaveatsOf(cs).value[i];
              p.enforcer == cs[i].enforcer && HexToBytes(OrEmptyHex(cs[i].terms)) == Some(p.terms)
              && HexToBytes(OrEmptyHex(cs[i].args)) == Some(p.args)
  {
    hide HexToBytes, OrEmptyHex;
    if cs != [] { PlainCaveatsKept(cs[..|cs| - 1]); }
  }
}
