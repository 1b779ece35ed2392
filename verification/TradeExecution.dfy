/** Building the session key's transaction, and adding the gas reimbursement to it. */
module TradeExecution {
  import opened Wrappers
  import opened Bytes
  import opened Delegation
  import opened DelegationDecoding

  datatype UnsignedTx = UnsignedTx(to: Address, data: string, value: int)

  datatype DelegatedExecution = DelegatedExecution(to: Address, data: string, value: int, mock: bool, inner: Call,
                                                   signed: Option<SignedDelegation>, gasPayment: int, pre: seq<Call>)
  {
    function Calls(): seq<Call> { pre + [inner] }

    /** The data field encodes exactly the listed calls. */
    ghost predicate Built() { !mock && signed.Some? && RedeemCalldata(signed.value, Calls()) == Ok(data) }
  }

  /** build_delegated_trade_execution: the approval, when there is one, runs before the order. */
  method BuildDelegatedTradeExecution(d: SignedDelegation, tx: UnsignedTx, approval: Option<UnsignedTx>, mock: bool,
                                      manager: Option<Address>)
    returns (r: Result<DelegatedExecution>)
    ensures mock ==> r.Ok? && r.value.data == tx.data && r.value.to == tx.to && r.value.value == tx.value
    ensures !mock && manager.None? ==> r.Error?
    ensures !mock && manager.Some? ==>
              var order := Call(tx.to, tx.value, tx.data);
              r.Ok? <==> Encodable(d, if approval.None? || approval.value.data == "" then [order]
                                      else [Call(approval.value.to, approval.value.value, approval.value.data), order])
    ensures r.Ok? ==> r.value.mock == mock && r.value.gasPayment == 0
    ensures r.Ok? ==> r.value.inner == Call(tx.to, tx.value, tx.data) && r.value.signed == Some(d)
    ensures r.Ok? ==> r.value.pre == if approval.Some? && approval.value.data != ""
                                     then [Call(approval.value.to, approval.value.value, approval.value.data)] else []
    ensures r.Ok? && !mock ==> r.value.Built() && r.value.to == manager.value && r.value.value == 0
  {
    var pre: seq<Call> := [];
    if approval.Some? && approval.value.data != "" {
      pre := pre + [Call(approval.value.to, approval.value.value, approval.value.data)];
    }
    var inner := Call(tx.to, tx.value, tx.data);
    if mock {
      return Ok(DelegatedExecution(tx.to, tx.data, tx.value, true, inner, Some(d), 0, pre));
    }
    if manager.None? { return Error("DelegationManager address missing"); }
    assert pre + [inner] + [] == pre + [inner] == if pre == [] then [inner] else [pre[0], inner];
    var data := EncodeRedeemDelegationsCalldata(d, tx.to, tx.data, tx.value, [], pre);
    if data.Error? { return Error(data.message); }
    r := Ok(DelegatedExecution(manager.value, data.value, 0, false, inner, Some(d), 0, pre));
  }

  /** with_gas_reimbursement */
  method WithGasReimbursement(x: DelegatedExecution, recipient: Address, amount: int)
    returns (r: Result<DelegatedExecution>)
    ensures x.mock || x.signed.None? || amount <= 0 ==> r == Ok(x)
    ensures !(x.mock || x.signed.None? || amount <= 0) ==>
              match RedeemCalldata(x.signed.value, x.Calls() + [Call(recipient, amount, "0x")])
              case Ok(data) => r == Ok(x.(data := data, gasPayment := amount))
              case Error(_) => r.Error?
  {
    if x.mock || x.signed.None? || amount <= 0 { return Ok(x); }
    var data := EncodeRedeemDelegationsCalldata(x.signed.value, x.inner.target, x.inner.data, x.inner.value,
                                                [Call(recipient, amount, "0x")], x.pre);
    if data.Error? { return Error(data.message); }
    r := Ok(x.(data := data.value, gasPayment := amount));
  }

  lemma ExecutionsAppend(calls: seq<Call>, c: Call)
    ensures ExecutionsOf(calls + [c]) ==
            if ExecutionsOf(calls).None? || ExecutionOf(c).None? then None
            else Some(ExecutionsOf(calls).value + [ExecutionOf(c).value])
  {
    assert (calls + [c])[..|calls|] == calls;
  }

  /** A plain native transfer has empty calldata. */
  lemma TransferExecution(recipient: Address, amount: int)
    ensures ExecutionOf(Call(recipient, amount, "0x")) ==
            if IsUint256(amount) then Some(Execution(recipient, amount, [])) else None
  {
    assert HexToBytes("0x") == Some([]);
  }

  lemma ExpectedAppend(d: PlainDelegation, es: seq<Execution>, e: Execution)
    ensures Expected(d, es + [e]) == Expected(d, es) + [Redemption(d, SINGLE_DEFAULT_MODE, e)]
  {
  }

  ghost predicate EncodingFits(d: SignedDelegation, calls: seq<Call>)
    requires RedeemCalldata(d, calls).Ok?
  {
    Abi.Fits(|RedeemBytes(PlainDelegationOf(d).value, ExecutionsOf(calls).value)|)
  }

  /** The reimbursed calldata decodes to the old redemptions plus one trailing native transfer. */
  lemma ReimbursementAppendsOneTransfer(x: DelegatedExecution, recipient: Address, amount: int, data: string)
    requires x.Built() && EncodingFits(x.signed.value, x.Calls())
    requires RedeemCalldata(x.signed.value, x.Calls() + [Call(recipient, amount, "0x")]) == Ok(data)
    requires EncodingFits(x.signed.value, x.Calls() + [Call(recipient, amount, "0x")])
    ensures amount >= 0
    ensures DecodeRedeemCalldata(x.data).Some? && DecodeRedeemCalldata(x.data).value != []
    ensures var before := DecodeRedeemCalldata(x.data).value;
            DecodeRedeemCalldata(data) == Some(
              before + [Redemption(before[0].delegation, before[0].mode, Execution(recipient, amount, []))])
  {
    var d, calls, tip := x.signed.value, x.Calls(), Call(recipient, amount, "0x");
    ExecutionsAppend(calls, tip);
    TransferExecution(recipient, amount);
    RedeemCalldataDecodes(d, calls);
    RedeemCalldataDecodes(d, calls + [tip]);
    ExpectedAppend(PlainDelegationOf(d).value, ExecutionsOf(calls).value, Execution(recipient, amount, []));
  }

  function MinInt(a: int, b: int): int { if a < b then a else b }

  function MaxInt(a: int, b: int): int { if a < b then b else a }

  function GasQuote(gasLimit: int, gasPrice: int, bufferBps: int): int {
    gasLimit * gasPrice * (10000 + MaxInt(0, bufferBps)) / 10000
  }

  /** compute_gas_reimbursement_wei: never more than the account holds, never above a positive cap,
      and the full buffered quote exactly when both allow it. */
  method ComputeGasReimbursementWei(balance: int, gasLimit: int, gasPrice: int, bufferBps: int, cap: int)
    returns (r: int)
    ensures r == 0 || r <= balance
    ensures cap > 0 ==> r <= cap
    ensures balance <= 0 || gasLimit <= 0 || gasPrice <= 0 ==> r == 0
    ensures balance > 0 && gasLimit > 0 && gasPrice > 0 ==>
              var q := gasLimit * gasPrice * (10000 + if bufferBps > 0 then bufferBps else 0) / 10000;
              (r == q <==> q <= balance && (cap <= 0 || q <= cap)) && (r == q || r == balance || r == cap)
  {
    if balance <= 0 || gasLimit <= 0 || gasPrice <= 0 { return 0; }
    var payment := GasQuote(gasLimit, gasPrice, bufferBps);
    if cap > 0 { payment := MinInt(payment, cap); }
    r := MinInt(payment, balance);
  }
}
