/** The Solidity contract ABI encoding of words, byte strings, tuples and dynamic arrays
    ("Formal Specification of the Encoding"): static parts in place, dynamic parts behind offsets. */
module Abi {
  import opened Wrappers
  import opened Bytes

  datatype Ty = Word | Blob | Tuple(elems: seq<Ty>) | Array(elem: Ty)

  datatype Val = VWord(word: seq<Byte>) | VBlob(data: seq<Byte>) | VTuple(elems: seq<Val>) | VArray(elems: seq<Val>)

  const WORD := 32

  function Uint256(n: nat): seq<Byte> { ToBytes(n, WORD) }

  const UINT256_LIMIT := 0x1_00000000_00000000_00000000_00000000_00000000_00000000_00000000_00000000

  /** A uint256 can hold n. */
  predicate Fits(n: nat) { n < UINT256_LIMIT }

  lemma LimitIsPower()
    ensures UINT256_LIMIT == Pow256(32)
  {
    Pow256Add(8, 8);
    Pow256Add(16, 16);
    assert Pow256(8) == 0x1_00000000_00000000;
  }

  lemma Uint256RoundTrip(n: nat)
    requires Fits(n)
    ensures FromBytes(Uint256(n)) == n
  {
    LimitIsPower();
    IntegerRoundTrip(n, WORD);
  }

  /** Zero bytes up to the next multiple of 32. */
  function Pad(data: seq<Byte>): seq<Byte> { data + Zeros((WORD - |data| % WORD) % WORD) }

  predicate Dynamic(v: Val) {
    match v
    case VWord(_) => false
    case VBlob(_) => true
    case VTuple(elems) => AnyDynamic(elems)
    case VArray(_) => true
  }

  predicate AnyDynamic(vs: seq<Val>) { vs != [] && (Dynamic(vs[0]) || AnyDynamic(vs[1..])) }

  function Encode(v: Val): seq<Byte>
    decreases v, 0
  {
    match v
    case VWord(word) => word
    case VBlob(data) => Uint256(|data|) + Pad(data)
    case VTuple(elems) => EncodeAll(elems)
    case VArray(elems) => Uint256(|elems|) + EncodeAll(elems)
  }

  function EncodeAll(vs: seq<Val>): seq<Byte>
    decreases vs, 2
  {
    Heads(vs, HeadsSize(vs)) + Tails(vs)
  }

  function HeadsSize(vs: seq<Val>): nat
    decreases vs, 1
  {
    if vs == [] then 0 else (if Dynamic(vs[0]) then WORD else |Encode(vs[0])|) + HeadsSize(vs[1..])
  }

  /** The heads, when the tail of the first element starts at the given offset. */
  function Heads(vs: seq<Val>, offset: nat): seq<Byte>
    decreases vs, 1
  {
    if vs == [] then []
    else if Dynamic(vs[0]) then Uint256(offset) + Heads(vs[1..], offset + |Encode(vs[0])|)
    else Encode(vs[0]) + Heads(vs[1..], offset)
  }

  function Tails(vs: seq<Val>): seq<Byte>
    decreases vs, 1
  {
    if vs == [] then []
    else (if Dynamic(vs[0]) then Encode(vs[0]) else []) + Tails(vs[1..])
  }

  function Repeat(ty: Ty, n: nat): (r: seq<Ty>)
    ensures |r| == n && forall i :: 0 <= i < n ==> r[i] == ty
  {
    seq(n, _ => ty)
  }

  function Depth(ty: Ty): nat {
    match ty
    case Tuple(elems) => 1 + MaxDepth(elems)
    case Array(elem) => 1 + Depth(elem)
    case _ => 0
  }

  function MaxDepth(tys: seq<Ty>): nat {
    if tys == [] then 0
    else if Depth(tys[0]) > MaxDepth(tys[1..]) then Depth(tys[0]) else MaxDepth(tys[1..])
  }

  lemma {:induction false} RepeatDepth(ty: Ty, n: nat)
    ensures MaxDepth(Repeat(ty, n)) <= Depth(ty)
  {
    if n > 0 {
      RepeatDepth(ty, n - 1);
      assert Repeat(ty, n)[1..] == Repeat(ty, n - 1);
    }
  }

  predicate DynamicTy(ty: Ty) {
    match ty
    case Word => false
    case Blob => true
    case Tuple(elems) => AnyDynamicTy(elems)
    case Array(_) => true
  }

  predicate AnyDynamicTy(tys: seq<Ty>) { tys != [] && (DynamicTy(tys[0]) || AnyDynamicTy(tys[1..])) }

  function StaticSize(ty: Ty): nat {
    match ty
    case Tuple(elems) => StaticSizes(elems)
    case _ => WORD
  }

  function StaticSizes(tys: seq<Ty>): nat {
    if tys == [] then 0 else StaticSize(tys[0]) + StaticSizes(tys[1..])
  }

  /** Decoding reads from the front of data and ignores what follows the encoded value. */
  function Decode(ty: Ty, data: seq<Byte>): Option<Val>
    decreases Depth(ty), 0
  {
    match ty
    case Word => if |data| < WORD then None else Some(VWord(data[..WORD]))
    case Blob =>
      if |data| < WORD then None
      else
        var n := FromBytes(data[..WORD]);
        if |data| < WORD + n then None else Some(VBlob(data[WORD..WORD + n]))
    case Tuple(elems) =>
      var r := DecodeAll(elems, data, 0);
      if r.None? then None else Some(VTuple(r.value))
    case Array(elem) =>
      if |data| < WORD then None
      else
        var n := FromBytes(data[..WORD]);
        RepeatDepth(elem, n);
        var r := DecodeAll(Repeat(elem, n), data[WORD..], 0);
        if r.None? then None else Some(VArray(r.value))
  }

  /** The heads start at pos; offsets count from the start of data. */
  function DecodeAll(tys: seq<Ty>, data: seq<Byte>, pos: nat): Option<seq<Val>>
    decreases MaxDepth(tys), |tys|
  {
    if tys == [] then Some([])
    else if DynamicTy(tys[0]) then
      if pos + WORD > |data| then None
      else
        var offset := FromBytes(data[pos..pos + WORD]);
        if offset > |data| then None
        else
          var first := Decode(tys[0], data[offset..]);
          var rest := DecodeAll(tys[1..], data, pos + WORD);
          if first.None? || rest.None? then None else Some([first.value] + rest.value)
    else
      if pos > |data| then None
      else
        var first := Decode(tys[0], data[pos..]);
        var rest := DecodeAll(tys[1..], data, pos + StaticSize(tys[0]));
        if first.None? || rest.None? then None else Some([first.value] + rest.value)
  }

  /** Values of a type. As in Solidity, there are no empty tuples. */
  predicate Typed(v: Val, ty: Ty)
    decreases v, 0
  {
    match v
    case VWord(word) => ty.Word? && |word| == WORD
    case VBlob(_) => ty.Blob?
    case VTuple(elems) => ty.Tuple? && elems != [] && AllTyped(elems, ty.elems)
    case VArray(elems) => ty.Array? && AllTyped(elems, Repeat(ty.elem, |elems|))
  }

  predicate AllTyped(vs: seq<Val>, tys: seq<Ty>)
    decreases vs, 1
  {
    |vs| == |tys| && (vs == [] || (Typed(vs[0], tys[0]) && AllTyped(vs[1..], tys[1..])))
  }

  lemma {:induction false} TypedShape(v: Val, ty: Ty)
    requires Typed(v, ty)
    ensures Dynamic(v) == DynamicTy(ty)
    ensures !Dynamic(v) ==> |Encode(v)| == StaticSize(ty)
    decreases v, 0
  {
    if v.VTuple? {
      AllTypedShape(v.elems, ty.elems);
      assert |Heads(v.elems, HeadsSize(v.elems))| == HeadsSize(v.elems);
      assert Encode(v) == EncodeAll(v.elems);
    }
  }

  lemma {:induction false} AllTypedShape(vs: seq<Val>, tys: seq<Ty>)
    requires AllTyped(vs, tys)
    ensures AnyDynamic(vs) == AnyDynamicTy(tys)
    ensures !AnyDynamic(vs) ==> HeadsSize(vs) == StaticSizes(tys) && Tails(vs) == []
    ensures forall k: nat :: |Heads(vs, k)| == HeadsSize(vs)
    decreases vs, 1
  {
    if vs != [] {
      TypedShape(vs[0], tys[0]);
      AllTypedShape(vs[1..], tys[1..]);
    }
  }

  /** Encodings are whole words: an encoded value fills a multiple of 32 bytes. */
  lemma {:induction false} EncodingAligned(v: Val, ty: Ty)
    requires Typed(v, ty)
    ensures |Encode(v)| % WORD == 0
    decreases v, 0
  {
    match v
    case VWord(_) =>
    case VBlob(data) =>
      PadAligned(data);
      Sum32(WORD, |Pad(data)|);
    case VTuple(elems) =>
      AllAligned(elems, ty.elems, HeadsSize(elems));
      assert |Encode(v)| == |EncodeAll(elems)|;
    case VArray(elems) =>
      AllAligned(elems, Repeat(ty.elem, |elems|), HeadsSize(elems));
      assert |Encode(v)| == WORD + |EncodeAll(elems)|;
      Sum32(WORD, |EncodeAll(elems)|);
  }

  lemma PadAligned(data: seq<Byte>)
    ensures |Pad(data)| % WORD == 0
  {
  }

  lemma Sum32(a: nat, b: nat)
    requires a % WORD == 0 && b % WORD == 0
    ensures (a + b) % WORD == 0
  {
  }

  lemma {:induction false} AllAligned(vs: seq<Val>, tys: seq<Ty>, offset: nat)
    requires AllTyped(vs, tys)
    ensures |Heads(vs, offset)| % WORD == 0 && |Tails(vs)| % WORD == 0
    ensures |Heads(vs, offset) + Tails(vs)| % WORD == 0
    decreases vs, 1
  {
    hide Encode, Pad, Uint256, Heads, Tails, Typed;
    if vs == [] {
      assert Heads(vs, offset) == [] && Tails(vs) == [] by { NoElements(offset); }
    } else {
      var e, next := Encode(vs[0]), if Dynamic(vs[0]) then offset + |Encode(vs[0])| else offset;
      EncodingAligned(vs[0], tys[0]);
      AllAligned(vs[1..], tys[1..], next);
      HeadIsWord(offset);
      HeadsGrow(vs, offset, next);
      Sum32(if Dynamic(vs[0]) then WORD else |e|, |Heads(vs[1..], next)|);
      Sum32(if Dynamic(vs[0]) then |e| else 0, |Tails(vs[1..])|);
    }
    Sum32(|Heads(vs, offset)|, |Tails(vs)|);
  }

  lemma NoElements(offset: nat)
    ensures Heads([], offset) == [] && Tails([]) == []
  {
  }

  lemma HeadsGrow(vs: seq<Val>, offset: nat, next: nat)
    requires vs != [] && next == if Dynamic(vs[0]) then offset + |Encode(vs[0])| else offset
    ensures |Heads(vs, offset)| == (if Dynamic(vs[0]) then WORD else |Encode(vs[0])|) + |Heads(vs[1..], next)|
    ensures |Tails(vs)| == (if Dynamic(vs[0]) then |Encode(vs[0])| else 0) + |Tails(vs[1..])|
  {
    hide Encode;
  }

  lemma HeadIsWord(offset: nat)
    ensures |Uint256(offset)| == WORD
  {
  }

  /** A byte string is encoded as its length, its bytes, and zeros up to the next whole word. */
  lemma BlobPaddedWithZeros(data: seq<Byte>)
    ensures var e := Encode(VBlob(data));
            && |e| % WORD == 0 && WORD + |data| <= |e| < WORD + |data| + WORD
            && e[..WORD] == ToBytes(|data|, WORD) && e[WORD..WORD + |data|] == data
            && forall i :: WORD + |data| <= i < |e| ==> e[i] == 0
  {
    var n := (WORD - |data| % WORD) % WORD;
    var e := Encode(VBlob(data));
    assert e == Uint256(|data|) + data + Zeros(n);
  }

  /** No value is encoded in zero bytes, so an array is at least as long as its length. */
  lemma {:induction false} EncodingNonEmpty(v: Val, ty: Ty)
    requires Typed(v, ty)
    ensures |Encode(v)| >= 1
    decreases v, 0
  {
    if v.VTuple? {
      HeadsCoverElements(v.elems, ty.elems, HeadsSize(v.elems));
      assert Encode(v) == EncodeAll(v.elems);
    }
  }

  lemma {:induction false} HeadsCoverElements(vs: seq<Val>, tys: seq<Ty>, offset: nat)
    requires AllTyped(vs, tys)
    ensures |Heads(vs, offset)| >= |vs|
    decreases vs, 1
  {
    if vs != [] {
      EncodingNonEmpty(vs[0], tys[0]);
      HeadsCoverElements(vs[1..], tys[1..], if Dynamic(vs[0]) then offset + |Encode(vs[0])| else offset);
    }
  }

  /** part occurs in data at pos. */
  ghost predicate At(data: seq<Byte>, pos: nat, part: seq<Byte>) {
    pos + |part| <= |data| && data[pos..pos + |part|] == part
  }

  lemma AtParts(data: seq<Byte>, pos: nat, a: seq<Byte>, b: seq<Byte>)
    requires At(data, pos, a + b)
    ensures At(data, pos, a) && At(data, pos + |a|, b)
  {
    assert data[pos..pos + |a|] == (a + b)[..|a|];
    assert data[pos + |a|..pos + |a| + |b|] == (a + b)[|a|..];
  }

  lemma AtFront(data: seq<Byte>, pos: nat, part: seq<Byte>)
    requires At(data, pos, part)
    ensures data[pos..] == part + data[pos + |part|..]
  {
  }

  /** Main result: decoding inverts encoding, whatever bytes follow. */
  lemma {:induction false} DecodeEncode(ty: Ty, v: Val, rest: seq<Byte>)
    requires Typed(v, ty) && Fits(|Encode(v)|)
    ensures Decode(ty, Encode(v) + rest) == Some(v)
    decreases Depth(ty), 0
  {
    match v
    case VWord(word) =>
      assert (Encode(v) + rest)[..WORD] == word;
    case VBlob(data) => DecodeBlob(data, rest);
    case VTuple(elems) => DecodeWhole(ty.elems, elems, rest);
    case VArray(elems) =>
      var tys := Repeat(ty.elem, |elems|);
      RepeatDepth(ty.elem, |elems|);
      ArrayFits(elems, ty.elem);
      Uint256RoundTrip(|elems|);
      var data := Encode(v) + rest;
      assert data[..WORD] == Uint256(|elems|);
      assert data[WORD..] == EncodeAll(elems) + rest;
      DecodeWhole(tys, elems, rest);
  }

  lemma ArrayFits(elems: seq<Val>, ty: Ty)
    requires AllTyped(elems, Repeat(ty, |elems|)) && Fits(|Encode(VArray(elems))|)
    ensures Fits(|elems|) && Fits(|EncodeAll(elems)|)
  {
    HeadsCoverElements(elems, Repeat(ty, |elems|), HeadsSize(elems));
    assert Encode(VArray(elems)) == Uint256(|elems|) + EncodeAll(elems);
    assert EncodeAll(elems) == Heads(elems, HeadsSize(elems)) + Tails(elems);
  }

  lemma DecodeBlob(bytes: seq<Byte>, rest: seq<Byte>)
    requires Fits(|Encode(VBlob(bytes))|)
    ensures Decode(Blob, Encode(VBlob(bytes)) + rest) == Some(VBlob(bytes))
  {
    var data := Encode(VBlob(bytes)) + rest;
    Uint256RoundTrip(|bytes|);
    assert data[..WORD] == Uint256(|bytes|);
    assert data[WORD..WORD + |bytes|] == bytes;
  }

  lemma {:induction false} DecodeWhole(tys: seq<Ty>, vs: seq<Val>, rest: seq<Byte>)
    requires AllTyped(vs, tys) && Fits(|EncodeAll(vs)|)
    ensures DecodeAll(tys, EncodeAll(vs) + rest, 0) == Some(vs)
    decreases MaxDepth(tys), |tys| + 2
  {
    var heads, tails := Heads(vs, HeadsSize(vs)), Tails(vs);
    var data := EncodeAll(vs) + rest;
    AllTypedShape(vs, tys);
    assert data == heads + tails + rest;
    assert data[0..|heads|] == heads;
    assert data[|heads|..|heads| + |tails|] == tails;
    DecodeEncodeAll(tys, vs, data, 0, |heads|);
  }

  lemma ReadOffset(data: seq<Byte>, pos: nat, offset: nat)
    requires At(data, pos, Uint256(offset)) && Fits(offset)
    ensures pos + WORD <= |data| && FromBytes(data[pos..pos + WORD]) == offset
  {
    Uint256RoundTrip(offset);
  }

  /** What reading one dynamic element finds: its offset, its encoding, and the remaining parts. */
  lemma DynamicHead(vs: seq<Val>, data: seq<Byte>, pos: nat, offset: nat)
    requires vs != [] && Dynamic(vs[0]) && At(data, pos, Heads(vs, offset))
    ensures var rest := Heads(vs[1..], offset + |Encode(vs[0])|);
            At(data, pos, Uint256(offset)) && At(data, pos + WORD, rest) && |Heads(vs, offset)| == WORD + |rest|
  {
    AtParts(data, pos, Uint256(offset), Heads(vs[1..], offset + |Encode(vs[0])|));
  }

  lemma DynamicTail(vs: seq<Val>, data: seq<Byte>, offset: nat)
    requires vs != [] && Dynamic(vs[0]) && At(data, offset, Tails(vs))
    ensures var e, rest := Encode(vs[0]), Tails(vs[1..]);
            At(data, offset, e) && At(data, offset + |e|, rest) && |Tails(vs)| == |e| + |rest|
  {
    hide At, Encode;
    AtParts(data, offset, Encode(vs[0]), Tails(vs[1..]));
  }

  lemma StaticElement(vs: seq<Val>, data: seq<Byte>, pos: nat, offset: nat)
    requires vs != [] && !Dynamic(vs[0])
    requires At(data, pos, Heads(vs, offset))
    ensures var e, rest := Encode(vs[0]), Heads(vs[1..], offset);
            && At(data, pos, e) && At(data, pos + |e|, rest) && |Heads(vs, offset)| == |e| + |rest|
            && Tails(vs[1..]) == Tails(vs)
  {
    AtParts(data, pos, Encode(vs[0]), Heads(vs[1..], offset));
  }

  lemma DecodeAllCons(tys: seq<Ty>, vs: seq<Val>, data: seq<Byte>, pos: nat, at: nat, next: nat)
    requires tys != [] && vs != [] && pos <= |data| && at <= |data|
    requires if DynamicTy(tys[0]) then
               pos + WORD <= |data| && FromBytes(data[pos..pos + WORD]) == at && next == pos + WORD
             else at == pos && next == pos + StaticSize(tys[0])
    requires Decode(tys[0], data[at..]) == Some(vs[0]) && DecodeAll(tys[1..], data, next) == Some(vs[1..])
    ensures DecodeAll(tys, data, pos) == Some(vs)
  {
    assert vs == [vs[0]] + vs[1..];
  }

  lemma {:induction false} DecodeEncodeAll(tys: seq<Ty>, vs: seq<Val>, data: seq<Byte>, pos: nat, offset: nat)
    requires AllTyped(vs, tys)
    requires At(data, pos, Heads(vs, offset)) && At(data, offset, Tails(vs))
    requires Fits(offset + |Tails(vs)|) && Fits(|Heads(vs, offset)|)
    ensures DecodeAll(tys, data, pos) == Some(vs)
    decreases MaxDepth(tys), |tys| + 1, 1
  {
    if vs != [] {
      TypedShape(vs[0], tys[0]);
      if Dynamic(vs[0]) {
        DecodeDynamicFirst(tys, vs, data, pos, offset);
      } else {
        DecodeStaticFirst(tys, vs, data, pos, offset);
      }
    }
  }

  lemma {:induction false} DecodeAt(ty: Ty, v: Val, data: seq<Byte>, pos: nat)
    requires Typed(v, ty) && Fits(|Encode(v)|) && At(data, pos, Encode(v))
    ensures Decode(ty, data[pos..]) == Some(v)
    decreases Depth(ty), 1
  {
    AtFront(data, pos, Encode(v));
    DecodeEncode(ty, v, data[pos + |Encode(v)|..]);
  }

  lemma {:induction false} DecodeDynamicFirst(tys: seq<Ty>, vs: seq<Val>, data: seq<Byte>, pos: nat, offset: nat)
    requires vs != [] && Dynamic(vs[0]) && AllTyped(vs, tys) && DynamicTy(tys[0])
    requires At(data, pos, Heads(vs, offset)) && At(data, offset, Tails(vs))
    requires Fits(offset + |Tails(vs)|) && Fits(|Heads(vs, offset)|)
    ensures DecodeAll(tys, data, pos) == Some(vs)
    decreases MaxDepth(tys), |tys| + 1, 0
  {
    DynamicHead(vs, data, pos, offset);
    DynamicTail(vs, data, offset);
    ReadOffset(data, pos, offset);
    DecodeAt(tys[0], vs[0], data, offset);
    DecodeEncodeAll(tys[1..], vs[1..], data, pos + WORD, offset + |Encode(vs[0])|);
    DecodeAllCons(tys, vs, data, pos, offset, pos + WORD);
  }

  lemma {:induction false} DecodeStaticFirst(tys: seq<Ty>, vs: seq<Val>, data: seq<Byte>, pos: nat, offset: nat)
    requires vs != [] && !Dynamic(vs[0]) && AllTyped(vs, tys) && !DynamicTy(tys[0])
    requires |Encode(vs[0])| == StaticSize(tys[0])
    requires At(data, pos, Heads(vs, offset)) && At(data, offset, Tails(vs))
    requires Fits(offset + |Tails(vs)|) && Fits(|Heads(vs, offset)|)
    ensures DecodeAll(tys, data, pos) == Some(vs)
    decreases MaxDepth(tys), |tys| + 1, 0
  {
    var n := |Encode(vs[0])|;
    StaticElement(vs, data, pos, offset);
    DecodeAt(tys[0], vs[0], data, pos);
    DecodeEncodeAll(tys[1..], vs[1..], data, pos + n, offset);
    DecodeAllCons(tys, vs, data, pos, pos, pos + n);
  }
}
