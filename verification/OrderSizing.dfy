/** From an amount of collateral to an order on the venue's grid, and the approval that pays for it.
    Raw prices and sizes are integers in units of 10^-6. */
module OrderSizing {
  import opened Wrappers
  import opened Money
  import opened Markets
  import Abi

  const SCALE: int := 1000000

  datatype OrderSide = BUY_YES | SELL_YES | BUY_NO | SELL_NO

  datatype OrderType = MARKET | LIMIT

  /** The pool's order book parameters; reading them yields at least 1 for each. */
  datatype Book = Book(tick: int, minQty: int, lot: int)

  datatype Order = Order(side: OrderSide, orderType: OrderType, priceRaw: int, qtyRaw: int)

  datatype Prepared = Prepared(order: Order, quantity: real, quoteRaw: int)

  /** _notional_to_quantity */
  function NotionalToQuantity(notional: real, price: real): Result<real> {
    if price <= 0.0 then Error("Market price is unavailable")
    else if Quantize6(notional / price) <= 0.0 then Error("Amount is too small for this market")
    else Ok(Quantize6(notional / price))
  }

  function AtLeast(x: int, floor: int): int { if x < floor then floor else x }

  /** align_quantity_raw */
  function AlignQuantityRaw(qtyRaw: int, lot: int, minQty: int): Result<int> {
    var step := AtLeast(lot, 1);
    var aligned := qtyRaw / step * step;
    if aligned < AtLeast(minQty, step) then Error("below this market's minimum size") else Ok(aligned)
  }

  /** An accepted size is the largest lot multiple within the asked size; a refusal means no lot multiple
      of at least the minimum fits. */
  lemma AlignedIsLargest(qtyRaw: int, lot: int, minQty: int, n: int)
    ensures var step := AtLeast(lot, 1);
            match AlignQuantityRaw(qtyRaw, lot, minQty)
            case Ok(q) => && q % step == 0 && AtLeast(minQty, step) <= q <= qtyRaw < q + step
                          && (n % step == 0 && n <= qtyRaw ==> n <= q)
            case Error(_) => n % step == 0 && n <= qtyRaw ==> n < AtLeast(minQty, step)
  {
    var step := AtLeast(lot, 1);
    MultipleBelow(n, qtyRaw, step);
  }

  lemma MultipleBelow(n: int, x: int, step: int)
    requires step > 0
    ensures (x / step * step) % step == 0 && x / step * step <= x < x / step * step + step
    ensures n % step == 0 && n <= x ==> n <= x / step * step
  {
    DivisionBounds(x, step);
    MultipleHasNoRest(x / step, step);
    if n % step == 0 && n <= x {
      assert n == n / step * step;
      QuotientMonotone(n, x, step);
      ProductMonotone(n / step, x / step, step);
    }
  }

  lemma DivisionBounds(x: int, step: int)
    requires step > 0
    ensures x / step * step <= x < x / step * step + step
  {
    assert x == x / step * step + x % step;
  }

  lemma ExactQuotient(k: int, step: int)
    requires step > 0
    ensures k * step / step == k
  {
    var q := k * step / step;
    DivisionBounds(k * step, step);
    assert (q + 1) * step == q * step + step && (k + 1) * step == k * step + step;
    Cancel(k, q + 1, step);
    Cancel(q, k + 1, step);
  }

  lemma MultipleHasNoRest(k: int, step: int)
    requires step > 0
    ensures (k * step) % step == 0
  {
    ExactQuotient(k, step);
  }

  lemma QuotientMonotone(a: int, b: int, step: int)
    requires step > 0 && a <= b
    ensures a / step <= b / step
  {
    DivisionBounds(a, step);
    DivisionBounds(b, step);
    assert (b / step + 1) * step == b / step * step + step;
    Cancel(a / step, b / step + 1, step);
  }

  lemma Cancel(x: int, y: int, step: int)
    requires step > 0 && x * step < y * step
    ensures x < y
  {
    if y <= x { ProductMonotone(y, x, step); }
  }

  lemma ProductMonotone(a: int, b: int, c: int)
    requires a <= b && c >= 0
    ensures a * c <= b * c
  {
  }

  /** _marketable_yes_price_raw: the last tick of the book on the far side. */
  function MarketableYesPriceRaw(side: OrderSide, tick: int): int {
    var step := AtLeast(tick, 1);
    if side in {BUY_YES, SELL_NO} then SCALE - step else step
  }

  /** A market order accepts every price on the book, and its limit costs the most of them; the limit is a
      price of the book itself unless the tick is more than half the unit price. */
  lemma MarketLimitIsTheWorstPrice(side: OrderSide, tick: int, q: int, yesRaw: int)
    requires tick >= 1
    ensures var o := Order(side, MARKET, MarketableYesPriceRaw(side, tick), q);
            && (tick <= o.priceRaw <= SCALE - tick <==> 2 * tick <= SCALE)
            && UnitCost(side, o.priceRaw) == SCALE - tick
            && (tick <= yesRaw <= SCALE - tick ==>
                  NoWorse(o, yesRaw) && UnitCost(side, yesRaw) <= UnitCost(side, o.priceRaw))
  {
  }

  /** The price of an order: for a market order the far end of the book, for a resting one the largest multiple
      of the tick within the asked price. */
  ghost predicate PricedFor(o: Order, price: real, tick: int)
    requires tick >= 1
  {
    if o.orderType == MARKET then
      && UnitCost(o.side, o.priceRaw) == SCALE - tick
      && forall yesRaw :: tick <= yesRaw <= SCALE - tick ==> NoWorse(o, yesRaw)
    else
      o.priceRaw % tick == 0 && o.priceRaw <= ToRaw(price) < o.priceRaw + tick
  }

  /** The size of an order: the largest lot multiple within the asked raw size, and at least the pool's minimum. */
  ghost predicate SizedFor(o: Order, asked: int, book: Book)
    requires book.lot >= 1
  {
    && o.qtyRaw % book.lot == 0 && o.qtyRaw <= asked < o.qtyRaw + book.lot
    && o.qtyRaw >= book.lot && o.qtyRaw >= book.minQty
  }

  /** No lot multiple of at least the minimum fits the asked raw size. */
  ghost predicate NoSizeFits(asked: int, book: Book)
    requires book.lot >= 1
  {
    forall n :: n % book.lot == 0 && n <= asked ==> n < book.lot || n < book.minQty
  }

  /** prepare_place_order, up to the encoding of the call. */
  method PreparePlaceOrder(side: OrderSide, orderType: OrderType, price: real, quantity: real, book: Book)
    returns (r: Result<Order>)
    requires book.tick >= 1 && book.lot >= 1
    ensures r == PlacedOrder(side, orderType, price, quantity, book)
    ensures r.Ok? ==>
              && r.value.side == side && r.value.orderType == orderType && r.value.priceRaw > 0
              && PricedFor(r.value, price, book.tick) && SizedFor(r.value, ToRaw(quantity), book)
    ensures r.Error? <==>
              || NoSizeFits(ToRaw(quantity), book)
              || (if orderType == MARKET then side in {BUY_YES, SELL_NO} && book.tick >= SCALE
                  else ToRaw(price) < book.tick)
  {
    PlacedMeans(side, orderType, price, quantity, book);
    var priceRaw;
    if orderType == MARKET {
      priceRaw := MarketableYesPriceRaw(side, book.tick);
    } else {
      priceRaw := ToRaw(price);
      priceRaw := priceRaw / book.tick * book.tick;
    }
    var qtyRaw := ToRaw(quantity);
    var aligned := AlignQuantityRaw(qtyRaw, book.lot, book.minQty);
    if aligned.Error? { return Error(aligned.message); }
    qtyRaw := aligned.value;
    if qtyRaw <= 0 || priceRaw <= 0 { return Error("below venue tick/lot grid"); }
    r := Ok(Order(side, orderType, priceRaw, qtyRaw));
  }

  lemma PlacedMeans(side: OrderSide, orderType: OrderType, price: real, quantity: real, book: Book)
    requires book.tick >= 1 && book.lot >= 1
    ensures var r := PlacedOrder(side, orderType, price, quantity, book);
            && (r.Ok? ==>
                  && r.value.side == side && r.value.orderType == orderType && r.value.priceRaw > 0
                  && PricedFor(r.value, price, book.tick) && SizedFor(r.value, ToRaw(quantity), book))
            && (r.Error? <==>
                  || NoSizeFits(ToRaw(quantity), book)
                  || (if orderType == MARKET then side in {BUY_YES, SELL_NO} && book.tick >= SCALE
                      else ToRaw(price) < book.tick))
  {
    hide RoundHalfEven, ToRaw, AlignQuantityRaw, NoSizeFits;
    AlignedIsLargest(ToRaw(quantity), book.lot, book.minQty, 0);
    AlignedIffFits(ToRaw(quantity), book);
    TickBelow(ToRaw(price), book.tick);
  }

  lemma TickBelow(raw: int, tick: int)
    requires tick >= 1
    ensures (raw / tick * tick) % tick == 0 && raw / tick * tick <= raw < raw / tick * tick + tick
    ensures raw / tick * tick > 0 <==> raw >= tick
  {
    DivisionBounds(raw, tick);
    MultipleHasNoRest(raw / tick, tick);
    if raw / tick >= 1 { ProductMonotone(1, raw / tick, tick); } else { ProductMonotone(raw / tick, 0, tick); }
  }

  lemma AlignedIffFits(asked: int, book: Book)
    requires book.lot >= 1
    ensures AlignQuantityRaw(asked, book.lot, book.minQty).Error? <==> NoSizeFits(asked, book)
  {
    var fits := asked / book.lot * book.lot;
    MultipleBelow(fits, asked, book.lot);
    forall n | n % book.lot == 0 && n <= asked ensures n <= fits { MultipleBelow(n, asked, book.lot); }
  }

  function PlacedOrder(side: OrderSide, orderType: OrderType, price: real, quantity: real, book: Book): Result<Order>
    requires book.tick >= 1 && book.lot >= 1
  {
    var priceRaw := if orderType == MARKET then MarketableYesPriceRaw(side, book.tick)
                    else ToRaw(price) / book.tick * book.tick;
    match AlignQuantityRaw(ToRaw(quantity), book.lot, book.minQty)
    case Error(m) => Error(m)
    case Ok(q) =>
      if q <= 0 || priceRaw <= 0 then Error("below venue tick/lot grid") else Ok(Order(side, orderType, priceRaw, q))
  }

  /** What one unit costs the account when the YES price is yesRaw. */
  function UnitCost(side: OrderSide, yesRaw: int): int {
    if side in {BUY_YES, SELL_NO} then yesRaw else SCALE - yesRaw
  }

  /** Collateral a fill of the whole size takes at that price, rounded down. */
  function FillCost(o: Order, yesRaw: int): int { o.qtyRaw * UnitCost(o.side, yesRaw) / SCALE }

  /** A price at which the order may be filled: no worse for the taker than its limit. */
  predicate NoWorse(o: Order, yesRaw: int) {
    if o.side in {BUY_YES, SELL_NO} then yesRaw <= o.priceRaw else yesRaw >= o.priceRaw
  }

  /** _side_for_outcome */
  function BuySide(outcome: Outcome): OrderSide { if outcome == YES then BUY_YES else BUY_NO }

  /** prepare_trade, up to the signing payloads: size, order and approval amount. */
  method PrepareTrade(amount: real, isNotional: bool, price: real, outcome: Outcome, book: Book)
    returns (r: Result<Prepared>)
    requires book.tick >= 1 && book.lot >= 1
    ensures r == PreparedTrade(amount, isNotional, price, BuySide(outcome), book)
    ensures r.Ok? ==>
              && r.value.order.side == (if outcome == YES then BUY_YES else BUY_NO) && r.value.order.orderType == MARKET
              && SizedFor(r.value.order, AskedRaw(amount, isNotional, price), book)
              && PricedFor(r.value.order, price, book.tick)
              && r.value.quantity * 1000000.0 == r.value.order.qtyRaw as real
              && (forall yesRaw :: NoWorse(r.value.order, yesRaw) ==>
                    FillCost(r.value.order, yesRaw) <= r.value.quoteRaw)
              && r.value.quoteRaw >= 1
              && (r.value.quoteRaw == 1 || r.value.quoteRaw == FillCost(r.value.order, r.value.order.priceRaw)
                  || book.tick >= SCALE)
    ensures r.Error? <==>
              || amount <= 0.0 || (isNotional && price <= 0.0) || NoSizeFits(AskedRaw(amount, isNotional, price), book)
              || (outcome == YES && book.tick >= SCALE)
  {
    hide FillCost, NoWorse, SizedFor, PricedFor, NoSizeFits, AskedRaw, Quantize6, ToRaw, PlacedOrder;
    PreparedMeans(amount, isNotional, price, BuySide(outcome), book);
    var side := BuySide(outcome);
    if amount <= 0.0 { return Error("Amount must be positive"); }
    var quantity := amount;
    if isNotional {
      var q := NotionalToQuantity(amount, price);
      if q.Error? { return Error(q.message); }
      quantity := q.value;
    }
    var order := PreparePlaceOrder(side, MARKET, price, quantity, book);
    if order.Error? { return Error(order.message); }
    var snapped := order.value.qtyRaw as real / SCALE as real;
    if snapped > 0.0 { quantity := Quantize6(snapped); }
    var payRaw := if side in {BUY_YES, SELL_NO} then order.value.priceRaw else SCALE - order.value.priceRaw;
    var quoteRaw := order.value.qtyRaw * AtLeast(payRaw, 1) / SCALE;
    r := Ok(Prepared(order.value, quantity, AtLeast(quoteRaw, 1)));
  }

  function AskedSize(amount: real, isNotional: bool, price: real): Result<real> {
    if amount <= 0.0 then Error("Amount must be positive")
    else if isNotional then NotionalToQuantity(amount, price)
    else Ok(amount)
  }

  /** The size is stored as signed, and the approval is at least one raw unit. */
  function PreparedTrade(amount: real, isNotional: bool, price: real, side: OrderSide, book: Book): Result<Prepared>
    requires book.tick >= 1 && book.lot >= 1
  {
    match AskedSize(amount, isNotional, price)
    case Error(m) => Error(m)
    case Ok(asked) =>
      match PlacedOrder(side, MARKET, price, asked, book)
      case Error(m) => Error(m)
      case Ok(o) =>
        Ok(Prepared(o, Quantize6(o.qtyRaw as real / SCALE as real),
                    AtLeast(o.qtyRaw * AtLeast(UnitCost(side, o.priceRaw), 1) / SCALE, 1)))
  }

  /** Quantising to six places and then scaling rounds only once. */
  lemma RawOfQuantized(x: real)
    ensures ToRaw(Quantize6(x)) == RoundHalfEven(x * 1000000.0)
  {
    var n := RoundHalfEven(x * 1000000.0);
    assert Millionths(n) * SCALE as real == n as real;
    RoundHalfEvenUnique(Millionths(n) * SCALE as real, n);
  }

  lemma RoundedRatio(n: int, notional: real, price: real)
    requires price > 0.0 && -0.5 <= n as real - notional / price * 1000000.0 <= 0.5
    ensures notional * 1000000.0 - price / 2.0 <= Product(n as real, price) <= notional * 1000000.0 + price / 2.0
  {
    MulDiv(price, notional);
    RatioAt(n as real, notional / price, notional, price);
  }

  function Product(a: real, b: real): real { a * b }

  lemma RatioAt(n: real, exact: real, notional: real, price: real)
    requires price > 0.0 && -0.5 <= n - exact * 1000000.0 <= 0.5 && Product(price, exact) == notional
    ensures notional * 1000000.0 - price / 2.0 <= Product(n, price) <= notional * 1000000.0 + price / 2.0
  {
    hide Product;
    HalfOf(price, n - exact * 1000000.0);
    Expand(price, n, exact);
  }

  lemma HalfOf(price: real, d: real)
    requires price > 0.0 && -0.5 <= d <= 0.5
    ensures -(price / 2.0) <= Product(price, d) <= price / 2.0
  {
    ScaledBound(price, d, 0.5);
  }

  lemma Expand(price: real, n: real, exact: real)
    ensures Product(price, n - exact * 1000000.0) == Product(n, price) - 1000000.0 * Product(price, exact)
  {
  }

  lemma WithinLot(q: int, n: int, lot: int, price: real)
    requires price > 0.0 && q <= n < q + lot
    ensures Product(n as real, price) - Product((lot - 1) as real, price) <= Product(q as real, price)
    ensures Product(q as real, price) <= Product(n as real, price)
  {
    hide Product;
    ProductOrdered((n - (lot - 1)) as real, q as real, price);
    ProductOrdered(q as real, n as real, price);
    ProductSplits(n as real, (lot - 1) as real, price);
  }

  lemma ProductSplits(a: real, b: real, c: real)
    ensures Product(a - b, c) == Product(a, c) - Product(b, c)
  {
  }

  lemma ProductOrdered(a: real, b: real, c: real)
    requires a <= b && c >= 0.0
    ensures Product(a, c) <= Product(b, c)
  {
  }

  /** Main result: the signed size lies on the venue's grid, and at the displayed price it spends the asked
      amount up to half a raw unit above and one lot below. */
  lemma SizeSpendsTheAmount(notional: real, price: real, side: OrderSide, book: Book)
    requires book.tick >= 1 && book.lot >= 1
    requires PreparedTrade(notional, true, price, side, book).Ok?
    ensures var q := PreparedTrade(notional, true, price, side, book).value.order.qtyRaw;
            && q % book.lot == 0 && q >= book.lot && q >= book.minQty
            && q as real * price <= notional * 1000000.0 + price / 2.0
            && q as real * price >= notional * 1000000.0 - (book.lot - 1) as real * price - price / 2.0
  {
    hide PreparedTrade, RoundHalfEven;
    var q := PreparedTrade(notional, true, price, side, book).value.order.qtyRaw;
    SizeFromAsked(notional, price, side, book);
    var n := RoundHalfEven(notional / price * 1000000.0);
    RoundedRatio(n, notional, price);
    SpentBounds(q, n, book.lot, notional, price);
  }

  lemma SizeFromAsked(notional: real, price: real, side: OrderSide, book: Book)
    requires book.tick >= 1 && book.lot >= 1
    requires PreparedTrade(notional, true, price, side, book).Ok?
    ensures price > 0.0
    ensures var q := PreparedTrade(notional, true, price, side, book).value.order.qtyRaw;
            var n := RoundHalfEven(notional / price * 1000000.0);
            q % book.lot == 0 && q >= book.lot && q >= book.minQty && q <= n < q + book.lot
  {
    RawOfQuantized(notional / price);
    AlignedIsLargest(ToRaw(Quantize6(notional / price)), book.lot, book.minQty, 0);
  }

  lemma SpentBounds(q: int, n: int, lot: int, notional: real, price: real)
    requires price > 0.0 && q <= n < q + lot
    requires notional * 1000000.0 - price / 2.0 <= Product(n as real, price) <= notional * 1000000.0 + price / 2.0
    ensures Product(q as real, price) <= notional * 1000000.0 + price / 2.0
    ensures Product(q as real, price) >= notional * 1000000.0 - Product((lot - 1) as real, price) - price / 2.0
  {
    hide Product;
    WithinLot(q, n, lot, price);
  }

  /** The raw size asked for: the amount itself, or what it buys at the displayed price. */
  function AskedRaw(amount: real, isNotional: bool, price: real): int {
    if !isNotional then ToRaw(amount) else if price <= 0.0 then 0 else RoundHalfEven(amount / price * 1000000.0)
  }

  lemma AskedIsRaw(amount: real, isNotional: bool, price: real)
    requires AskedSize(amount, isNotional, price).Ok?
    ensures ToRaw(AskedSize(amount, isNotional, price).value) == AskedRaw(amount, isNotional, price)
  {
    if isNotional { RawOfQuantized(amount / price); }
  }

  lemma NothingAsked(amount: real, isNotional: bool, price: real, book: Book)
    requires AskedSize(amount, isNotional, price).Error? && amount > 0.0 && (isNotional ==> price > 0.0)
             && book.lot >= 1
    ensures NoSizeFits(AskedRaw(amount, isNotional, price), book)
  {
    var x := amount / price;
    RawOfQuantized(x);
    assert AskedRaw(amount, isNotional, price) <= 0;
  }

  /** Everything a caller may rely on, at once. */
  lemma PreparedMeans(amount: real, isNotional: bool, price: real, side: OrderSide, book: Book)
    requires book.tick >= 1 && book.lot >= 1 && side in {BUY_YES, BUY_NO}
    ensures var r := PreparedTrade(amount, isNotional, price, side, book);
            && (r.Ok? ==>
                  && r.value.order.side == side && r.value.order.orderType == MARKET
                  && SizedFor(r.value.order, AskedRaw(amount, isNotional, price), book)
                  && PricedFor(r.value.order, price, book.tick)
                  && r.value.quantity * 1000000.0 == r.value.order.qtyRaw as real
                  && (forall yesRaw :: NoWorse(r.value.order, yesRaw) ==>
                        FillCost(r.value.order, yesRaw) <= r.value.quoteRaw)
                  && r.value.quoteRaw >= 1
                  && (r.value.quoteRaw == 1 || r.value.quoteRaw == FillCost(r.value.order, r.value.order.priceRaw)
                      || book.tick >= SCALE))
            && (r.Error? <==>
                  || amount <= 0.0 || (isNotional && price <= 0.0)
                  || NoSizeFits(AskedRaw(amount, isNotional, price), book)
                  || (side == BUY_YES && book.tick >= SCALE))
  {
    hide PlacedOrder, NoSizeFits, SizedFor, PricedFor, RoundHalfEven, ToRaw, FillCost, NoWorse, AskedRaw, Quantize6;
    var asked := AskedSize(amount, isNotional, price);
    if asked.Ok? {
      AskedIsRaw(amount, isNotional, price);
      AskedOk(amount, isNotional, price);
      PlacedMeans(side, MARKET, price, asked.value, book);
      if PreparedTrade(amount, isNotional, price, side, book).Ok? {
        StoredSizeIsSignedSize(amount, isNotional, price, side, book);
        ApprovalIsTight(amount, isNotional, price, side, book);
        forall yesRaw | NoWorse(PreparedTrade(amount, isNotional, price, side, book).value.order, yesRaw)
          ensures FillCost(PreparedTrade(amount, isNotional, price, side, book).value.order, yesRaw)
                  <= PreparedTrade(amount, isNotional, price, side, book).value.quoteRaw
        {
          ApprovalCoversEveryFill(amount, isNotional, price, side, book, yesRaw);
        }
      }
    } else if amount > 0.0 && (isNotional ==> price > 0.0) {
      NothingAsked(amount, isNotional, price, book);
    }
  }

  lemma AskedOk(amount: real, isNotional: bool, price: real)
    requires AskedSize(amount, isNotional, price).Ok?
    ensures amount > 0.0 && (isNotional ==> price > 0.0)
  {
  }

  /** The stored quantity is the signed size: turning it back into raw units loses nothing. */
  lemma StoredSizeIsSignedSize(amount: real, isNotional: bool, price: real, side: OrderSide, book: Book)
    requires book.tick >= 1 && book.lot >= 1
    requires PreparedTrade(amount, isNotional, price, side, book).Ok?
    ensures var p := PreparedTrade(amount, isNotional, price, side, book).value;
            p.quantity * 1000000.0 == p.order.qtyRaw as real && ToRaw(p.quantity) == p.order.qtyRaw
  {
    var q := PreparedTrade(amount, isNotional, price, side, book).value.order.qtyRaw;
    assert q as real / SCALE as real * 1000000.0 == q as real;
    RoundHalfEvenUnique(q as real / SCALE as real * 1000000.0, q);
    RawOfQuantized(q as real / SCALE as real);
  }

  /** Main result: the approval covers what any fill no worse than the limit can take, on both sides. */
  lemma ApprovalCoversEveryFill(amount: real, isNotional: bool, price: real, side: OrderSide, book: Book, yesRaw: int)
    requires book.tick >= 1 && book.lot >= 1
    requires PreparedTrade(amount, isNotional, price, side, book).Ok?
    requires NoWorse(PreparedTrade(amount, isNotional, price, side, book).value.order, yesRaw)
    ensures var p := PreparedTrade(amount, isNotional, price, side, book).value;
            FillCost(p.order, yesRaw) <= p.quoteRaw
  {
    var o := PreparedTrade(amount, isNotional, price, side, book).value.order;
    CostMonotone(o.qtyRaw, UnitCost(side, yesRaw), AtLeast(UnitCost(side, o.priceRaw), 1));
  }

  lemma CostMonotone(q: int, a: int, b: int)
    requires q >= 0 && a <= b
    ensures q * a / SCALE <= q * b / SCALE
  {
    ProductMonotone(a, b, q);
    QuotientMonotone(q * a, q * b, SCALE);
  }

  /** And no more than that: it is the cost at the limit itself, or one raw unit. */
  lemma ApprovalIsTight(amount: real, isNotional: bool, price: real, side: OrderSide, book: Book)
    requires book.tick >= 1 && book.lot >= 1 && side in {BUY_YES, BUY_NO}
    requires PreparedTrade(amount, isNotional, price, side, book).Ok?
    ensures var p := PreparedTrade(amount, isNotional, price, side, book).value;
            p.quoteRaw == 1 || p.quoteRaw == FillCost(p.order, p.order.priceRaw) || book.tick >= SCALE
  {
    hide AskedSize, AlignQuantityRaw, ToRaw, Quantize6;
    var o := PreparedTrade(amount, isNotional, price, side, book).value.order;
    assert book.tick < SCALE ==> UnitCost(side, o.priceRaw) == SCALE - book.tick >= 1;
  }

  /** _fallback_to_limit_or_raise: the same intent as a resting order at the outcome's own price. */
  function Fallback(asked: real, price: real, side: OrderSide, book: Book): Result<Order>
    requires book.tick >= 1 && book.lot >= 1
  {
    PlacedOrder(side, LIMIT, price, asked, book)
  }

  /** What the resting order pays for one unit is exactly the displayed price if and only if the displayed price
      has six decimals and: for a YES buy it lies on the tick grid; for a NO buy, where the book reads the NO price
      as a YES price, it and its grid price add up to one, which on the grid means one half. */
  lemma FallbackPaysDisplayedPriceIff(asked: real, price: real, side: OrderSide, book: Book)
    requires book.tick >= 1 && book.lot >= 1 && side in {BUY_YES, BUY_NO}
    requires Fallback(asked, price, side, book).Ok?
    ensures UnitCost(side, Fallback(asked, price, side, book).value.priceRaw) as real == price * SCALE as real
            <==> var raw := ToRaw(price);
                 && price * SCALE as real == raw as real
                 && (if side == BUY_YES then raw % book.tick == 0 else 2 * raw - raw % book.tick == SCALE)
  {
    hide RoundHalfEven, AlignQuantityRaw;
    GridPays(price * SCALE as real, ToRaw(price), side, book.tick);
  }

  /** Whatever the exact price in raw units, its grid price pays it exactly only if no rounding took place. */
  lemma GridPays(exact: real, raw: int, side: OrderSide, tick: int)
    requires tick >= 1 && raw == RoundHalfEven(exact) && side in {BUY_YES, BUY_NO}
    ensures UnitCost(side, raw / tick * tick) as real == exact
            <==> exact == raw as real && (if side == BUY_YES then raw % tick == 0 else 2 * raw - raw % tick == SCALE)
  {
    hide RoundHalfEven;
    var grid := raw / tick * tick;
    var cost := UnitCost(side, grid);
    assert grid == raw - raw % tick;
    if cost as real == exact { RoundHalfEvenUnique(exact, cost); }
  }

  /** The approval was computed for the market order; it also covers the resting one, for a NO buy always and for
      a YES buy whenever the resting price is not above the market limit. */
  lemma ApprovalCoversFallback(amount: real, isNotional: bool, price: real, side: OrderSide, book: Book)
    requires book.tick >= 1 && book.lot >= 1 && side in {BUY_YES, BUY_NO}
    requires PreparedTrade(amount, isNotional, price, side, book).Ok?
    requires Fallback(AskedSize(amount, isNotional, price).value, price, side, book).Ok?
    requires side == BUY_NO || ToRaw(price) / book.tick * book.tick <= SCALE - book.tick
    ensures var o := Fallback(AskedSize(amount, isNotional, price).value, price, side, book).value;
            FillCost(o, o.priceRaw) <= PreparedTrade(amount, isNotional, price, side, book).value.quoteRaw
  {
    var m := PreparedTrade(amount, isNotional, price, side, book).value;
    var o := Fallback(AskedSize(amount, isNotional, price).value, price, side, book).value;
    SameSizeAtGridPrice(amount, isNotional, price, side, book);
    RestsWithinApproval(amount, isNotional, price, side, book, m, o);
  }

  lemma RestsWithinApproval(amount: real, isNotional: bool, price: real, side: OrderSide, book: Book, m: Prepared,
                            o: Order)
    requires book.tick >= 1 && book.lot >= 1 && side in {BUY_YES, BUY_NO}
    requires PreparedTrade(amount, isNotional, price, side, book) == Ok(m)
    requires o.side == m.order.side == side && o.qtyRaw == m.order.qtyRaw
             && o.priceRaw == ToRaw(price) / book.tick * book.tick > 0
    requires m.order.priceRaw == MarketableYesPriceRaw(side, book.tick)
    requires side == BUY_NO || o.priceRaw <= SCALE - book.tick
    ensures FillCost(o, o.priceRaw) <= m.quoteRaw
  {
    hide PreparedTrade, ToRaw;
    TickBelow(ToRaw(price), book.tick);
    ApprovalCoversEveryFill(amount, isNotional, price, side, book, o.priceRaw);
  }

  lemma SameSizeAtGridPrice(amount: real, isNotional: bool, price: real, side: OrderSide, book: Book)
    requires book.tick >= 1 && book.lot >= 1 && side in {BUY_YES, BUY_NO}
    requires PreparedTrade(amount, isNotional, price, side, book).Ok?
    requires Fallback(AskedSize(amount, isNotional, price).value, price, side, book).Ok?
    ensures var o := Fallback(AskedSize(amount, isNotional, price).value, price, side, book).value;
            var m := PreparedTrade(amount, isNotional, price, side, book).value.order;
            && o.side == m.side == side && o.qtyRaw == m.qtyRaw
            && o.priceRaw == ToRaw(price) / book.tick * book.tick > 0
            && m.priceRaw == MarketableYesPriceRaw(side, book.tick)
  {
    hide ToRaw, AlignQuantityRaw, AskedSize;
  }

  /** If the resting YES buy can be placed for this amount, the approval of its market order pays for it. */
  predicate FallbackCovered(amount: real, isNotional: bool, price: real, book: Book)
    requires book.tick >= 1 && book.lot >= 1
  {
    var m := PreparedTrade(amount, isNotional, price, BUY_YES, book);
    m.Ok? ==>
      var o := Fallback(AskedSize(amount, isNotional, price).value, price, BUY_YES, book);
      o.Ok? ==> FillCost(o.value, o.value.priceRaw) <= m.value.quoteRaw
  }

  /** Main result on resting orders: the approval covers the resting YES buy for every amount, in collateral or in
      shares, if and only if its grid price is not above the market limit (no order can be placed at all when the tick
      is the whole unit). */
  lemma FallbackCoveredIff(isNotional: bool, price: real, book: Book)
    requires book.tick >= 1 && book.lot >= 1
    ensures (forall amount :: FallbackCovered(amount, isNotional, price, book))
            <==> book.tick >= SCALE || ToRaw(price) / book.tick * book.tick <= SCALE - book.tick
  {
    hide PreparedTrade, Fallback, AskedSize, ToRaw, FillCost;
    if book.tick >= SCALE || ToRaw(price) / book.tick * book.tick <= SCALE - book.tick {
      forall amount ensures FallbackCovered(amount, isNotional, price, book) {
        CoveredBelowLimit(amount, isNotional, price, book);
      }
    } else {
      ShortAboveLimit(isNotional, price, book);
    }
  }

  lemma CoveredBelowLimit(amount: real, isNotional: bool, price: real, book: Book)
    requires book.tick >= 1 && book.lot >= 1
    requires book.tick >= SCALE || ToRaw(price) / book.tick * book.tick <= SCALE - book.tick
    ensures FallbackCovered(amount, isNotional, price, book)
  {
    hide Fallback, AskedSize, ToRaw, FillCost, AlignQuantityRaw;
    if PreparedTrade(amount, isNotional, price, BUY_YES, book).Ok?
      && Fallback(AskedSize(amount, isNotional, price).value, price, BUY_YES, book).Ok? {
      ApprovalCoversFallback(amount, isNotional, price, BUY_YES, book);
    }
  }

  /** A size of whole units, in lots and above the minimum, and the amount that asks for exactly it. */
  function WholeSize(book: Book): int { SCALE * (book.lot * AtLeast(book.minQty, 1)) }

  function AmountFor(q: int, isNotional: bool, price: real): real {
    if isNotional then Product(Millionths(q), price) else Millionths(q)
  }

  /** Above the limit the amount for such a size leaves the approval short. */
  lemma ShortAboveLimit(isNotional: bool, price: real, book: Book)
    requires book.tick >= 1 && book.lot >= 1 && book.tick < SCALE
             && ToRaw(price) / book.tick * book.tick > SCALE - book.tick
    ensures !FallbackCovered(AmountFor(WholeSize(book), isNotional, price), isNotional, price, book)
  {
    hide AlignQuantityRaw, AskedSize, ToRaw, AmountFor, WholeSize, Quantize6;
    var u := book.lot * AtLeast(book.minQty, 1);
    WholeSizeFits(book);
    WholeSizeAsked(WholeSize(book), isNotional, price, book.tick);
    WholeUnits(book, SCALE - book.tick);
    WholeUnits(book, ToRaw(price) / book.tick * book.tick);
    MoreForMore(u, SCALE - book.tick, ToRaw(price) / book.tick * book.tick);
  }

  lemma WholeSizeFits(book: Book)
    requires book.lot >= 1
    ensures WholeSize(book) > 0 && AlignQuantityRaw(WholeSize(book), book.lot, book.minQty) == Ok(WholeSize(book))
  {
    var m := AtLeast(book.minQty, 1);
    var q := WholeSize(book);
    ProductMonotone(1, m, book.lot);
    ProductMonotone(1, book.lot, m);
    assert q == SCALE * m * book.lot;
    MultipleHasNoRest(SCALE * m, book.lot);
    MultipleBelow(q, q, book.lot);
  }

  lemma WholeSizeAsked(q: int, isNotional: bool, price: real, tick: int)
    requires q > 0 && tick >= 1 && ToRaw(price) / tick * tick > 0
    ensures ToRaw(Millionths(q)) == q
            && AskedSize(AmountFor(q, isNotional, price), isNotional, price) == Ok(Millionths(q))
  {
    hide Millionths, ToRaw, Quantize6, NotionalToQuantity, RoundHalfEven, Product;
    PositivePrice(price, tick);
    RawOfMillionths(q);
    if isNotional { NotionalAsks(Millionths(q), price); }
  }

  lemma RawOfMillionths(q: int)
    requires q > 0
    ensures Millionths(q) > 0.0 && ToRaw(Millionths(q)) == q && Quantize6(Millionths(q)) == Millionths(q)
  {
    assert Millionths(q) * SCALE as real == q as real;
    RoundHalfEvenUnique(Millionths(q) * SCALE as real, q);
  }

  lemma PositivePrice(price: real, tick: int)
    requires tick >= 1 && ToRaw(price) / tick * tick > 0
    ensures price > 0.0
  {
    hide RoundHalfEven;
    TickBelow(ToRaw(price), tick);
  }

  lemma NotionalAsks(x: real, price: real)
    requires x > 0.0 && price > 0.0 && Quantize6(x) == x
    ensures Product(x, price) > 0.0 && NotionalToQuantity(Product(x, price), price) == Ok(x)
  {
    hide Quantize6;
    assert x * price / price == x;
  }

  lemma WholeUnits(book: Book, price: int)
    ensures WholeSize(book) * price / SCALE == book.lot * AtLeast(book.minQty, 1) * price
  {
    var u := book.lot * AtLeast(book.minQty, 1);
    assert SCALE * u * price == u * price * SCALE;
    ExactQuotient(u * price, SCALE);
  }

  lemma MoreForMore(u: int, a: int, b: int)
    requires 1 <= u && 1 <= a < b
    ensures 1 <= u * a < u * b
  {
    ProductMonotone(1, u, a);
    ProductMonotone(1, u, b - a);
    assert u * b == u * a + u * (b - a);
  }

  /** A tick that divides the unit price keeps every displayed price below one within the market limit. */
  lemma DividingTickIsEnough(price: real, tick: int)
    requires tick >= 1 && SCALE % tick == 0 && ToRaw(price) < SCALE
    ensures ToRaw(price) / tick * tick <= SCALE - tick
  {
    GridBelow(ToRaw(price), tick);
  }

  /** Otherwise it can fail: at a tick of 7, one share bought at 0.999999 is approved with 0.999993 and rests at
      0.999999, which costs more. */
  lemma OddTickLeavesApprovalShort()
    ensures var book := Book(7, 1, 1);
            var m := PreparedTrade(1.0, false, Millionths(999999), BUY_YES, book);
            var o := Fallback(1.0, Millionths(999999), BUY_YES, book);
            && m.Ok? && m.value.quoteRaw == 999993 && m.value.order.qtyRaw == SCALE
            && o.Ok? && o.value.priceRaw == 999999 && FillCost(o.value, o.value.priceRaw) == 999999
            && !FallbackCovered(1.0, false, Millionths(999999), book)
  {
    assert Millionths(999999) * SCALE as real == 999999.0;
    RoundHalfEvenUnique(Millionths(999999) * SCALE as real, 999999);
    RoundHalfEvenUnique(1.0 * SCALE as real, SCALE);
  }

  /** A positive price on the grid below one is at least a tick away from both ends. */
  lemma GridBelow(raw: int, tick: int)
    requires tick >= 1 && SCALE % tick == 0 && raw < SCALE
    ensures raw / tick * tick <= SCALE - tick
    ensures raw / tick * tick > 0 ==> raw / tick * tick >= tick
  {
    DivisionBounds(raw, tick);
    DivisionBounds(SCALE, tick);
    Cancel(raw / tick, SCALE / tick, tick);
    ProductMonotone(raw / tick + 1, SCALE / tick, tick);
    assert (raw / tick + 1) * tick == raw / tick * tick + tick;
    if raw / tick >= 1 { ProductMonotone(1, raw / tick, tick); } else { ProductMonotone(raw / tick, 0, tick); }
  }

  /** prepare_collateral_approval: an unlimited approve, unless the allowance suffices already. */
  function CollateralApproval(allowance: int, amountRaw: int): (r: Option<int>)
    ensures r.None? <==> allowance > 0 && allowance >= amountRaw
  {
    if allowance >= AtLeast(amountRaw, 1) then None else Some(UNLIMITED)
  }

  const UNLIMITED: int := 0x1_0000000000000000_0000000000000000_0000000000000000_0000000000000000 - 1

  /** Whether or not an approval is sent, the allowance afterwards pays for any fill no worse than the limit. */
  lemma AllowanceSuffices(amount: real, isNotional: bool, price: real, side: OrderSide, book: Book, yesRaw: int,
                          allowance: int)
    requires book.tick >= 1 && book.lot >= 1
    requires PreparedTrade(amount, isNotional, price, side, book).Ok?
    requires NoWorse(PreparedTrade(amount, isNotional, price, side, book).value.order, yesRaw)
    requires PreparedTrade(amount, isNotional, price, side, book).value.quoteRaw <= UNLIMITED
    ensures var p := PreparedTrade(amount, isNotional, price, side, book).value;
            var approval := CollateralApproval(allowance, p.quoteRaw);
            FillCost(p.order, yesRaw) <= if approval.Some? then approval.value else allowance
    ensures var p := PreparedTrade(amount, isNotional, price, side, book).value;
            var approval := CollateralApproval(allowance, p.quoteRaw);
            && (approval.None? <==> allowance >= p.quoteRaw)
               && (approval.Some? ==> approval.value == Abi.UINT256_LIMIT - 1)
  {
    ApprovalCoversEveryFill(amount, isNotional, price, side, book, yesRaw);
  }
}
