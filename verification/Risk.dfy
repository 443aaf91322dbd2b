/** Pre-trade limits: which orders pass, in exact arithmetic. */
module Risk {
  import opened Wrappers
  import opened Decimals
  import opened DecimalText

  /** Decimal strings; an empty one disables its check. */
  datatype Limits = Limits(maxQty: string, maxNotional: string, maxPosition: string)

  datatype RiskConfig = RiskConfig(defaults: Option<Limits>, instruments: map<string, Limits>)

  datatype RiskOrder = RiskOrder(price: string, quantity: string, projectedPosition: string)

  /** An instrument's own entry replaces the defaults wholesale. */
  function LimitsFor(config: RiskConfig, symbol: string): Option<Limits> {
    if symbol in config.instruments then Some(config.instruments[symbol]) else config.defaults
  }

  const INVALID_VALUE := Error("risk_invalid_value", "not a valid decimal")

  function CheckQuantity(quantity: Decimal, maxQty: string): Option<Error> {
    if maxQty == "" then None
    else
      match ParseDecimal(maxQty)
      case Err(_) => Some(INVALID_VALUE)
      case Ok(limit) =>
        if Compare(quantity, limit) > 0 then Some(Error("risk_max_qty", "quantity exceeds maxQty")) else None
  }

  function CheckNotional(quantity: Decimal, price: string, maxNotional: string): Option<Error> {
    if maxNotional == "" || price == "" then None
    else if ParseDecimal(price).Err? || ParseDecimal(maxNotional).Err? then Some(INVALID_VALUE)
    else
      match Mul(ParseDecimal(price).value, quantity)
      case Err(_) => Some(Error("risk_invalid_value", "notional computation overflowed"))
      case Ok(notional) =>
        if Compare(notional, ParseDecimal(maxNotional).value) > 0
        then Some(Error("risk_max_notional", "notional exceeds maxNotional")) else None
  }

  function CheckPosition(projectedPosition: string, maxPosition: string): Option<Error> {
    if maxPosition == "" then None
    else if ParseSigned(projectedPosition).Err? || ParseDecimal(maxPosition).Err? then Some(INVALID_VALUE)
    else
      var position := ParseSigned(projectedPosition).value;
      var magnitude := if position.unscaled < 0 then Negate(position) else position;
      if Compare(magnitude, ParseDecimal(maxPosition).value) > 0
      then Some(Error("risk_max_position", "projected position exceeds maxPosition")) else None
  }

  /** The first limit broken, in the order quantity, notional, position. */
  function CheckRisk(limits: Option<Limits>, order: RiskOrder): Option<Error> {
    if limits.None? then None
    else
      match ParseDecimal(order.quantity)
      case Err(_) => Some(INVALID_VALUE)
      case Ok(quantity) =>
        var tooMuch := CheckQuantity(quantity, limits.value.maxQty);
        var tooDear := CheckNotional(quantity, order.price, limits.value.maxNotional);
        if tooMuch.Some? then tooMuch
        else if tooDear.Some? then tooDear
        else CheckPosition(order.projectedPosition, limits.value.maxPosition)
  }

  // ---- what passing means ----

  /** The amount is at most the limit, both in units of 10^-n. */
  predicate AtMost(amount: int, limit: string, n: nat) {
    ParseDecimal(limit).Ok? && ParseDecimal(limit).value.scale <= n && amount <= At(ParseDecimal(limit).value, n)
  }

  predicate NotionalWithin(quantity: Decimal, price: string, maxNotional: string)
    requires quantity.scale <= MAX_DECIMAL_SCALE
  {
    match ParseDecimal(price)
    case Err(_) => false
    case Ok(p) => FitsLl(p.unscaled * quantity.unscaled)
                  && AtMost(At(p, MAX_DECIMAL_SCALE) * At(quantity, MAX_DECIMAL_SCALE), maxNotional,
                            2 * MAX_DECIMAL_SCALE)
  }

  predicate PositionWithin(position: string, maxPosition: string) {
    match ParseSigned(position)
    case Err(_) => false
    case Ok(d) => AtMost(Abs(At(d, MAX_DECIMAL_SCALE)), maxPosition, MAX_DECIMAL_SCALE)
  }

  lemma {:induction false} ScaledTimes(u: int, j: nat, w: int)
    ensures Scaled(u, j) * w == Scaled(u * w, j)
  {
    if j > 0 {
      ScaledTimes(u, j - 1, w);
      assert 10 * Scaled(u, j - 1) * w == 10 * (Scaled(u, j - 1) * w);
    }
  }

  /** The product of two values at n digits each is the product of the numbers at 2n digits. */
  lemma {:induction false} ProductOfValues(a: Decimal, b: Decimal, n: nat)
    requires a.scale <= n && b.scale <= n
    ensures At(a, n) * At(b, n) == At(Decimal(a.unscaled * b.unscaled, a.scale + b.scale), 2 * n)
  {
    var j, k := n - a.scale, n - b.scale;
    ScaledTimes(a.unscaled, j, Scaled(b.unscaled, k));
    ScaledTimes(b.unscaled, k, a.unscaled);
    assert a.unscaled * Scaled(b.unscaled, k) == Scaled(b.unscaled, k) * a.unscaled;
    assert a.unscaled * b.unscaled == b.unscaled * a.unscaled;
    ScaledShift(a.unscaled * b.unscaled, k, j);
  }

  lemma {:induction false} NotionalPassesIff(quantity: Decimal, price: string, maxNotional: string)
    requires quantity.scale <= MAX_DECIMAL_SCALE
    ensures CheckNotional(quantity, price, maxNotional).None?
       <==> maxNotional == "" || price == "" || NotionalWithin(quantity, price, maxNotional)
  {
    if ParseDecimal(price).Ok? && ParseDecimal(maxNotional).Ok? {
      var p, limit := ParseDecimal(price).value, ParseDecimal(maxNotional).value;
      MulIsExact(p, quantity);
      ProductOfValues(p, quantity, MAX_DECIMAL_SCALE);
      if Mul(p, quantity).Ok? {
        var product := Decimal(p.unscaled * quantity.unscaled, p.scale + quantity.scale);
        NormalizedKeepsValue(product, 2 * MAX_DECIMAL_SCALE);
        CompareIsExact(Normalized(product), limit, 2 * MAX_DECIMAL_SCALE);
      }
    }
  }

  lemma {:induction false} MagnitudeOfValue(d: Decimal, n: nat)
    requires d.scale <= n && NegationStays(d)
    ensures At(if d.unscaled < 0 then Negate(d) else d, n) == Abs(At(d, n))
  {
    ScaledOrder(d.unscaled, 0, n - d.scale);
    ScaledAdd(0, d.unscaled, n - d.scale);
  }

  lemma {:induction false} PositionPassesIff(position: string, maxPosition: string)
    ensures CheckPosition(position, maxPosition).None? <==> maxPosition == "" || PositionWithin(position, maxPosition)
  {
    if ParseSigned(position).Ok? && ParseDecimal(maxPosition).Ok? {
      var d := ParseSigned(position).value;
      var magnitude := if d.unscaled < 0 then Negate(d) else d;
      MagnitudeOfValue(d, MAX_DECIMAL_SCALE);
      CompareIsExact(magnitude, ParseDecimal(maxPosition).value, MAX_DECIMAL_SCALE);
    }
  }

  /** An order passes exactly when its quantity is a decimal and every configured limit parses and
      holds of the exact quantity, of the exact price times quantity (when that product is within 64
      bits; a market order has no price), and of the exact magnitude of the projected position. */
  lemma {:induction false} RiskAcceptsIff(limits: Limits, order: RiskOrder)
    ensures CheckRisk(Some(limits), order).None? <==>
            match ParseDecimal(order.quantity)
            case Err(_) => false
            case Ok(q) =>
              && (limits.maxQty == "" || AtMost(At(q, MAX_DECIMAL_SCALE), limits.maxQty, MAX_DECIMAL_SCALE))
              && (limits.maxNotional == "" || order.price == "" || NotionalWithin(q, order.price, limits.maxNotional))
              && (limits.maxPosition == "" || PositionWithin(order.projectedPosition, limits.maxPosition))
  {
    if ParseDecimal(order.quantity).Ok? {
      var q := ParseDecimal(order.quantity).value;
      if ParseDecimal(limits.maxQty).Ok? {
        CompareIsExact(q, ParseDecimal(limits.maxQty).value, MAX_DECIMAL_SCALE);
      }
      NotionalPassesIff(q, order.price, limits.maxNotional);
      PositionPassesIff(order.projectedPosition, limits.maxPosition);
    }
  }

  /** A refusal names the first limit broken, in the order quantity, notional, position, or a value that
      is no decimal where it is needed; 64 bits are the range of the notional. */
  lemma {:induction false} RefusalNamesTheFirstBreach(limits: Limits, order: RiskOrder)
    ensures var refusal := CheckRisk(Some(limits), order);
            match ParseDecimal(order.quantity)
            case Err(_) => refusal.Some? && refusal.value.code == "risk_invalid_value"
            case Ok(q) =>
              if limits.maxQty != "" && !AtMost(At(q, MAX_DECIMAL_SCALE), limits.maxQty, MAX_DECIMAL_SCALE) then
                && refusal.Some?
                && refusal.value.code == if ParseDecimal(limits.maxQty).Ok? then "risk_max_qty"
                   else "risk_invalid_value"
              else if limits.maxNotional != "" && order.price != ""
                   && !NotionalWithin(q, order.price, limits.maxNotional) then
                && refusal.Some?
                && refusal.value.code == if NotionalExists(q, order.price, limits.maxNotional) then "risk_max_notional"
                                         else "risk_invalid_value"
              else if limits.maxPosition != "" && !PositionWithin(order.projectedPosition, limits.maxPosition) then
                && refusal.Some?
                && refusal.value.code == if ParseSigned(order.projectedPosition).Ok?
                && ParseDecimal(limits.maxPosition).Ok?
                                         then "risk_max_position" else "risk_invalid_value"
              else refusal.None?
  {
    if ParseDecimal(order.quantity).Ok? {
      var q := ParseDecimal(order.quantity).value;
      if ParseDecimal(limits.maxQty).Ok? {
        CompareIsExact(q, ParseDecimal(limits.maxQty).value, MAX_DECIMAL_SCALE);
      }
      NotionalRefusal(q, order.price, limits.maxNotional);
      PositionPassesIff(order.projectedPosition, limits.maxPosition);
    }
  }

  /** Price and limit are decimals and the product is within 64 bits. */
  predicate NotionalExists(quantity: Decimal, price: string, maxNotional: string) {
    && ParseDecimal(price).Ok? && ParseDecimal(maxNotional).Ok?
    && FitsLl(ParseDecimal(price).value.unscaled * quantity.unscaled)
  }

  lemma {:induction false} NotionalRefusal(quantity: Decimal, price: string, maxNotional: string)
    requires quantity.scale <= MAX_DECIMAL_SCALE
    ensures var refusal := CheckNotional(quantity, price, maxNotional);
            && (refusal.None? <==> maxNotional == "" || price == "" || NotionalWithin(quantity, price, maxNotional))
            && (refusal.Some? ==> refusal.value.code == if NotionalExists(quantity, price, maxNotional)
                                                        then "risk_max_notional" else "risk_invalid_value")
  {
    hide AtMost;
    NotionalPassesIff(quantity, price, maxNotional);
    if ParseDecimal(price).Ok? {
      MulIsExact(ParseDecimal(price).value, quantity);
    }
  }
}
