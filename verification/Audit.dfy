/** The local consistency audit, and when it can complain. */
module Audit {
  import opened Wrappers
  import opened OrderLifecycle
  import opened Decimals
  import opened DecimalText
  import opened OrderRecords
  import opened Exposure
  import opened OmsRegistry
  import opened OmsMachine
  import opened OmsTheorems

  datatype Alert = Alert(clientOrderId: string, kind: string)

  predicate Gapless(legs: seq<OrderLeg>) {
    forall i :: 0 <= i < |legs| ==> legs[i].version == i + 1
  }

  /** No version gap: versions 1..N, and the newest leg, if there is one, is the current id. */
  predicate Unbroken(r: OrderRecord) {
    Gapless(r.legs) && (r.legs == [] || IsCurrent(r.legs, r.exchangeOrderId))
  }

  /** The exact fill has reached a nonzero quantity while the order is not filled, or the reverse. */
  predicate FillMismatch(r: OrderRecord) {
    var filled, quantity := Units(OrZero(r.filledQuantity)), Units(r.quantity);
    filled.Some? && quantity.Some? && quantity.value != 0 && ((r.state == Filled) != (filled.value >= quantity.value))
  }

  method AuditRecordLocal(r: OrderRecord) returns (alerts: seq<Alert>)
    ensures alerts == (if Gapless(r.legs) then [] else [Alert(r.clientOrderId, "version_gap")])
                    + (if r.legs == [] || IsCurrent(r.legs, r.exchangeOrderId) then []
                       else [Alert(r.clientOrderId, "version_gap")])
                    + (if FillMismatch(r) then [Alert(r.clientOrderId, "fill_state_mismatch")] else [])
  {
    alerts := [];
    var i := 0;
    while i < |r.legs|
      invariant 0 <= i <= |r.legs| && alerts == []
      invariant forall k :: 0 <= k < i ==> r.legs[k].version == k + 1
    {
      if r.legs[i].version != i + 1 {
        alerts := [Alert(r.clientOrderId, "version_gap")];
        break;
      }
      i := i + 1;
    }
    if r.legs != [] && r.legs[|r.legs| - 1].exchangeOrderId != r.exchangeOrderId {
      alerts := alerts + [Alert(r.clientOrderId, "version_gap")];
    }
    var filled, quantity := ParseDecimal(OrZero(r.filledQuantity)), ParseDecimal(r.quantity);
    if filled.Err? || quantity.Err? || quantity.value.unscaled == 0 {
      ZeroUnits(r.quantity);
      return;
    }
    ZeroUnits(r.quantity);
    CompareIsExact(filled.value, quantity.value, MAX_DECIMAL_SCALE);
    var relation := Compare(filled.value, quantity.value);
    if r.state != Filled && relation >= 0 {
      alerts := alerts + [Alert(r.clientOrderId, "fill_state_mismatch")];
    } else if r.state == Filled && relation < 0 {
      alerts := alerts + [Alert(r.clientOrderId, "fill_state_mismatch")];
    }
  }

  lemma {:induction false} ZeroUnits(text: string)
    ensures ParseDecimal(text).Ok? ==> (Units(text) == Some(0) <==> ParseDecimal(text).value.unscaled == 0)
  {
    if ParseDecimal(text).Ok? {
      var d := ParseDecimal(text).value;
      ScaledOrder(d.unscaled, 0, MAX_DECIMAL_SCALE - d.scale);
    }
  }

  /** In one process no order ever raises a version gap. */
  lemma {:induction false} NoVersionGapInProcess(cfg: Config, logging: bool, disk: seq<bool>, steps: seq<Step>,
                                                 id: string)
    requires id in Run(cfg, Init(logging, disk), steps).reg.orders
    ensures Unbroken(Run(cfg, Init(logging, disk), steps).reg.orders[id])
  {
    ReachableInv(cfg, logging, disk, steps);
    assert Chained(Run(cfg, Init(logging, disk), steps).reg.orders[id]);
  }
}
