/** Prices, partner discounts, and the check that lets an offer be saved. Amounts are integers in
    currency minor units; every amount the code accepts lies in the safe-integer range, where its
    arithmetic is exact. */
module PartnerOffers {
  import opened Schema

  const MAX_SAFE: int := 9007199254740991

  predicate Safe(amount: int) {
    -MAX_SAFE <= amount <= MAX_SAFE
  }

  predicate Minor(amount: int) {
    0 <= amount <= MAX_SAFE
  }

  // ----- prices

  datatype Formula = Formula(baseMinor: int, surcharges: map<string, int>, maxUnits: int, scope: Scope, seatsPerUnit: int)
  {
    // Positive by config validation.
    predicate Valid() {
      1 <= maxUnits && 1 <= seatsPerUnit
    }
  }

  datatype PricingRow = PricingRow(maxQuantity: int, pickup: Option<string>, priceMinor: int)

  datatype Pricing = Tiers(rows: seq<PricingRow>) | ByFormula(formula: Formula)
  {
    predicate Valid() {
      ByFormula? ==> formula.Valid()
    }
  }

  // Capacity units a party takes: the quotient rounded up.
  function UnitsFor(f: Formula, quantity: int): int
    requires f.Valid()
  {
    (quantity + f.seatsPerUnit - 1) / f.seatsPerUnit
  }

  function PickupAmount(f: Formula, pickup: Option<string>): Option<int> {
    if pickup.None? then (if f.surcharges == map[] then Some(0) else None)
    else if pickup.value in f.surcharges then Some(f.surcharges[pickup.value])
    else None
  }

  function Times(f: Formula, units: int): int {
    if f.scope == PerUnit then units else 1
  }

  function FormulaPrice(f: Formula, quantity: int, pickup: Option<string>): Option<int>
    requires f.Valid()
  {
    var units := UnitsFor(f, quantity);
    if units > f.maxUnits || PickupAmount(f, pickup).None? then None
    else Some(f.baseMinor * units + PickupAmount(f, pickup).value * Times(f, units))
  }

  predicate RowApplies(row: PricingRow, quantity: int, pickup: Option<string>) {
    row.pickup == pickup && quantity <= row.maxQuantity
  }

  function TightestRow(rows: seq<PricingRow>, quantity: int, pickup: Option<string>): Option<PricingRow> {
    if rows == [] then None
    else
      var last := rows[|rows| - 1];
      var before := TightestRow(rows[..|rows| - 1], quantity, pickup);
      if RowApplies(last, quantity, pickup) && (before.None? || last.maxQuantity < before.value.maxQuantity) then Some(last) else before
  }

  predicate IsNarrowest(row: PricingRow, rows: seq<PricingRow>, quantity: int, pickup: Option<string>) {
    && row in rows
    && RowApplies(row, quantity, pickup)
    && forall r | r in rows && RowApplies(r, quantity, pickup) :: row.maxQuantity <= r.maxQuantity
  }

  // The row charged is the narrowest that covers the party, wherever it stands in the list.
  lemma {:induction false} TightestRowIsNarrowest(rows: seq<PricingRow>, quantity: int, pickup: Option<string>)
    ensures var row := TightestRow(rows, quantity, pickup);
            && (row.None? <==> forall r | r in rows :: !RowApplies(r, quantity, pickup))
            && (row.Some? ==> IsNarrowest(row.value, rows, quantity, pickup))
  {
    if rows != [] {
      TightestRowIsNarrowest(rows[..|rows| - 1], quantity, pickup);
      assert rows == rows[..|rows| - 1] + [rows[|rows| - 1]];
    }
  }

  function PriceFor(pricing: Pricing, quantity: int, pickup: Option<string>): Option<int>
    requires pricing.Valid()
  {
    if quantity < 1 then None
    else match pricing
      case ByFormula(f) => FormulaPrice(f, quantity, pickup)
      case Tiers(rows) =>
        var row := TightestRow(rows, quantity, pickup);
        if row.Some? then Some(row.value.priceMinor) else None
  }

  // The least number of units whose seats hold the party.
  predicate HoldsParty(units: int, seats: int, quantity: int) {
    (units - 1) * seats < quantity <= units * seats
  }

  // The formula has an amount for the pickup chosen, or has none to choose from.
  predicate Priced(f: Formula, pickup: Option<string>) {
    if pickup.None? then f.surcharges == map[] else pickup.value in f.surcharges
  }

  // Every unit is charged the base; the surcharge once per unit or once per booking.
  predicate ChargesUnits(f: Formula, pickup: Option<string>, units: int, price: Option<int>) {
    && (price.Some? <==> units <= f.maxUnits && Priced(f, pickup))
    && (price.Some? ==>
          var surcharge := if pickup.Some? && pickup.value in f.surcharges then f.surcharges[pickup.value] else 0;
          match f.scope
          case PerUnit => price.value == units * (f.baseMinor + surcharge)
          case PerBooking => price.value == units * f.baseMinor + surcharge)
  }

  lemma UnitsHoldTheParty(f: Formula, quantity: int)
    requires f.Valid()
    ensures HoldsParty(UnitsFor(f, quantity), f.seatsPerUnit, quantity)
    ensures forall units | HoldsParty(units, f.seatsPerUnit, quantity) :: units == UnitsFor(f, quantity)
  {
    var s, u := f.seatsPerUnit, UnitsFor(f, quantity);
    assert quantity + s - 1 == s * u + (quantity + s - 1) % s;
    assert (u - 1) * s == s * u - s;
    forall units | HoldsParty(units, s, quantity) ensures units == u {
      assert (units - 1) * s == s * units - s;
      QuotientIs(quantity + s - 1, s, units);
    }
  }

  lemma FormulaChargesUnits(f: Formula, quantity: int, pickup: Option<string>, units: int)
    requires f.Valid() && HoldsParty(units, f.seatsPerUnit, quantity)
    ensures ChargesUnits(f, pickup, units, FormulaPrice(f, quantity, pickup))
  {
    UnitsHoldTheParty(f, quantity);
    var surcharge := if pickup.Some? && pickup.value in f.surcharges then f.surcharges[pickup.value] else 0;
    assert units * (f.baseMinor + surcharge) == f.baseMinor * units + surcharge * units;
  }

  // The first of the narrowest rows that cover the party.
  predicate ChargedRow(rows: seq<PricingRow>, quantity: int, pickup: Option<string>, i: nat) {
    && i < |rows| && rows[i].pickup == pickup && quantity <= rows[i].maxQuantity
    && forall j | 0 <= j < |rows| && rows[j].pickup == pickup && quantity <= rows[j].maxQuantity ::
         rows[i].maxQuantity <= rows[j].maxQuantity && (j < i ==> rows[i].maxQuantity < rows[j].maxQuantity)
  }

  // A price exists when the party is at least one and its units, or some row, can be charged; it is what
  // they cost.
  method ComputePrice(pricing: Pricing, quantity: int, pickup: Option<string>) returns (price: Option<int>)
    requires pricing.Valid()
    ensures price == PriceFor(pricing, quantity, pickup)
    ensures quantity < 1 ==> price.None?
    ensures 1 <= quantity && pricing.ByFormula? ==>
              && (exists units :: HoldsParty(units, pricing.formula.seatsPerUnit, quantity))
              && (forall units | HoldsParty(units, pricing.formula.seatsPerUnit, quantity) ::
                    ChargesUnits(pricing.formula, pickup, units, price))
    ensures 1 <= quantity && pricing.Tiers? ==>
              && (price.None? <==> forall i | 0 <= i < |pricing.rows| ::
                    !(pricing.rows[i].pickup == pickup && quantity <= pricing.rows[i].maxQuantity))
              && (price.Some? ==> exists i: nat :: ChargedRow(pricing.rows, quantity, pickup, i) && price.value == pricing.rows[i].priceMinor)
  {
    if quantity < 1 { return None; }
    if pricing.ByFormula? {
      UnitsHoldTheParty(pricing.formula, quantity);
      FormulaChargesUnits(pricing.formula, quantity, pickup, UnitsFor(pricing.formula, quantity));
      return FormulaPrice(pricing.formula, quantity, pickup);
    }
    ghost var charged: nat := 0;
    var tightest: Option<PricingRow> := None;
    for k := 0 to |pricing.rows|
      invariant tightest == TightestRow(pricing.rows[..k], quantity, pickup)
      invariant tightest.None? ==> forall i | 0 <= i < k :: !(pricing.rows[i].pickup == pickup && quantity <= pricing.rows[i].maxQuantity)
      invariant tightest.Some? ==> ChargedRow(pricing.rows[..k], quantity, pickup, charged) && tightest.value == pricing.rows[charged]
    {
      var candidate := pricing.rows[k];
      assert pricing.rows[..k + 1][..k] == pricing.rows[..k];
      if candidate.pickup != pickup || quantity > candidate.maxQuantity { continue; }
      if tightest.None? || candidate.maxQuantity < tightest.value.maxQuantity { tightest, charged := Some(candidate), k; }
    }
    assert pricing.rows[..|pricing.rows|] == pricing.rows;
    price := if tightest.Some? then Some(tightest.value.priceMinor) else None;
  }

  // ----- offers

  datatype Reason = InvalidOffer | InvalidPrice | UnsupportedPricing | PaymentFloor

  datatype Result<T> = Ok(value: T) | Failure(reason: Reason)

  datatype Offer = Offer(enabled: bool, basisPoints: int, waivedPickupIds: seq<string>)

  predicate PickupIdAllowed(id: string) {
    0 < |id| <= 100
  }

  predicate OfferWellFormed(offer: Offer) {
    && 0 <= offer.basisPoints <= 10000
    && |offer.waivedPickupIds| <= 100
    && (forall i | 0 <= i < |offer.waivedPickupIds| :: PickupIdAllowed(offer.waivedPickupIds[i]))
    && (forall i, j | 0 <= i < j < |offer.waivedPickupIds| :: offer.waivedPickupIds[i] != offer.waivedPickupIds[j])
  }

  method ParsePartnerOffer(offer: Offer) returns (parsed: Result<Offer>)
    ensures parsed == if OfferWellFormed(offer) then Ok(offer) else Failure(InvalidOffer)
  {
    if offer.basisPoints < 0 || offer.basisPoints > 10000 { return Failure(InvalidOffer); }
    if |offer.waivedPickupIds| > 100 { return Failure(InvalidOffer); }
    var ids: seq<string> := [];
    for k := 0 to |offer.waivedPickupIds|
      invariant ids == offer.waivedPickupIds[..k]
      invariant forall i | 0 <= i < k :: PickupIdAllowed(offer.waivedPickupIds[i])
      invariant forall i, j | 0 <= i < j < k :: offer.waivedPickupIds[i] != offer.waivedPickupIds[j]
    {
      var id := offer.waivedPickupIds[k];
      if |id| == 0 || |id| > 100 || id in ids {
        if id in ids {
          var i :| 0 <= i < k && ids[i] == id;
          assert offer.waivedPickupIds[i] == offer.waivedPickupIds[k];
        }
        return Failure(InvalidOffer);
      }
      ids := ids + [id];
    }
    assert ids == offer.waivedPickupIds;
    parsed := Ok(offer.(waivedPickupIds := ids));
  }

  predicate HasOfferBenefits(offer: Offer) {
    0 < offer.basisPoints || offer.waivedPickupIds != []
  }

  datatype AppliedOffer = AppliedOffer(basisPoints: int, waivedPickupId: Option<string>)

  datatype OfferPricing = OfferPricing(
    serviceSubtotal: Option<int>,
    pickupSubtotal: Option<int>,
    originalTotal: int,
    serviceDiscount: int,
    pickupDiscount: int,
    savings: int,
    price: int,
    appliedOffer: Option<AppliedOffer>)

  // A share of a subtotal in basis points, halves rounded up.
  function Discount(subtotal: int, basisPoints: int): int {
    (subtotal * basisPoints + 5000) / 10000
  }

  function InForce(offer: Option<Offer>): Option<Offer> {
    if offer.Some? && offer.value.enabled && HasOfferBenefits(offer.value) then offer else None
  }

  function WaivedPickup(offer: Option<Offer>, pickup: Option<string>): Option<string> {
    if offer.Some? && pickup.Some? && pickup.value in offer.value.waivedPickupIds then pickup else None
  }

  predicate FloorMet(minimum: Option<int>, price: int) {
    minimum.Some? && Safe(minimum.value) && 1 <= minimum.value <= price
  }

  function Decompose(f: Formula, quantity: int, pickup: Option<string>): Option<(int, int)>
    requires f.Valid()
  {
    var units := UnitsFor(f, quantity);
    var surcharge := if pickup.None? then Some(0) else PickupAmount(f, pickup);
    if !Minor(f.baseMinor) || surcharge.None? || !Minor(surcharge.value) then None
    else
      var service, pickups := f.baseMinor * units, surcharge.value * Times(f, units);
      if Safe(service) && Safe(pickups) then Some((service, pickups)) else None
  }

  function PriceWithPartnerOffer(pricing: Pricing, quantity: int, pickup: Option<string>, proposed: Option<Offer>,
                                 minimum: Option<int>): Result<OfferPricing>
    requires pricing.Valid()
  {
    if proposed.Some? && !OfferWellFormed(proposed.value) then Failure(InvalidOffer)
    else
      var offer := InForce(proposed);
      if offer.Some? && !pricing.ByFormula? then Failure(UnsupportedPricing)
      else
        var original := PriceFor(pricing, quantity, pickup);
        if original.None? || !Minor(original.value) then Failure(InvalidPrice)
        else
          var parts := if pricing.ByFormula? then Decompose(pricing.formula, quantity, pickup) else None;
          if pricing.ByFormula? && parts.None? then Failure(InvalidPrice)
          else
            var serviceDiscount := if offer.Some? && parts.Some? then Discount(parts.value.0, offer.value.basisPoints) else 0;
            var waived := WaivedPickup(offer, pickup);
            var pickupDiscount := if waived.Some? && parts.Some? then parts.value.1 else 0;
            var savings := serviceDiscount + pickupDiscount;
            var price := original.value - savings;
            if offer.Some? && !FloorMet(minimum, price) then Failure(PaymentFloor)
            else
              Ok(OfferPricing(if parts.Some? then Some(parts.value.0) else None, if parts.Some? then Some(parts.value.1) else None,
                              original.value, serviceDiscount, pickupDiscount, savings, price,
                              if offer.Some? then Some(AppliedOffer(offer.value.basisPoints, waived)) else None))
  }

  predicate SplitsAddUp(v: OfferPricing)
    requires v.serviceSubtotal.Some? && v.pickupSubtotal.Some?
  {
    && 0 <= v.serviceSubtotal.value && 0 <= v.pickupSubtotal.value
    && v.originalTotal == v.serviceSubtotal.value + v.pickupSubtotal.value
    && v.serviceDiscount <= v.serviceSubtotal.value && v.pickupDiscount <= v.pickupSubtotal.value
  }

  // ----- what is sold

  // Switched on, and with something to give.
  predicate Gives(offer: Option<Offer>) {
    offer.Some? && offer.value.enabled && (0 < offer.value.basisPoints || offer.value.waivedPickupIds != [])
  }

  // A share in basis points rounded to the nearest minor unit, halves up.
  predicate NearestShare(discount: int, subtotal: int, basisPoints: int) {
    -5000 < 10000 * discount - subtotal * basisPoints <= 5000
  }

  lemma DiscountIsTheNearestShare(subtotal: int, basisPoints: int, discount: int)
    ensures discount == Discount(subtotal, basisPoints) <==> NearestShare(discount, subtotal, basisPoints)
  {
    var exact := subtotal * basisPoints;
    assert 10000 * ((exact + 5000) / 10000) <= exact + 5000 < 10000 * ((exact + 5000) / 10000) + 10000;
  }

  predicate InSafeRange(amount: int) {
    0 <= amount <= 9007199254740991
  }

  // The party's units at the base price, and its surcharge once per unit or once.
  predicate SplitsInto(f: Formula, units: int, pickup: Option<string>, service: int, extra: int) {
    var surcharge := if pickup.Some? && pickup.value in f.surcharges then f.surcharges[pickup.value] else 0;
    service == units * f.baseMinor && extra == if f.scope == PerUnit then units * surcharge else surcharge
  }

  // The amounts of a sale: what the selection costs, and what the offer takes off each part of it.
  predicate SoldAt(v: OfferPricing, offer: Option<Offer>, pickup: Option<string>, minimum: Option<int>, service: int, extra: int) {
    && v.serviceSubtotal == Some(service) && v.pickupSubtotal == Some(extra) && v.originalTotal == service + extra
    && v.savings == v.serviceDiscount + v.pickupDiscount && v.price == service + extra - v.serviceDiscount - v.pickupDiscount
    && if Gives(offer) then
         var waived := pickup.Some? && pickup.value in offer.value.waivedPickupIds;
         && NearestShare(v.serviceDiscount, service, offer.value.basisPoints)
         && v.pickupDiscount == (if waived then extra else 0)
         && minimum.Some? && 1 <= minimum.value <= v.price
         && v.appliedOffer == Some(AppliedOffer(offer.value.basisPoints, if waived then pickup else None))
       else v.serviceDiscount == 0 && v.pickupDiscount == 0 && v.appliedOffer == None
  }

  // Every amount of the selection is one the code accepts.
  predicate Chargeable(f: Formula, units: int, pickup: Option<string>, service: int, extra: int) {
    && units <= f.maxUnits && Priced(f, pickup) && InSafeRange(f.baseMinor)
    && (pickup.Some? && pickup.value in f.surcharges ==> InSafeRange(f.surcharges[pickup.value]))
    && InSafeRange(service) && InSafeRange(extra) && InSafeRange(service + extra)
  }

  // What is left to pay reaches the payment minimum.
  predicate ReachesMinimum(offer: Offer, pickup: Option<string>, minimum: Option<int>, service: int, extra: int, discount: int) {
    var waived := pickup.Some? && pickup.value in offer.waivedPickupIds;
    minimum.Some? && 1 <= minimum.value <= 9007199254740991
    && minimum.value <= service + extra - discount - (if waived then extra else 0)
  }

  // A selection of a formula price is sold exactly when the offer is well formed, its units and pickup are
  // priced in the safe range and, with an offer in force, the payment minimum is reached; each refusal
  // names the first of these that fails.
  lemma FormulaSaleIsExact(f: Formula, quantity: int, pickup: Option<string>, units: int, offer: Option<Offer>, minimum: Option<int>,
                           service: int, extra: int, discount: int)
    requires f.Valid() && 1 <= quantity && HoldsParty(units, f.seatsPerUnit, quantity) && SplitsInto(f, units, pickup, service, extra)
    requires offer.Some? ==> NearestShare(discount, service, offer.value.basisPoints)
    ensures var sale := PriceWithPartnerOffer(ByFormula(f), quantity, pickup, offer, minimum);
            var wellFormed := offer.Some? ==> OfferWellFormed(offer.value);
            var chargeable := Chargeable(f, units, pickup, service, extra);
            var reached := Gives(offer) ==> ReachesMinimum(offer.value, pickup, minimum, service, extra, discount);
            && (sale == Failure(InvalidOffer) <==> !wellFormed)
            && (sale == Failure(InvalidPrice) <==> wellFormed && !chargeable)
            && (sale == Failure(PaymentFloor) <==> wellFormed && chargeable && !reached)
            && (sale.Ok? <==> wellFormed && chargeable && reached)
            && (sale.Ok? ==> SoldAt(sale.value, offer, pickup, minimum, service, extra))
  {
    UnitsHoldTheParty(f, quantity);
    PositiveUnits(f, quantity);
    FormulaChargesUnits(f, quantity, pickup, units);
    var surcharge := if pickup.Some? && pickup.value in f.surcharges then f.surcharges[pickup.value] else 0;
    assert f.baseMinor * units == service && surcharge * Times(f, units) == extra;
    if InSafeRange(f.baseMinor) { ProductAtLeastZero(f.baseMinor, units); }
    if InSafeRange(surcharge) { ProductAtLeastZero(surcharge, Times(f, units)); }
    if offer.Some? { DiscountIsTheNearestShare(service, offer.value.basisPoints, discount); }
  }

  // A selection priced by rows is sold at its row's price, and only without an offer in force.
  lemma TierSaleIsExact(rows: seq<PricingRow>, quantity: int, pickup: Option<string>, offer: Option<Offer>, minimum: Option<int>)
    ensures var sale, price := PriceWithPartnerOffer(Tiers(rows), quantity, pickup, offer, minimum), PriceFor(Tiers(rows), quantity, pickup);
            && (sale.Ok? <==> (offer.Some? ==> OfferWellFormed(offer.value)) && !Gives(offer) && price.Some? && InSafeRange(price.value))
            && (sale.Ok? ==> sale.value == OfferPricing(None, None, price.value, 0, 0, 0, price.value, None))
            && (sale == Failure(UnsupportedPricing) <==> offer.Some? && OfferWellFormed(offer.value) && Gives(offer))
  {
  }

  // ----- stored snapshots

  function ParseOfferPricingSnapshot(s: OfferPricing): Result<OfferPricing> {
    if !Minor(s.originalTotal) || !Minor(s.serviceDiscount) || !Minor(s.pickupDiscount) || !Minor(s.savings) || !Minor(s.price)
       || (s.serviceSubtotal.Some? && !Minor(s.serviceSubtotal.value)) || (s.pickupSubtotal.Some? && !Minor(s.pickupSubtotal.value))
       || s.serviceSubtotal.None? != s.pickupSubtotal.None?
       || s.savings != s.serviceDiscount + s.pickupDiscount || s.price != s.originalTotal - s.savings
       || (s.serviceSubtotal.Some? && s.pickupSubtotal.Some? && s.originalTotal != s.serviceSubtotal.value + s.pickupSubtotal.value)
    then Failure(InvalidPrice)
    else match s.appliedOffer
      case None => if s.savings != 0 then Failure(InvalidPrice) else Ok(s)
      case Some(applied) =>
        if !Minor(applied.basisPoints) || applied.basisPoints > 10000
           || (applied.waivedPickupId.Some? && applied.waivedPickupId.value == [])
           || s.serviceSubtotal.None? || s.pickupSubtotal.None?
        then Failure(InvalidPrice)
        else if s.serviceDiscount != Discount(s.serviceSubtotal.value, applied.basisPoints)
                || s.pickupDiscount != (if applied.waivedPickupId.None? then 0 else s.pickupSubtotal.value)
        then Failure(InvalidPrice)
        else Ok(s)
  }

  // ----- rounding

  lemma DiscountBounds(subtotal: int, basisPoints: int)
    requires 0 <= subtotal && 0 <= basisPoints <= 10000
    ensures 0 <= Discount(subtotal, basisPoints) <= subtotal
    ensures -10000 <= 2 * (10000 * Discount(subtotal, basisPoints) - subtotal * basisPoints) <= 10000
  {
    var exact := subtotal * basisPoints;
    assert 0 <= exact by { ProductAtLeastZero(subtotal, basisPoints); }
    assert exact <= subtotal * 10000 by { ProductOrder(subtotal, basisPoints, 10000); }
    assert 10000 * ((exact + 5000) / 10000) <= exact + 5000 < 10000 * ((exact + 5000) / 10000) + 10000;
  }

  lemma ProductAtLeastZero(a: int, b: int)
    requires 0 <= a && 0 <= b
    ensures 0 <= a * b
  {
  }

  lemma ProductOrder(a: int, b: int, c: int)
    requires 0 <= a && b <= c
    ensures a * b <= a * c
  {
    ProductAtLeastZero(a, c - b);
    assert a * (c - b) == a * c - a * b;
  }

  // What is left to pay of a subtotal never falls as the subtotal grows.
  lemma PayableIsMonotone(x: int, y: int, basisPoints: int)
    requires 0 <= x <= y && 0 <= basisPoints <= 10000
    ensures x - Discount(x, basisPoints) <= y - Discount(y, basisPoints)
  {
    var d := y - x;
    assert y * basisPoints == x * basisPoints + d * basisPoints;
    ProductOrder(d, basisPoints, 10000);
    var a := x * basisPoints + 5000;
    assert (a + d * 10000) / 10000 == a / 10000 + d;
    assert y * basisPoints + 5000 <= a + d * 10000;
  }

  // ----- the endpoints decide

  predicate Pickups(f: Formula, pickup: Option<string>) {
    if f.surcharges == map[] then pickup == None else pickup.Some? && pickup.value in f.surcharges
  }

  function Switched(offer: Offer): Offer {
    offer.(enabled := true)
  }

  // The offer sells this selection.
  predicate Sells(offer: Offer, f: Formula, quantity: int, pickup: Option<string>, minimum: Option<int>)
    requires f.Valid()
  {
    PriceWithPartnerOffer(ByFormula(f), quantity, pickup, Some(Switched(offer)), minimum).Ok?
  }

  lemma UnitsOfWholeUnits(f: Formula, units: int)
    requires f.Valid() && 1 <= units
    ensures UnitsFor(f, units * f.seatsPerUnit) == units
  {
    var s := f.seatsPerUnit;
    assert units * s + s - 1 == s * units + (s - 1);
    assert (s * units + (s - 1)) / s == units by { QuotientIs(s * units + (s - 1), s, units); }
  }

  lemma QuotientIs(a: int, s: int, q: int)
    requires 1 <= s && s * q <= a < s * q + s
    ensures a / s == q
  {
    var r := a / s;
    assert a == s * r + a % s;
    assert s * (r + 1) == s * r + s && s * (q + 1) == s * q + s;
    if r < q {
      ProductOrder(s, r + 1, q);
    } else if r > q {
      ProductOrder(s, q + 1, r);
    }
  }

  lemma UnitsInRange(f: Formula, quantity: int)
    requires f.Valid() && 1 <= quantity <= f.maxUnits * f.seatsPerUnit
    ensures 1 <= UnitsFor(f, quantity) <= f.maxUnits
  {
    var s, u := f.seatsPerUnit, UnitsFor(f, quantity);
    assert quantity + s - 1 == s * u + (quantity + s - 1) % s;
    assert s * (f.maxUnits + 1) == f.maxUnits * s + s;
    if u < 1 { ProductOrder(s, u, 0); }
    if f.maxUnits + 1 <= u { ProductOrder(s, f.maxUnits + 1, u); }
  }

  // Whether a price exists depends on the party only through its units.
  predicate SellsUnits(offer: Offer, f: Formula, units: int, pickup: Option<string>, minimum: Option<int>)
    requires Pickups(f, pickup)
  {
    var surcharge := if pickup.Some? then f.surcharges[pickup.value] else 0;
    var service, extra := f.baseMinor * units, surcharge * Times(f, units);
    && Minor(f.baseMinor) && Minor(surcharge) && Safe(service) && Safe(extra) && Minor(service + extra)
    && FloorMet(minimum, service + extra - Discount(service, offer.basisPoints)
                         - (if WaivedPickup(Some(Switched(offer)), pickup).Some? then extra else 0))
  }

  lemma SellsByUnits(offer: Offer, f: Formula, quantity: int, pickup: Option<string>, minimum: Option<int>)
    requires f.Valid() && OfferWellFormed(offer) && HasOfferBenefits(offer) && Pickups(f, pickup)
    requires 1 <= quantity && UnitsFor(f, quantity) <= f.maxUnits
    ensures Sells(offer, f, quantity, pickup, minimum) <==> SellsUnits(offer, f, UnitsFor(f, quantity), pickup, minimum)
  {
  }

  lemma BetweenEndpoints(offer: Offer, f: Formula, units: int, pickup: Option<string>, minimum: Option<int>)
    requires f.Valid() && OfferWellFormed(offer) && Pickups(f, pickup) && 1 <= units <= f.maxUnits
    requires SellsUnits(offer, f, 1, pickup, minimum) && SellsUnits(offer, f, f.maxUnits, pickup, minimum)
    ensures SellsUnits(offer, f, units, pickup, minimum)
  {
    var b := f.baseMinor;
    var s := if pickup.Some? then f.surcharges[pickup.value] else 0;
    ProductOrder(b, 1, units);
    ProductOrder(b, units, f.maxUnits);
    ProductOrder(s, Times(f, 1), Times(f, units));
    ProductOrder(s, Times(f, units), Times(f, f.maxUnits));
    PayableIsMonotone(b * 1, b * units, offer.basisPoints);
    ProductAtLeastZero(s, Times(f, units));
  }

  // ----- the check

  function PickupsOf(f: Formula): set<Option<string>> {
    if f.surcharges == map[] then {None} else set p | p in f.surcharges.Keys :: Some(p)
  }

  ghost predicate EndpointsSell(offer: Offer, f: Formula, minimum: Option<int>)
    requires f.Valid()
  {
    forall units, pickup | units in {1, f.maxUnits} && pickup in PickupsOf(f) ::
      Sells(offer, f, units * f.seatsPerUnit, pickup, minimum)
  }

  ghost predicate EverySelectionSells(offer: Offer, f: Formula, minimum: Option<int>)
    requires f.Valid()
  {
    forall quantity, pickup | 1 <= quantity <= f.maxUnits * f.seatsPerUnit && Pickups(f, pickup) ::
      Sells(offer, f, quantity, pickup, minimum)
  }

  // Trying one unit and the most units, at every pickup, decides every party size.
  lemma EndpointsDecide(offer: Offer, f: Formula, minimum: Option<int>)
    requires f.Valid() && OfferWellFormed(offer) && HasOfferBenefits(offer)
    ensures EndpointsSell(offer, f, minimum) <==> EverySelectionSells(offer, f, minimum)
  {
    if EndpointsSell(offer, f, minimum) {
      forall quantity, pickup | 1 <= quantity <= f.maxUnits * f.seatsPerUnit && Pickups(f, pickup)
        ensures Sells(offer, f, quantity, pickup, minimum)
      {
        EndpointsCover(offer, f, quantity, pickup, minimum);
      }
    }
    if EverySelectionSells(offer, f, minimum) {
      forall units, pickup | units in {1, f.maxUnits} && pickup in PickupsOf(f)
        ensures Sells(offer, f, units * f.seatsPerUnit, pickup, minimum)
      {
        ProductOrder(f.seatsPerUnit, 1, units);
        ProductOrder(f.seatsPerUnit, units, f.maxUnits);
      }
    }
  }

  lemma EndpointsCover(offer: Offer, f: Formula, quantity: int, pickup: Option<string>, minimum: Option<int>)
    requires f.Valid() && OfferWellFormed(offer) && HasOfferBenefits(offer) && EndpointsSell(offer, f, minimum)
    requires 1 <= quantity <= f.maxUnits * f.seatsPerUnit && Pickups(f, pickup)
    ensures Sells(offer, f, quantity, pickup, minimum)
  {
    assert pickup in PickupsOf(f);
    EndpointSellsUnits(offer, f, 1, pickup, minimum);
    EndpointSellsUnits(offer, f, f.maxUnits, pickup, minimum);
    UnitsInRange(f, quantity);
    BetweenEndpoints(offer, f, UnitsFor(f, quantity), pickup, minimum);
    SellsByUnits(offer, f, quantity, pickup, minimum);
  }

  lemma EndpointSellsUnits(offer: Offer, f: Formula, units: int, pickup: Option<string>, minimum: Option<int>)
    requires f.Valid() && OfferWellFormed(offer) && HasOfferBenefits(offer) && Pickups(f, pickup)
    requires 1 <= units <= f.maxUnits && Sells(offer, f, units * f.seatsPerUnit, pickup, minimum)
    ensures SellsUnits(offer, f, units, pickup, minimum)
  {
    UnitsOfWholeUnits(f, units);
    ProductOrder(f.seatsPerUnit, 1, units);
    SellsByUnits(offer, f, units * f.seatsPerUnit, pickup, minimum);
  }

  // Whether the offer may be saved for a service.
  ghost predicate Saveable(offer: Offer, pricing: Pricing, minimum: Option<int>)
    requires pricing.Valid()
  {
    OfferWellFormed(offer) && (HasOfferBenefits(offer) ==> pricing.ByFormula? && EverySelectionSells(offer, pricing.formula, minimum))
  }

  method CheckPartnerOfferForService(offer: Offer, pricing: Pricing, minimum: Option<int>) returns (checked: Result<Offer>)
    requires pricing.Valid()
    ensures checked.Ok? <==> Saveable(offer, pricing, minimum)
    ensures checked.Ok? ==> checked.value == offer
    ensures checked == Failure(InvalidOffer) <==> !OfferWellFormed(offer)
    ensures checked == Failure(UnsupportedPricing) <==> OfferWellFormed(offer) && HasOfferBenefits(offer) && pricing.Tiers?
    ensures checked.Failure? && OfferWellFormed(offer) && pricing.ByFormula? ==>
              exists units, pickup | units in {1, pricing.formula.maxUnits} && pickup in PickupsOf(pricing.formula) ::
                PriceWithPartnerOffer(pricing, units * pricing.formula.seatsPerUnit, pickup, Some(Switched(offer)), minimum)
                == Failure(checked.reason)
  {
    checked := ParsePartnerOffer(offer);
    if checked.Failure? || !HasOfferBenefits(offer) { return; }
    if !pricing.ByFormula? { return Failure(UnsupportedPricing); }
    var f := pricing.formula;
    EndpointsDecide(offer, f, minimum);
    var endpoints := if f.maxUnits == 1 then [1] else [1, f.maxUnits];
    var pickups := PickupsOf(f);
    for k := 0 to |endpoints|
      invariant forall j, pickup | 0 <= j < k && pickup in pickups :: Sells(offer, f, endpoints[j] * f.seatsPerUnit, pickup, minimum)
    {
      var rest := pickups;
      while rest != {}
        invariant rest <= pickups
        invariant forall pickup | pickup in pickups - rest :: Sells(offer, f, endpoints[k] * f.seatsPerUnit, pickup, minimum)
        decreases rest
      {
        var pickup :| pickup in rest;
        var result := PriceWithPartnerOffer(pricing, endpoints[k] * f.seatsPerUnit, pickup, Some(offer.(enabled := true)), minimum);
        if result.Failure? {
          assert !Sells(offer, f, endpoints[k] * f.seatsPerUnit, pickup, minimum);
          assert endpoints[k] in {1, f.maxUnits};
          return Failure(result.reason);
        }
        rest := rest - {pickup};
      }
    }
    assert EndpointsSell(offer, f, minimum) by {
      assert endpoints[0] == 1 && endpoints[|endpoints| - 1] == f.maxUnits;
    }
  }

  datatype SoldService = SoldService(pricing: Pricing, pickupIds: seq<string>)

  ghost predicate KnownPickup(services: seq<SoldService>, id: string) {
    exists k :: 0 <= k < |services| && id in services[k].pickupIds
  }

  method CheckPartnerOfferForServices(offer: Offer, services: seq<SoldService>, minimum: Option<int>) returns (checked: Result<Offer>)
    requires forall k | 0 <= k < |services| :: services[k].pricing.Valid()
    ensures checked.Ok? <==>
              && OfferWellFormed(offer)
              && (forall i | 0 <= i < |offer.waivedPickupIds| :: KnownPickup(services, offer.waivedPickupIds[i]))
              && (forall k | 0 <= k < |services| :: Saveable(offer, services[k].pricing, minimum))
    ensures checked.Ok? ==> checked.value == offer
    ensures checked == Failure(InvalidOffer) <==>
              !OfferWellFormed(offer) || exists i | 0 <= i < |offer.waivedPickupIds| :: !KnownPickup(services, offer.waivedPickupIds[i])
  {
    checked := ParsePartnerOffer(offer);
    if checked.Failure? { return; }
    var ids: set<string> := {};
    for k := 0 to |services|
      invariant forall id :: id in ids <==> exists j :: 0 <= j < k && id in services[j].pickupIds
    {
      ids := ids + set id | id in services[k].pickupIds;
    }
    for i := 0 to |offer.waivedPickupIds|
      invariant forall j | 0 <= j < i :: KnownPickup(services, offer.waivedPickupIds[j])
    {
      if offer.waivedPickupIds[i] !in ids { return Failure(InvalidOffer); }
    }
    for k := 0 to |services|
      invariant forall j | 0 <= j < k :: Saveable(offer, services[j].pricing, minimum)
    {
      var result := CheckPartnerOfferForService(offer, services[k].pricing, minimum);
      if result.Failure? { return Failure(result.reason); }
    }
    checked := Ok(offer);
  }

  // ----- what a saved offer guarantees

  // Every selection of a saved offer with benefits is priced inside the safe range, at or above
  // the payment minimum while the offer is on, and at no less once it is switched off.
  lemma SavedOfferAlwaysSells(offer: Offer, f: Formula, minimum: Option<int>, quantity: int, pickup: Option<string>)
    requires f.Valid() && HasOfferBenefits(offer) && Saveable(offer, ByFormula(f), minimum)
    requires 1 <= quantity <= f.maxUnits * f.seatsPerUnit && Pickups(f, pickup)
    ensures var on := PriceWithPartnerOffer(ByFormula(f), quantity, pickup, Some(Switched(offer)), minimum);
            on.Ok? && minimum.Some? && 1 <= minimum.value <= on.value.price && Minor(on.value.price)
    ensures var off := PriceWithPartnerOffer(ByFormula(f), quantity, pickup, Some(offer.(enabled := false)), minimum);
            off.Ok? && off.value.price == off.value.originalTotal
            && PriceWithPartnerOffer(ByFormula(f), quantity, pickup, Some(Switched(offer)), minimum).value.price <= off.value.price
  {
    assert Sells(offer, f, quantity, pickup, minimum);
    PricedAmountsAreConsistent(ByFormula(f), quantity, pickup, Some(Switched(offer)), minimum);
  }

  // ----- snapshots

  lemma PricedAmountsAreConsistent(pricing: Pricing, quantity: int, pickup: Option<string>, offer: Option<Offer>, minimum: Option<int>)
    requires pricing.Valid() && PriceWithPartnerOffer(pricing, quantity, pickup, offer, minimum).Ok?
    ensures var v := PriceWithPartnerOffer(pricing, quantity, pickup, offer, minimum).value;
            && 0 <= v.serviceDiscount && 0 <= v.pickupDiscount && v.savings <= v.originalTotal
            && (v.serviceSubtotal.Some? ==> v.pickupSubtotal.Some? && SplitsAddUp(v))
  {
    var v := PriceWithPartnerOffer(pricing, quantity, pickup, offer, minimum).value;
    if pricing.ByFormula? {
      var f := pricing.formula;
      var units := UnitsFor(f, quantity);
      PositiveUnits(f, quantity);
      var surcharge := PickupAmount(f, pickup).value;
      ProductAtLeastZero(f.baseMinor, units);
      ProductAtLeastZero(surcharge, Times(f, units));
      if InForce(offer).Some? { DiscountBounds(v.serviceSubtotal.value, offer.value.basisPoints); }
    }
  }

  lemma PositiveUnits(f: Formula, quantity: int)
    requires f.Valid() && 1 <= quantity
    ensures 1 <= UnitsFor(f, quantity)
  {
    var s, u := f.seatsPerUnit, UnitsFor(f, quantity);
    assert quantity + s - 1 == s * u + (quantity + s - 1) % s;
    if u < 1 { ProductOrder(s, u, 0); }
  }

  // Whatever was priced reads back unchanged.
  lemma SnapshotRoundTrip(pricing: Pricing, quantity: int, pickup: Option<string>, offer: Option<Offer>, minimum: Option<int>)
    requires pricing.Valid() && PriceWithPartnerOffer(pricing, quantity, pickup, offer, minimum).Ok?
    ensures ParseOfferPricingSnapshot(PriceWithPartnerOffer(pricing, quantity, pickup, offer, minimum).value)
         == PriceWithPartnerOffer(pricing, quantity, pickup, offer, minimum)
  {
    PricedAmountsAreConsistent(pricing, quantity, pickup, offer, minimum);
  }

  // A stored snapshot is accepted exactly when its amounts are the ones its applied offer gives.
  lemma SnapshotIsAcceptedExactly(s: OfferPricing)
    ensures ParseOfferPricingSnapshot(s).Ok? <==>
              && InSafeRange(s.originalTotal) && InSafeRange(s.serviceDiscount) && InSafeRange(s.pickupDiscount)
              && InSafeRange(s.savings) && InSafeRange(s.price)
              && s.savings == s.serviceDiscount + s.pickupDiscount && s.price == s.originalTotal - s.savings
              && s.serviceSubtotal.Some? == s.pickupSubtotal.Some?
              && (s.serviceSubtotal.Some? && s.pickupSubtotal.Some? ==>
                    InSafeRange(s.serviceSubtotal.value) && InSafeRange(s.pickupSubtotal.value)
                    && s.originalTotal == s.serviceSubtotal.value + s.pickupSubtotal.value)
              && (s.appliedOffer.None? ==> s.savings == 0)
              && (s.appliedOffer.Some? ==>
                    && 0 <= s.appliedOffer.value.basisPoints <= 10000
                    && (s.appliedOffer.value.waivedPickupId.Some? ==> 0 < |s.appliedOffer.value.waivedPickupId.value|)
                    && s.serviceSubtotal.Some? && s.pickupSubtotal.Some?
                    && NearestShare(s.serviceDiscount, s.serviceSubtotal.value, s.appliedOffer.value.basisPoints)
                    && s.pickupDiscount == if s.appliedOffer.value.waivedPickupId.Some? then s.pickupSubtotal.value else 0)
    ensures ParseOfferPricingSnapshot(s).Ok? ==> ParseOfferPricingSnapshot(s).value == s
  {
    if s.appliedOffer.Some? && s.serviceSubtotal.Some? {
      DiscountIsTheNearestShare(s.serviceSubtotal.value, s.appliedOffer.value.basisPoints, s.serviceDiscount);
    }
  }

  // An accepted snapshot's amounts add up, and its discount is the exact percentage to within half
  // a minor unit.
  lemma AcceptedSnapshotAddsUp(s: OfferPricing)
    requires ParseOfferPricingSnapshot(s).Ok?
    ensures 0 <= s.price == s.originalTotal - s.savings <= s.originalTotal
    ensures s.appliedOffer.Some? ==>
              && s.serviceSubtotal.Some?
              && s.serviceDiscount <= s.serviceSubtotal.value
              && -10000 <= 2 * (10000 * s.serviceDiscount - s.serviceSubtotal.value * s.appliedOffer.value.basisPoints) <= 10000
    ensures s.appliedOffer.Some? ==>
              s.pickupSubtotal.Some?
              && s.pickupDiscount == if s.appliedOffer.value.waivedPickupId.Some? then s.pickupSubtotal.value else 0
    ensures s.appliedOffer.None? ==> s.price == s.originalTotal
  {
    if s.appliedOffer.Some? {
      DiscountBounds(s.serviceSubtotal.value, s.appliedOffer.value.basisPoints);
    }
  }
}
