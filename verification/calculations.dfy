/**
 * The pricing engine: volume, volumetric and billed weight of an item, its
 * unit cost and line total, and the totals over the selected items of a quote.
 */
module Calculations {
  import opened Types

  /** Kilograms of volumetric weight per cubic centimetre divisor. */
  const VolumetricWeightDivisor: real := 5000.0
  /** Cubic centimetres in a cubic metre. */
  const CubicCentimetresPerCbm: real := 1000000.0

  function Max(a: real, b: real): real {
    if a >= b then a else b
  }

  /** Volume in cubic metres of a box measured in centimetres. */
  function CalculateCbm(length: real, breadth: real, height: real): (cbm: real)
    ensures length == 0.0 || breadth == 0.0 || height == 0.0 ==> cbm == 0.0
    ensures cbm == length * breadth * height / CubicCentimetresPerCbm
  {
    if length == 0.0 || breadth == 0.0 || height == 0.0 then 0.0
    else (length * breadth * height) / 1000000.0
  }

  /** Volumetric weight in kg: the volume in cm³ over the divisor 5000. */
  function CalculateVolumetricWeight(length: real, breadth: real, height: real): (w: real)
    ensures length == 0.0 || breadth == 0.0 || height == 0.0 ==> w == 0.0
    ensures w == length * breadth * height / VolumetricWeightDivisor
    ensures w == 200.0 * CalculateCbm(length, breadth, height)
  {
    if length == 0.0 || breadth == 0.0 || height == 0.0 then 0.0
    else (length * breadth * height) / VolumetricWeightDivisor
  }

  /** The chargeable weight: the larger of actual and volumetric weight. */
  function CalculateBilledWeight(actual: real, volumetric: real): (billed: real)
    ensures billed == Max(actual, volumetric)
    ensures billed >= actual && billed >= volumetric
    ensures billed == actual || billed == volumetric
  {
    if actual == 0.0 && volumetric == 0.0 then 0.0 else Max(actual, volumetric)
  }

  /** The category whose items must be photographed before and after packing. */
  predicate NeedsPhoto(category: Category) {
    category == IrregularFurniture
  }

  /**
   * The invariant every priced item satisfies: its derived fields are exactly
   * the ones computed from the item it extends.
   */
  predicate PricingHolds(p: PricedItem) {
    var x := p.item;
    && p.cbm == x.length * x.breadth * x.height / CubicCentimetresPerCbm
    && p.volumetricWeight == x.length * x.breadth * x.height / VolumetricWeightDivisor
    && p.billedWeight == Max(x.actualWeight, p.volumetricWeight)
    && p.unitCost == p.billedWeight * x.ratePerKg + x.packingCharge + x.handlingCharge + x.duty
    && p.lineTotal == p.unitCost * x.quantity
    && (x.requiresPhoto <==> NeedsPhoto(x.category))
  }

  /** `computeProcessedItem`: prices one item. */
  function PriceItem(item: Item): (p: PricedItem)
    ensures PricingHolds(p)
    ensures p.item.(requiresPhoto := item.requiresPhoto) == item
    ensures p.billedWeight >= item.actualWeight && p.billedWeight >= p.volumetricWeight
    ensures p.lineTotal == item.quantity
      * (p.billedWeight * item.ratePerKg + item.packingCharge + item.handlingCharge + item.duty)
  {
    var cbm := CalculateCbm(item.length, item.breadth, item.height);
    var volumetricWeight := CalculateVolumetricWeight(item.length, item.breadth, item.height);
    var billedWeight := CalculateBilledWeight(item.actualWeight, volumetricWeight);
    var unitCost := billedWeight * item.ratePerKg + item.packingCharge + item.handlingCharge + item.duty;
    var lineTotal := unitCost * item.quantity;
    PricedItem(item.(requiresPhoto := item.category == IrregularFurniture),
               cbm, volumetricWeight, billedWeight, unitCost, lineTotal)
  }

  /**
   * Derived fields are never stored independently: an item that satisfies the
   * pricing invariant is what pricing its own input gives back.
   */
  lemma PricingDetermined(p: PricedItem)
    requires PricingHolds(p)
    ensures PriceItem(p.item) == p
  {
  }

  /** Re-pricing a priced item's input changes nothing. */
  lemma RepriceIsStable(item: Item)
    ensures PriceItem(PriceItem(item).item) == PriceItem(item)
  {
    PricingDetermined(PriceItem(item));
  }

  /** `computeProcessedItems`: prices every item, keeping length and order. */
  function PriceItems(items: seq<Item>): (ps: seq<PricedItem>)
    ensures |ps| == |items|
    ensures forall i :: 0 <= i < |items| ==> ps[i] == PriceItem(items[i])
    ensures forall i :: 0 <= i < |items| ==> PricingHolds(ps[i])
  {
    seq(|items|, i requires 0 <= i < |items| => PriceItem(items[i]))
  }

  /** The inputs a list of priced items extends. */
  function Inputs(ps: seq<PricedItem>): (items: seq<Item>)
    ensures |items| == |ps| && forall i :: 0 <= i < |ps| ==> items[i] == ps[i].item
  {
    seq(|ps|, i requires 0 <= i < |ps| => ps[i].item)
  }

  /** A list every element of which satisfies the pricing relation is the pricing of its inputs. */
  lemma PricedListDetermined(ps: seq<PricedItem>)
    requires forall i :: 0 <= i < |ps| ==> PricingHolds(ps[i])
    ensures PriceItems(Inputs(ps)) == ps
  {
    forall k | 0 <= k < |ps| ensures PriceItems(Inputs(ps))[k] == ps[k] {
      PricingDetermined(ps[k]);
    }
  }

  /** Pricing a priced list's inputs gives the list back: pricing is a projection. */
  lemma {:induction false} PriceItemsIdempotent(items: seq<Item>)
    ensures PriceItems(Inputs(PriceItems(items))) == PriceItems(items)
  {
    var ps := PriceItems(items);
    forall i | 0 <= i < |items|
      ensures PriceItems(Inputs(ps))[i] == ps[i]
    {
      RepriceIsStable(items[i]);
    }
  }

  /** The selected items, in order (`items.filter(item => item.isSelected)`). */
  function Selected(ps: seq<PricedItem>): (sel: seq<PricedItem>)
    ensures |sel| <= |ps|
    ensures forall i :: 0 <= i < |sel| ==> sel[i].item.isSelected && sel[i] in ps
    ensures forall i :: 0 <= i < |ps| && ps[i].item.isSelected ==> ps[i] in sel
  {
    if ps == [] then []
    else
      var last := ps[|ps| - 1];
      Selected(ps[..|ps| - 1]) + (if last.item.isSelected then [last] else [])
  }

  function SumLineTotals(ps: seq<PricedItem>): real {
    if ps == [] then 0.0 else SumLineTotals(ps[..|ps| - 1]) + ps[|ps| - 1].lineTotal
  }

  function SumCbm(ps: seq<PricedItem>): real {
    if ps == [] then 0.0
    else SumCbm(ps[..|ps| - 1]) + ps[|ps| - 1].cbm * ps[|ps| - 1].item.quantity
  }

  function SumBilledWeight(ps: seq<PricedItem>): real {
    if ps == [] then 0.0
    else SumBilledWeight(ps[..|ps| - 1]) + ps[|ps| - 1].billedWeight * ps[|ps| - 1].item.quantity
  }

  /** `computeTotals`: sums over the selected items only. */
  function ComputeTotals(ps: seq<PricedItem>): (t: Totals)
    ensures t.grandTotal == t.subtotal
    ensures t.selectedCount <= |ps|
    ensures (forall i :: 0 <= i < |ps| ==> !ps[i].item.isSelected) ==> t == NoTotals
  {
    var sel := Selected(ps);
    var subtotal := SumLineTotals(sel);
    Totals(subtotal, subtotal, SumCbm(sel), SumBilledWeight(sel), |sel|)
  }

  const NoTotals := Totals(0.0, 0.0, 0.0, 0.0, 0)

  function AddTotals(a: Totals, b: Totals): Totals {
    Totals(a.subtotal + b.subtotal, a.grandTotal + b.grandTotal, a.totalCBM + b.totalCBM,
           a.totalBilledWeight + b.totalBilledWeight, a.selectedCount + b.selectedCount)
  }

  /** What one item adds to the totals: everything for a selected item, nothing otherwise. */
  function Contribution(p: PricedItem): (t: Totals)
    ensures !p.item.isSelected ==> t == NoTotals
  {
    if p.item.isSelected then Totals(p.lineTotal, p.lineTotal, p.cbm * p.item.quantity,
                                     p.billedWeight * p.item.quantity, 1)
    else NoTotals
  }

  /** Totals are a fold: the totals of a concatenation add up. */
  lemma TotalsOfConcat(a: seq<PricedItem>, b: seq<PricedItem>)
    ensures ComputeTotals(a + b) == AddTotals(ComputeTotals(a), ComputeTotals(b))
  {
    SelectedOfConcat(a, b);
    SumsOfConcat(Selected(a), Selected(b));
  }

  lemma {:induction false} SelectedOfConcat(a: seq<PricedItem>, b: seq<PricedItem>)
    ensures Selected(a + b) == Selected(a) + Selected(b)
  {
    if b == [] {
      assert a + b == a;
    } else {
      assert (a + b)[..|a + b| - 1] == a + b[..|b| - 1];
      SelectedOfConcat(a, b[..|b| - 1]);
    }
  }

  lemma {:induction false} SumsOfConcat(a: seq<PricedItem>, b: seq<PricedItem>)
    ensures SumLineTotals(a + b) == SumLineTotals(a) + SumLineTotals(b)
    ensures SumCbm(a + b) == SumCbm(a) + SumCbm(b)
    ensures SumBilledWeight(a + b) == SumBilledWeight(a) + SumBilledWeight(b)
  {
    if b == [] {
      assert a + b == a;
    } else {
      assert (a + b)[..|a + b| - 1] == a + b[..|b| - 1];
      SumsOfConcat(a, b[..|b| - 1]);
    }
  }

  /** The totals of one item are its contribution. */
  lemma TotalsOfOne(p: PricedItem)
    ensures ComputeTotals([p]) == Contribution(p)
  {
    assert [p][..0] == [];
    if p.item.isSelected {
      assert Selected([p]) == [p];
      assert SumLineTotals([p]) == SumLineTotals([]) + p.lineTotal;
      assert SumCbm([p]) == SumCbm([]) + p.cbm * p.item.quantity;
      assert SumBilledWeight([p]) == SumBilledWeight([]) + p.billedWeight * p.item.quantity;
    } else {
      assert Selected([p]) == [];
    }
  }

  /**
   * Changing an item that is unselected before and after never changes the
   * totals.
   */
  lemma UnselectedChangeKeepsTotals(ps: seq<PricedItem>, i: nat, x: PricedItem)
    requires i < |ps| && !ps[i].item.isSelected && !x.item.isSelected
    ensures ComputeTotals(ps[i := x]) == ComputeTotals(ps)
  {
    var pre, post := ps[..i], ps[i + 1..];
    assert ps == pre + [ps[i]] + post;
    assert ps[i := x] == pre + [x] + post;
    TotalsOfConcat(pre + [ps[i]], post);
    TotalsOfConcat(pre, [ps[i]]);
    TotalsOfConcat(pre + [x], post);
    TotalsOfConcat(pre, [x]);
    TotalsOfOne(ps[i]);
    TotalsOfOne(x);
  }

  /** `getTransitTime`: the quoted transit time for a mode of service. */
  function TransitTime(service: string): (t: string)
    ensures t != "" <==> service == "Air Freight" || service == "Sea Freight"
  {
    if service == "Air Freight" then "10-15 Working Days"
    else if service == "Sea Freight" then "40-45 Working Days"
    else ""
  }

  datatype Enriched = Enriched(items: seq<PricedItem>, totals: Totals)

  /** `enrichItemsAndTotals`: priced items and their totals; the form is not consulted. */
  function EnrichItemsAndTotals(items: seq<Item>, form: FormData): (r: Enriched)
    ensures |r.items| == |items| && forall i :: 0 <= i < |items| ==> PricingHolds(r.items[i])
    ensures forall i :: 0 <= i < |items| ==>
      r.items[i].item.(requiresPhoto := items[i].requiresPhoto) == items[i]
    ensures r.totals == ComputeTotals(r.items)
  {
    var ps := PriceItems(items);
    Enriched(ps, ComputeTotals(ps))
  }

  /** The worked example: a 10×20×30 cm item of 2 kg at 10 per kg, two of them. */
  lemma WorkedExample()
    ensures var p := PriceItem(Item(1, "Item 1 of 1", "Boxes", 2.0, General, Normal, 10.0, 20.0, 30.0,
                                    2.0, 0.0, 10.0, 5.0, 5.0, 0.0, true, false, Options.None, Options.None));
      p.cbm == 0.006 && p.volumetricWeight == 1.2 && p.billedWeight == 2.0
      && p.unitCost == 30.0 && p.lineTotal == 60.0
  {
    assert CalculateCbm(10.0, 20.0, 30.0) == 0.006;
    assert CalculateVolumetricWeight(10.0, 20.0, 30.0) == 1.2;
    assert CalculateBilledWeight(2.0, 1.2) == 2.0;
  }
}
