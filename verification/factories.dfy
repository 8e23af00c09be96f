/**
 * Default values: a blank quote form, a fresh item, and the renumbering of an
 * item list as "Item i of n". The clock is a parameter.
 */
module Factories {
  import opened Options
  import opened Types
  import opened Text
  import opened Calculations
  import opened Validation

  const DefaultCountry := "India"
  const PendingPayment := "Pending"

  /** `createInitialFormData`: every text field blank except the country, the dates and the payment status. */
  function CreateInitialFormData(clock: Clock): (f: FormData)
    ensures f.name == "" && f.contactNumber == "" && f.email == "" && f.whatsapp == ""
    ensures f.pickupLocation == "" && f.deliveryLocation == "" && f.deliveryCity == ""
    ensures f.modeOfService == "" && f.typeOfGoods == "" && f.transitTime == ""
    ensures f.quoteNo == "" && f.surveyor == "" && f.paymentMethod == "" && f.notes == ""
    ensures f.inclusions == [] && f.deliveryCountry == DefaultCountry && f.paymentStatus == PendingPayment
    ensures f.date == clock.today && f.validUntil == clock.validUntil
  {
    FormData(
      name := "", contactNumber := "", email := "", whatsapp := "",
      pickupLocation := "", deliveryLocation := "", deliveryCity := "",
      deliveryCountry := DefaultCountry, modeOfService := "", typeOfGoods := "",
      transitTime := "", quoteNo := "", date := clock.today, validUntil := clock.validUntil,
      surveyor := "", inclusions := [], paymentMethod := "", paymentStatus := PendingPayment,
      notes := "")
  }

  /**
   * A fresh form fails exactly the seven presence rules: everything but the
   * phone pattern and the email check, which skip empty values.
   */
  lemma InitialFormErrors(clock: Clock)
    ensures FormErrors(CreateInitialFormData(clock)) ==
      [NameRequired, ContactRequired, PickupRequired, ModeRequired, GoodsRequired,
       DeliveryLocationRequired, DeliveryCityRequired]
  {
    var f := CreateInitialFormData(clock);
    assert !Required(TextValue(""));
    assert FormRuleFails(f, 0) && FormRuleFails(f, 1);
    assert FailingRulesUpTo(f, 1) == [NameRequired];
    assert FailingRulesUpTo(f, 2) == [NameRequired, ContactRequired];
    assert !FormRuleFails(f, 2) && !FormRuleFails(f, 3);
    assert FailingRulesUpTo(f, 4) == [NameRequired, ContactRequired];
    assert FormRuleFails(f, 4) && FormRuleFails(f, 5) && FormRuleFails(f, 6);
    assert FormRuleFails(f, 7) && FormRuleFails(f, 8);
    assert FailingRulesUpTo(f, 6) == [NameRequired, ContactRequired, PickupRequired, ModeRequired];
    assert FailingRulesUpTo(f, 8) == [NameRequired, ContactRequired, PickupRequired, ModeRequired,
      GoodsRequired, DeliveryLocationRequired];
    assert FormErrors(f) == FailingRulesUpTo(f, 9);
  }

  /** `createInitialItem(index, seedRate)`, with `Date.now()` passed in as `now`. */
  function CreateInitialItem(now: int, index: nat, seedRate: real): (item: Item)
    ensures item.id == now + index && item.itemNumber == "Item " + NatToString(index + 1)
    ensures item.quantity == 1.0 && item.isSelected && !item.requiresPhoto && item.ratePerKg == seedRate
    ensures item.length == 0.0 && item.breadth == 0.0 && item.height == 0.0 && item.actualWeight == 0.0
    ensures item.value == 0.0 && item.packingCharge == 0.0 && item.handlingCharge == 0.0 && item.duty == 0.0
    ensures item.description == "" && item.category == Uncategorised && item.packageType == Unpackaged
    ensures item.photoBeforePacking == None && item.photoAfterPacking == None
  {
    Item(
      id := now + index, itemNumber := "Item " + NatToString(index + 1), description := "",
      quantity := 1.0, category := Uncategorised, packageType := Unpackaged,
      length := 0.0, breadth := 0.0, height := 0.0, actualWeight := 0.0, value := 0.0,
      ratePerKg := seedRate, packingCharge := 0.0, handlingCharge := 0.0, duty := 0.0,
      isSelected := true, requiresPhoto := false,
      photoBeforePacking := None, photoAfterPacking := None)
  }

  /** Items made at the same instant with different indices get different ids. */
  lemma InitialItemIdsDistinct(now: int, i: nat, j: nat, r: real, s: real)
    ensures CreateInitialItem(now, i, r).id == CreateInitialItem(now, j, s).id <==> i == j
  {
  }

  /** A fresh item weighs nothing and costs nothing, whatever its seeded rate. */
  lemma InitialItemPricesToZero(now: int, index: nat, seedRate: real)
    ensures var p := PriceItem(CreateInitialItem(now, index, seedRate));
      p.cbm == 0.0 && p.billedWeight == 0.0 && p.unitCost == 0.0 && p.lineTotal == 0.0
  {
  }

  /**
   * A fresh item alone is reported only for its missing description, plus a
   * negative-rate error when the seeded rate is negative.
   */
  lemma InitialItemErrors(now: int, seedRate: real)
    ensures ItemErrors([CreateInitialItem(now, 0, seedRate)]) ==
      [IssueError(BlankDescription(0))] + (if seedRate < 0.0 then [IssueError(NegativeRate(0))] else [])
  {
    var item := CreateInitialItem(now, 0, seedRate);
    var items := [item];
    assert AnySelected(items) by { assert items[0].isSelected; }
    assert ItemIssuesUpTo(items, 0) == [];
    assert !HasContent("");
    RequiredText("");
    var rate := if seedRate < 0.0 then [NegativeRate(0)] else [];
    var issues := [BlankDescription(0)] + rate;
    assert IssuesForItem(item, 0) == issues;
    assert ItemIssuesUpTo(items, 1) == [] + issues;
    assert [] + issues == issues;
    assert ItemErrors(items) == Render(issues);
    RenderConcat([BlankDescription(0)], rate);
    assert Render([BlankDescription(0)]) == [IssueError(BlankDescription(0))];
    if seedRate < 0.0 {
      assert Render(rate) == [IssueError(NegativeRate(0))];
    }
  }

  /** The label `Item {index + 1} of {total}`. */
  function ItemLabel(index: nat, total: nat): string {
    "Item " + NatToString(index + 1) + " of " + NatToString(total)
  }

  /** Within one list, different positions get different labels. */
  lemma ItemLabelInjective(i: nat, j: nat, total: nat)
    ensures ItemLabel(i, total) == ItemLabel(j, total) <==> i == j
  {
    if ItemLabel(i, total) == ItemLabel(j, total) {
      assert ItemLabel(i, total) == "Item " + NatToString(i + 1) + (" of " + NatToString(total));
      assert ItemLabel(j, total) == "Item " + NatToString(j + 1) + (" of " + NatToString(total));
      MiddleEqual("Item ", NatToString(i + 1), NatToString(j + 1), " of " + NatToString(total));
      NatToStringInjective(i + 1, j + 1);
    }
  }

  /** `cloneItemWithIndex`: a copy relabelled `Item {index + 1} of {total}`. */
  function CloneItemWithIndex(item: Item, index: nat, total: nat): (r: Item)
    ensures r.itemNumber == ItemLabel(index, total)
    ensures r.(itemNumber := item.itemNumber) == item
  {
    item.(itemNumber := ItemLabel(index, total))
  }

  /** `normalizeItems`: every item relabelled by its position in the list. */
  function NormalizeItems(items: seq<Item>): (r: seq<Item>)
    ensures |r| == |items|
    ensures forall i :: 0 <= i < |items| ==>
      r[i].itemNumber == ItemLabel(i, |items|) && r[i].(itemNumber := items[i].itemNumber) == items[i]
  {
    seq(|items|, i requires 0 <= i < |items| => CloneItemWithIndex(items[i], i, |items|))
  }

  /** Each item carries the label of its own position. */
  predicate IsNormalized(items: seq<Item>) {
    forall i :: 0 <= i < |items| ==> items[i].itemNumber == ItemLabel(i, |items|)
  }

  /** Renumbering yields a numbered list, and a numbered list is left as it is. */
  lemma NormalizeItemsFixpoint(items: seq<Item>)
    ensures IsNormalized(NormalizeItems(items))
    ensures NormalizeItems(items) == items <==> IsNormalized(items)
  {
    var r := NormalizeItems(items);
    if IsNormalized(items) {
      forall i | 0 <= i < |items| ensures r[i] == items[i] {
        assert r[i] == r[i].(itemNumber := items[i].itemNumber);
      }
    }
  }

  /** Renumbering twice is renumbering once. */
  lemma NormalizeItemsIdempotent(items: seq<Item>)
    ensures NormalizeItems(NormalizeItems(items)) == NormalizeItems(items)
  {
    NormalizeItemsFixpoint(items);
    NormalizeItemsFixpoint(NormalizeItems(items));
  }

  /** After renumbering, no two items share an item number. */
  lemma NormalizedLabelsDistinct(items: seq<Item>, i: nat, j: nat)
    requires i < j < |items|
    ensures NormalizeItems(items)[i].itemNumber != NormalizeItems(items)[j].itemNumber
  {
    ItemLabelInjective(i, j, |items|);
  }
}
