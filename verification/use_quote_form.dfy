/**
 * `useQuoteForm`: the quote being edited. The list and record updates are
 * functions; `mapErrors` is a loop; the hook's state (`step`, `form`,
 * `items`, `errors`) is the class `QuoteForm`, whose methods are the hook's
 * callbacks. The quote store is the `QuoteStore` object passed in, and the
 * clock is a parameter.
 */
module QuoteFormHook {
  import opened Options
  import opened Types
  import opened Text
  import opened Sequences
  import opened Calculations
  import opened Validation
  import opened Factories
  import opened QuoteContext
  import opened QuotesProvider

  // ------------------------------------------------------------ form fields

  /** The text fields of the form that `updateField` sets. */
  datatype FormField =
    | Name | ContactNumber | Email | Whatsapp | PickupLocation | DeliveryLocation | DeliveryCity
    | DeliveryCountry | ModeOfService | TypeOfGoods | TransitTime | QuoteNo | Date | ValidUntil
    | Surveyor | PaymentMethod | PaymentStatus | Notes

  function GetField(form: FormData, field: FormField): string {
    match field
    case Name => form.name
    case ContactNumber => form.contactNumber
    case Email => form.email
    case Whatsapp => form.whatsapp
    case PickupLocation => form.pickupLocation
    case DeliveryLocation => form.deliveryLocation
    case DeliveryCity => form.deliveryCity
    case DeliveryCountry => form.deliveryCountry
    case ModeOfService => form.modeOfService
    case TypeOfGoods => form.typeOfGoods
    case TransitTime => form.transitTime
    case QuoteNo => form.quoteNo
    case Date => form.date
    case ValidUntil => form.validUntil
    case Surveyor => form.surveyor
    case PaymentMethod => form.paymentMethod
    case PaymentStatus => form.paymentStatus
    case Notes => form.notes
  }

  /** `{ ...form, [field]: value }`. */
  function SetField(form: FormData, field: FormField, value: string): FormData {
    match field
    case Name => form.(name := value)
    case ContactNumber => form.(contactNumber := value)
    case Email => form.(email := value)
    case Whatsapp => form.(whatsapp := value)
    case PickupLocation => form.(pickupLocation := value)
    case DeliveryLocation => form.(deliveryLocation := value)
    case DeliveryCity => form.(deliveryCity := value)
    case DeliveryCountry => form.(deliveryCountry := value)
    case ModeOfService => form.(modeOfService := value)
    case TypeOfGoods => form.(typeOfGoods := value)
    case TransitTime => form.(transitTime := value)
    case QuoteNo => form.(quoteNo := value)
    case Date => form.(date := value)
    case ValidUntil => form.(validUntil := value)
    case Surveyor => form.(surveyor := value)
    case PaymentMethod => form.(paymentMethod := value)
    case PaymentStatus => form.(paymentStatus := value)
    case Notes => form.(notes := value)
  }

  /** The updater `updateField` passes to `setForm`: the field set, and the transit time following the mode of service. */
  function UpdateField(form: FormData, field: FormField, value: string): FormData {
    var updated := SetField(form, field, value);
    if field == ModeOfService then updated.(transitTime := Calculations.TransitTime(value)) else updated
  }

  /**
   * `updateField` sets the named field and changes nothing else (putting the
   * old value back restores the form), except that a new mode of service also
   * sets the transit time for it.
   */
  lemma UpdateFieldOnly(form: FormData, field: FormField, value: string)
    ensures var r := UpdateField(form, field, value);
      && GetField(r, field) == value
      && (field != ModeOfService ==> SetField(r, field, GetField(form, field)) == form)
      && (field == ModeOfService ==>
            && r.transitTime == Calculations.TransitTime(value)
            && SetField(SetField(r, ModeOfService, form.modeOfService), TransitTime, form.transitTime) == form)
  {
  }

  /** Choosing air or sea freight fills in its transit time; any other mode clears it. */
  lemma ModeOfServiceTransit(form: FormData, value: string)
    ensures var t := UpdateField(form, ModeOfService, value).transitTime;
      && (value == "Air Freight" ==> t == "10-15 Working Days")
      && (value == "Sea Freight" ==> t == "40-45 Working Days")
      && (value != "Air Freight" && value != "Sea Freight" ==> t == "")
  {
  }

  // ------------------------------------------------------------- inclusions

  /** `xs.filter(item => item !== option)`. */
  function RemoveAll(xs: seq<string>, option: string): seq<string> {
    if xs == [] then []
    else RemoveAll(xs[..|xs| - 1], option) + (if xs[|xs| - 1] != option then [xs[|xs| - 1]] else [])
  }

  /** The filter keeps, in order, exactly the entries other than `option`. */
  lemma {:induction false} RemoveAllFacts(xs: seq<string>, option: string)
    ensures IsSubsequence(RemoveAll(xs, option), xs)
    ensures forall x :: x in RemoveAll(xs, option) <==> x in xs && x != option
  {
    if xs != [] {
      var p := xs[..|xs| - 1];
      var last := xs[|xs| - 1];
      var rp := RemoveAll(p, option);
      var r := RemoveAll(xs, option);
      RemoveAllFacts(p, option);
      assert xs == p + [last];
      SubsequenceExtend(rp, p, last);
      if last != option {
        assert r == rp + [last];
      } else {
        assert r == rp;
      }
      forall x ensures x in r <==> x in xs && x != option {
        assert x in xs <==> x in p || x == last;
      }
    }
  }

  /** The new inclusions list: `Array.from(new Set([...xs, option]))` when checked, the filter otherwise. */
  function ToggleInclusion(xs: seq<string>, option: string, checked: bool): seq<string> {
    if checked then Dedup(xs + [option]) else RemoveAll(xs, option)
  }

  /**
   * Checking an option adds it without creating duplicates: the entries keep
   * the order of their first occurrences and the option comes last when it is
   * new, so a duplicate-free list that already holds it is left unchanged.
   * Unchecking removes every occurrence and keeps every other entry in order.
   */
  lemma ToggleInclusionFacts(xs: seq<string>, option: string, checked: bool)
    ensures var r := ToggleInclusion(xs, option, checked);
      && (checked ==> NoDuplicates(r) && forall x :: x in r <==> x in xs || x == option)
      && (checked ==> r == Dedup(xs) + (if option in xs then [] else [option]))
      && (checked && NoDuplicates(xs) && option in xs ==> r == xs)
      && (!checked ==> IsSubsequence(r, xs) && forall x :: x in r <==> x in xs && x != option)
  {
    if !checked {
      RemoveAllFacts(xs, option);
    } else {
      CheckedInclusionMembers(xs, option);
      CheckedInclusionOrder(xs, option);
      if NoDuplicates(xs) {
        DedupOfDistinct(xs);
      }
    }
  }

  lemma CheckedInclusionMembers(xs: seq<string>, option: string)
    ensures forall x :: x in Dedup(xs + [option]) <==> x in xs || x == option
  {
    var ys := xs + [option];
    assert option == ys[|xs|];
    forall x | x in xs ensures x in ys { }
  }

  lemma CheckedInclusionOrder(xs: seq<string>, option: string)
    ensures Dedup(xs + [option]) == Dedup(xs) + (if option in xs then [] else [option])
  {
    var ys := xs + [option];
    assert ys[..|ys| - 1] == xs;
    assert option in Dedup(xs) <==> option in xs by {
      if option in xs {
        var k :| 0 <= k < |xs| && xs[k] == option;
      }
    }
  }

  /** On a list without duplicates, checking a new option appends it, and unchecking it again gives the list back. */
  lemma ToggleInclusionRoundTrip(xs: seq<string>, option: string)
    requires NoDuplicates(xs) && option !in xs
    ensures ToggleInclusion(xs, option, true) == xs + [option]
    ensures ToggleInclusion(xs + [option], option, false) == xs
  {
    DedupOfDistinct(xs + [option]);
    assert (xs + [option])[..|xs|] == xs;
    RemoveAbsent(xs, option);
  }

  lemma {:induction false} RemoveAbsent(xs: seq<string>, option: string)
    requires option !in xs
    ensures RemoveAll(xs, option) == xs
  {
    if xs != [] {
      RemoveAbsent(xs[..|xs| - 1], option);
      assert xs[..|xs| - 1] + [xs[|xs| - 1]] == xs;
    }
  }

  // ------------------------------------------------------------------ items

  /** `updateItem(id, field, value)`: the field and the value it is given. */
  datatype ItemEdit =
    | SetItemNumber(itemNumber: string)
    | SetDescription(description: string)
    | SetQuantity(quantity: real)
    | SetCategory(category: Category)
    | SetPackageType(packageType: PackageType)
    | SetLength(length: real)
    | SetBreadth(breadth: real)
    | SetHeight(height: real)
    | SetActualWeight(actualWeight: real)
    | SetValue(value: real)
    | SetRatePerKg(ratePerKg: real)
    | SetPackingCharge(packingCharge: real)
    | SetHandlingCharge(handlingCharge: real)
    | SetDuty(duty: real)
    | SetSelected(isSelected: bool)
    | SetRequiresPhoto(requiresPhoto: bool)
    | SetPhotoBeforePacking(photoBeforePacking: Option<string>)
    | SetPhotoAfterPacking(photoAfterPacking: Option<string>)

  /** `{ ...item, [field]: value }`. */
  function ApplyEdit(item: Item, edit: ItemEdit): Item {
    match edit
    case SetItemNumber(v) => item.(itemNumber := v)
    case SetDescription(v) => item.(description := v)
    case SetQuantity(v) => item.(quantity := v)
    case SetCategory(v) => item.(category := v)
    case SetPackageType(v) => item.(packageType := v)
    case SetLength(v) => item.(length := v)
    case SetBreadth(v) => item.(breadth := v)
    case SetHeight(v) => item.(height := v)
    case SetActualWeight(v) => item.(actualWeight := v)
    case SetValue(v) => item.(value := v)
    case SetRatePerKg(v) => item.(ratePerKg := v)
    case SetPackingCharge(v) => item.(packingCharge := v)
    case SetHandlingCharge(v) => item.(handlingCharge := v)
    case SetDuty(v) => item.(duty := v)
    case SetSelected(v) => item.(isSelected := v)
    case SetRequiresPhoto(v) => item.(requiresPhoto := v)
    case SetPhotoBeforePacking(v) => item.(photoBeforePacking := v)
    case SetPhotoAfterPacking(v) => item.(photoAfterPacking := v)
  }

  /** The edit that sets the same field back to the value it has in `item`. */
  function Undo(item: Item, edit: ItemEdit): ItemEdit {
    match edit
    case SetItemNumber(_) => SetItemNumber(item.itemNumber)
    case SetDescription(_) => SetDescription(item.description)
    case SetQuantity(_) => SetQuantity(item.quantity)
    case SetCategory(_) => SetCategory(item.category)
    case SetPackageType(_) => SetPackageType(item.packageType)
    case SetLength(_) => SetLength(item.length)
    case SetBreadth(_) => SetBreadth(item.breadth)
    case SetHeight(_) => SetHeight(item.height)
    case SetActualWeight(_) => SetActualWeight(item.actualWeight)
    case SetValue(_) => SetValue(item.value)
    case SetRatePerKg(_) => SetRatePerKg(item.ratePerKg)
    case SetPackingCharge(_) => SetPackingCharge(item.packingCharge)
    case SetHandlingCharge(_) => SetHandlingCharge(item.handlingCharge)
    case SetDuty(_) => SetDuty(item.duty)
    case SetSelected(_) => SetSelected(item.isSelected)
    case SetRequiresPhoto(_) => SetRequiresPhoto(item.requiresPhoto)
    case SetPhotoBeforePacking(_) => SetPhotoBeforePacking(item.photoBeforePacking)
    case SetPhotoAfterPacking(_) => SetPhotoAfterPacking(item.photoAfterPacking)
  }

  /**
   * An edit changes only its own field: setting that field back to its old
   * value restores the item, and repeating the edit changes nothing more.
   */
  lemma ApplyEditOnlyField(item: Item, edit: ItemEdit)
    ensures ApplyEdit(ApplyEdit(item, edit), Undo(item, edit)) == item
    ensures ApplyEdit(ApplyEdit(item, edit), edit) == ApplyEdit(item, edit)
    ensures ApplyEdit(item, edit).id == item.id
  {
  }

  /** The `map` inside `updateItem`: the edit applied to the items with the given id. */
  function EditMatching(items: seq<Item>, id: int, edit: ItemEdit): (r: seq<Item>)
    ensures |r| == |items|
    ensures forall i :: 0 <= i < |items| ==> r[i] == (if items[i].id == id then ApplyEdit(items[i], edit) else items[i])
  {
    seq(|items|, i requires 0 <= i < |items| => if items[i].id == id then ApplyEdit(items[i], edit) else items[i])
  }

  /** The updater `updateItem` passes to `setItems`. */
  function UpdateItem(items: seq<Item>, id: int, edit: ItemEdit): seq<Item> {
    NormalizeItems(EditMatching(items, id, edit))
  }

  /**
   * `updateItem` keeps the length, edits exactly the items with the id, leaves
   * the others as they were apart from their label, and renumbers the list.
   */
  lemma UpdateItemFacts(items: seq<Item>, id: int, edit: ItemEdit)
    ensures var r := UpdateItem(items, id, edit);
      && |r| == |items| && IsNormalized(r)
      && (forall i :: 0 <= i < |items| && items[i].id == id ==>
            r[i] == ApplyEdit(items[i], edit).(itemNumber := ItemLabel(i, |items|)))
      && (forall i :: 0 <= i < |items| && items[i].id != id ==>
            r[i] == items[i].(itemNumber := ItemLabel(i, |items|)))
  {
    NormalizeItemsFixpoint(EditMatching(items, id, edit));
  }

  /** The updater `addItem` passes to `setItems`: a fresh item seeded with the last item's rate, then renumbered. */
  function AddItem(items: seq<Item>, now: int): seq<Item> {
    var rateSeed := if |items| > 0 then items[|items| - 1].ratePerKg else 0.0;
    NormalizeItems(items + [CreateInitialItem(now, |items|, rateSeed)])
  }

  /**
   * `addItem` appends exactly one item, a fresh one whose rate is the last
   * item's (0 for an empty list); the earlier items are kept apart from their label.
   */
  lemma AddItemFacts(items: seq<Item>, now: int)
    ensures var r := AddItem(items, now);
      && |r| == |items| + 1 && IsNormalized(r)
      && (forall i :: 0 <= i < |items| ==> r[i] == items[i].(itemNumber := ItemLabel(i, |items| + 1)))
      && r[|items|] == CreateInitialItem(now, |items|, if |items| > 0 then items[|items| - 1].ratePerKg else 0.0)
                         .(itemNumber := ItemLabel(|items|, |items| + 1))
  {
    var rateSeed := if |items| > 0 then items[|items| - 1].ratePerKg else 0.0;
    NormalizeItemsFixpoint(items + [CreateInitialItem(now, |items|, rateSeed)]);
  }

  /** `items.filter(item => item.id !== id)`. */
  function WithoutId(items: seq<Item>, id: int): seq<Item> {
    if items == [] then []
    else WithoutId(items[..|items| - 1], id) + (if items[|items| - 1].id != id then [items[|items| - 1]] else [])
  }

  /** The filter keeps, in order, exactly the items with another id. */
  lemma {:induction false} WithoutIdFacts(items: seq<Item>, id: int)
    ensures IsSubsequence(WithoutId(items, id), items)
    ensures forall x :: x in WithoutId(items, id) <==> x in items && x.id != id
  {
    if items != [] {
      var p := items[..|items| - 1];
      var last := items[|items| - 1];
      var rp := WithoutId(p, id);
      WithoutIdFacts(p, id);
      assert items == p + [last];
      SubsequenceExtend(rp, p, last);
      if last.id != id {
        assert WithoutId(items, id) == rp + [last];
      } else {
        assert WithoutId(items, id) == rp;
      }
    }
  }

  /** The updater `removeItem` passes to `setItems`: the filter renumbered, or one fresh item when nothing is left. */
  function RemoveItem(items: seq<Item>, id: int, now: int): (r: seq<Item>)
    ensures |r| >= 1
  {
    var filtered := WithoutId(items, id);
    if |filtered| > 0 then NormalizeItems(filtered) else [CreateInitialItem(now, 0, 0.0)]
  }

  /**
   * `removeItem` never leaves the list empty. When some item keeps its place,
   * the result is the remaining items in order, renumbered, and none has the
   * id; otherwise it is a single fresh item.
   */
  lemma RemoveItemFacts(items: seq<Item>, id: int, now: int)
    ensures var r := RemoveItem(items, id, now);
      var filtered := WithoutId(items, id);
      && |r| >= 1
      && (|filtered| > 0 ==>
            && |r| == |filtered| && IsNormalized(r) && IsSubsequence(filtered, items)
            && (forall i :: 0 <= i < |r| ==>
                  r[i].id != id && r[i] == filtered[i].(itemNumber := ItemLabel(i, |r|))))
      && (|filtered| == 0 ==> r == [CreateInitialItem(now, 0, 0.0)])
  {
    var filtered := WithoutId(items, id);
    WithoutIdFacts(items, id);
    if |filtered| > 0 {
      var r := NormalizeItems(filtered);
      assert RemoveItem(items, id, now) == r;
      NormalizeItemsFixpoint(filtered);
      forall i | 0 <= i < |r| ensures r[i].id != id && r[i] == filtered[i].(itemNumber := ItemLabel(i, |r|)) {
        assert filtered[i] in filtered;
      }
    }
  }

  /** Removing the only item leaves one fresh item. */
  lemma RemoveOnlyItem(item: Item, now: int)
    ensures RemoveItem([item], item.id, now) == [CreateInitialItem(now, 0, 0.0)]
  {
    assert [item][..0] == [];
    assert WithoutId([item], item.id) == [];
  }

  /** The updater `toggleItemSelection` passes to `setItems`. */
  function ToggleItemSelection(items: seq<Item>, id: int, checked: bool): (r: seq<Item>)
    ensures |r| == |items|
  {
    seq(|items|, i requires 0 <= i < |items| => if items[i].id == id then items[i].(isSelected := checked) else items[i])
  }

  /**
   * Toggling changes only the selection flag of the matching items and does
   * not renumber; it agrees with `updateItem` on `isSelected` up to the labels.
   */
  lemma ToggleItemSelectionFacts(items: seq<Item>, id: int, checked: bool)
    ensures var r := ToggleItemSelection(items, id, checked);
      && (forall i :: 0 <= i < |items| ==>
            && r[i].itemNumber == items[i].itemNumber
            && r[i].isSelected == (if items[i].id == id then checked else items[i].isSelected)
            && r[i].(isSelected := items[i].isSelected) == items[i])
      && UpdateItem(items, id, SetSelected(checked)) == NormalizeItems(r)
  {
    assert EditMatching(items, id, SetSelected(checked)) == ToggleItemSelection(items, id, checked);
  }

  // ----------------------------------------------------------------- errors

  /** The record `mapErrors` builds: each error's message under its field, later errors overwriting earlier ones. */
  function ErrorMap(errors: seq<ValidationError>): map<string, string> {
    if errors == [] then map[]
    else ErrorMap(errors[..|errors| - 1])[errors[|errors| - 1].field := errors[|errors| - 1].message]
  }

  /** The fields of the map are exactly the fields of the errors. */
  lemma {:induction false} ErrorMapKeys(errors: seq<ValidationError>)
    ensures forall f :: f in ErrorMap(errors) <==> exists i :: 0 <= i < |errors| && errors[i].field == f
  {
    if errors != [] {
      var p := errors[..|errors| - 1];
      ErrorMapKeys(p);
      forall f | f in ErrorMap(errors) ensures exists i :: 0 <= i < |errors| && errors[i].field == f {
        if f != errors[|errors| - 1].field {
          assert f in ErrorMap(p);
          var i :| 0 <= i < |p| && p[i].field == f;
          assert errors[i] == p[i];
        }
      }
      forall f | exists i :: 0 <= i < |errors| && errors[i].field == f ensures f in ErrorMap(errors) {
        var i :| 0 <= i < |errors| && errors[i].field == f;
        if i < |p| {
          assert p[i] == errors[i];
        }
      }
    }
  }

  /** Each field holds the message of the last error for that field. */
  lemma {:induction false} ErrorMapLastWins(errors: seq<ValidationError>, i: nat)
    requires i < |errors|
    requires forall j :: i < j < |errors| ==> errors[j].field != errors[i].field
    ensures errors[i].field in ErrorMap(errors) && ErrorMap(errors)[errors[i].field] == errors[i].message
  {
    var p := errors[..|errors| - 1];
    if i < |p| {
      assert forall j :: i < j < |p| ==> p[j].field != p[i].field by {
        forall j | i < j < |p| ensures p[j].field != p[i].field {
          assert p[j] == errors[j];
        }
      }
      ErrorMapLastWins(p, i);
    }
  }

  /** `mapErrors` without the final `setErrors`: the loop that fills the record. */
  method MapErrors(errors: seq<ValidationError>) returns (m: map<string, string>)
    ensures m == ErrorMap(errors)
  {
    m := map[];
    for k := 0 to |errors|
      invariant m == ErrorMap(errors[..k])
    {
      assert errors[..k + 1][..k] == errors[..k];
      m := m[errors[k].field := errors[k].message];
    }
    assert errors[..|errors|] == errors;
  }

  /** What `generateQuote` returns: the errors found, or the new quote. */
  datatype GenerateResult = Invalid(errors: seq<ValidationError>) | Generated(quote: Quote)

  /** `generateQuote`'s result: the form errors followed by the item errors, or a `Draft` quote when there are none. */
  function GenerateQuote(form: FormData, items: seq<Item>): GenerateResult {
    var allErrors := FormErrors(form) + ItemErrors(items);
    if |allErrors| > 0 then Invalid(allErrors)
    else Generated(CreateQuoteFromDraft(DraftState(form, items), Draft))
  }

  /**
   * A quote is generated exactly when the form and the items pass every rule;
   * otherwise every form error is reported, followed by every item error. The
   * generated quote is a `Draft` of the form and priced items.
   */
  lemma GenerateQuoteFacts(form: FormData, items: seq<Item>)
    ensures var r := GenerateQuote(form, items);
      && (r.Generated? <==> FormValid(form) && ItemsValid(items))
      && (r.Invalid? ==> r.errors == FormErrors(form) + ItemErrors(items) && |r.errors| > 0)
      && (r.Generated? ==>
            && r.quote.status == Draft && r.quote.formData == form
            && |r.quote.items| == |items| && r.quote.totals == ComputeTotals(r.quote.items))
  {
    FormErrorsEmptyIff(form);
    ItemErrorsEmptyIff(items);
  }

  // --------------------------------------------------------------- the hook

  class QuoteForm {
    var step: int
    var form: FormData
    var items: seq<Item>
    var errors: map<string, string>

    /** The item list is never empty. */
    ghost predicate Valid()
      reads this
    {
      |items| >= 1
    }

    /** `processedItems` and `totals`: derived from the items on every render. */
    function Processed(): Enriched
      reads this
    {
      EnrichItemsAndTotals(items, form)
    }

    /** Step 1, a blank form holding a newly generated quote number, one fresh item, no errors. */
    constructor(store: QuoteStore, clock: Clock)
      requires store.Valid()
      modifies store
      ensures Valid() && store.Valid()
      ensures step == 1 && errors == map[]
      ensures form == CreateInitialFormData(clock).(quoteNo := QuoteNumber(old(store.state.quoteCounter)))
      ensures items == [CreateInitialItem(clock.now, 0, 0.0)]
      ensures store.state == old(store.state).(quoteCounter := old(store.state.quoteCounter) + 1)
      ensures store.error == old(store.error) && store.isLoading == old(store.isLoading)
    {
      var number := store.GenerateQuoteNumber();
      step := 1;
      form := CreateInitialFormData(clock).(quoteNo := number);
      items := [CreateInitialItem(clock.now, 0, 0.0)];
      errors := map[];
    }

    method GoToStep(value: int)
      modifies this
      ensures step == value && form == old(form) && items == old(items) && errors == old(errors)
    {
      step := value;
    }

    method SetFormField(field: FormField, value: string)
      modifies this
      ensures form == UpdateField(old(form), field, value)
      ensures step == old(step) && items == old(items) && errors == old(errors)
    {
      form := UpdateField(form, field, value);
    }

    method SetInclusion(option: string, checked: bool)
      modifies this
      ensures form == old(form).(inclusions := ToggleInclusion(old(form.inclusions), option, checked))
      ensures step == old(step) && items == old(items) && errors == old(errors)
    {
      form := form.(inclusions := ToggleInclusion(form.inclusions, option, checked));
    }

    method EditItem(id: int, edit: ItemEdit)
      requires Valid()
      modifies this
      ensures Valid()
      ensures items == UpdateItem(old(items), id, edit)
      ensures step == old(step) && form == old(form) && errors == old(errors)
    {
      items := UpdateItem(items, id, edit);
    }

    method AppendItem(clock: Clock)
      requires Valid()
      modifies this
      ensures Valid()
      ensures items == AddItem(old(items), clock.now)
      ensures step == old(step) && form == old(form) && errors == old(errors)
    {
      items := AddItem(items, clock.now);
    }

    method DeleteItem(id: int, clock: Clock)
      requires Valid()
      modifies this
      ensures Valid()
      ensures items == RemoveItem(old(items), id, clock.now)
      ensures step == old(step) && form == old(form) && errors == old(errors)
    {
      items := RemoveItem(items, id, clock.now);
    }

    method SelectItem(id: int, checked: bool)
      requires Valid()
      modifies this
      ensures Valid()
      ensures items == ToggleItemSelection(old(items), id, checked)
      ensures step == old(step) && form == old(form) && errors == old(errors)
    {
      items := ToggleItemSelection(items, id, checked);
    }

    /**
     * `generateQuote`: validates the form and the items; on errors records
     * them by field and returns them, otherwise clears the errors and returns
     * a `Draft` quote of the current form and items.
     */
    method Generate() returns (result: GenerateResult)
      modifies this
      ensures result == GenerateQuote(old(form), old(items))
      ensures result.Invalid? ==> errors == ErrorMap(result.errors)
      ensures result.Generated? ==> errors == map[]
      ensures step == old(step) && form == old(form) && items == old(items)
    {
      var formErrors := ValidateForm(form);
      var itemErrors := ValidateItems(items);
      var allErrors := formErrors + itemErrors;
      if |allErrors| > 0 {
        errors := MapErrors(allErrors);
        return Invalid(allErrors);
      }
      errors := map[];
      var draft := DraftState(form, items);
      result := Generated(CreateQuoteFromDraft(draft, Draft));
    }

    /**
     * `saveDraft`: without a quote number nothing is saved; otherwise the
     * current form and items are persisted as a `Draft`, and a failure is
     * swallowed into `None`.
     */
    method SaveDraft(store: QuoteStore, user: Option<User>, outcome: UpsertOutcome, clock: Clock)
      returns (saved: Option<Quote>)
      requires store.Valid()
      modifies store
      ensures store.Valid() && store.isLoading == old(store.isLoading)
      ensures form.quoteNo == "" ==>
        saved == None && store.state == old(store.state) && store.error == old(store.error)
      ensures form.quoteNo != "" && user.Some? && outcome.Upserted? ==>
        var q := Persisted(user.value, CreateQuoteFromDraft(DraftState(form, items), Draft), outcome.meta, clock);
        && saved == Some(q) && store.state == old(store.state).(quotes := Upsert(old(store.state.quotes), q))
        && store.error == None
      ensures form.quoteNo != "" && user.None? ==>
        saved == None && store.state == old(store.state) && store.error == old(store.error)
      ensures form.quoteNo != "" && user.Some? && outcome.UpsertFailed? ==>
        && saved == None && store.state == old(store.state)
        && store.error == Some(outcome.message.GetOr(PersistFailedMessage))
    {
      if form.quoteNo == "" {
        return None;
      }
      var draftQuote := CreateQuoteFromDraft(DraftState(form, items), Draft);
      var result := store.PersistQuote(user, draftQuote, Some(Draft), outcome, clock);
      match result
      case Returned(q) => saved := Some(q);
      case Threw(_) => saved := None;
    }

    /** `reset`: a new blank form with a new quote number, one fresh item, no errors; back to step 1 unless kept. */
    method Reset(store: QuoteStore, keepDashboard: bool, clock: Clock)
      requires store.Valid()
      modifies this, store
      ensures Valid() && store.Valid()
      ensures form == CreateInitialFormData(clock).(quoteNo := QuoteNumber(old(store.state.quoteCounter)))
      ensures items == [CreateInitialItem(clock.now, 0, 0.0)] && errors == map[]
      ensures step == (if keepDashboard then old(step) else 1)
      ensures store.state == old(store.state).(quoteCounter := old(store.state.quoteCounter) + 1)
      ensures store.error == old(store.error) && store.isLoading == old(store.isLoading)
    {
      var number := store.GenerateQuoteNumber();
      form := CreateInitialFormData(clock).(quoteNo := number);
      items := [CreateInitialItem(clock.now, 0, 0.0)];
      errors := map[];
      if !keepDashboard {
        step := 1;
      }
    }
  }
}
