/**
 * The pure half of the quote store: the reducer over `{ quoteCounter, quotes }`,
 * quote numbers `Q-DXB-nnnnn` and the next counter derived from them, the
 * shapes records have when they come back from storage, the mapping of a
 * database row, the migration that turns stored records into saved quotes, and
 * `createQuoteFromDraft`.
 */
module QuoteContext {
  import opened Options
  import opened Types
  import opened Text
  import opened Calculations
  import opened Factories

  // ---------------------------------------------------------------- reducer

  datatype QuoteState = QuoteState(quoteCounter: nat, quotes: seq<Quote>)

  const InitialState := QuoteState(1, [])

  datatype QuoteAction = Hydrate(payload: QuoteState) | IncrementCounter | SetQuotes(quotes: seq<Quote>)

  /** `quoteReducer`. A hydrate payload carries both keys, so it replaces the whole state. */
  function Reduce(state: QuoteState, action: QuoteAction): QuoteState {
    match action
    case Hydrate(payload) => state.(quoteCounter := payload.quoteCounter, quotes := payload.quotes)
    case IncrementCounter => state.(quoteCounter := state.quoteCounter + 1)
    case SetQuotes(quotes) => state.(quotes := quotes)
  }

  /** The state after dispatching `actions` in order. */
  function ReduceAll(state: QuoteState, actions: seq<QuoteAction>): QuoteState {
    if actions == [] then state else Reduce(ReduceAll(state, actions[..|actions| - 1]), actions[|actions| - 1])
  }

  function CountIncrements(actions: seq<QuoteAction>): nat {
    if actions == [] then 0
    else CountIncrements(actions[..|actions| - 1]) + (if actions[|actions| - 1].IncrementCounter? then 1 else 0)
  }

  predicate NoHydrate(actions: seq<QuoteAction>) {
    forall i :: 0 <= i < |actions| ==> !actions[i].Hydrate?
  }

  /**
   * Between hydrations the counter only moves by increments: it ends exactly
   * as many steps above where it started as there were increments, and the
   * quotes are those of the last `setQuotes` (or unchanged without one).
   */
  lemma {:induction false} CounterCountsIncrements(state: QuoteState, actions: seq<QuoteAction>)
    requires NoHydrate(actions)
    ensures ReduceAll(state, actions).quoteCounter == state.quoteCounter + CountIncrements(actions)
    ensures (forall i :: 0 <= i < |actions| ==> !actions[i].SetQuotes?) ==>
      ReduceAll(state, actions).quotes == state.quotes
  {
    if actions != [] {
      var p := actions[..|actions| - 1];
      assert NoHydrate(p) by {
        forall i | 0 <= i < |p| ensures !p[i].Hydrate? {
          assert p[i] == actions[i];
        }
      }
      CounterCountsIncrements(state, p);
      if forall i :: 0 <= i < |actions| ==> !actions[i].SetQuotes? {
        assert forall i :: 0 <= i < |p| ==> !p[i].SetQuotes? by {
          forall i | 0 <= i < |p| ensures !p[i].SetQuotes? {
            assert p[i] == actions[i];
          }
        }
      }
    }
  }

  /** A hydration forgets everything before it. */
  lemma HydrateResets(state: QuoteState, other: QuoteState, payload: QuoteState)
    ensures Reduce(state, Hydrate(payload)) == Reduce(other, Hydrate(payload)) == payload
  {
  }

  // ---------------------------------------------------------- quote numbers

  const QuotePrefix := "Q-DXB-"

  /** `Q-DXB-${String(n).padStart(5, '0')}`. */
  function QuoteNumber(n: nat): string {
    QuotePrefix + PadStart(NatToString(n), 5, '0')
  }

  /** The number a `/(\d+)$/` match on `quoteNo` yields, if the match succeeds. */
  function SuffixValue(quoteNo: string): Option<nat> {
    var d := TrailingDigits(quoteNo);
    if d == [] then None else Some(ParseDigits(d))
  }

  /** The digits of a quote number are the counter it was made from. */
  lemma QuoteNumberSuffix(n: nat)
    ensures SuffixValue(QuoteNumber(n)) == Some(n)
  {
    var s := NatToString(n);
    var padded := PadStart(s, 5, '0');
    ParseNatToString(n);
    if |s| < 5 {
      assert padded == Repeat('0', 5 - |s|) + s;
      ParseZerosPrefix(5 - |s|, s);
    }
    TrailingDigitsAfter(QuotePrefix, padded);
  }

  /** Different counters give different quote numbers. */
  lemma QuoteNumberInjective(m: nat, n: nat)
    ensures QuoteNumber(m) == QuoteNumber(n) <==> m == n
  {
    QuoteNumberSuffix(m);
    QuoteNumberSuffix(n);
  }

  /** Counters below 100000 fill exactly five digits, so every such number is eleven characters long. */
  lemma QuoteNumberWidth(n: nat)
    requires n < 100000
    ensures |QuoteNumber(n)| == 11
  {
    NatToStringLength(n, 5);
  }

  function Pow10(k: nat): nat {
    if k == 0 then 1 else 10 * Pow10(k - 1)
  }

  /** A number below `10^k` is written with at most `k` digits. */
  lemma {:induction false} NatToStringLength(n: nat, k: nat)
    requires 1 <= k && n < Pow10(k)
    ensures |NatToString(n)| <= k
  {
    if n >= 10 {
      assert n / 10 < Pow10(k - 1);
      NatToStringLength(n / 10, k - 1);
    }
  }

  /** The counters found at the end of each quote number, in order (`None` where the match fails). */
  function Suffixes(quotes: seq<Quote>): (vs: seq<Option<nat>>)
    ensures |vs| == |quotes| && forall i :: 0 <= i < |quotes| ==> vs[i] == SuffixValue(quotes[i].quoteNo)
  {
    seq(|quotes|, i requires 0 <= i < |quotes| => SuffixValue(quotes[i].quoteNo))
  }

  /** The largest present value, 0 when there is none: the `reduce` in `deriveNextCounter`. */
  function MaxPresent(vs: seq<Option<nat>>): nat {
    if vs == [] then 0
    else
      var prev := MaxPresent(vs[..|vs| - 1]);
      match vs[|vs| - 1]
      case None => prev
      case Some(v) => if v > prev then v else prev
  }

  /** `MaxPresent` bounds every present value and is either 0 or one of them. */
  lemma {:induction false} MaxPresentIsMaximum(vs: seq<Option<nat>>)
    ensures forall i :: 0 <= i < |vs| && vs[i].Some? ==> vs[i].value <= MaxPresent(vs)
    ensures MaxPresent(vs) == 0 || exists i :: 0 <= i < |vs| && vs[i] == Some(MaxPresent(vs))
  {
    if vs != [] {
      var p := vs[..|vs| - 1];
      MaxPresentIsMaximum(p);
      var last := |vs| - 1;
      if MaxPresent(vs) != 0 && vs[last] != Some(MaxPresent(vs)) {
        var i :| 0 <= i < |p| && p[i] == Some(MaxPresent(p));
        assert vs[i] == p[i];
      }
    }
  }

  /** `deriveNextCounter`: one past the highest counter in use, and at least 1. */
  function DeriveNextCounter(quotes: seq<Quote>): (n: nat)
    ensures n >= 1
  {
    var highest := MaxPresent(Suffixes(quotes));
    if highest + 1 > 1 then highest + 1 else 1
  }

  /**
   * The derived counter lies above every counter in use, and it is either 1
   * or one more than a counter some quote actually carries.
   */
  lemma DeriveNextCounterAbove(quotes: seq<Quote>)
    ensures forall i :: 0 <= i < |quotes| && SuffixValue(quotes[i].quoteNo).Some? ==>
      SuffixValue(quotes[i].quoteNo).value < DeriveNextCounter(quotes)
    ensures DeriveNextCounter(quotes) == 1
      || exists i :: 0 <= i < |quotes| && SuffixValue(quotes[i].quoteNo).Some?
           && SuffixValue(quotes[i].quoteNo).value + 1 == DeriveNextCounter(quotes)
  {
    var vs := Suffixes(quotes);
    MaxPresentIsMaximum(vs);
    var h := MaxPresent(vs);
    assert DeriveNextCounter(quotes) == h + 1;
    if h != 0 {
      var i :| 0 <= i < |vs| && vs[i] == Some(h);
      assert SuffixValue(quotes[i].quoteNo) == Some(h);
    }
  }

  /** The quote number made from the derived counter is not taken by any loaded quote. */
  lemma NextQuoteNumberIsFresh(quotes: seq<Quote>)
    ensures forall i :: 0 <= i < |quotes| ==> quotes[i].quoteNo != QuoteNumber(DeriveNextCounter(quotes))
  {
    var n := DeriveNextCounter(quotes);
    DeriveNextCounterAbove(quotes);
    QuoteNumberSuffix(n);
  }

  /**
   * Two loaded quotes numbered from counters `m` and `n` (for example 7 and
   * 42) make the next counter one past the larger of them (43).
   */
  lemma NextCounterOfTwo(a: Quote, b: Quote, m: nat, n: nat)
    requires a.quoteNo == QuoteNumber(m) && b.quoteNo == QuoteNumber(n)
    ensures DeriveNextCounter([a, b]) == (if m > n then m else n) + 1
  {
    QuoteNumberSuffix(m);
    QuoteNumberSuffix(n);
    NextCounterOfSuffixes(a, b, m, n);
  }

  lemma NextCounterOfSuffixes(a: Quote, b: Quote, m: nat, n: nat)
    requires SuffixValue(a.quoteNo) == Some(m) && SuffixValue(b.quoteNo) == Some(n)
    ensures DeriveNextCounter([a, b]) == (if m > n then m else n) + 1
  {
    var vs := Suffixes([a, b]);
    assert vs == [Some(m), Some(n)];
    MaxPresentOfTwo(m, n);
    var highest := if m > n then m else n;
    assert MaxPresent(Suffixes([a, b])) == highest;
  }

  lemma MaxPresentOfTwo(m: nat, n: nat)
    ensures MaxPresent([Some(m), Some(n)]) == if m > n then m else n
  {
    var vs := [Some(m), Some(n)];
    var first := vs[..1];
    assert first == [Some(m)];
    assert first[..0] == [];
    assert MaxPresent(first) == m;
    assert vs[|vs| - 1] == Some(n);
  }

  /** The counter 43 becomes `Q-DXB-00043`. */
  lemma QuoteNumberExample()
    ensures QuoteNumber(43) == "Q-DXB-00043"
  {
    assert NatToString(4) == "4";
    assert NatToString(43) == "43";
    assert PadStart("43", 5, '0') == Repeat('0', 3) + "43";
    assert Repeat('0', 3) == "000";
  }

  // ------------------------------------------------------- stored records

  /**
   * A form as stored: every property may be missing. `inclusions` is `None`
   * when it is missing or not an array.
   */
  datatype RawForm = RawForm(
    name: Option<string>,
    contactNumber: Option<string>,
    email: Option<string>,
    whatsapp: Option<string>,
    pickupLocation: Option<string>,
    deliveryLocation: Option<string>,
    deliveryCity: Option<string>,
    deliveryCountry: Option<string>,
    modeOfService: Option<string>,
    typeOfGoods: Option<string>,
    transitTime: Option<string>,
    quoteNo: Option<string>,
    date: Option<string>,
    validUntil: Option<string>,
    surveyor: Option<string>,
    inclusions: Option<seq<string>>,
    paymentMethod: Option<string>,
    paymentStatus: Option<string>,
    notes: Option<string>)

  /**
   * An item as stored. The derived pricing fields a stored item also carries
   * are recomputed on load, so they are not part of this shape.
   */
  datatype RawItem = RawItem(
    id: Option<int>,
    itemNumber: Option<string>,
    description: Option<string>,
    quantity: Option<real>,
    category: Option<Category>,
    packageType: Option<PackageType>,
    length: Option<real>,
    breadth: Option<real>,
    height: Option<real>,
    actualWeight: Option<real>,
    value: Option<real>,
    ratePerKg: Option<real>,
    packingCharge: Option<real>,
    handlingCharge: Option<real>,
    duty: Option<real>,
    isSelected: Option<bool>,
    requiresPhoto: Option<bool>,
    photoBeforePacking: Option<string>,
    photoAfterPacking: Option<string>)

  /**
   * A quote as stored. `items` is `None` when missing or not an array; stored
   * totals are recomputed on load, so they are not part of this shape.
   */
  datatype RawQuote = RawQuote(
    quoteNo: Option<string>,
    date: Option<string>,
    validUntil: Option<string>,
    formData: Option<RawForm>,
    items: Option<seq<RawItem>>,
    status: Option<QuoteStatus>,
    voidReason: Option<string>,
    approvalRequired: Option<bool>,
    approvalStatus: Option<ApprovalStatus>,
    modifiedBy: Option<string>,
    originalQuoteData: Option<Quote>,
    id: Option<string>,
    userId: Option<string>,
    ownerEmail: Option<string>,
    createdAt: Option<string>,
    updatedAt: Option<string>)

  const EmptyRawQuote := RawQuote(None, None, None, None, None, None, None, None, None, None, None,
                                  None, None, None, None, None)

  /** What `migrateQuotes` is handed: an array of records, or something else. */
  datatype RawQuotes = NotAnArray | Records(records: seq<RawQuote>)

  /** The JSON a saved form is stored as: every property present. */
  function FormToRaw(f: FormData): RawForm {
    RawForm(Some(f.name), Some(f.contactNumber), Some(f.email), Some(f.whatsapp),
            Some(f.pickupLocation), Some(f.deliveryLocation), Some(f.deliveryCity),
            Some(f.deliveryCountry), Some(f.modeOfService), Some(f.typeOfGoods),
            Some(f.transitTime), Some(f.quoteNo), Some(f.date), Some(f.validUntil),
            Some(f.surveyor), Some(f.inclusions), Some(f.paymentMethod),
            Some(f.paymentStatus), Some(f.notes))
  }

  /** The JSON a priced item is stored as; optional photos stay absent when absent. */
  function ItemToRaw(p: PricedItem): RawItem {
    var x := p.item;
    RawItem(Some(x.id), Some(x.itemNumber), Some(x.description), Some(x.quantity),
            Some(x.category), Some(x.packageType), Some(x.length), Some(x.breadth),
            Some(x.height), Some(x.actualWeight), Some(x.value), Some(x.ratePerKg),
            Some(x.packingCharge), Some(x.handlingCharge), Some(x.duty),
            Some(x.isSelected), Some(x.requiresPhoto), x.photoBeforePacking, x.photoAfterPacking)
  }

  /** The stored items array: each priced item as stored, in order. */
  function ItemsToRaw(ps: seq<PricedItem>): seq<RawItem> {
    if ps == [] then [] else ItemsToRaw(ps[..|ps| - 1]) + [ItemToRaw(ps[|ps| - 1])]
  }

  /** The stored array has one entry per item, each that item as stored. */
  lemma {:induction false} ItemsToRawAt(ps: seq<PricedItem>)
    ensures |ItemsToRaw(ps)| == |ps|
    ensures forall k :: 0 <= k < |ps| ==> ItemsToRaw(ps)[k] == ItemToRaw(ps[k])
  {
    if ps != [] {
      var p := ps[..|ps| - 1];
      ItemsToRawAt(p);
      forall k | 0 <= k < |ps| ensures ItemsToRaw(ps)[k] == ItemToRaw(ps[k]) {
        if k < |p| {
          assert ps[k] == p[k];
        }
      }
    }
  }

  /** The JSON a saved quote is stored as (the `payload` column). */
  function QuoteToRaw(q: Quote): RawQuote {
    RawQuote(Some(q.quoteNo), Some(q.date), Some(q.validUntil), Some(FormToRaw(q.formData)),
             Some(ItemsToRaw(q.items)),
             Some(q.status), q.voidReason, q.approvalRequired, q.approvalStatus, q.modifiedBy,
             q.originalQuoteData, q.id, q.userId, q.ownerEmail, q.createdAt, q.updatedAt)
  }

  // -------------------------------------------------------------- migration

  /** The form of `migrateQuotes`: the stored form laid over a blank one; `inclusions` falls back to `[]`, `notes` to `''`. */
  function MigrateForm(raw: Option<RawForm>, clock: Clock): FormData {
    var base := CreateInitialFormData(clock);
    match raw
    case None => base
    case Some(r) =>
      FormData(
        name := r.name.GetOr(base.name),
        contactNumber := r.contactNumber.GetOr(base.contactNumber),
        email := r.email.GetOr(base.email),
        whatsapp := r.whatsapp.GetOr(base.whatsapp),
        pickupLocation := r.pickupLocation.GetOr(base.pickupLocation),
        deliveryLocation := r.deliveryLocation.GetOr(base.deliveryLocation),
        deliveryCity := r.deliveryCity.GetOr(base.deliveryCity),
        deliveryCountry := r.deliveryCountry.GetOr(base.deliveryCountry),
        modeOfService := r.modeOfService.GetOr(base.modeOfService),
        typeOfGoods := r.typeOfGoods.GetOr(base.typeOfGoods),
        transitTime := r.transitTime.GetOr(base.transitTime),
        quoteNo := r.quoteNo.GetOr(base.quoteNo),
        date := r.date.GetOr(base.date),
        validUntil := r.validUntil.GetOr(base.validUntil),
        surveyor := r.surveyor.GetOr(base.surveyor),
        inclusions := r.inclusions.GetOr([]),
        paymentMethod := r.paymentMethod.GetOr(base.paymentMethod),
        paymentStatus := r.paymentStatus.GetOr(base.paymentStatus),
        notes := r.notes.GetOr(""))
  }

  /**
   * One stored item laid over `createInitialItem(itemIndex, ratePerKg ?? 0)`;
   * a missing item number becomes `Item {itemIndex + 1}`, a missing selection flag `true`.
   */
  function MigrateItem(r: RawItem, itemIndex: nat, clock: Clock): Item {
    var base := CreateInitialItem(clock.now, itemIndex, r.ratePerKg.GetOr(0.0));
    Item(
      id := r.id.GetOr(base.id),
      itemNumber := r.itemNumber.GetOr("Item " + NatToString(itemIndex + 1)),
      description := r.description.GetOr(base.description),
      quantity := r.quantity.GetOr(base.quantity),
      category := r.category.GetOr(base.category),
      packageType := r.packageType.GetOr(base.packageType),
      length := r.length.GetOr(base.length),
      breadth := r.breadth.GetOr(base.breadth),
      height := r.height.GetOr(base.height),
      actualWeight := r.actualWeight.GetOr(base.actualWeight),
      value := r.value.GetOr(base.value),
      ratePerKg := r.ratePerKg.GetOr(base.ratePerKg),
      packingCharge := r.packingCharge.GetOr(base.packingCharge),
      handlingCharge := r.handlingCharge.GetOr(base.handlingCharge),
      duty := r.duty.GetOr(base.duty),
      isSelected := r.isSelected.GetOr(true),
      requiresPhoto := r.requiresPhoto.GetOr(base.requiresPhoto),
      photoBeforePacking := r.photoBeforePacking.OrElse(base.photoBeforePacking),
      photoAfterPacking := r.photoAfterPacking.OrElse(base.photoAfterPacking))
  }

  function MigrateItems(raws: seq<RawItem>, clock: Clock): (items: seq<Item>)
    ensures |items| == |raws|
  {
    seq(|raws|, k requires 0 <= k < |raws| => MigrateItem(raws[k], k, clock))
  }

  /** One record of `migrateQuotes`, at position `index` of the array. */
  function MigrateQuote(raw: RawQuote, index: nat, clock: Clock): Quote {
    var form := MigrateForm(raw.formData, clock);
    var items := PriceItems(NormalizeItems(MigrateItems(raw.items.GetOr([]), clock)));
    Quote(
      quoteNo := raw.quoteNo.GetOr(QuoteNumber(index + 1)),
      date := raw.date.GetOr(form.date),
      validUntil := raw.validUntil.GetOr(form.validUntil),
      formData := form,
      items := items,
      totals := ComputeTotals(items),
      status := raw.status.GetOr(Active),
      voidReason := raw.voidReason,
      approvalRequired := raw.approvalRequired,
      approvalStatus := raw.approvalStatus,
      modifiedBy := raw.modifiedBy,
      originalQuoteData := raw.originalQuoteData,
      id := raw.id,
      userId := raw.userId,
      ownerEmail := raw.ownerEmail,
      createdAt := raw.createdAt,
      updatedAt := raw.updatedAt)
  }

  /** `migrateQuotes`: anything but an array gives no quotes; an array is migrated record by record. */
  function Migrate(raws: RawQuotes, clock: Clock): (qs: seq<Quote>)
    ensures raws.NotAnArray? ==> qs == []
    ensures raws.Records? ==> (|qs| == |raws.records|
      && forall i :: 0 <= i < |qs| ==> qs[i] == MigrateQuote(raws.records[i], i, clock))
  {
    match raws
    case NotAnArray => []
    case Records(records) =>
      seq(|records|, i requires 0 <= i < |records| => MigrateQuote(records[i], i, clock))
  }

  /**
   * The shape every loaded quote has: items numbered by position, each priced
   * from its own inputs, and totals that are the totals of those items.
   */
  predicate Canonical(q: Quote) {
    && IsNormalized(Inputs(q.items))
    && (forall i :: 0 <= i < |q.items| ==> PricingHolds(q.items[i]))
    && q.totals == ComputeTotals(q.items)
  }

  /**
   * Whatever was stored, a migrated quote is canonical; a missing number is
   * the positional `Q-DXB-` number and a missing status is `Active`; a stored
   * form's fields are kept.
   */
  lemma MigrateQuoteCanonical(raw: RawQuote, index: nat, clock: Clock)
    ensures var q := MigrateQuote(raw, index, clock);
      && Canonical(q)
      && q.quoteNo == (if raw.quoteNo.Some? then raw.quoteNo.value else QuoteNumber(index + 1))
      && q.status == (if raw.status.Some? then raw.status.value else Active)
      && |q.items| == (if raw.items.Some? then |raw.items.value| else 0)
  {
    PricedNormalizedItems(MigrateItems(raw.items.GetOr([]), clock));
  }

  /** Renumbering and then pricing a list gives priced items whose inputs are numbered by position. */
  lemma PricedNormalizedItems(xs: seq<Item>)
    ensures var ps := PriceItems(NormalizeItems(xs));
      && |ps| == |xs| && IsNormalized(Inputs(ps))
      && forall i :: 0 <= i < |ps| ==> PricingHolds(ps[i])
  {
    var items := NormalizeItems(xs);
    NormalizeItemsFixpoint(xs);
    var ps := PriceItems(items);
    forall i | 0 <= i < |items| ensures Inputs(ps)[i].itemNumber == items[i].itemNumber {
      assert ps[i] == PriceItem(items[i]);
    }
  }

  /** Loading a stored quote gives back the quote it was stored from, when that quote was canonical. */
  lemma MigrateStoredQuote(q: Quote, index: nat, clock: Clock)
    requires Canonical(q)
    ensures MigrateQuote(QuoteToRaw(q), index, clock) == q
  {
    MigrateStoredForm(q.formData, clock);
    MigrateStoredItems(q.items, clock);
  }

  /** A stored form loads back unchanged. */
  lemma MigrateStoredForm(f: FormData, clock: Clock)
    ensures MigrateForm(Some(FormToRaw(f)), clock) == f
  {
  }

  /** Loading the stored items of a canonical list prices them back to the same list. */
  lemma MigrateStoredItems(ps: seq<PricedItem>, clock: Clock)
    requires IsNormalized(Inputs(ps)) && forall i :: 0 <= i < |ps| ==> PricingHolds(ps[i])
    ensures PriceItems(NormalizeItems(MigrateItems(ItemsToRaw(ps), clock))) == ps
  {
    MigrateStoredInputs(ps, clock);
    NormalizeItemsFixpoint(Inputs(ps));
    PricedListDetermined(ps);
  }

  /** The stored items of a list load back as the list's inputs, labels included. */
  lemma MigrateStoredInputs(ps: seq<PricedItem>, clock: Clock)
    ensures MigrateItems(ItemsToRaw(ps), clock) == Inputs(ps)
  {
    ItemsToRawAt(ps);
    forall k | 0 <= k < |ps| ensures MigrateItems(ItemsToRaw(ps), clock)[k] == Inputs(ps)[k] {
      MigrateStoredItem(ps[k], k, clock);
    }
  }

  /** A stored item loads back as the item it was priced from. */
  lemma MigrateStoredItem(p: PricedItem, k: nat, clock: Clock)
    ensures MigrateItem(ItemToRaw(p), k, clock) == p.item
  {
  }

  /** Migration is idempotent: storing a loaded quote and loading it again changes nothing, at any position and time. */
  lemma MigrateIdempotent(raw: RawQuote, i: nat, j: nat, c1: Clock, c2: Clock)
    ensures MigrateQuote(QuoteToRaw(MigrateQuote(raw, i, c1)), j, c2) == MigrateQuote(raw, i, c1)
  {
    MigrateQuoteCanonical(raw, i, c1);
    MigrateStoredQuote(MigrateQuote(raw, i, c1), j, c2);
  }

  // ----------------------------------------------------------- database rows

  /** A row of the `quotes` table; `payload` is the stored quote. */
  datatype QuoteRow = QuoteRow(
    id: string,
    quoteNo: string,
    userId: string,
    status: Option<QuoteStatus>,
    ownerEmail: Option<string>,
    payload: Option<RawQuote>,
    createdAt: Option<string>,
    updatedAt: Option<string>)

  /**
   * `mapRowToQuote`: the payload, with the number and status of the payload
   * preferred to the row's (status finally `Draft`), the identity and
   * timestamps taken from the row, and the row's owner e-mail preferred.
   */
  function MapRowToQuote(row: QuoteRow): (r: RawQuote)
    ensures r.quoteNo.Some? && r.status.Some?
    ensures r.id == Some(row.id) && r.userId == Some(row.userId)
    ensures r.createdAt == row.createdAt && r.updatedAt == row.updatedAt
  {
    var p := row.payload.GetOr(EmptyRawQuote);
    p.(quoteNo := Some(p.quoteNo.GetOr(row.quoteNo)),
       status := Some(p.status.OrElse(row.status).GetOr(Draft)),
       id := Some(row.id),
       userId := Some(row.userId),
       ownerEmail := row.ownerEmail.OrElse(p.ownerEmail),
       createdAt := row.createdAt,
       updatedAt := row.updatedAt)
  }

  /** `migrateQuotes([mapRowToQuote(row)])[0]`: the quote a returned row is loaded as. */
  function LoadRow(row: QuoteRow, clock: Clock): Quote {
    Migrate(Records([MapRowToQuote(row)]), clock)[0]
  }

  /**
   * A loaded row's number is the payload's, else the row's; its status the
   * payload's, else the row's, else `Draft`; its identity and timestamps the
   * row's; its owner e-mail the row's, else the payload's; and it is canonical.
   */
  lemma LoadedRowFields(row: QuoteRow, clock: Clock)
    ensures var q := LoadRow(row, clock);
      var p := row.payload.GetOr(EmptyRawQuote);
      && q.quoteNo == (if p.quoteNo.Some? then p.quoteNo.value else row.quoteNo)
      && q.status == (if p.status.Some? then p.status.value else if row.status.Some? then row.status.value else Draft)
      && q.id == Some(row.id) && q.userId == Some(row.userId)
      && q.createdAt == row.createdAt && q.updatedAt == row.updatedAt
      && q.ownerEmail == (if row.ownerEmail.Some? then row.ownerEmail else p.ownerEmail)
      && Canonical(q)
  {
    MigrateQuoteCanonical(MapRowToQuote(row), 0, clock);
  }

  /** What the database adds to a row it writes: the row id and the timestamps. */
  datatype RowMeta = RowMeta(id: string, createdAt: Option<string>, updatedAt: Option<string>)

  /** The row that holds exactly what a write sent, plus the database's metadata. */
  function WrittenRow(meta: RowMeta, userId: string, quoteNo: string, status: QuoteStatus,
                      ownerEmail: Option<string>, payload: Quote): QuoteRow
  {
    QuoteRow(meta.id, quoteNo, userId, Some(status), ownerEmail, Some(QuoteToRaw(payload)),
             meta.createdAt, meta.updatedAt)
  }

  /**
   * Writing a canonical quote and loading the row that holds it gives the same
   * quote back, with the row's identity, timestamps and owner e-mail (the
   * quote's own when the row has none).
   */
  lemma LoadWrittenCanonical(meta: RowMeta, userId: string, quoteNo: string, status: QuoteStatus,
                             ownerEmail: Option<string>, q: Quote, clock: Clock)
    requires Canonical(q)
    ensures LoadRow(WrittenRow(meta, userId, quoteNo, status, ownerEmail, q), clock) ==
      q.(id := Some(meta.id), userId := Some(userId), ownerEmail := ownerEmail.OrElse(q.ownerEmail),
         createdAt := meta.createdAt, updatedAt := meta.updatedAt)
  {
    var q' := q.(id := Some(meta.id), userId := Some(userId), ownerEmail := ownerEmail.OrElse(q.ownerEmail),
                 createdAt := meta.createdAt, updatedAt := meta.updatedAt);
    assert MapRowToQuote(WrittenRow(meta, userId, quoteNo, status, ownerEmail, q)) == QuoteToRaw(q');
    MigrateStoredQuote(q', 0, clock);
  }

  /** `(data ?? []).map(mapRowToQuote)` handed to `migrateQuotes`: the quotes a fetch loads. */
  function LoadRows(rows: seq<QuoteRow>, clock: Clock): (qs: seq<Quote>)
    ensures |qs| == |rows|
  {
    Migrate(Records(seq(|rows|, i requires 0 <= i < |rows| => MapRowToQuote(rows[i]))), clock)
  }

  /** Every fetched quote is canonical and carries its row's identity. */
  lemma LoadRowsCanonical(rows: seq<QuoteRow>, clock: Clock)
    ensures forall i :: 0 <= i < |rows| ==>
      Canonical(LoadRows(rows, clock)[i]) && LoadRows(rows, clock)[i].id == Some(rows[i].id)
  {
    forall i | 0 <= i < |rows|
      ensures Canonical(LoadRows(rows, clock)[i]) && LoadRows(rows, clock)[i].id == Some(rows[i].id)
    {
      MigrateQuoteCanonical(MapRowToQuote(rows[i]), i, clock);
    }
  }

  // ------------------------------------------------------------- new quotes

  /** `createQuoteFromDraft`: the draft's form and priced items under the given status (`Active` by default). */
  function CreateQuoteFromDraft(draft: DraftState, status: QuoteStatus): (q: Quote)
    ensures q.quoteNo == draft.form.quoteNo && q.date == draft.form.date && q.validUntil == draft.form.validUntil
    ensures q.formData == draft.form && q.status == status
    ensures q.totals == ComputeTotals(q.items)
    ensures |q.items| == |draft.items| && forall i :: 0 <= i < |q.items| ==> PricingHolds(q.items[i])
  {
    var enriched := EnrichItemsAndTotals(draft.items, draft.form);
    Quote(
      quoteNo := draft.form.quoteNo, date := draft.form.date, validUntil := draft.form.validUntil,
      formData := draft.form, items := enriched.items, totals := enriched.totals, status := status,
      voidReason := None, approvalRequired := None, approvalStatus := None, modifiedBy := None,
      originalQuoteData := None, id := None, userId := None, ownerEmail := None,
      createdAt := None, updatedAt := None)
  }

  /**
   * A quote made from a draft whose items are numbered by position is
   * canonical, so storing and loading it keeps its items and totals.
   */
  lemma DraftQuoteCanonical(draft: DraftState, status: QuoteStatus)
    requires IsNormalized(draft.items)
    ensures Canonical(CreateQuoteFromDraft(draft, status))
  {
    var q := CreateQuoteFromDraft(draft, status);
    forall i | 0 <= i < |draft.items| ensures Inputs(q.items)[i].itemNumber == draft.items[i].itemNumber {
      assert q.items[i] == PriceItem(draft.items[i]);
    }
  }
}
