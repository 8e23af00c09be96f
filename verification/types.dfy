/**
 * The entities of the freight-quote engine: shipment items as entered, priced
 * items, the totals over a quote, the customer/shipment form, and saved quotes.
 * Amounts, dimensions (cm) and weights (kg) are exact reals.
 */
module Types {
  import opened Options

  datatype QuoteStatus = Draft | Active | Converted | Expired | Voided

  datatype ApprovalStatus = ApprovalPending | Approved | Rejected

  /** Item category; `Uncategorised` is the empty selection `''`. */
  datatype Category = General | Fragile | IrregularFurniture | Uncategorised

  /** Package type; `Unpackaged` is the empty selection `''`. */
  datatype PackageType = Normal | Crate | Special | Unpackaged

  /** A shipment item as the user enters it (`QuoteItemInput`). */
  datatype Item = Item(
    id: int,
    itemNumber: string,
    description: string,
    quantity: real,
    category: Category,
    packageType: PackageType,
    length: real,
    breadth: real,
    height: real,
    actualWeight: real,
    value: real,
    ratePerKg: real,
    packingCharge: real,
    handlingCharge: real,
    duty: real,
    isSelected: bool,
    requiresPhoto: bool,
    photoBeforePacking: Option<string>,
    photoAfterPacking: Option<string>)

  /** An item with its derived pricing fields (`ProcessedQuoteItem`). */
  datatype PricedItem = PricedItem(
    item: Item,
    cbm: real,
    volumetricWeight: real,
    billedWeight: real,
    unitCost: real,
    lineTotal: real)

  datatype Totals = Totals(
    subtotal: real,
    grandTotal: real,
    totalCBM: real,
    totalBilledWeight: real,
    selectedCount: nat)

  /**
   * Customer and shipment details (`QuoteFormData`). Mode of service, type of
   * goods, payment method and payment status are kept as the strings the form
   * holds, so that an unset choice is the empty string.
   */
  datatype FormData = FormData(
    name: string,
    contactNumber: string,
    email: string,
    whatsapp: string,
    pickupLocation: string,
    deliveryLocation: string,
    deliveryCity: string,
    deliveryCountry: string,
    modeOfService: string,
    typeOfGoods: string,
    transitTime: string,
    quoteNo: string,
    date: string,
    validUntil: string,
    surveyor: string,
    inclusions: seq<string>,
    paymentMethod: string,
    paymentStatus: string,
    notes: string)

  /** A saved quote (`SavedQuote`); optional properties are `Option`s. */
  datatype Quote = Quote(
    quoteNo: string,
    date: string,
    validUntil: string,
    formData: FormData,
    items: seq<PricedItem>,
    totals: Totals,
    status: QuoteStatus,
    voidReason: Option<string>,
    approvalRequired: Option<bool>,
    approvalStatus: Option<ApprovalStatus>,
    modifiedBy: Option<string>,
    originalQuoteData: Option<Quote>,
    id: Option<string>,
    userId: Option<string>,
    ownerEmail: Option<string>,
    createdAt: Option<string>,
    updatedAt: Option<string>)

  /** The form and items being edited (`QuoteDraftState`). */
  datatype DraftState = DraftState(form: FormData, items: seq<Item>)

  /** A failed rule: a dotted field path and a human-readable message. */
  datatype ValidationError = ValidationError(field: string, message: string)

  /**
   * The clock, read where the source calls `Date.now()` or `new Date()`:
   * milliseconds since the epoch, today's date as `YYYY-MM-DD`, and the date
   * seven days later in the same format.
   */
  datatype Clock = Clock(now: int, today: string, validUntil: string)

  /** The signed-in user as the quote store sees it. */
  datatype User = User(id: string, email: Option<string>)
}
