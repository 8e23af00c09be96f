/**
 * Validation of the quote form and its items. Rules never throw: they return
 * the violated rules as an ordered list of `{field, message}` errors.
 */
module Validation {
  import opened Types
  import opened Text
  import opened Sequences

  /** A value `required` is asked about: a string or a number. */
  datatype RequiredValue = TextValue(text: string) | NumberValue(number: real)

  /** `required`: a number must be positive, a string must not be blank. */
  predicate Required(v: RequiredValue) {
    match v
    case NumberValue(x) => x > 0.0
    case TextValue(s) => |Trim(s)| > 0
  }

  /** A number is present when positive; a string when some character of it is not white space. */
  lemma RequiredMeaning(v: RequiredValue)
    ensures v.NumberValue? ==> (Required(v) <==> v.number > 0.0)
    ensures v.TextValue? ==> (Required(v) <==> HasContent(v.text))
  {
    if v.TextValue? {
      TrimFacts(v.text);
    }
  }

  /** `required` on a string, stated without trimming. */
  lemma RequiredText(s: string)
    ensures Required(TextValue(s)) <==> HasContent(s)
  {
    RequiredMeaning(TextValue(s));
  }

  /** The character class `[0-9+\-()\s]`. */
  predicate IsPhoneChar(c: char) {
    IsDigit(c) || c == '+' || c == '-' || c == '(' || c == ')' || IsWhitespace(c)
  }

  /** The phone pattern `/^[0-9+\-()\s]{6,}$/`. */
  predicate IsValidPhone(s: string) {
    |s| >= 6 && forall i :: 0 <= i < |s| ==> IsPhoneChar(s[i])
  }

  /** The character class `[^\s@]`. */
  predicate IsEmailChar(c: char) {
    c != '@' && !IsWhitespace(c)
  }

  predicate AllEmailChars(s: string) {
    forall i :: 0 <= i < |s| ==> IsEmailChar(s[i])
  }

  /**
   * The email check, stated on the string's characters: no white space,
   * exactly one '@' with something before it, and a '.' in the domain that is
   * neither its first nor its last character.
   */
  predicate IsValidEmail(s: string) {
    var at := IndexOf(s, '@');
    && (forall i :: 0 <= i < |s| ==> !IsWhitespace(s[i]))
    && 0 < at < |s|
    && (forall i :: at < i < |s| ==> s[i] != '@')
    && exists j :: at + 1 < j < |s| - 1 && s[j] == '.'
  }

  /**
   * The email pattern `/^[^\s@]+@[^\s@]+\.[^\s@]+$/` as written: `s` splits at
   * an '@' and a later '.' into three non-empty runs of `[^\s@]`.
   */
  ghost predicate EmailShape(s: string) {
    exists at, dot :: 0 < at && at + 1 < dot < |s| - 1 && s[at] == '@' && s[dot] == '.'
      && AllEmailChars(s[..at]) && AllEmailChars(s[at + 1..dot]) && AllEmailChars(s[dot + 1..])
  }

  /** A run of `s` between two positions holds only `[^\s@]` characters. */
  lemma AllEmailCharsSlice(s: string, lo: nat, hi: nat)
    requires lo <= hi <= |s|
    requires forall i :: lo <= i < hi ==> IsEmailChar(s[i])
    ensures AllEmailChars(s[lo..hi])
  {
    forall i | 0 <= i < hi - lo ensures IsEmailChar(s[lo..hi][i]) {
      assert s[lo..hi][i] == s[lo + i];
    }
  }

  /** Every string the character-level check accepts matches the pattern. */
  lemma EmailCheckSound(s: string)
    requires IsValidEmail(s)
    ensures EmailShape(s)
  {
    var at := IndexOf(s, '@');
    var dot :| at + 1 < dot < |s| - 1 && s[dot] == '.';
    forall i | 0 <= i < at ensures IsEmailChar(s[i]) {
      assert s[i] == s[..at][i];
    }
    AllEmailCharsSlice(s, 0, at);
    AllEmailCharsSlice(s, at + 1, dot);
    AllEmailCharsSlice(s, dot + 1, |s|);
    assert s[..at] == s[0..at];
  }

  /** Every string the pattern matches passes the character-level check. */
  lemma EmailCheckComplete(s: string, at: nat, dot: nat)
    requires 0 < at && at + 1 < dot < |s| - 1 && s[at] == '@' && s[dot] == '.'
    requires AllEmailChars(s[..at]) && AllEmailChars(s[at + 1..dot]) && AllEmailChars(s[dot + 1..])
    ensures IsValidEmail(s)
  {
    forall i | 0 <= i < |s| && i != at
      ensures IsEmailChar(s[i]) || i == dot
    {
      if i < at {
        assert s[i] == s[..at][i];
      } else if at < i < dot {
        assert s[i] == s[at + 1..dot][i - at - 1];
      } else if dot < i {
        assert s[i] == s[dot + 1..][i - dot - 1];
      }
    }
    assert '@' !in s[..at] by {
      forall i | 0 <= i < at ensures s[..at][i] != '@' {
        assert s[..at][i] == s[i];
      }
    }
    assert IndexOf(s, '@') == at;
  }

  /** The character-level email check accepts exactly the strings the pattern matches. */
  lemma EmailCheckMatchesPattern(s: string)
    ensures IsValidEmail(s) <==> EmailShape(s)
  {
    if IsValidEmail(s) {
      EmailCheckSound(s);
    }
    if EmailShape(s) {
      var at, dot :| 0 < at && at + 1 < dot < |s| - 1 && s[at] == '@' && s[dot] == '.'
        && AllEmailChars(s[..at]) && AllEmailChars(s[at + 1..dot]) && AllEmailChars(s[dot + 1..]);
      EmailCheckComplete(s, at, dot);
    }
  }

  const NameRequired := ValidationError("name", "Customer name is required.")
  const ContactRequired := ValidationError("contactNumber", "Contact number is required.")
  const ContactInvalid := ValidationError("contactNumber", "Enter a valid phone number.")
  const EmailInvalid := ValidationError("email", "Enter a valid email address.")
  const PickupRequired := ValidationError("pickupLocation", "Pickup location is required.")
  const ModeRequired := ValidationError("modeOfService", "Select a mode of service.")
  const GoodsRequired := ValidationError("typeOfGoods", "Select the type of goods.")
  const DeliveryLocationRequired := ValidationError("deliveryLocation", "Delivery location is required.")
  const DeliveryCityRequired := ValidationError("deliveryCity", "Delivery city is required.")

  /** The form rules in the order they are checked. */
  const FormRules: seq<ValidationError> := [NameRequired, ContactRequired, ContactInvalid,
    EmailInvalid, PickupRequired, ModeRequired, GoodsRequired, DeliveryLocationRequired,
    DeliveryCityRequired]

  /** Whether form rule `k` (an index into `FormRules`) is violated. */
  predicate FormRuleFails(form: FormData, k: nat)
    requires k < |FormRules|
  {
    match k
    case 0 => !Required(TextValue(form.name))
    case 1 => !Required(TextValue(form.contactNumber))
    case 2 => form.contactNumber != "" && !IsValidPhone(form.contactNumber)
    case 3 => form.email != "" && !IsValidEmail(form.email)
    case 4 => !Required(TextValue(form.pickupLocation))
    case 5 => !Required(TextValue(form.modeOfService))
    case 6 => !Required(TextValue(form.typeOfGoods))
    case 7 => !Required(TextValue(form.deliveryLocation))
    case _ => !Required(TextValue(form.deliveryCity))
  }

  /** The violated rules among the first `k`, in rule order. */
  function FailingRulesUpTo(form: FormData, k: nat): seq<ValidationError>
    requires k <= |FormRules|
  {
    if k == 0 then []
    else if FormRuleFails(form, k - 1) then FailingRulesUpTo(form, k - 1) + [FormRules[k - 1]]
    else FailingRulesUpTo(form, k - 1)
  }

  /** The errors `validateForm` reports. */
  function FormErrors(form: FormData): seq<ValidationError> {
    FailingRulesUpTo(form, |FormRules|)
  }

  /** `validateForm`: pushes one error per violated rule, in rule order. */
  method ValidateForm(form: FormData) returns (errors: seq<ValidationError>)
    ensures errors == FormErrors(form)
  {
    errors := [];
    if !Required(TextValue(form.name)) {
      errors := errors + [NameRequired];
    }
    assert errors == FailingRulesUpTo(form, 1);
    if !Required(TextValue(form.contactNumber)) {
      errors := errors + [ContactRequired];
    }
    assert errors == FailingRulesUpTo(form, 2);
    if form.contactNumber != "" && !IsValidPhone(form.contactNumber) {
      errors := errors + [ContactInvalid];
    }
    assert errors == FailingRulesUpTo(form, 3);
    if form.email != "" && !IsValidEmail(form.email) {
      errors := errors + [EmailInvalid];
    }
    assert errors == FailingRulesUpTo(form, 4);
    if !Required(TextValue(form.pickupLocation)) {
      errors := errors + [PickupRequired];
    }
    assert errors == FailingRulesUpTo(form, 5);
    if !Required(TextValue(form.modeOfService)) {
      errors := errors + [ModeRequired];
    }
    assert errors == FailingRulesUpTo(form, 6);
    if !Required(TextValue(form.typeOfGoods)) {
      errors := errors + [GoodsRequired];
    }
    assert errors == FailingRulesUpTo(form, 7);
    if !Required(TextValue(form.deliveryLocation)) {
      errors := errors + [DeliveryLocationRequired];
    }
    assert errors == FailingRulesUpTo(form, 8);
    if !Required(TextValue(form.deliveryCity)) {
      errors := errors + [DeliveryCityRequired];
    }
  }

  /** Every form rule differs from every other. */
  lemma FormRulesDistinct()
    ensures NoDuplicates(FormRules)
  {
    forall i, j | 0 <= i < j < |FormRules|
      ensures FormRules[i] != FormRules[j]
    {
      var a, b := FormRules[i], FormRules[j];
      if |a.field| == |b.field| && |a.message| == |b.message| {
        assert i == 1 && j == 2;
        assert a.message[0] == 'C' && b.message[0] == 'E';
      }
    }
  }

  lemma {:induction false} FailingRulesUpToOrder(form: FormData, k: nat)
    requires k <= |FormRules|
    ensures IsSubsequence(FailingRulesUpTo(form, k), FormRules[..k])
  {
    if k > 0 {
      FailingRulesUpToOrder(form, k - 1);
      assert FormRules[..k] == FormRules[..k - 1] + [FormRules[k - 1]];
      SubsequenceExtend(FailingRulesUpTo(form, k - 1), FormRules[..k - 1], FormRules[k - 1]);
    }
  }

  lemma {:induction false} FailingRulesUpToMembers(form: FormData, k: nat, j: nat)
    requires k <= |FormRules| && j < |FormRules| && NoDuplicates(FormRules)
    ensures FormRules[j] in FailingRulesUpTo(form, k) <==> j < k && FormRuleFails(form, j)
  {
    if k > 0 {
      FailingRulesUpToMembers(form, k - 1, j);
      if j != k - 1 {
        assert FormRules[j] != FormRules[k - 1];
      }
    }
  }

  lemma {:induction false} FailingRulesUpToAreRules(form: FormData, k: nat)
    requires k <= |FormRules|
    ensures forall e :: e in FailingRulesUpTo(form, k) ==> e in FormRules
  {
    if k > 0 {
      FailingRulesUpToAreRules(form, k - 1);
    }
  }

  /**
   * `validateForm` reports exactly the violated rules, each once, in the fixed
   * rule order.
   */
  lemma FormErrorsInRuleOrder(form: FormData)
    ensures IsSubsequence(FormErrors(form), FormRules) && NoDuplicates(FormRules)
    ensures forall k :: 0 <= k < |FormRules| ==> (FormRules[k] in FormErrors(form) <==> FormRuleFails(form, k))
    ensures forall e :: e in FormErrors(form) ==> e in FormRules
  {
    FormRulesDistinct();
    FailingRulesUpToOrder(form, |FormRules|);
    assert FormRules[..|FormRules|] == FormRules;
    forall k | 0 <= k < |FormRules|
      ensures FormRules[k] in FormErrors(form) <==> FormRuleFails(form, k)
    {
      FailingRulesUpToMembers(form, |FormRules|, k);
    }
    FailingRulesUpToAreRules(form, |FormRules|);
  }

  /** The form requirements, stated without the rule list. */
  ghost predicate FormValid(form: FormData) {
    && HasContent(form.name)
    && HasContent(form.contactNumber) && IsValidPhone(form.contactNumber)
    && (form.email == "" || EmailShape(form.email))
    && HasContent(form.pickupLocation)
    && HasContent(form.modeOfService)
    && HasContent(form.typeOfGoods)
    && HasContent(form.deliveryLocation)
    && HasContent(form.deliveryCity)
  }

  /** `validateForm` returns no error exactly when every requirement holds. */
  lemma FormErrorsEmptyIff(form: FormData)
    ensures FormErrors(form) == [] <==> FormValid(form)
  {
    FormErrorsInRuleOrder(form);
    EmailCheckMatchesPattern(form.email);
    RequiredText(form.name);
    RequiredText(form.contactNumber);
    RequiredText(form.pickupLocation);
    RequiredText(form.modeOfService);
    RequiredText(form.typeOfGoods);
    RequiredText(form.deliveryLocation);
    RequiredText(form.deliveryCity);
    var errors := FormErrors(form);
    if errors != [] {
      assert errors[0] in errors;
      var k :| 0 <= k < |FormRules| && FormRules[k] == errors[0];
      assert FormRuleFails(form, k);
    }
    if FormValid(form) {
      forall k | 0 <= k < |FormRules| ensures !FormRuleFails(form, k) {
      }
    } else {
      var k: nat :=
        if !HasContent(form.name) then 0
        else if !HasContent(form.contactNumber) then 1
        else if !IsValidPhone(form.contactNumber) then 2
        else if form.email != "" && !EmailShape(form.email) then 3
        else if !HasContent(form.pickupLocation) then 4
        else if !HasContent(form.modeOfService) then 5
        else if !HasContent(form.typeOfGoods) then 6
        else if !HasContent(form.deliveryLocation) then 7
        else 8;
      assert FormRuleFails(form, k);
      assert FormRules[k] in errors;
    }
  }

  /** An empty email is never reported, whatever else the form holds. */
  lemma EmptyEmailAccepted(form: FormData)
    requires form.email == ""
    ensures forall e :: e in FormErrors(form) ==> e.field != "email"
  {
    FormErrorsInRuleOrder(form);
    forall e | e in FormErrors(form)
      ensures e.field != "email"
    {
      var k :| 0 <= k < |FormRules| && FormRules[k] == e;
    }
  }

  /** A failed item check: nothing selected, or one check of the item at `index` (from zero). */
  datatype ItemIssue =
    | NothingSelected
    | BlankDescription(index: nat)
    | NonPositiveQuantity(index: nat)
    | NegativeRate(index: nat)

  /** The `{field, message}` pair `validateItems` pushes for an issue. */
  function IssueError(issue: ItemIssue): ValidationError {
    match issue
    case NothingSelected =>
      ValidationError("items", "Select at least one item for the quote.")
    case BlankDescription(i) =>
      ValidationError("items." + NatToString(i) + ".description",
                      "Item " + NatToString(i + 1) + " requires a description.")
    case NonPositiveQuantity(i) =>
      ValidationError("items." + NatToString(i) + ".quantity",
                      "Item " + NatToString(i + 1) + " quantity must be greater than zero.")
    case NegativeRate(i) =>
      ValidationError("items." + NatToString(i) + ".ratePerKg",
                      "Item " + NatToString(i + 1) + " rate cannot be negative.")
  }

  /** The errors for a list of issues, in the same order. */
  function Render(issues: seq<ItemIssue>): (errors: seq<ValidationError>)
    ensures |errors| == |issues|
  {
    if issues == [] then [] else Render(issues[..|issues| - 1]) + [IssueError(issues[|issues| - 1])]
  }

  lemma {:induction false} RenderConcat(a: seq<ItemIssue>, b: seq<ItemIssue>)
    ensures Render(a + b) == Render(a) + Render(b)
    decreases |b|
  {
    if b == [] {
      assert a + b == a;
    } else {
      var b' := b[..|b| - 1];
      assert (a + b)[..|a + b| - 1] == a + b';
      RenderConcat(a, b');
    }
  }

  lemma {:induction false} RenderAt(issues: seq<ItemIssue>, k: nat)
    requires k < |issues|
    ensures Render(issues)[k] == IssueError(issues[k])
  {
    if k < |issues| - 1 {
      RenderAt(issues[..|issues| - 1], k);
    }
  }

  /**
   * Distinct issues give distinct errors: the field path names the check by its
   * last letter and the item by its number.
   */
  lemma IssueErrorInjective(x: ItemIssue, y: ItemIssue)
    ensures IssueError(x) == IssueError(y) <==> x == y
  {
    if IssueError(x) == IssueError(y) {
      var f, g := IssueError(x).field, IssueError(y).field;
      assert |f| == |g| && f[|f| - 1] == g[|g| - 1];
      if x.NothingSelected? || y.NothingSelected? {
        assert f[|f| - 1] == 's';
      } else {
        assert x.index == y.index by {
          var suffix := match x
            case BlankDescription(_) => ".description"
            case NonPositiveQuantity(_) => ".quantity"
            case _ => ".ratePerKg";
          assert f == "items." + NatToString(x.index) + suffix;
          assert g == "items." + NatToString(y.index) + suffix;
          MiddleEqual("items.", NatToString(x.index), NatToString(y.index), suffix);
          NatToStringInjective(x.index, y.index);
        }
      }
    }
  }

  lemma {:induction false} RenderMembership(issues: seq<ItemIssue>, x: ItemIssue)
    ensures IssueError(x) in Render(issues) <==> x in issues
  {
    if issues != [] {
      var last := issues[|issues| - 1];
      RenderMembership(issues[..|issues| - 1], x);
      IssueErrorInjective(x, last);
      assert issues == issues[..|issues| - 1] + [last];
    }
  }

  /** `items.some(item => item.isSelected)`. */
  predicate AnySelected(items: seq<Item>) {
    exists i :: 0 <= i < |items| && items[i].isSelected
  }

  /** The selection check that opens `validateItems`. */
  function SelectionIssues(items: seq<Item>): seq<ItemIssue> {
    if !AnySelected(items) then [NothingSelected] else []
  }

  /** The checks of item `i`: description, then quantity, then rate. */
  function IssuesForItem(item: Item, i: nat): seq<ItemIssue> {
    (if !Required(TextValue(item.description)) then [BlankDescription(i)] else [])
    + (if item.quantity <= 0.0 then [NonPositiveQuantity(i)] else [])
    + (if item.ratePerKg < 0.0 then [NegativeRate(i)] else [])
  }

  /** The issues `validateItems` has found once the first `n` items are checked. */
  function ItemIssuesUpTo(items: seq<Item>, n: nat): seq<ItemIssue>
    requires n <= |items|
  {
    if n == 0 then SelectionIssues(items)
    else ItemIssuesUpTo(items, n - 1) + IssuesForItem(items[n - 1], n - 1)
  }

  /** The errors `validateItems` reports. */
  function ItemErrors(items: seq<Item>): seq<ValidationError> {
    Render(ItemIssuesUpTo(items, |items|))
  }

  /** The `forEach` callback of `validateItems`: the checks of one item, in order. */
  method CheckItem(item: Item, index: nat) returns (found: seq<ValidationError>)
    ensures found == Render(IssuesForItem(item, index))
  {
    RenderIssuesForItem(item, index);
    found := [];
    if !Required(TextValue(item.description)) {
      found := found + [IssueError(BlankDescription(index))];
    }
    if item.quantity <= 0.0 {
      found := found + [IssueError(NonPositiveQuantity(index))];
    }
    if item.ratePerKg < 0.0 {
      found := found + [IssueError(NegativeRate(index))];
    }
  }

  lemma RenderIssuesForItem(item: Item, i: nat)
    ensures Render(IssuesForItem(item, i)) ==
      (if !Required(TextValue(item.description)) then [IssueError(BlankDescription(i))] else [])
      + (if item.quantity <= 0.0 then [IssueError(NonPositiveQuantity(i))] else [])
      + (if item.ratePerKg < 0.0 then [IssueError(NegativeRate(i))] else [])
  {
    var a := if !Required(TextValue(item.description)) then [BlankDescription(i)] else [];
    var b := if item.quantity <= 0.0 then [NonPositiveQuantity(i)] else [];
    var c := if item.ratePerKg < 0.0 then [NegativeRate(i)] else [];
    RenderConcat(a + b, c);
    RenderConcat(a, b);
  }

  /** `validateItems`: the selection check, then each item's checks in index order. */
  method ValidateItems(items: seq<Item>) returns (errors: seq<ValidationError>)
    ensures errors == ItemErrors(items)
  {
    errors := [];
    if !AnySelected(items) {
      errors := errors + [IssueError(NothingSelected)];
    }
    ItemErrorsStart(items);
    var index := 0;
    while index < |items|
      invariant 0 <= index <= |items|
      invariant errors == Render(ItemIssuesUpTo(items, index))
    {
      var found := CheckItem(items[index], index);
      ItemErrorsStep(items, index);
      errors := errors + found;
      index := index + 1;
    }
  }

  /** Before any item is checked, the only possible error is the selection error. */
  lemma ItemErrorsStart(items: seq<Item>)
    ensures Render(ItemIssuesUpTo(items, 0)) == if !AnySelected(items) then [IssueError(NothingSelected)] else []
  {
    if !AnySelected(items) {
      assert ItemIssuesUpTo(items, 0) == [NothingSelected];
    } else {
      assert ItemIssuesUpTo(items, 0) == [];
    }
  }

  /** Checking item `n` appends that item's errors to those found so far. */
  lemma ItemErrorsStep(items: seq<Item>, n: nat)
    requires n < |items|
    ensures Render(ItemIssuesUpTo(items, n + 1)) == Render(ItemIssuesUpTo(items, n)) + Render(IssuesForItem(items[n], n))
  {
    RenderConcat(ItemIssuesUpTo(items, n), IssuesForItem(items[n], n));
  }

  /** Which issues the checks of item `j` raise about item `i`. */
  lemma IssuesForItemAbout(item: Item, j: nat, x: ItemIssue)
    ensures x in IssuesForItem(item, j) <==>
      match x
      case NothingSelected => false
      case BlankDescription(i) => i == j && !Required(TextValue(item.description))
      case NonPositiveQuantity(i) => i == j && item.quantity <= 0.0
      case NegativeRate(i) => i == j && item.ratePerKg < 0.0
  {
  }

  /** Whether the checks of the first `n` items raise issue `x`. */
  predicate RaisedUpTo(items: seq<Item>, n: nat, x: ItemIssue)
    requires n <= |items|
  {
    match x
    case NothingSelected => !AnySelected(items)
    case BlankDescription(i) => i < n && !Required(TextValue(items[i].description))
    case NonPositiveQuantity(i) => i < n && items[i].quantity <= 0.0
    case NegativeRate(i) => i < n && items[i].ratePerKg < 0.0
  }

  /** An issue the checks of item `j` raise is among those found once `n > j` items are checked. */
  lemma {:induction false} IssueFoundUpTo(items: seq<Item>, n: nat, j: nat, x: ItemIssue)
    requires j < n <= |items| && x in IssuesForItem(items[j], j)
    ensures x in ItemIssuesUpTo(items, n)
  {
    var prev, last := ItemIssuesUpTo(items, n - 1), IssuesForItem(items[n - 1], n - 1);
    assert ItemIssuesUpTo(items, n) == prev + last;
    if j < n - 1 {
      IssueFoundUpTo(items, n - 1, j, x);
    }
  }

  /** A found issue that is not the selection issue was raised by the checks of some item `j < n`. */
  lemma {:induction false} IssueSourceUpTo(items: seq<Item>, n: nat, x: ItemIssue) returns (j: nat)
    requires n <= |items| && x in ItemIssuesUpTo(items, n) && x !in SelectionIssues(items)
    ensures j < n && x in IssuesForItem(items[j], j)
  {
    assert n > 0;
    var prev, last := ItemIssuesUpTo(items, n - 1), IssuesForItem(items[n - 1], n - 1);
    assert ItemIssuesUpTo(items, n) == prev + last;
    if x in last {
      j := n - 1;
    } else {
      j := IssueSourceUpTo(items, n - 1, x);
    }
  }

  lemma IssueRaisedUpTo(items: seq<Item>, n: nat, x: ItemIssue)
    requires n <= |items|
    ensures x in ItemIssuesUpTo(items, n) <==> RaisedUpTo(items, n, x)
  {
    var found := ItemIssuesUpTo(items, n);
    if x in found && x !in SelectionIssues(items) {
      var j := IssueSourceUpTo(items, n, x);
      IssuesForItemAbout(items[j], j, x);
    }
    if x.NothingSelected? && !AnySelected(items) {
      ItemIssuesUpToPrefix(items, 0, n);
      assert found[0] == NothingSelected;
    }
    if !x.NothingSelected? && x.index < n {
      IssuesForItemAbout(items[x.index], x.index, x);
      if RaisedUpTo(items, n, x) {
        IssueFoundUpTo(items, n, x.index, x);
      }
    }
  }

  lemma ItemIssuesUpToMembership(items: seq<Item>, n: nat, i: nat)
    requires n <= |items|
    ensures BlankDescription(i) in ItemIssuesUpTo(items, n) <==> i < n && !Required(TextValue(items[i].description))
    ensures NonPositiveQuantity(i) in ItemIssuesUpTo(items, n) <==> i < n && items[i].quantity <= 0.0
    ensures NegativeRate(i) in ItemIssuesUpTo(items, n) <==> i < n && items[i].ratePerKg < 0.0
    ensures NothingSelected in ItemIssuesUpTo(items, n) <==> !AnySelected(items)
  {
    IssueRaisedUpTo(items, n, BlankDescription(i));
    IssueRaisedUpTo(items, n, NonPositiveQuantity(i));
    IssueRaisedUpTo(items, n, NegativeRate(i));
    IssueRaisedUpTo(items, n, NothingSelected);
  }

  /**
   * Item `i` is reported for its description, quantity or rate exactly when
   * that check fails: a blank description, a quantity of zero or less, a
   * negative rate (a rate of zero is accepted).
   */
  lemma ItemErrorsAbout(items: seq<Item>, i: nat)
    requires i < |items|
    ensures IssueError(BlankDescription(i)) in ItemErrors(items) <==> !HasContent(items[i].description)
    ensures IssueError(NonPositiveQuantity(i)) in ItemErrors(items) <==> items[i].quantity <= 0.0
    ensures IssueError(NegativeRate(i)) in ItemErrors(items) <==> items[i].ratePerKg < 0.0
  {
    var issues := ItemIssuesUpTo(items, |items|);
    ItemIssuesUpToMembership(items, |items|, i);
    RequiredText(items[i].description);
    RenderMembership(issues, BlankDescription(i));
    RenderMembership(issues, NonPositiveQuantity(i));
    RenderMembership(issues, NegativeRate(i));
  }

  /** Issues of earlier items come first: each stage's list is a prefix of the next. */
  lemma {:induction false} ItemIssuesUpToPrefix(items: seq<Item>, m: nat, n: nat)
    requires m <= n <= |items|
    ensures ItemIssuesUpTo(items, m) <= ItemIssuesUpTo(items, n)
    decreases n
  {
    if m < n {
      ItemIssuesUpToPrefix(items, m, n - 1);
    }
  }

  /**
   * The errors about items before `m` come before every error about a later
   * item: they form a prefix of the report.
   */
  lemma ItemErrorsIndexOrder(items: seq<Item>, m: nat)
    requires m <= |items|
    ensures Render(ItemIssuesUpTo(items, m)) <= ItemErrors(items)
  {
    var all := ItemIssuesUpTo(items, |items|);
    var head := ItemIssuesUpTo(items, m);
    ItemIssuesUpToPrefix(items, m, |items|);
    assert all == head + all[|head|..];
    RenderConcat(head, all[|head|..]);
  }

  /** The selection error is reported, and then first, exactly when no item is selected. */
  lemma ItemErrorsSelectionFirst(items: seq<Item>)
    ensures IssueError(NothingSelected) in ItemErrors(items) <==> !AnySelected(items)
    ensures (ItemErrors(items) != [] && ItemErrors(items)[0] == IssueError(NothingSelected)) <==> !AnySelected(items)
  {
    var issues := ItemIssuesUpTo(items, |items|);
    ItemIssuesUpToMembership(items, |items|, 0);
    RenderMembership(issues, NothingSelected);
    ItemIssuesUpToPrefix(items, 0, |items|);
    if issues != [] {
      RenderAt(issues, 0);
      IssueErrorInjective(issues[0], NothingSelected);
    }
  }

  /** An empty item list yields exactly the selection error. */
  lemma EmptyItemsError()
    ensures ItemErrors([]) == [IssueError(NothingSelected)]
  {
  }

  /** The item requirements, stated without the error list. */
  ghost predicate ItemsValid(items: seq<Item>) {
    && AnySelected(items)
    && forall i :: 0 <= i < |items| ==>
         HasContent(items[i].description) && items[i].quantity > 0.0 && items[i].ratePerKg >= 0.0
  }

  /** `validateItems` returns no error exactly when every requirement holds. */
  lemma ItemErrorsEmptyIff(items: seq<Item>)
    ensures ItemErrors(items) == [] <==> ItemsValid(items)
  {
    if ItemErrors(items) == [] {
      ItemIssuesUpToMembership(items, |items|, 0);
      forall i | 0 <= i < |items|
        ensures HasContent(items[i].description) && items[i].quantity > 0.0 && items[i].ratePerKg >= 0.0
      {
        ItemIssuesUpToMembership(items, |items|, i);
        RequiredText(items[i].description);
      }
    }
    if ItemsValid(items) {
      ItemIssuesUpToEmpty(items, |items|);
    }
  }

  lemma {:induction false} ItemIssuesUpToEmpty(items: seq<Item>, n: nat)
    requires n <= |items| && ItemsValid(items)
    ensures ItemIssuesUpTo(items, n) == []
  {
    if n > 0 {
      ItemIssuesUpToEmpty(items, n - 1);
      RequiredText(items[n - 1].description);
    }
  }

  function Messages(errors: seq<ValidationError>): (ms: seq<string>)
    ensures |ms| == |errors| && forall i :: 0 <= i < |errors| ==> ms[i] == errors[i].message
  {
    seq(|errors|, i requires 0 <= i < |errors| => errors[i].message)
  }

  /** `summarizeErrors`: the distinct messages, one per line, in first-occurrence order. */
  function SummarizeErrors(errors: seq<ValidationError>): (summary: string)
    ensures errors == [] ==> summary == ""
  {
    if errors == [] then "" else Join(Dedup(Messages(errors)), "\n")
  }

  /**
   * Reading the summary back line by line gives each distinct message once, in
   * the order of its first occurrence (messages hold no line breaks).
   */
  lemma SummaryLines(errors: seq<ValidationError>)
    requires errors != []
    requires forall i :: 0 <= i < |errors| ==> '\n' !in errors[i].message
    ensures var lines := Split(SummarizeErrors(errors), '\n');
      && NoDuplicates(lines)
      && (forall k :: 0 <= k < |lines| ==> lines[k] in Messages(errors))
      && (forall i :: 0 <= i < |errors| ==> errors[i].message in lines)
      && (forall k, l :: 0 <= k < l < |lines| ==>
            FirstIndex(Messages(errors), lines[k]) < FirstIndex(Messages(errors), lines[l]))
  {
    var ms := Messages(errors);
    var lines := Dedup(ms);
    forall k | 0 <= k < |lines| ensures '\n' !in lines[k] {
      var i :| 0 <= i < |ms| && ms[i] == lines[k];
    }
    assert lines != [] by { assert ms[0] in lines; }
    SplitJoin(lines, '\n');
    DedupFirstOccurrenceOrder(ms);
    forall i | 0 <= i < |errors| ensures errors[i].message in lines {
      assert ms[i] in lines;
    }
  }
}
