/**
 * The application shell's three store actions: saving a freshly generated
 * quote as a Draft, finalising a quote as Active, and voiding a quote with a
 * reason typed into a prompt.
 */
module AppActions {
  import opened Options
  import opened Types
  import opened Text
  import opened QuoteContext
  import opened QuotesProvider
  import opened Dashboard

  // ------------------------------------------------------------ save actions

  /** The quote `persistQuote({ ...quote, status }, status)` sends: the status is both spread in and overridden. */
  function MarkedAs(quote: Quote, status: QuoteStatus): Quote {
    WithStatus(quote.(status := status), Some(status))
  }

  /**
   * Whatever the quote, the loaded-back result of saving it with a status
   * carries that status and the upserted row's id and the user's id; a
   * canonical quote also keeps its number, form, items and totals.
   */
  lemma SavedWithStatus(user: User, quote: Quote, status: QuoteStatus, meta: RowMeta, clock: Clock)
    ensures var saved := Persisted(user, MarkedAs(quote, status), meta, clock);
      && saved.status == status && saved.id == Some(meta.id) && saved.userId == Some(user.id)
      && saved.quoteNo == quote.quoteNo && Canonical(saved)
      && (Canonical(quote) ==>
            saved.formData == quote.formData && saved.items == quote.items && saved.totals == quote.totals)
  {
    var sent := MarkedAs(quote, status);
    LoadedRowFields(WrittenRow(meta, user.id, sent.quoteNo, sent.status, user.email, sent), clock);
    if Canonical(quote) {
      assert Canonical(quote.(status := status));
      PersistKeepsContent(user, quote.(status := status), Some(status), meta, clock);
    }
  }

  /**
   * `handleQuoteGenerated`: the generated quote is saved as a Draft. On
   * success the saved quote comes back with status Draft and heads the list;
   * without a user or on a failed upsert the list is unchanged.
   */
  method SaveGeneratedAsDraft(store: QuoteStore, user: Option<User>, quote: Quote,
                              outcome: UpsertOutcome, clock: Clock) returns (result: Outcome<Quote>)
    requires store.Valid()
    modifies store
    ensures store.Valid() && store.isLoading == old(store.isLoading)
    ensures user.Some? && outcome.Upserted? ==>
      && result == Returned(Persisted(user.value, MarkedAs(quote, Draft), outcome.meta, clock))
      && result.value.status == Draft && result.value.quoteNo == quote.quoteNo
      && store.state == old(store.state).(quotes := QuotesProvider.Upsert(old(store.state.quotes), result.value))
      && store.error == None
    ensures user.None? ==>
      result == Threw(Some(NoUserToPersist)) && store.state == old(store.state) && store.error == old(store.error)
    ensures user.Some? && outcome.UpsertFailed? ==>
      && result == Threw(outcome.message) && store.state == old(store.state)
      && store.error == Some(outcome.message.GetOr(PersistFailedMessage))
  {
    result := store.PersistQuote(user, quote.(status := Draft), Some(Draft), outcome, clock);
    if user.Some? && outcome.Upserted? {
      SavedWithStatus(user.value, quote, Draft, outcome.meta, clock);
    }
  }

  /**
   * `handleFinalizeQuote`: the quote is saved as Active. On success the saved
   * quote comes back with status Active and heads the list; otherwise the
   * error is rethrown and the list is unchanged.
   */
  method FinalizeQuote(store: QuoteStore, user: Option<User>, quote: Quote,
                       outcome: UpsertOutcome, clock: Clock) returns (result: Outcome<Quote>)
    requires store.Valid()
    modifies store
    ensures store.Valid() && store.isLoading == old(store.isLoading)
    ensures user.Some? && outcome.Upserted? ==>
      && result == Returned(Persisted(user.value, MarkedAs(quote, Active), outcome.meta, clock))
      && result.value.status == Active && result.value.quoteNo == quote.quoteNo
      && store.state == old(store.state).(quotes := QuotesProvider.Upsert(old(store.state.quotes), result.value))
      && store.error == None
    ensures user.None? ==>
      result == Threw(Some(NoUserToPersist)) && store.state == old(store.state) && store.error == old(store.error)
    ensures user.Some? && outcome.UpsertFailed? ==>
      && result == Threw(outcome.message) && store.state == old(store.state)
      && store.error == Some(outcome.message.GetOr(PersistFailedMessage))
  {
    result := store.PersistQuote(user, quote.(status := Active), Some(Active), outcome, clock);
    if user.Some? && outcome.Upserted? {
      SavedWithStatus(user.value, quote, Active, outcome.meta, clock);
    }
  }

  // ------------------------------------------------------------- void action

  /**
   * The reason `handleVoid` goes on with: nothing when the prompt was
   * cancelled, left empty, or held only white space; otherwise the typed text
   * trimmed.
   */
  function VoidReason(prompt: Option<string>): Option<string> {
    if prompt.None? || prompt.value == [] then None
    else
      var trimmed := Trim(prompt.value);
      if trimmed == [] then None else Some(trimmed)
  }

  /**
   * A void goes ahead exactly when the prompt returned text with a character
   * that is not white space, and the reason it carries is that text trimmed:
   * non-empty and with no white space at either end.
   */
  lemma VoidReasonFacts(prompt: Option<string>)
    ensures VoidReason(prompt).Some? <==> prompt.Some? && HasContent(prompt.value)
    ensures VoidReason(prompt).Some? ==>
      var r := VoidReason(prompt).value;
      && r == Trim(prompt.value) && r != []
      && !IsWhitespace(r[0]) && !IsWhitespace(r[|r| - 1])
  {
    if prompt.Some? {
      TrimFacts(prompt.value);
    }
  }

  /** `prev && prev.quoteNo === updated.quoteNo ? updated : prev`. */
  function RefreshPreview(preview: Option<Quote>, updated: Quote): Option<Quote> {
    if preview.Some? && preview.value.quoteNo == updated.quoteNo then Some(updated) else preview
  }

  /**
   * `handleVoid`: with no usable reason nothing happens. Otherwise the quote
   * is voided with the trimmed reason; a quote the store returns replaces the
   * preview when the preview shows the same number. The quote comes back
   * voided, with the reason, and its content kept, heads the list, and the
   * dashboard no longer offers to void it; a failed update records its message.
   */
  method HandleVoid(store: QuoteStore, quote: Quote, prompt: Option<string>, preview: Option<Quote>,
                    outcome: UpdateOutcome, clock: Clock) returns (newPreview: Option<Quote>)
    requires store.Valid()
    modifies store
    ensures store.Valid() && store.isLoading == old(store.isLoading)
    ensures VoidReason(prompt).None? ==>
      store.state == old(store.state) && store.error == old(store.error) && newPreview == preview
    ensures VoidReason(prompt).Some? && Find(old(store.state.quotes), quote.quoteNo).None? ==>
      store.state == old(store.state) && store.error == old(store.error) && newPreview == preview
    ensures VoidReason(prompt).Some? && Find(old(store.state.quotes), quote.quoteNo).Some? && outcome.Updated? ==>
      var existing := Find(old(store.state.quotes), quote.quoteNo).value;
      && |store.state.quotes| > 0
      && var saved := store.state.quotes[0];
         && store.state == old(store.state).(quotes := QuotesProvider.Upsert(old(store.state.quotes), saved))
         && store.error == None
         && newPreview == RefreshPreview(preview, saved)
         && saved.status == Voided && saved.voidReason == Some(Trim(prompt.value))
         && saved.quoteNo == existing.quoteNo && saved.formData == existing.formData
         && saved.items == existing.items && saved.totals == existing.totals && !OffersVoid(saved)
    ensures VoidReason(prompt).Some? && Find(old(store.state.quotes), quote.quoteNo).Some? && outcome.UpdateFailed? ==>
      && store.state == old(store.state) && newPreview == preview
      && store.error == Some(outcome.message.GetOr(UpdateFailedMessage))
  {
    var reason := VoidReason(prompt);
    if reason.None? {
      return preview;
    }
    var updated := store.VoidQuote(quote.quoteNo, reason.value, outcome, clock);
    newPreview := preview;
    if updated.Returned? && updated.value.Some? {
      newPreview := RefreshPreview(preview, updated.value.value);
    }
  }
}
