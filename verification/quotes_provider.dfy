/**
 * `QuotesProvider`: the quote store as an object. Its state is the reducer
 * state plus the last error message and the loading flag; its operations load
 * the signed-in user's quotes, hand out quote numbers, save a quote, apply a
 * partial update, and void a quote. The database is not modelled: each
 * operation is given how the remote call ended (a `FetchOutcome`,
 * `UpsertOutcome` or `UpdateOutcome`) and the clock.
 */
module QuotesProvider {
  import opened Options
  import opened Types
  import opened Sequences
  import opened QuoteContext

  const LoadFailedMessage := "Failed to load quotes"
  const PersistFailedMessage := "Failed to persist quote"
  const UpdateFailedMessage := "Failed to update quote"
  const NoUserToPersist := "Cannot persist quote without an authenticated user."

  /** How the `select` of a fetch ended: an error (with its message, if it has one) or the rows. */
  datatype FetchOutcome = FetchFailed(message: Option<string>) | Fetched(rows: seq<QuoteRow>)

  /**
   * How an upsert ended: an error (with its message, if it has one), or the
   * row holding what was sent, with the id and timestamps the database gave it.
   */
  datatype UpsertOutcome = UpsertFailed(message: Option<string>) | Upserted(meta: RowMeta)

  /**
   * How an update ended: an error (with its message, if it has one), or the
   * row holding what was sent, with the id and timestamps the database gave it
   * and the owner it already had (an update does not change `user_id`).
   */
  datatype UpdateOutcome = UpdateFailed(message: Option<string>) | Updated(meta: RowMeta, owner: string)

  /** How an asynchronous operation settles: it throws an error with a message, or returns a value. */
  datatype Outcome<T> = Threw(message: Option<string>) | Returned(value: T)

  // ------------------------------------------------------ list maintenance

  /** No two quotes share a quote number. */
  predicate DistinctNumbers(quotes: seq<Quote>) {
    forall i, j :: 0 <= i < j < |quotes| ==> quotes[i].quoteNo != quotes[j].quoteNo
  }

  /** `quotes.filter(q => q.quoteNo !== quoteNo)`. */
  function WithoutNumber(quotes: seq<Quote>, quoteNo: string): seq<Quote> {
    if quotes == [] then []
    else
      var last := quotes[|quotes| - 1];
      WithoutNumber(quotes[..|quotes| - 1], quoteNo) + (if last.quoteNo != quoteNo then [last] else [])
  }

  /** The filter keeps the quotes it keeps in their order. */
  lemma {:induction false} WithoutNumberSubsequence(quotes: seq<Quote>, quoteNo: string)
    ensures IsSubsequence(WithoutNumber(quotes, quoteNo), quotes)
  {
    if quotes != [] {
      var p := quotes[..|quotes| - 1];
      var last := quotes[|quotes| - 1];
      var rp := WithoutNumber(p, quoteNo);
      WithoutNumberSubsequence(p, quoteNo);
      assert quotes == p + [last];
      SubsequenceExtend(rp, p, last);
      if last.quoteNo != quoteNo {
        assert WithoutNumber(quotes, quoteNo) == rp + [last];
      } else {
        assert WithoutNumber(quotes, quoteNo) == rp;
      }
    }
  }

  /** The filter keeps exactly the quotes with another number. */
  lemma {:induction false} WithoutNumberMembers(quotes: seq<Quote>, quoteNo: string)
    ensures forall q :: q in WithoutNumber(quotes, quoteNo) <==> q in quotes && q.quoteNo != quoteNo
  {
    if quotes != [] {
      var p := quotes[..|quotes| - 1];
      var last := quotes[|quotes| - 1];
      var r := WithoutNumber(quotes, quoteNo);
      var rp := WithoutNumber(p, quoteNo);
      WithoutNumberMembers(p, quoteNo);
      assert quotes == p + [last];
      if last.quoteNo != quoteNo {
        assert r == rp + [last];
      } else {
        assert r == rp;
      }
      forall q ensures q in r <==> q in quotes && q.quoteNo != quoteNo {
        assert q in quotes <==> q in p || q == last;
      }
    }
  }

  /** Filtering keeps numbers distinct. */
  lemma {:induction false} WithoutNumberDistinct(quotes: seq<Quote>, quoteNo: string)
    requires DistinctNumbers(quotes)
    ensures DistinctNumbers(WithoutNumber(quotes, quoteNo))
  {
    if quotes != [] {
      var p := quotes[..|quotes| - 1];
      var last := quotes[|quotes| - 1];
      var rp := WithoutNumber(p, quoteNo);
      assert DistinctNumbers(p) by {
        forall i, j | 0 <= i < j < |p| ensures p[i].quoteNo != p[j].quoteNo {
          assert p[i] == quotes[i] && p[j] == quotes[j];
        }
      }
      WithoutNumberDistinct(p, quoteNo);
      if last.quoteNo != quoteNo {
        WithoutNumberMembers(p, quoteNo);
        forall i | 0 <= i < |rp| ensures rp[i].quoteNo != last.quoteNo {
          assert rp[i] in p;
          var k :| 0 <= k < |p| && p[k] == rp[i];
          assert quotes[k] == p[k];
        }
      }
    }
  }

  /** With the number absent, the filter changes nothing. */
  lemma {:induction false} WithoutAbsentNumber(quotes: seq<Quote>, quoteNo: string)
    requires forall i :: 0 <= i < |quotes| ==> quotes[i].quoteNo != quoteNo
    ensures WithoutNumber(quotes, quoteNo) == quotes
  {
    if quotes != [] {
      WithoutAbsentNumber(quotes[..|quotes| - 1], quoteNo);
      assert quotes[..|quotes| - 1] + [quotes[|quotes| - 1]] == quotes;
    }
  }

  /** The filter removes a leading quote with the number and leaves the rest to itself. */
  lemma {:induction false} WithoutNumberCons(q: Quote, quotes: seq<Quote>, quoteNo: string)
    ensures WithoutNumber([q] + quotes, quoteNo) ==
      (if q.quoteNo != quoteNo then [q] else []) + WithoutNumber(quotes, quoteNo)
  {
    if quotes == [] {
      assert ([q] + quotes)[..0] == [];
    } else {
      var p := quotes[..|quotes| - 1];
      assert ([q] + quotes)[..|quotes|] == [q] + p;
      WithoutNumberCons(q, p, quoteNo);
    }
  }

  /** `[saved, ...quotes.filter(existing => existing.quoteNo !== saved.quoteNo)]`. */
  function Upsert(quotes: seq<Quote>, saved: Quote): seq<Quote> {
    [saved] + WithoutNumber(quotes, saved.quoteNo)
  }

  /**
   * After an upsert the saved quote comes first and is the only one with its
   * number; every other quote is kept in its order; distinct numbers stay distinct.
   */
  lemma UpsertFacts(quotes: seq<Quote>, saved: Quote)
    ensures var r := Upsert(quotes, saved);
      && r[0] == saved
      && (forall i :: 1 <= i < |r| ==> r[i].quoteNo != saved.quoteNo)
      && IsSubsequence(r[1..], quotes)
      && (forall q :: q in quotes && q.quoteNo != saved.quoteNo ==> q in r)
      && (DistinctNumbers(quotes) ==> DistinctNumbers(r))
  {
    var rest := WithoutNumber(quotes, saved.quoteNo);
    var r := Upsert(quotes, saved);
    WithoutNumberSubsequence(quotes, saved.quoteNo);
    WithoutNumberMembers(quotes, saved.quoteNo);
    if DistinctNumbers(quotes) {
      WithoutNumberDistinct(quotes, saved.quoteNo);
    }
    assert r[1..] == rest;
    forall i | 1 <= i < |r| ensures r[i].quoteNo != saved.quoteNo {
      assert r[i] == rest[i - 1];
      assert rest[i - 1] in rest;
    }
  }

  /** Saving the same quote twice leaves the list as saving it once. */
  lemma UpsertIdempotent(quotes: seq<Quote>, saved: Quote)
    ensures Upsert(Upsert(quotes, saved), saved) == Upsert(quotes, saved)
  {
    var rest := WithoutNumber(quotes, saved.quoteNo);
    WithoutNumberMembers(quotes, saved.quoteNo);
    forall i | 0 <= i < |rest| ensures rest[i].quoteNo != saved.quoteNo {
      assert rest[i] in rest;
    }
    WithoutAbsentNumber(rest, saved.quoteNo);
    WithoutNumberCons(saved, rest, saved.quoteNo);
    assert WithoutNumber([saved] + rest, saved.quoteNo) == rest;
  }

  /** Position of the first quote numbered `quoteNo` (`|quotes|` when there is none). */
  function FindIndex(quotes: seq<Quote>, quoteNo: string): (k: nat)
    ensures k <= |quotes|
    ensures forall j :: 0 <= j < k ==> quotes[j].quoteNo != quoteNo
    ensures k < |quotes| ==> quotes[k].quoteNo == quoteNo
  {
    if quotes == [] then 0
    else if quotes[0].quoteNo == quoteNo then 0
    else 1 + FindIndex(quotes[1..], quoteNo)
  }

  /** `quotes.find(quote => quote.quoteNo === quoteNo)`. */
  function Find(quotes: seq<Quote>, quoteNo: string): Option<Quote> {
    var k := FindIndex(quotes, quoteNo);
    if k < |quotes| then Some(quotes[k]) else None
  }

  /** `find` fails exactly when no quote has the number, and otherwise returns the first one that has it. */
  lemma FindFacts(quotes: seq<Quote>, quoteNo: string)
    ensures Find(quotes, quoteNo).None? <==> forall i :: 0 <= i < |quotes| ==> quotes[i].quoteNo != quoteNo
    ensures Find(quotes, quoteNo).Some? ==>
      Find(quotes, quoteNo).value in quotes && Find(quotes, quoteNo).value.quoteNo == quoteNo
    ensures DistinctNumbers(quotes) ==> forall i :: 0 <= i < |quotes| && quotes[i].quoteNo == quoteNo ==>
      Find(quotes, quoteNo) == Some(quotes[i])
  {
  }

  // ------------------------------------------------------- partial updates

  /** `Partial<SavedQuote>`: the properties an update sets; `None` leaves one alone. */
  datatype QuoteUpdates = QuoteUpdates(
    quoteNo: Option<string>,
    date: Option<string>,
    validUntil: Option<string>,
    formData: Option<FormData>,
    items: Option<seq<PricedItem>>,
    totals: Option<Totals>,
    status: Option<QuoteStatus>,
    voidReason: Option<string>,
    approvalRequired: Option<bool>,
    approvalStatus: Option<ApprovalStatus>,
    modifiedBy: Option<string>,
    originalQuoteData: Option<Quote>,
    id: Option<string>,
    userId: Option<string>,
    ownerEmail: Option<string>,
    createdAt: Option<string>,
    updatedAt: Option<string>)

  const NoUpdates := QuoteUpdates(None, None, None, None, None, None, None, None, None, None, None,
                                  None, None, None, None, None, None)

  /** `{ status: 'Voided', voidReason: reason }`. */
  function VoidUpdates(reason: string): QuoteUpdates {
    NoUpdates.(status := Some(QuoteStatus.Voided), voidReason := Some(reason))
  }

  /** `{ ...existing, ...updates }` with form, items and totals falling back to the existing ones. */
  function Merge(existing: Quote, updates: QuoteUpdates): Quote {
    Quote(
      quoteNo := updates.quoteNo.GetOr(existing.quoteNo),
      date := updates.date.GetOr(existing.date),
      validUntil := updates.validUntil.GetOr(existing.validUntil),
      formData := updates.formData.GetOr(existing.formData),
      items := updates.items.GetOr(existing.items),
      totals := updates.totals.GetOr(existing.totals),
      status := updates.status.GetOr(existing.status),
      voidReason := updates.voidReason.OrElse(existing.voidReason),
      approvalRequired := updates.approvalRequired.OrElse(existing.approvalRequired),
      approvalStatus := updates.approvalStatus.OrElse(existing.approvalStatus),
      modifiedBy := updates.modifiedBy.OrElse(existing.modifiedBy),
      originalQuoteData := updates.originalQuoteData.OrElse(existing.originalQuoteData),
      id := updates.id.OrElse(existing.id),
      userId := updates.userId.OrElse(existing.userId),
      ownerEmail := updates.ownerEmail.OrElse(existing.ownerEmail),
      createdAt := updates.createdAt.OrElse(existing.createdAt),
      updatedAt := updates.updatedAt.OrElse(existing.updatedAt))
  }

  /** An empty update changes nothing. */
  lemma MergeNothing(existing: Quote)
    ensures Merge(existing, NoUpdates) == existing
  {
  }

  /**
   * Voiding sets the status to `Voided` and records the reason; everything
   * else, the priced items and totals included, is kept, so a canonical quote
   * stays canonical.
   */
  lemma MergeVoid(existing: Quote, reason: string)
    ensures Merge(existing, VoidUpdates(reason)) ==
      existing.(status := QuoteStatus.Voided, voidReason := Some(reason))
    ensures Canonical(existing) ==> Canonical(Merge(existing, VoidUpdates(reason)))
  {
  }

  /** An update that leaves items and totals alone keeps a canonical quote canonical. */
  lemma MergeKeepsCanonical(existing: Quote, updates: QuoteUpdates)
    requires Canonical(existing) && updates.items.None? && updates.totals.None?
    ensures Canonical(Merge(existing, updates))
  {
  }

  /**
   * When the database returns the row that holds a voiding update of a
   * canonical quote, the quote the store keeps is the old one voided, with the
   * row's identity, timestamps and owner e-mail.
   */
  lemma VoidRoundTrip(existing: Quote, reason: string, meta: RowMeta, userId: string, quoteNo: string,
                      ownerEmail: Option<string>, clock: Clock)
    requires Canonical(existing)
    ensures var saved := LoadRow(WrittenRow(meta, userId, quoteNo, QuoteStatus.Voided, ownerEmail,
                                            Merge(existing, VoidUpdates(reason))), clock);
      && saved.status == QuoteStatus.Voided && saved.voidReason == Some(reason)
      && saved.quoteNo == existing.quoteNo && saved.formData == existing.formData
      && saved.items == existing.items && saved.totals == existing.totals
  {
    MergeVoid(existing, reason);
    LoadWrittenCanonical(meta, userId, quoteNo, QuoteStatus.Voided, ownerEmail,
                         Merge(existing, VoidUpdates(reason)), clock);
  }

  /** Every quote in the list is canonical, as every quote loaded through `migrateQuotes` is. */
  predicate AllCanonical(quotes: seq<Quote>) {
    quotes == [] || (AllCanonical(quotes[..|quotes| - 1]) && Canonical(quotes[|quotes| - 1]))
  }

  /** Each quote of an all-canonical list is canonical. */
  lemma {:induction false} AllCanonicalAt(quotes: seq<Quote>, i: nat)
    requires AllCanonical(quotes) && i < |quotes|
    ensures Canonical(quotes[i])
  {
    if i < |quotes| - 1 {
      AllCanonicalAt(quotes[..|quotes| - 1], i);
    }
  }

  /** A list each quote of which is canonical is all-canonical. */
  lemma {:induction false} AllCanonicalFrom(quotes: seq<Quote>)
    requires forall i :: 0 <= i < |quotes| ==> Canonical(quotes[i])
    ensures AllCanonical(quotes)
  {
    if quotes != [] {
      var p := quotes[..|quotes| - 1];
      assert forall i :: 0 <= i < |p| ==> p[i] == quotes[i];
      AllCanonicalFrom(p);
    }
  }

  /** Every quote the filter keeps is one of the original quotes. */
  lemma {:induction false} WithoutNumberSource(quotes: seq<Quote>, quoteNo: string, i: nat) returns (k: nat)
    requires i < |WithoutNumber(quotes, quoteNo)|
    ensures k < |quotes| && WithoutNumber(quotes, quoteNo)[i] == quotes[k]
  {
    var p := quotes[..|quotes| - 1];
    var rp := WithoutNumber(p, quoteNo);
    if i < |rp| {
      k := WithoutNumberSource(p, quoteNo, i);
    } else {
      k := |quotes| - 1;
    }
  }

  /** Putting a canonical quote first keeps a list of canonical quotes canonical. */
  lemma UpsertKeepsCanonical(quotes: seq<Quote>, saved: Quote)
    requires AllCanonical(quotes) && Canonical(saved)
    ensures AllCanonical(Upsert(quotes, saved))
  {
    var r := Upsert(quotes, saved);
    forall i | 0 <= i < |r| ensures Canonical(r[i]) {
      if i > 0 {
        var k := WithoutNumberSource(quotes, saved.quoteNo, i - 1);
        assert r[i] == quotes[k];
        AllCanonicalAt(quotes, k);
      }
    }
    AllCanonicalFrom(r);
  }

  /** Upserting a loaded row keeps a list of canonical quotes canonical. */
  lemma UpsertLoadedKeepsCanonical(quotes: seq<Quote>, row: QuoteRow, clock: Clock)
    requires AllCanonical(quotes)
    ensures AllCanonical(Upsert(quotes, LoadRow(row, clock)))
  {
    LoadedRowFields(row, clock);
    UpsertKeepsCanonical(quotes, LoadRow(row, clock));
  }

  /** `statusOverride ? { ...quote, status: statusOverride } : quote`. */
  function WithStatus(quote: Quote, statusOverride: Option<QuoteStatus>): Quote {
    if statusOverride.Some? then quote.(status := statusOverride.value) else quote
  }

  /** The quote a successful upsert of `sent` by `user` is loaded back as. */
  function Persisted(user: User, sent: Quote, meta: RowMeta, clock: Clock): Quote {
    LoadRow(WrittenRow(meta, user.id, sent.quoteNo, sent.status, user.email, sent), clock)
  }

  /**
   * Saving a canonical quote keeps its number, form, items and totals, and
   * gives it the override status when there is one.
   */
  lemma PersistKeepsContent(user: User, quote: Quote, statusOverride: Option<QuoteStatus>, meta: RowMeta, clock: Clock)
    requires Canonical(quote)
    ensures var saved := Persisted(user, WithStatus(quote, statusOverride), meta, clock);
      && saved.quoteNo == quote.quoteNo && saved.formData == quote.formData
      && saved.items == quote.items && saved.totals == quote.totals
      && saved.status == (if statusOverride.Some? then statusOverride.value else quote.status)
      && saved.id == Some(meta.id) && saved.userId == Some(user.id)
  {
    var sent := WithStatus(quote, statusOverride);
    assert Canonical(sent);
    LoadWrittenCanonical(meta, user.id, sent.quoteNo, sent.status, user.email, sent, clock);
  }

  // ------------------------------------------------------------- the store

  class QuoteStore {
    var state: QuoteState
    var error: Option<string>
    var isLoading: bool

    /**
     * The counter never drops below 1, and every quote in the list is
     * canonical: the only ways into the list are a fetch, a save and an
     * update, and each of them loads its quotes through `migrateQuotes`.
     */
    ghost predicate Valid()
      reads this
    {
      state.quoteCounter >= 1 && AllCanonical(state.quotes)
    }

    /** A provider starts with counter 1, no quotes, no error, not loading. */
    constructor()
      ensures Valid()
      ensures state == InitialState && error == None && !isLoading
    {
      state := InitialState;
      error := None;
      isLoading := false;
    }

    /** `dispatch`: the reducer applied to the current state. */
    method Dispatch(action: QuoteAction)
      modifies this
      ensures state == Reduce(old(state), action)
      ensures error == old(error) && isLoading == old(isLoading)
    {
      state := Reduce(state, action);
    }

    /**
     * `fetchQuotes`. Without a user the store is reset to counter 1 and no
     * quotes. A successful fetch loads the rows and sets the counter past every
     * loaded number; a failed one records the message and clears the quotes,
     * leaving the counter alone.
     */
    method FetchQuotes(user: Option<User>, outcome: FetchOutcome, clock: Clock)
      requires Valid()
      modifies this
      ensures Valid() && !isLoading
      ensures user.None? ==> state == InitialState && error == None
      ensures user.Some? && outcome.Fetched? ==>
        var loaded := LoadRows(outcome.rows, clock);
        state == QuoteState(DeriveNextCounter(loaded), loaded) && error == None
      ensures user.Some? && outcome.FetchFailed? ==>
        state == old(state).(quotes := []) && error == Some(outcome.message.GetOr(LoadFailedMessage))
    {
      if user.None? {
        Dispatch(Hydrate(QuoteState(1, [])));
        error := None;
        isLoading := false;
        return;
      }
      isLoading := true;
      error := None;
      match outcome
      case Fetched(rows) =>
        var mapped := LoadRows(rows, clock);
        LoadRowsCanonical(rows, clock);
        AllCanonicalFrom(mapped);
        var nextCounter := DeriveNextCounter(mapped);
        Dispatch(Hydrate(QuoteState(nextCounter, mapped)));
        isLoading := false;
      case FetchFailed(message) =>
        error := Some(message.GetOr(LoadFailedMessage));
        Dispatch(SetQuotes([]));
        isLoading := false;
    }

    /** `generateQuoteNumber`: the number for the current counter; the counter moves on by one. */
    method GenerateQuoteNumber() returns (number: string)
      requires Valid()
      modifies this
      ensures Valid()
      ensures number == QuoteNumber(old(state.quoteCounter))
      ensures state == old(state).(quoteCounter := old(state.quoteCounter) + 1)
      ensures error == old(error) && isLoading == old(isLoading)
    {
      var n := state.quoteCounter;
      Dispatch(IncrementCounter);
      number := QuoteNumber(n);
    }

    /**
     * `migrateQuotes([mapRowToQuote(data)])[0]` and then `overwriteQuotes`
     * with it first and every other quote of its number dropped.
     */
    method UpsertLoaded(row: QuoteRow, clock: Clock) returns (saved: Quote)
      requires Valid()
      modifies this
      ensures Valid() && saved == LoadRow(row, clock)
      ensures state == old(state).(quotes := Upsert(old(state.quotes), saved))
      ensures error == old(error) && isLoading == old(isLoading)
    {
      saved := LoadRow(row, clock);
      UpsertLoadedKeepsCanonical(state.quotes, row, clock);
      Dispatch(SetQuotes(Upsert(state.quotes, saved)));
    }

    /**
     * `persistQuote`. Without a user it throws and changes nothing. Otherwise
     * the quote, with `statusOverride` applied, is upserted under the user's id
     * and e-mail; on success the returned row is loaded, put first, and any
     * other quote with its number dropped; on failure the message is recorded
     * and the error rethrown.
     */
    method PersistQuote(user: Option<User>, quote: Quote, statusOverride: Option<QuoteStatus>,
                        outcome: UpsertOutcome, clock: Clock) returns (result: Outcome<Quote>)
      requires Valid()
      modifies this
      ensures Valid() && isLoading == old(isLoading)
      ensures user.None? ==>
        result == Threw(Some(NoUserToPersist)) && state == old(state) && error == old(error)
      ensures user.Some? && outcome.Upserted? ==>
        var saved := Persisted(user.value, WithStatus(quote, statusOverride), outcome.meta, clock);
        && result == Returned(saved)
        && state == old(state).(quotes := Upsert(old(state.quotes), saved))
        && error == None
      ensures user.Some? && outcome.UpsertFailed? ==>
        && result == Threw(outcome.message)
        && state == old(state) && error == Some(outcome.message.GetOr(PersistFailedMessage))
    {
      if user.None? {
        return Threw(Some(NoUserToPersist));
      }
      var nextQuote := WithStatus(quote, statusOverride);
      if outcome.Upserted? {
        var saved := UpsertLoaded(WrittenRow(outcome.meta, user.value.id, nextQuote.quoteNo, nextQuote.status,
                                             user.value.email, nextQuote), clock);
        error := None;
        result := Returned(saved);
      } else {
        error := Some(outcome.message.GetOr(PersistFailedMessage));
        result := Threw(outcome.message);
      }
    }

    /**
     * `updateQuoteStatus`. An unknown number returns `null` and changes
     * nothing. Otherwise the merged quote is written to the row with that
     * number; on success the returned row is loaded and upserted; on failure
     * the message is recorded and the error rethrown.
     */
    method UpdateQuoteStatus(quoteNo: string, updates: QuoteUpdates, outcome: UpdateOutcome, clock: Clock)
      returns (result: Outcome<Option<Quote>>)
      requires Valid()
      modifies this
      ensures Valid() && isLoading == old(isLoading)
      ensures Find(old(state.quotes), quoteNo).None? ==>
        result == Returned(None) && state == old(state) && error == old(error)
      ensures Find(old(state.quotes), quoteNo).Some? && outcome.Updated? ==>
        var existing := Find(old(state.quotes), quoteNo).value;
        var merged := Merge(existing, updates);
        var saved := LoadRow(WrittenRow(outcome.meta, outcome.owner, quoteNo, merged.status,
                                        merged.ownerEmail.OrElse(existing.ownerEmail), merged), clock);
        && result == Returned(Some(saved))
        && state == old(state).(quotes := Upsert(old(state.quotes), saved))
        && error == None
      ensures Find(old(state.quotes), quoteNo).Some? && outcome.UpdateFailed? ==>
        && result == Threw(outcome.message)
        && state == old(state) && error == Some(outcome.message.GetOr(UpdateFailedMessage))
    {
      var found := Find(state.quotes, quoteNo);
      if found.None? {
        return Returned(None);
      }
      var existing := found.value;
      var merged := Merge(existing, updates);
      if outcome.Updated? {
        var row := WrittenRow(outcome.meta, outcome.owner, quoteNo, merged.status,
                              merged.ownerEmail.OrElse(existing.ownerEmail), merged);
        var saved := UpsertLoaded(row, clock);
        error := None;
        result := Returned(Some(saved));
      } else {
        error := Some(outcome.message.GetOr(UpdateFailedMessage));
        result := Threw(outcome.message);
      }
    }

    /**
     * `voidQuote`: an update to status `Voided` with the given reason. The
     * quote comes back voided with that reason, its number, form, items and
     * totals unchanged, and first in the list.
     */
    method VoidQuote(quoteNo: string, reason: string, outcome: UpdateOutcome, clock: Clock)
      returns (result: Outcome<Option<Quote>>)
      requires Valid()
      modifies this
      ensures Valid() && isLoading == old(isLoading)
      ensures Find(old(state.quotes), quoteNo).None? ==>
        result == Returned(None) && state == old(state) && error == old(error)
      ensures Find(old(state.quotes), quoteNo).Some? && outcome.Updated? ==>
        var existing := Find(old(state.quotes), quoteNo).value;
        && result.Returned? && result.value.Some?
        && state == old(state).(quotes := Upsert(old(state.quotes), result.value.value))
        && error == None
        && var saved := result.value.value;
           saved.status == QuoteStatus.Voided && saved.voidReason == Some(reason)
           && saved.quoteNo == existing.quoteNo && saved.formData == existing.formData
           && saved.items == existing.items && saved.totals == existing.totals
      ensures Find(old(state.quotes), quoteNo).Some? && outcome.UpdateFailed? ==>
        result == Threw(outcome.message) && state == old(state)
        && error == Some(outcome.message.GetOr(UpdateFailedMessage))
    {
      ghost var before := state.quotes;
      result := UpdateQuoteStatus(quoteNo, VoidUpdates(reason), outcome, clock);
      if Find(before, quoteNo).Some? && outcome.Updated? {
        var existing := Find(before, quoteNo).value;
        var merged := Merge(existing, VoidUpdates(reason));
        AllCanonicalAt(before, FindIndex(before, quoteNo));
        VoidRoundTrip(existing, reason, outcome.meta, outcome.owner, quoteNo,
                      merged.ownerEmail.OrElse(existing.ownerEmail), clock);
      }
    }
  }
}
