/**
 * The dashboard's list logic: the search and status filter over the loaded
 * quotes, the count of quotes per status, and when the Void action is offered.
 */
module Dashboard {
  import opened Options
  import opened Types
  import opened Text
  import opened Sequences

  /** The status dropdown: every quote, or one status. */
  datatype StatusFilter = All | Only(status: QuoteStatus)

  /** `search.trim().toLowerCase()`. */
  function SearchTerm(search: string): string {
    ToLower(Trim(search))
  }

  /** `matchesSearch`: an empty term matches; otherwise the term occurs in a lower-cased searchable field. */
  predicate MatchesSearch(quote: Quote, term: string, isAdmin: bool) {
    || term == []
    || Contains(ToLower(quote.quoteNo), term)
    || Contains(ToLower(quote.formData.name), term)
    || Contains(ToLower(quote.formData.contactNumber), term)
    || (isAdmin && quote.ownerEmail.Some? && Contains(ToLower(quote.ownerEmail.value), term))
  }

  /** `matchesStatus`. */
  predicate MatchesStatus(quote: Quote, filter: StatusFilter) {
    filter.All? || quote.status == filter.status
  }

  predicate Shown(quote: Quote, term: string, filter: StatusFilter, isAdmin: bool) {
    MatchesSearch(quote, term, isAdmin) && MatchesStatus(quote, filter)
  }

  /** `quotes.filter(...)` with an already normalised term. */
  function FilterByTerm(quotes: seq<Quote>, term: string, filter: StatusFilter, isAdmin: bool): seq<Quote> {
    if quotes == [] then []
    else
      var last := quotes[|quotes| - 1];
      FilterByTerm(quotes[..|quotes| - 1], term, filter, isAdmin)
        + (if Shown(last, term, filter, isAdmin) then [last] else [])
  }

  /** `filteredQuotes`. */
  function FilteredQuotes(quotes: seq<Quote>, search: string, filter: StatusFilter, isAdmin: bool): seq<Quote> {
    FilterByTerm(quotes, SearchTerm(search), filter, isAdmin)
  }

  /** The filter keeps, in order, exactly the quotes that match both the term and the status. */
  lemma {:induction false} FilterByTermFacts(quotes: seq<Quote>, term: string, filter: StatusFilter, isAdmin: bool)
    ensures var r := FilterByTerm(quotes, term, filter, isAdmin);
      && IsSubsequence(r, quotes)
      && (forall q :: q in r <==> q in quotes && Shown(q, term, filter, isAdmin))
  {
    if quotes != [] {
      var p := quotes[..|quotes| - 1];
      var last := quotes[|quotes| - 1];
      var rp := FilterByTerm(p, term, filter, isAdmin);
      FilterByTermFacts(p, term, filter, isAdmin);
      assert quotes == p + [last];
      SubsequenceExtend(rp, p, last);
      if Shown(last, term, filter, isAdmin) {
        assert FilterByTerm(quotes, term, filter, isAdmin) == rp + [last];
      } else {
        assert FilterByTerm(quotes, term, filter, isAdmin) == rp;
      }
    }
  }

  /**
   * The dashboard lists, in their order, exactly the quotes that match the
   * trimmed, lower-cased search and the status filter.
   */
  lemma FilteredQuotesFacts(quotes: seq<Quote>, search: string, filter: StatusFilter, isAdmin: bool)
    ensures var r := FilteredQuotes(quotes, search, filter, isAdmin);
      && IsSubsequence(r, quotes)
      && (forall q :: q in r <==> q in quotes && Shown(q, SearchTerm(search), filter, isAdmin))
  {
    FilterByTermFacts(quotes, SearchTerm(search), filter, isAdmin);
  }

  /** A blank search (empty or only white space) matches every quote; a search with content gives a non-empty term. */
  lemma BlankSearchMatchesAll(search: string, quote: Quote, isAdmin: bool)
    ensures SearchTerm(search) == [] <==> !HasContent(search)
    ensures !HasContent(search) ==> MatchesSearch(quote, SearchTerm(search), isAdmin)
  {
    TrimFacts(search);
  }

  /** A filter that lets every quote through lists every quote in order. */
  lemma {:induction false} FilterKeepsAll(quotes: seq<Quote>, term: string, filter: StatusFilter, isAdmin: bool)
    requires forall i :: 0 <= i < |quotes| ==> Shown(quotes[i], term, filter, isAdmin)
    ensures FilterByTerm(quotes, term, filter, isAdmin) == quotes
  {
    if quotes != [] {
      var p := quotes[..|quotes| - 1];
      FilterKeepsAll(p, term, filter, isAdmin);
      assert p + [quotes[|quotes| - 1]] == quotes;
    }
  }

  /** With a blank search and status `All`, the dashboard lists every quote. */
  lemma BlankSearchShowsAll(quotes: seq<Quote>, search: string, isAdmin: bool)
    requires !HasContent(search)
    ensures FilteredQuotes(quotes, search, All, isAdmin) == quotes
  {
    forall i | 0 <= i < |quotes| ensures Shown(quotes[i], SearchTerm(search), All, isAdmin) {
      BlankSearchMatchesAll(search, quotes[i], isAdmin);
    }
    FilterKeepsAll(quotes, SearchTerm(search), All, isAdmin);
  }

  /** The owner e-mail is searched only for administrators. */
  lemma OwnerEmailOnlyForAdmins(quote: Quote, term: string)
    requires term != []
    requires !Contains(ToLower(quote.quoteNo), term) && !Contains(ToLower(quote.formData.name), term)
    requires !Contains(ToLower(quote.formData.contactNumber), term)
    ensures !MatchesSearch(quote, term, false)
    ensures MatchesSearch(quote, term, true) <==>
      quote.ownerEmail.Some? && Contains(ToLower(quote.ownerEmail.value), term)
  {
  }

  // ----------------------------------------------------------- status counts

  /** The statuses counted, in the order the dashboard lists them. */
  const StatusFilters: seq<QuoteStatus> := [Active, Draft, Converted, Expired, Voided]

  /** `quotes.filter(quote => quote.status === status).length`. */
  function CountStatus(quotes: seq<Quote>, status: QuoteStatus): nat {
    if quotes == [] then 0
    else CountStatus(quotes[..|quotes| - 1], status) + (if quotes[|quotes| - 1].status == status then 1 else 0)
  }

  /** The record the counts start from: zero for every status. */
  const ZeroCounts: map<QuoteStatus, nat> :=
    map[Active := 0, Draft := 0, Converted := 0, Expired := 0, Voided := 0]

  /**
   * `statusCounts`: the `reduce` over the five statuses that stores each
   * status's count into the accumulator record.
   */
  method StatusCounts(quotes: seq<Quote>) returns (counts: map<QuoteStatus, nat>)
    ensures forall s: QuoteStatus :: s in counts && counts[s] == CountStatus(quotes, s)
  {
    counts := ZeroCounts;
    forall s: QuoteStatus ensures s in counts {
      assert s.Active? || s.Draft? || s.Converted? || s.Expired? || s.Voided?;
    }
    for k := 0 to |StatusFilters|
      invariant forall s: QuoteStatus :: s in counts
      invariant forall j :: 0 <= j < k ==> counts[StatusFilters[j]] == CountStatus(quotes, StatusFilters[j])
    {
      var status := StatusFilters[k];
      counts := counts[status := CountStatus(quotes, status)];
    }
    forall s: QuoteStatus ensures counts[s] == CountStatus(quotes, s) {
      assert s == StatusFilters[StatusIndex(s)];
    }
  }

  function StatusIndex(s: QuoteStatus): (k: nat)
    ensures k < |StatusFilters| && StatusFilters[k] == s
  {
    match s
    case Active => 0
    case Draft => 1
    case Converted => 2
    case Expired => 3
    case Voided => 4
  }

  /** Every quote has exactly one of the five statuses, so the counts add up to the number of quotes. */
  lemma {:induction false} CountsSumToTotal(quotes: seq<Quote>)
    ensures CountStatus(quotes, Active) + CountStatus(quotes, Draft) + CountStatus(quotes, Converted)
      + CountStatus(quotes, Expired) + CountStatus(quotes, Voided) == |quotes|
  {
    if quotes != [] {
      CountsSumToTotal(quotes[..|quotes| - 1]);
    }
  }

  /** A status's count is the number of quotes the status filter alone lists. */
  lemma {:induction false} CountMatchesFilter(quotes: seq<Quote>, status: QuoteStatus)
    ensures CountStatus(quotes, status) == |FilterByTerm(quotes, [], Only(status), false)|
  {
    if quotes != [] {
      CountMatchesFilter(quotes[..|quotes| - 1], status);
    }
  }

  // -------------------------------------------------------------- row actions

  /** The Void button is shown for every quote that is not already voided. */
  predicate OffersVoid(quote: Quote) {
    quote.status != Voided
  }

  /** Every listed quote offers the Void action exactly when the Voided count is zero. */
  lemma {:induction false} VoidOfferedUnlessCounted(quotes: seq<Quote>)
    ensures CountStatus(quotes, Voided) == 0 <==> forall i :: 0 <= i < |quotes| ==> OffersVoid(quotes[i])
  {
    if quotes != [] {
      var p := quotes[..|quotes| - 1];
      VoidOfferedUnlessCounted(p);
      assert forall i :: 0 <= i < |p| ==> p[i] == quotes[i];
    }
  }
}
