# Freight quote engine — a Dafny model

This project models the core of a freight-quotation builder, a React and
TypeScript application. Users enter a customer and shipment form and a list of
items, and the engine prices each item:

- volume in cubic metres;
- volumetric weight (volume in cm³ over 5000);
- billed weight (the larger of actual and volumetric weight);
- unit cost and line total.

It then totals the selected items. A quote passes the form and item checks
and gets a `Q-DXB-NNNNN` number from a counter. It is saved to a remote table
as a Draft, marked Active, or voided with a reason. A dashboard lists the
saved quotes with a search box, a status filter and per-status counts.

The model is written in the source's own form, module by module:

| Dafny module | file | models |
|---|---|---|
| `Calculations` | calculations.dfy | `app/calculations.ts`: pure pricing and totals |
| `Validation` | validation.dfy | `app/validation.ts`: form and item rules. The two `push` loops are methods, proved against rule-list functions |
| `Factories` | factories.dfy | `app/factories.ts`: the initial form and item, item relabelling |
| `QuoteContext` | quote_context.dfy | the pure parts of `app/quoteContext.tsx`: reducer, quote numbers, next counter, migration of stored records, row mapping, quote creation |
| `QuotesProvider` | quotes_provider.dfy | the provider of `app/quoteContext.tsx`: class `QuoteStore`, whose fields are the reducer state, the error and the loading flag, with fetch, number generation, persist, update and void |
| `QuoteFormHook` | use_quote_form.dfy | `app/useQuoteForm.ts`: pure state updaters, the `mapErrors` loop, and class `QuoteForm`, whose fields are the hook's state (step, form, items, error record) |
| `Dashboard` | dashboard.dfy | `components/Dashboard.tsx`: the quote filter, the `statusCounts` loop, the Void guard |
| `AppActions` | app_actions.dfy | `components/App.tsx`: the Draft and Active saves and the void-reason prompt |

`Options`, `Text`, `Sequences` and `Types` hold the shared vocabulary:

- `Option`;
- digit strings, `padStart`, `trim`, ASCII `toLowerCase`, `includes`, `join` and `split`;
- de-duplication and subsequences;
- the entities.

Conventions of the model:

- Numbers are exact `real`s. A JavaScript `!x` on a number is `x == 0.0`.
- Remote calls become outcome parameters: a fetch returns the rows or an error message; an upsert returns the written row's id and timestamps; an update returns those plus the row's owner. `Date.now()` and today's date become a `Clock` parameter.
- A stored record as read back from JSON is a record of `Option` fields (`RawQuote`, `RawItem`, `RawForm`). An absent field is `None`.
- A quote is `Canonical` when its item labels follow their positions, every item's derived pricing fields are the ones its inputs give, and its totals are the totals of its items. Migration always produces a canonical quote, and every stored canonical quote survives a save-and-reload unchanged.

Behaviour of the code that the model keeps as it is:

- **Counter on load.** A fetch sets the counter to `deriveNextCounter` of the loaded quotes: the highest numeric suffix plus one, at least 1. It does not keep a larger counter held before the fetch (app/quoteContext.tsx:192-194). For example, quotes numbered with suffixes 7 and 42 give `Q-DXB-00043` as the next number: see `QuoteContext.NextCounterOfTwo` and `QuoteContext.QuoteNumberExample`.
- **Voiding.** `voidQuote` never checks the current status, so a Draft, Active, Converted or Expired quote can be voided, and a Voided one could be voided again. Only the dashboard hides the Void button for Voided quotes (components/Dashboard.tsx:161).
- **Hydrate.** The reducer's `hydrate` replaces both the counter and the list.
- **Stored quotes are canonical.** The provider does not hand out `dispatch`; its list changes only through a fetch, a save or an update, and each loads its quotes through `migrateQuotes` (app/quoteContext.tsx:192, 242, 284). `QuoteStore.Valid` therefore includes that every listed quote is canonical, and every store method keeps it.

## Model

| member | source | states |
|---|---|---|
| Calculations.CalculateCbm | app/calculations.ts:10-13 | a zero dimension gives 0; otherwise volume is length × breadth × height / 1 000 000 |
| Calculations.CalculateVolumetricWeight | app/calculations.ts:15-18 | a zero dimension gives 0; otherwise l × b × h / 5000, which is 200 × the CBM |
| Calculations.CalculateBilledWeight | app/calculations.ts:20-23 | billed weight is the larger of actual and volumetric weight (the both-zero branch agrees), at least each of them and equal to one of them |
| Calculations.PriceItem | app/calculations.ts:25-41 | the priced item satisfies the pricing invariant; the item's inputs are kept except `requiresPhoto`, which is set for Irregular/Furniture; line total = quantity × (billed × rate + packing + handling + duty) |
| Calculations.PricingDetermined | app/calculations.ts:25-41 | derived fields carry no independent information: an item satisfying the pricing invariant is what pricing its input gives |
| Calculations.RepriceIsStable | app/calculations.ts:25-41 | pricing the input of a priced item gives the same priced item |
| Calculations.PriceItems | app/calculations.ts:43-45 | same length and order, each element priced, each satisfying the invariant |
| Calculations.PriceItemsIdempotent | app/calculations.ts:43-45 | pricing a priced list's inputs again gives the same list |
| Calculations.Selected | app/calculations.ts:48 | the selected items, all of them and only them |
| Calculations.ComputeTotals | app/calculations.ts:47-62 | grand total equals subtotal; selected count at most the item count; no selected item gives all-zero totals |
| Calculations.Contribution | app/calculations.ts:50-60 | an unselected item contributes nothing to any total |
| Calculations.TotalsOfConcat | app/calculations.ts:47-62 | totals are additive over concatenation |
| Calculations.TotalsOfOne | app/calculations.ts:47-62 | the totals of a single item are its contribution |
| Calculations.UnselectedChangeKeepsTotals | app/calculations.ts:48-53 | replacing an unselected item by another unselected item leaves every total unchanged |
| Calculations.TransitTime | app/calculations.ts:64-68 | the transit time is non-empty exactly for Air Freight and Sea Freight |
| Calculations.EnrichItemsAndTotals | app/calculations.ts:74-81 | every item priced, inputs kept apart from `requiresPhoto`, and totals computed from the priced items; the form is not consulted |
| Calculations.WorkedExample | app/calculations.ts:25-41 | a 10×20×30 cm, 2 kg item at 10/kg with 5 packing and 5 handling, quantity 2: CBM 0.006, volumetric 1.2, billed 2, unit cost 30, line total 60 |
| Validation.RequiredMeaning | app/validation.ts:3-6 | a number is present when positive; a string when it has a non-white-space character |
| Validation.RequiredText | app/validation.ts:3-6 | `required` on a string holds exactly when the string has content |
| Validation.EmailCheckSound | app/validation.ts:8 | every address the character-level check accepts has the shape local@domain.tld over `[^\s@]` |
| Validation.EmailCheckComplete | app/validation.ts:8 | every address of that shape passes the check |
| Validation.EmailCheckMatchesPattern | app/validation.ts:8 | the check accepts exactly the strings the email pattern matches |
| Validation.ValidateForm | app/validation.ts:11-29 | the loop pushes exactly the rule-list errors of the form, in rule order |
| Validation.FormRulesDistinct | app/validation.ts:14-26 | no two form rules produce the same error |
| Validation.FormErrorsInRuleOrder | app/validation.ts:11-29 | form errors are a subsequence of the rules, and a rule is reported exactly when it fails |
| Validation.FormErrorsEmptyIff | app/validation.ts:11-29 | no form error exactly when every field requirement holds |
| Validation.EmptyEmailAccepted | app/validation.ts:19-21 | an empty email is never reported |
| Validation.Render | app/validation.ts:38-48 | one error per item issue, in order |
| Validation.IssueErrorInjective | app/validation.ts:39-47 | different item issues give different field/message pairs |
| Validation.CheckItem | app/validation.ts:38-48 | the `forEach` callback returns the item's description, quantity and rate errors, in that order |
| Validation.RenderIssuesForItem | app/validation.ts:38-48 | an item's errors are its failed description, quantity and rate checks, in that order |
| Validation.ValidateItems | app/validation.ts:31-51 | the loop pushes the selection error, then each item's errors in index order |
| Validation.ItemErrorsAbout | app/validation.ts:38-48 | item i is reported for description, quantity or rate exactly when its description is blank, its quantity ≤ 0, or its rate < 0 |
| Validation.ItemErrorsIndexOrder | app/validation.ts:38-48 | errors about earlier items come before errors about later ones |
| Validation.ItemErrorsSelectionFirst | app/validation.ts:34-36 | the selection error is reported, and then first, exactly when no item is selected |
| Validation.EmptyItemsError | app/validation.ts:34-36 | an empty item list gives exactly the selection error |
| Validation.ItemErrorsEmptyIff | app/validation.ts:31-51 | no item error exactly when some item is selected and every item has a description, positive quantity and non-negative rate |
| Validation.Messages | app/validation.ts:55 | the messages, one per error, in order |
| Validation.SummarizeErrors | app/validation.ts:53-57 | no errors give the empty summary |
| Validation.SummaryLines | app/validation.ts:53-57 | the summary's lines are the distinct messages, each once, in first-occurrence order |
| Factories.CreateInitialFormData | app/factories.ts:6-31 | every text field blank except the default country and payment status; the date is today and the validity date comes from the clock |
| Factories.InitialFormErrors | app/factories.ts:6-31 | a fresh form fails exactly the seven presence rules, in rule order |
| Factories.CreateInitialItem | app/factories.ts:33-51 | id now + index, label `Item {index+1}`, quantity 1, selected, seeded rate, every measure and charge 0 |
| Factories.InitialItemIdsDistinct | app/factories.ts:34 | items created at one instant get the same id only for the same index |
| Factories.InitialItemPricesToZero | app/factories.ts:33-51 | a fresh item prices to zero weight and zero cost whatever its seeded rate |
| Factories.InitialItemErrors | app/factories.ts:33-51 | a fresh lone item is reported for its description, plus the rate when the seed is negative |
| Factories.ItemLabelInjective | app/factories.ts:55 | within one list, different positions get different `Item i of n` labels |
| Factories.CloneItemWithIndex | app/factories.ts:53-56 | only the label changes, to `Item {index+1} of {total}` |
| Factories.NormalizeItems | app/factories.ts:58-59 | same length; item i is the input item relabelled for position i |
| Factories.NormalizeItemsFixpoint | app/factories.ts:58-59 | the result is numbered, and a list is left unchanged exactly when it is already numbered |
| Factories.NormalizeItemsIdempotent | app/factories.ts:58-59 | relabelling twice equals relabelling once |
| Factories.NormalizedLabelsDistinct | app/factories.ts:58-59 | after relabelling no two items share a label |
| QuoteContext.CounterCountsIncrements | app/quoteContext.tsx:40-51 | without `hydrate`, the counter grows by the number of `incrementCounter` actions, and without `setQuotes` the list is unchanged |
| QuoteContext.HydrateResets | app/quoteContext.tsx:42-43 | `hydrate` replaces the whole state, whatever it was |
| QuoteContext.QuoteNumberSuffix | app/quoteContext.tsx:208-212 | the trailing digits of a generated number parse back to the counter value |
| QuoteContext.QuoteNumberInjective | app/quoteContext.tsx:211 | two counter values give the same quote number exactly when they are equal |
| QuoteContext.QuoteNumberWidth | app/quoteContext.tsx:211 | counters below 100000 give 11-character numbers |
| QuoteContext.Suffixes | app/quoteContext.tsx:69-71 | the numeric suffix of each quote number, when it has one |
| QuoteContext.DeriveNextCounter | app/quoteContext.tsx:67-76 | the next counter is at least 1 |
| QuoteContext.DeriveNextCounterAbove | app/quoteContext.tsx:67-76 | the next counter exceeds every numeric suffix, and is 1 or one more than some quote's suffix |
| QuoteContext.NextQuoteNumberIsFresh | app/quoteContext.tsx:67-76 | the number minted from the next counter belongs to no loaded quote |
| QuoteContext.NextCounterOfTwo | app/quoteContext.tsx:67-76 | two quotes numbered m and n give next counter max(m, n) + 1 |
| QuoteContext.QuoteNumberExample | app/quoteContext.tsx:211 | counter 43 formats as `Q-DXB-00043` |
| QuoteContext.MigrateItems | app/quoteContext.tsx:107-115 | one item per stored item, in order |
| QuoteContext.Migrate | app/quoteContext.tsx:95-140 | a non-array gives no quotes; otherwise one migrated quote per record, in order |
| QuoteContext.MigrateQuoteCanonical | app/quoteContext.tsx:95-140 | a migrated quote is canonical; the number defaults to the positional `Q-DXB-` number and the status to Active; one item per stored item |
| QuoteContext.MigrateStoredQuote | app/quoteContext.tsx:95-140 | migrating the stored form of a canonical quote gives the quote back |
| QuoteContext.MigrateIdempotent | app/quoteContext.tsx:95-140 | migrating an already migrated quote changes nothing |
| QuoteContext.MapRowToQuote | app/quoteContext.tsx:53-65 | the mapped record always has a number and a status, and carries the row's id, user id and timestamps |
| QuoteContext.LoadedRowFields | app/quoteContext.tsx:53-65 | a loaded row takes the payload's number, else the row's; the payload's status, else the row's, else Draft; the row's owner e-mail, else the payload's; and is canonical |
| QuoteContext.LoadWrittenCanonical | app/quoteContext.tsx:224-242 | writing a canonical quote to a row and loading it back gives the quote with the row's identity and owner |
| QuoteContext.LoadRows | app/quoteContext.tsx:192 | one quote per fetched row |
| QuoteContext.LoadRowsCanonical | app/quoteContext.tsx:192 | every fetched quote is canonical and carries its row's id |
| QuoteContext.CreateQuoteFromDraft | app/quoteContext.tsx:78-93 | number, dates and form from the draft form, the given status, priced items and their totals |
| QuoteContext.DraftQuoteCanonical | app/quoteContext.tsx:78-93 | a draft with numbered items gives a canonical quote |
| QuotesProvider.UpsertFacts | app/quoteContext.tsx:242-244 | the saved quote comes first, no other quote keeps its number, the rest keep their order, and distinct numbers stay distinct |
| QuotesProvider.UpsertIdempotent | app/quoteContext.tsx:242-244 | saving the same quote twice leaves the list as saving it once |
| QuotesProvider.FindIndex | app/quoteContext.tsx:255 | the first position with the number, or the length when there is none |
| QuotesProvider.FindFacts | app/quoteContext.tsx:255 | nothing found exactly when no quote has the number; otherwise the first such quote |
| QuotesProvider.MergeNothing | app/quoteContext.tsx:260-266 | an empty update leaves the quote unchanged |
| QuotesProvider.MergeVoid | app/quoteContext.tsx:296-298 | a void update only sets the status to Voided and the reason, and keeps a quote canonical |
| QuotesProvider.MergeKeepsCanonical | app/quoteContext.tsx:260-266 | an update that touches neither items nor totals keeps a quote canonical |
| QuotesProvider.VoidRoundTrip | app/quoteContext.tsx:268-298 | a voided canonical quote loads back voided, with the reason, and its number, form, items and totals unchanged |
| QuotesProvider.UpsertKeepsCanonical | app/quoteContext.tsx:242-244 | putting a canonical quote first keeps a list of canonical quotes canonical |
| QuotesProvider.PersistKeepsContent | app/quoteContext.tsx:214-246 | a saved canonical quote keeps its number, form, items and totals, takes the override status, and carries the row id and user id |
| QuotesProvider.QuoteStore.constructor | app/quoteContext.tsx:157-159 | the store starts at counter 1, no quotes, no error, not loading |
| QuotesProvider.QuoteStore.Dispatch | app/quoteContext.tsx:157 | the state becomes the reducer's result; error and loading flag unchanged |
| QuotesProvider.QuoteStore.FetchQuotes | app/quoteContext.tsx:165-202 | no user: initial state and no error; fetched rows: their quotes and the next counter derived from them; failure: empty list and the message (default "Failed to load quotes"); loading ends false |
| QuotesProvider.QuoteStore.GenerateQuoteNumber | app/quoteContext.tsx:208-212 | returns the number of the current counter and increments the counter, nothing else changes |
| QuotesProvider.QuoteStore.UpsertLoaded | app/quoteContext.tsx:242-244 | the returned row is loaded and put first, other quotes of its number dropped; the list stays canonical; error and loading flag unchanged |
| QuotesProvider.QuoteStore.PersistQuote | app/quoteContext.tsx:214-252 | no user: throws and changes nothing; success: returns the loaded row, put first with others of its number removed, error cleared; failure: throws, records the message, list unchanged |
| QuotesProvider.QuoteStore.UpdateQuoteStatus | app/quoteContext.tsx:254-294 | unknown number: null and nothing changes; success: the merged quote written and loaded back, upserted, error cleared; failure: throws, records the message, list unchanged |
| QuotesProvider.QuoteStore.VoidQuote | app/quoteContext.tsx:296-298 | as the update; the quote comes back voided with the reason, its number, form, items and totals unchanged, first in the list; the store stays canonical |
| QuoteFormHook.UpdateFieldOnly | app/useQuoteForm.ts:42-50 | the field takes the value and nothing else changes, except that a mode of service also sets its transit time |
| QuoteFormHook.ModeOfServiceTransit | app/useQuoteForm.ts:45-47 | Air Freight gives 10-15 working days, Sea Freight 40-45, any other mode clears the transit time |
| QuoteFormHook.RemoveAllFacts | app/useQuoteForm.ts:57 | the filter keeps, in order, exactly the entries different from the option |
| QuoteFormHook.ToggleInclusionFacts | app/useQuoteForm.ts:52-59 | checking keeps the entries in first-occurrence order without duplicates and appends the option when it is new, so a duplicate-free list holding it is unchanged; unchecking removes every occurrence; other entries are kept in order |
| QuoteFormHook.ToggleInclusionRoundTrip | app/useQuoteForm.ts:52-59 | on a duplicate-free list without the option, checking appends it and unchecking then restores the list |
| QuoteFormHook.RemoveAbsent | app/useQuoteForm.ts:57 | unchecking an absent option changes nothing |
| QuoteFormHook.ApplyEditOnlyField | app/useQuoteForm.ts:62 | an edit can be undone, repeating it changes nothing more, and it never changes the id |
| QuoteFormHook.EditMatching | app/useQuoteForm.ts:62 | exactly the items with the id are edited, the rest kept, same length |
| QuoteFormHook.UpdateItemFacts | app/useQuoteForm.ts:61-63 | same length, numbered; the matching items edited and the others unchanged apart from their labels |
| QuoteFormHook.AddItemFacts | app/useQuoteForm.ts:65-71 | one fresh item appended with the last item's rate (0 for an empty list); earlier items kept apart from labels |
| QuoteFormHook.WithoutIdFacts | app/useQuoteForm.ts:75 | the filter keeps, in order, exactly the items with another id |
| QuoteFormHook.RemoveItem | app/useQuoteForm.ts:73-78 | the list never becomes empty |
| QuoteFormHook.RemoveItemFacts | app/useQuoteForm.ts:73-78 | the other items are kept in order and renumbered; when none remain, a single fresh item replaces them |
| QuoteFormHook.RemoveOnlyItem | app/useQuoteForm.ts:76 | removing the only item gives one fresh item |
| QuoteFormHook.ToggleItemSelection | app/useQuoteForm.ts:80-82 | same length |
| QuoteFormHook.ToggleItemSelectionFacts | app/useQuoteForm.ts:80-82 | only the selection flag of matching items changes, labels untouched; agrees with `updateItem` on `isSelected` up to renumbering |
| QuoteFormHook.ErrorMapKeys | app/useQuoteForm.ts:84-90 | the record's keys are exactly the fields of the errors |
| QuoteFormHook.ErrorMapLastWins | app/useQuoteForm.ts:84-90 | a field holds the message of its last error |
| QuoteFormHook.MapErrors | app/useQuoteForm.ts:84-90 | the loop builds exactly the record of the errors |
| QuoteFormHook.GenerateQuoteFacts | app/useQuoteForm.ts:94-108 | a quote is generated exactly when form and items are valid; otherwise form errors then item errors; the quote is a Draft of the form with priced items and their totals |
| QuoteFormHook.QuoteForm.constructor | app/useQuoteForm.ts:27-36 | step 1, a fresh form numbered from the store's counter (which advances), one fresh item, no errors; the store's error and loading flag unchanged |
| QuoteFormHook.QuoteForm.GoToStep | app/useQuoteForm.ts:40 | only the step changes |
| QuoteFormHook.QuoteForm.SetFormField | app/useQuoteForm.ts:42-50 | only the form changes, by the field update |
| QuoteFormHook.QuoteForm.SetInclusion | app/useQuoteForm.ts:52-59 | only the inclusions change, by the toggle |
| QuoteFormHook.QuoteForm.EditItem | app/useQuoteForm.ts:61-63 | only the items change, by the item update |
| QuoteFormHook.QuoteForm.AppendItem | app/useQuoteForm.ts:65-71 | only the items change, by adding an item |
| QuoteFormHook.QuoteForm.DeleteItem | app/useQuoteForm.ts:73-78 | only the items change, by removing the item; the list stays non-empty |
| QuoteFormHook.QuoteForm.SelectItem | app/useQuoteForm.ts:80-82 | only the items change, by the selection toggle |
| QuoteFormHook.QuoteForm.Generate | app/useQuoteForm.ts:94-108 | the result of quote generation; errors recorded by field when invalid, cleared when generated |
| QuoteFormHook.QuoteForm.SaveDraft | app/useQuoteForm.ts:110-120 | no number: null, nothing saved, error unchanged; otherwise the Draft quote of form and items is saved and returned with the error cleared; no user: null and error unchanged; a failed save gives null and records the message |
| QuoteFormHook.QuoteForm.Reset | app/useQuoteForm.ts:122-131 | fresh form with the next number, one fresh item, no errors; step 1 unless the dashboard is kept; the store's error and loading flag unchanged |
| Dashboard.FilterByTermFacts | components/Dashboard.tsx:48-56 | the list keeps, in order, exactly the quotes matching both the term and the status |
| Dashboard.FilteredQuotesFacts | components/Dashboard.tsx:46-57 | the dashboard lists, in order, exactly the quotes matching the trimmed lower-cased search and the status filter |
| Dashboard.BlankSearchMatchesAll | components/Dashboard.tsx:47-49 | the term is empty exactly when the search is blank, and a blank search matches every quote |
| Dashboard.BlankSearchShowsAll | components/Dashboard.tsx:46-57 | a blank search with status All lists every quote, in order |
| Dashboard.OwnerEmailOnlyForAdmins | components/Dashboard.tsx:49-53 | the owner e-mail is searched only for administrators |
| Dashboard.StatusCounts | components/Dashboard.tsx:59-70 | the count of each of the five statuses is the number of quotes with that status |
| Dashboard.CountsSumToTotal | components/Dashboard.tsx:59-70 | the five counts add up to the number of quotes |
| Dashboard.CountMatchesFilter | components/Dashboard.tsx:54-61 | a status's count is the length of the list that status filter shows for an empty search |
| Dashboard.VoidOfferedUnlessCounted | components/Dashboard.tsx:161 | every listed quote offers Void exactly when the Voided count is zero |
| AppActions.SavedWithStatus | components/App.tsx:45-59 | a quote saved with a status loads back with that status, its number, the row id and user id, canonical; a canonical quote keeps its content |
| AppActions.SaveGeneratedAsDraft | components/App.tsx:41-53 | a generated quote is saved as a Draft, heads the list and clears the store error; without a user it throws and nothing changes; a failed save throws, records the message and keeps the list |
| AppActions.FinalizeQuote | components/App.tsx:55-70 | a quote is saved as Active, heads the list and clears the store error; without a user it throws and nothing changes; a failed save rethrows, records the message and keeps the list |
| AppActions.VoidReasonFacts | components/App.tsx:100-104 | a void goes ahead exactly when the prompt returned text with content; the reason is that text trimmed, non-empty, without white space at either end |
| AppActions.HandleVoid | components/App.tsx:100-114 | no reason or unknown quote: nothing changes; otherwise the quote is voided with the trimmed reason, heads the list with its content kept and the error cleared, the preview is refreshed if it shows that quote, and it is no longer offered Void; a failed update records its message |

## Left out

- Remote storage, authentication and the network: the table's rows and errors are outcome parameters. The admin-versus-owner filter of the fetch query (app/quoteContext.tsx:177-185) runs on the server and is not modelled, and neither are the query's ordering and the `console.error` calls.
- `Date.now()`, `new Date()` and `toISOString`: a `Clock` parameter supplies the time and the two dates.
- `QuotesProvider.QuoteStore.FetchQuotes`: `isLoading` is modelled only as false when the fetch ends. The transient true value during the request is not observable in a synchronous model.
- React closures: `persistQuote` and `updateQuoteStatus` read `state.quotes` from the render that created them. The model reads the current state, so it does not capture a stale list after overlapping calls.
- `QuoteContext.DeriveNextCounter`: counters and parsed suffixes are exact naturals. In the source they are JavaScript doubles: `parseInt` rounds suffixes above 2^53, `quoteCounter + 1` stops growing at 2^53, and `String(n)` switches to exponent notation from 1e21 (app/quoteContext.tsx:45, 71, 209-211). So `DeriveNextCounterAbove`, `NextQuoteNumberIsFresh` and distinct successive numbers hold for the source only below 2^53.
- `QuoteContext.DeriveNextCounter`: `Number.isFinite` on a digit string too long for a double is not modelled; every digit suffix is treated as a finite number.
- Floating point: amounts are exact reals, so rounding, `NaN` and `Infinity` are not modelled, and `!x` on a number means `x == 0`.
- JSON nulls inside stored records are not distinguished from absent fields. A stored field holding a value of the wrong type is not modelled.
- `toLowerCase` is modelled on the ASCII letters only. `trim` uses JavaScript's white-space set.
- `QuoteFormHook.QuoteForm`: the hook's initial item is labelled `Item 1`, not `Item 1 of 1`, so `IsNormalized` is not an invariant of the form's items. Only non-emptiness is.
- `buildDraftState` (app/quoteContext.tsx:320-323) is the `DraftState` constructor. `rehydrateDraftTotals` (app/quoteContext.tsx:325-331) computes the same priced items and totals as `Calculations.EnrichItemsAndTotals` and is not modelled separately.
- The `useMemo` of priced items and totals in the hook (app/useQuoteForm.ts:38) is `Calculations.EnrichItemsAndTotals` of the hook's state; it is not stored as a field.
- Rendering, toasts, view switching, `window.prompt` itself (its answer is a parameter), the PDF export and the date-string sort of the App's list are not modelled.
- `formatCurrency` (app/calculations.ts:70-72) formats a float with two decimals. It is presentation and is not modelled.
