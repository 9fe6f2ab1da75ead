/** The search form's rendering decisions: the combined pending flag, whether the
    submit button appears, and which result panel is shown for a query. */
module Search {
  import opened Options
  import opened Text
  import opened NavLinks

  datatype Product = Product(id: string, title: string, href: string)

  /** A result section: products or plain links, under a title. */
  datatype SearchResult =
    | ProductsResult(title: string, products: seq<Product>)
    | LinksResult(title: string, links: seq<LinkItem>)

  /** What the search action last returned. */
  datatype ActionState = ActionState(
    searchResults: Option<seq<SearchResult>>,
    emptyStateTitle: Option<string>,
    emptyStateSubtitle: Option<string>)

  /** The state before the first search: no results, no configured texts. */
  const InitialActionState := ActionState(None, None, None)

  datatype Panel =
    | NoPanel
    | ErrorPanel(errors: seq<string>)
    | EmptyPanel(title: string, subtitle: string)
    | ResultsPanel(sections: seq<SearchResult>, dimmed: bool)

  const DefaultEmptySubtitle := "Please try another search."

  function DefaultEmptyTitle(query: string): string
  {
    "No results were found for '" + query + "'"
  }

  /** The results are stale while a search transition, the debounce timer or a
      full form submission is pending. */
  function IsPending(isSearching: bool, isDebouncing: bool, isSubmitting: bool): (stale: bool)
    ensures !stale <==> !isSearching && !isDebouncing && !isSubmitting
  {
    isSearching || isDebouncing || isSubmitting
  }

  /** The result panel, decided in order: an empty query shows nothing; errors
      show as a list unless stale; missing or empty results show the empty
      state unless stale; otherwise the sections, dimmed while stale. */
  function PanelFor(query: string, errors: Option<seq<string>>, results: Option<seq<SearchResult>>,
                    stale: bool, emptyTitle: Option<string>, emptySubtitle: Option<string>): (p: Panel)
    ensures query == "" ==> p == NoPanel
    ensures p.ErrorPanel? ==> !stale && errors == Some(p.errors) && |p.errors| > 0
    ensures p.EmptyPanel? ==> !stale && p.title == emptyTitle.GetOr(DefaultEmptyTitle(query))
                              && p.subtitle == emptySubtitle.GetOr(DefaultEmptySubtitle)
    ensures p.ResultsPanel? ==> results == Some(p.sections) && |p.sections| > 0 && p.dimmed == stale
  {
    if query == "" then NoPanel
    else if errors.Some? && |errors.value| > 0 then
      if stale then NoPanel else ErrorPanel(errors.value)
    else if results.None? || |results.value| == 0 then
      if stale then NoPanel else EmptyPanel(emptyTitle.GetOr(DefaultEmptyTitle(query)), emptySubtitle.GetOr(DefaultEmptySubtitle))
    else ResultsPanel(results.value, stale)
  }

  predicate HasErrors(errors: Option<seq<string>>)
  {
    errors.Some? && |errors.value| > 0
  }

  predicate NoResults(results: Option<seq<SearchResult>>)
  {
    results.None? || |results.value| == 0
  }

  /** The panel shows nothing exactly for the empty query, or while stale when
      there are errors or no results to show. */
  lemma NothingShownIff(query: string, errors: Option<seq<string>>, results: Option<seq<SearchResult>>,
                        stale: bool, emptyTitle: Option<string>, emptySubtitle: Option<string>)
    ensures PanelFor(query, errors, results, stale, emptyTitle, emptySubtitle) == NoPanel
            <==> query == "" || (stale && (HasErrors(errors) || NoResults(results)))
  {
  }

  /** Which non-empty panel appears, by case: errors take precedence over
      results, and results appear whenever there are some and no errors. */
  lemma PanelCases(query: string, errors: Option<seq<string>>, results: Option<seq<SearchResult>>,
                   stale: bool, emptyTitle: Option<string>, emptySubtitle: Option<string>)
    requires query != ""
    ensures var p := PanelFor(query, errors, results, stale, emptyTitle, emptySubtitle);
            && (p.ErrorPanel? <==> HasErrors(errors) && !stale)
            && (p.EmptyPanel? <==> !HasErrors(errors) && NoResults(results) && !stale)
            && (p.ResultsPanel? <==> !HasErrors(errors) && !NoResults(results))
  {
  }

  /** A non-empty query with no results, nothing pending, shows the configured
      empty-state texts verbatim. */
  lemma ConfiguredEmptyStateVerbatim(query: string, title: string, subtitle: string)
    requires query != ""
    ensures PanelFor(query, None, Some([]), false, Some(title), Some(subtitle)) == EmptyPanel(title, subtitle)
  {
  }

  datatype SubmitButton = SubmitButton(loading: bool)

  /** The submit button: shown iff the trimmed query is non-empty; it spins while
      the search is pending or the form is submitting. */
  function SubmitButtonFor(query: string, pending: bool, formPending: bool): (b: Option<SubmitButton>)
    ensures b.Some? <==> !AllSpace(query)
    ensures b.Some? ==> (b.value.loading <==> pending || formPending)
  {
    TrimEmptyIffAllSpace(query);
    if Trim(query) != "" then Some(SubmitButton(pending || formPending)) else None
  }

  datatype SearchView = SearchView(button: Option<SubmitButton>, panel: Panel)

  /** The search form as rendered from its state. */
  function SearchFormView(query: string, isSearching: bool, isDebouncing: bool, isSubmitting: bool,
                          formPending: bool, state: ActionState, errors: Option<seq<string>>): (v: SearchView)
    ensures var stale := IsPending(isSearching, isDebouncing, isSubmitting);
            v.panel == PanelFor(query, errors, state.searchResults, stale,
                                state.emptyStateTitle, state.emptyStateSubtitle)
    ensures v.button.Some? <==> !AllSpace(query)
  {
    var stale := IsPending(isSearching, isDebouncing, isSubmitting);
    SearchView(SubmitButtonFor(query, stale, formPending),
               PanelFor(query, errors, state.searchResults, stale, state.emptyStateTitle, state.emptyStateSubtitle))
  }

  /** The two checks on the query differ: a query of spaces alone hides the
      submit button, yet (with nothing pending) shows the empty state for it. */
  lemma BlankQueryShowsEmptyStateWithoutButton(query: string)
    requires query != "" && AllSpace(query)
    ensures var v := SearchFormView(query, false, false, false, false, InitialActionState, None);
            v.button.None? && v.panel == EmptyPanel(DefaultEmptyTitle(query), DefaultEmptySubtitle)
  {
  }

  /** Whenever the submit button is shown the query is non-empty, so the panel
      is never hidden for an empty query at the same time. */
  lemma ButtonImpliesQueryPanel(query: string, isSearching: bool, isDebouncing: bool, isSubmitting: bool,
                                formPending: bool, state: ActionState, errors: Option<seq<string>>)
    requires SearchFormView(query, isSearching, isDebouncing, isSubmitting, formPending, state, errors).button.Some?
    ensures query != ""
    ensures !IsPending(isSearching, isDebouncing, isSubmitting) ==>
              SearchFormView(query, isSearching, isDebouncing, isSubmitting, formPending, state, errors).panel != NoPanel
  {
  }
}
