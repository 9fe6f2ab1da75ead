# Storefront navigation bar and footer: a Dafny model of their decision logic

The storefront has two presentational React components. `Navigation` (in
`custom-navigation.tsx`) is the top bar. It holds the desktop link row with
flyout menus, a slide-in mobile menu with drill-down categories, a search form
with a result panel, locale and currency dropdowns, and a cart badge.
`CustomFooter` (in `index.tsx`) is the page footer. It holds contact details,
social links, link columns, a copyright line and payment icons.

Nearly all of both files is markup. This project models the small layer of
decisions inside that markup as pure Dafny functions over immutable datatypes,
and proves what the components promise about them:

- `NavLinks` (`nav_links.dfy`): the link tree (`Link`, `Group`, `LinkItem`).
  It splits the top-level links into eight main entries plus a synthetic
  "More" entry, and picks which flyout each desktop entry opens.
- `Subcategories` (`subcategories.dfy`): a category's mobile sub-list. This
  is either the groups' links flattened, or, as a fallback, the groups with a
  non-blank label used as pseudo-links. The module also decides when the
  "No subcategories available" row appears.
- `MobileMenu` (`mobile_menu.dfy`): the rows of the mobile main list. It also
  holds the menu state (open/closed, search open/closed, view `main` or
  `category(link)`), the events that change it, and the panel each state shows.
- `Search` (`search.dfy`): the combined pending ("stale") flag, the submit
  button rule, and the result-panel outcome. The panel is one of nothing,
  error list, empty state, or result sections (dimmed or not).
- `Switchers` (`switchers.dfy`): the locale and currency dropdowns (trigger
  text, highlighted items, when each appears) and the cart badge.
- `Footer` (`footer.dfy`): the section filter, the columns block, and when
  the contact, social, copyright and payment blocks appear.
- `Options` (`options.dfy`) and `Text` (`text.dfy`) are shared helpers.
  `Option` stands for a property that may be `undefined`/`null`. `Trim` models
  JavaScript's `String.prototype.trim` over the ECMAScript WhiteSpace and
  LineTerminator characters.

Naming: Dafny reserves `label` as a keyword, so the source's `label` fields are
called `name` in the model.

Two behaviours of the code are easy to miss:

- Closing and reopening the mobile menu keeps the category view. Only a
  pathname change or the back button returns to the main view; closing the
  dialog only clears the open flag (`MobileMenu.CloseReopenKeepsView`).
- A whitespace-only query shows the empty state, because the panel tests
  `query === ''`, but no submit button, because the button tests the trimmed
  query (`Search.BlankQueryShowsEmptyStateWithoutButton`).

## Model

| member | source | states |
|---|---|---|
| `Text.Trim` | custom-navigation.tsx:541 | the trimmed string is a contiguous slice of the input with only spaces cut from either end, and it neither starts nor ends with a space |
| `Text.TrimEmptyIffAllSpace` | custom-navigation.tsx:541 | `s.trim() === ''` holds exactly when every character of `s` is JavaScript whitespace |
| `NavLinks.Items` | custom-navigation.tsx:767-770 | mapping links to `{label, href}` keeps the length and, position by position, each link's label and href |
| `NavLinks.SplitNavLinks` | custom-navigation.tsx:755-774 | the bar has at most 9 entries; the first min(n,8) are the original links unchanged; a 9th exists iff n > 8, labelled `More` with href `#` and one group labelled `''` whose links are the label/href pairs of links[8..] |
| `NavLinks.SplitRoundTrip` | custom-navigation.tsx:756-773 | the main entries' label/href pairs followed by the More entry's links give back every original label/href pair, in order |
| `NavLinks.FindByLabel` | custom-navigation.tsx:807-809 | the result is the first link with the wanted label, and it is absent iff no link has that label |
| `NavLinks.GroupColumn` | custom-navigation.tsx:850-875 | a group's column has a heading iff its label is non-empty; the heading is a link iff the href is non-empty too; the column lists exactly the group's links |
| `NavLinks.GroupColumns` | custom-navigation.tsx:848-877 | one column per group, in group order |
| `NavLinks.MoreColumns` | custom-navigation.tsx:795-840 | one More column per overflow link, in order, each headed by that link and holding the groups of the first original link of that label |
| `NavLinks.DesktopFlyout` | custom-navigation.tsx:790-880 | an entry opens the More flyout iff its label is `More`, and a group flyout iff it has another label and non-empty groups; the More flyout's column headers are its first group's links; a group flyout has one column per group with that group's links |
| `NavLinks.MoreFlyoutListsOverflow` | custom-navigation.tsx:760-805 | on a bar with more than 8 links, the More entry's flyout has one column per link past the eighth, headed by that link's label and href, in order |
| `NavLinks.SiteLinkNamedMoreOpensMoreFlyout` | custom-navigation.tsx:785-845 | a site link labelled `More` among the first eight opens the More flyout and never the group flyout, because entries are told apart by label |
| `Subcategories.FlattenAppend` | custom-navigation.tsx:531-532 | flattening the groups is an in-order concatenation: it distributes over sequence concatenation |
| `Subcategories.FlattenMembership` | custom-navigation.tsx:531-532 | a link is in the flattened list iff some group holds it |
| `Subcategories.FlattenEmptyIff` | custom-navigation.tsx:566-567 | the flattened list is empty iff every group's links are empty |
| `Subcategories.NamedGroupLinksMembership` | custom-navigation.tsx:536-546 | the fallback lists `(label, href ?? '#')` of exactly those groups whose label is non-blank after trimming |
| `Subcategories.NamedGroupLinksAppend` | custom-navigation.tsx:536-546 | the fallback is an in-order filter-then-map: it distributes over sequence concatenation, so entries keep their groups' order and multiplicity |
| `Subcategories.NamedGroupLinksLength` | custom-navigation.tsx:536-542 | the fallback never has more entries than there are groups, and has as many iff every group's label survives trimming |
| `Subcategories.NamedGroupLinksEmptyIff` | custom-navigation.tsx:535-546 | the fallback is empty iff no group's label is non-blank after trimming |
| `Subcategories.SubcategoryListEmptyIff` | custom-navigation.tsx:531-547 | the category list is empty iff groups are absent, or no group has links and no label is non-blank after trimming |
| `Subcategories.SubcategoryListFlattens` | custom-navigation.tsx:531-532 | when some group has links, the list is the in-order concatenation of all groups' links, and holds exactly the links some group holds |
| `Subcategories.SubcategoryListFallsBack` | custom-navigation.tsx:535-546 | when no group has links, the list is the fallback of trimmed-named groups |
| `Subcategories.NoSubcategoriesRowMeansEmptyList` | custom-navigation.tsx:563-579 | whenever the component's untrimmed check shows the "No subcategories available" row, the list above it is empty |
| `Subcategories.BlankLabelShowsNeitherListNorMessage` | custom-navigation.tsx:538-579 | a single group whose label is non-empty but all whitespace, with no links, gives an empty list, and the component's check still shows no message |
| `Subcategories.TrimmedCheckMatchesList` | custom-navigation.tsx:562-579 | with the label trimmed as the list does it, the row is shown exactly when the list is empty |
| `Subcategories.ChecksAgreeWithoutBlankLabels` | custom-navigation.tsx:568-570 | the untrimmed and trimmed checks agree whenever no group label is non-empty but made of spaces only |
| `Subcategories.FlattenedPathExample` | custom-navigation.tsx:531-532 | groups `[{label:'', links:[A→/a]}]` list `A→/a` |
| `Subcategories.FallbackPathExample` | custom-navigation.tsx:535-546 | groups `[{label:'B', href:'/b', links:[]}]` list `B→/b`; without an href the pseudo-link points to `#` |
| `MobileMenu.EntryFor` | custom-navigation.tsx:460-487 | a link labelled `''` renders an empty row; any other link renders its label and href, with a chevron iff groups are present and non-empty |
| `MobileMenu.EntryRows` | custom-navigation.tsx:458-490 | one row per link, in order |
| `MobileMenu.MainList` | custom-navigation.tsx:458-517 | the main list is the link rows, followed by "My Account" (account href) and "Log out" exactly when the user name is non-empty |
| `MobileMenu.ChevronIffSubcategories` | custom-navigation.tsx:460-487 | the row of link i offers a drill-down chevron iff that link has a non-empty label and non-empty groups |
| `MobileMenu.Initial` | custom-navigation.tsx:239-243 | the menu starts closed in the main view |
| `MobileMenu.StepEffects` | custom-navigation.tsx:270-285 | a pathname change closes menu and search and resets the view to main; scroll closes menu and search and keeps the view; drill-down sets the category view; back sets main; open changes and the toggle only move the open flag; the desktop menu only closes search |
| `MobileMenu.StepKeepsInvariant` | custom-navigation.tsx:472-480 | each deliverable event keeps any category view on a link of the list with a label and non-empty groups |
| `MobileMenu.RunKeepsInvariant` | custom-navigation.tsx:472-480 | every sequence of deliverable events keeps that invariant |
| `MobileMenu.InitialRunsKeepInvariant` | custom-navigation.tsx:239-243 | every state reached from the initial state by deliverable events satisfies the invariant |
| `MobileMenu.PathChangeResets` | custom-navigation.tsx:270-274 | after any history, a pathname change leaves the menu closed, search closed and the main view showing |
| `MobileMenu.CloseReopenKeepsView` | custom-navigation.tsx:346-353 | closing the dialog and reopening it (or scrolling and toggling) brings back the view it had |
| `MobileMenu.DrillDownThenBack` | custom-navigation.tsx:387-480 | drilling down and then pressing back returns to the main view with everything else unchanged |
| `MobileMenu.PanelFor` | custom-navigation.tsx:381-583 | the main view shows the main list; a category view shows the category's label over its sub-list, and the "No subcategories" row iff the component's untrimmed check holds (no groups, or no group with links and no group with a non-empty label), which only happens over an empty list |
| `MobileMenu.PanelForCorrected` | custom-navigation.tsx:560-579 | the same panel with the row decided on trimmed labels: the row is shown exactly when the sub-list is empty |
| `MobileMenu.PanelsDifferOnlyOnBlankLabels` | custom-navigation.tsx:538-570 | the component's panel and the corrected one are equal whenever no group label is non-empty but all whitespace |
| `MobileMenu.ReachablePanelRow` | custom-navigation.tsx:560-579 | in every reachable state the row appears only over an empty list, for a category that has groups, each with no links and a label that is absent or `''` |
| `Search.IsPending` | custom-navigation.tsx:920 | the results are not stale exactly when the search, debounce and submit flags are all false |
| `Search.PanelFor` | custom-navigation.tsx:1014-1068 | an empty query shows nothing; an error list appears only when not stale and holds the given non-empty errors; the empty state appears only when not stale and shows the configured texts or the defaults `No results were found for '<query>'` and `Please try another search.`; result sections are the given non-empty results in order, dimmed iff stale |
| `Search.NothingShownIff` | custom-navigation.tsx:1030-1047 | the panel shows nothing iff the query is `''`, or the results are stale and there are errors or no results |
| `Search.PanelCases` | custom-navigation.tsx:1030-1068 | for a non-empty query: errors show iff present and not stale; the empty state shows iff there are no errors, no results and nothing stale; sections show iff there are no errors and some results |
| `Search.ConfiguredEmptyStateVerbatim` | custom-navigation.tsx:1046-1058 | a non-empty query with empty results and nothing pending shows the configured title and subtitle verbatim |
| `Search.SubmitButtonFor` | custom-navigation.tsx:968-974 | the submit button is shown iff the query is not all whitespace, and it spins iff the search is pending or the form is submitting |
| `Search.SearchFormView` | custom-navigation.tsx:911-984 | the form's panel is the outcome for the combined pending flag and the action's last state; the button follows the trimmed query |
| `Search.BlankQueryShowsEmptyStateWithoutButton` | custom-navigation.tsx:968-1058 | a non-empty query of spaces, with nothing pending and no results yet, shows the default empty state but no submit button |
| `Search.ButtonImpliesQueryPanel` | custom-navigation.tsx:968-1030 | when the button is shown the query is non-empty, so with nothing pending the panel is never empty |
| `Switchers.FindActive` | custom-navigation.tsx:1165 | the result is the first entry whose id equals the active id, and it is absent iff none does (an absent id matches nothing) |
| `Switchers.ItemsFor` | custom-navigation.tsx:1188-1202 | one item per entry, in order, with its id and label, highlighted iff its id equals the active id |
| `Switchers.LocaleDropdown` | custom-navigation.tsx:1165-1202 | the trigger shows the active locale's id when one is found, otherwise the first locale's id |
| `Switchers.CurrencyDropdown` | custom-navigation.tsx:1226-1279 | the trigger shows the active currency's label when one is found, otherwise the first currency's label |
| `Switchers.LocaleControl` | custom-navigation.tsx:673-680 | the locale dropdown is rendered iff locales are given and there are more than one |
| `Switchers.CurrencyControl` | custom-navigation.tsx:686-697 | the currency dropdown is rendered iff there are more than one currencies and a currency action is supplied |
| `Switchers.TriggerIsOffered` | custom-navigation.tsx:1179-1194 | the trigger always names an offered entry, and when the active id is offered the trigger's entry is a highlighted item |
| `Switchers.AtMostOneSelected` | custom-navigation.tsx:1192-1195 | with distinct ids at most one item is highlighted |
| `Switchers.SecondCurrencyActiveExample` | custom-navigation.tsx:1243-1261 | with currencies usd and eur and eur active, the trigger shows EUR, eur is highlighted and usd is not |
| `Switchers.CartBadge` | custom-navigation.tsx:662-669 | the badge shows the count iff the count is present and positive |
| `Footer.ValidSections` | index.tsx:119-121 | the filter keeps only sections with a non-empty title and at least one link, drawn from the input, and never more than the input |
| `Footer.ValidSectionsIsSubsequence` | index.tsx:119-121 | the kept sections appear in their original relative order |
| `Footer.ValidSectionsKeepsValid` | index.tsx:119-121 | a section is kept iff it is in the input and valid |
| `Footer.ValidSectionsAppend` | index.tsx:119-121 | the filter distributes over sequence concatenation: it decides section by section and keeps the kept ones in order |
| `Footer.ValidSectionsCount` | index.tsx:119-121 | every copy of a valid section is kept and no copy of an invalid one |
| `Footer.ValidSectionsIdempotent` | index.tsx:119-121 | filtering a filtered list changes nothing |
| `Footer.ColumnsOf` | index.tsx:127-147 | one column per section, in order, carrying that section's title and exactly its links |
| `Footer.ColumnsBlock` | index.tsx:118-153 | the columns block is absent iff no section is valid; otherwise it is non-empty and every column is a valid section's title and links |
| `Footer.ColumnsFollowValidSections` | index.tsx:123-147 | when some section is valid, column i shows the title and links of the i-th valid section |
| `Footer.ContactBlockFor` | index.tsx:68-88 | the contact block appears iff an address or a phone is present; it carries the title (default `Contact Us`); the address line comes first and appears iff the address is non-empty, and the phone line likewise |
| `Footer.EmptyAddressShowsBareTitle` | index.tsx:70-83 | an empty address with no phone gives the title and no lines |
| `Footer.FooterFor` | index.tsx:68-182 | social links appear iff given, unchanged and in order; the copyright appears iff given; the payment icons appear iff given; contact and columns follow their own rules |

## Left out

- Banner-height probe (custom-navigation.tsx:249-325): DOM queries, text scanning, layout measurement, timers and observers. There is no pure decision logic in it.
- Debounce timing and React scheduling (custom-navigation.tsx:921-937): the `lodash.debounce` wrapper and `useTransition`/`useActionState`/`useFormStatus` are foreign. The three pending flags and the form-status flag are inputs to the model.
- Search errors: `form.errors` comes from the foreign `useForm` hook over the last submission result, so the error list is an input to the panel.
- The search form appears only when a search action is supplied (custom-navigation.tsx:618, 704). That check is a plain presence test and is not modelled.
- Locale navigation (custom-navigation.tsx:1137-1154) and the currency server action with `router.refresh` and console logging (custom-navigation.tsx:1264-1274): router calls, network and side effects.
- Streamable values: `Stream` is a foreign component. Every input is taken as already resolved, and the skeleton fallbacks (index.tsx:188-260) are not modelled.
- Radix Dialog, DropdownMenu and NavigationMenu behaviour, and `Link`, `Logo`, `ProductCard` and `Price` rendering: foreign UI libraries. Products keep only id, title and href; price and image are passed through to `ProductCard` untouched.
- MobileMenu.StepEffects: the hamburger button is modelled as one toggle of the open flag. Its own click handler and the dialog trigger's handler both fire, and how React merges them is not visible here.
- Class names, CSS variables, animations, the `MobileMenuButton` markup, logos and the username header row: presentation only.
- Switchers.CartBadge: the count is an unbounded integer; JavaScript numbers (fractions, NaN) are not modelled.

## Findings

| source | as written | input that shows it | evidently intended | confidence | as-written member | corrected member |
|---|---|---|---|---|---|---|
| custom-navigation.tsx:563-579 | the "No subcategories available" check counts a group as named when its label is non-empty, untrimmed, while the list above it keeps only labels non-empty after `trim()` (line 541) | a category whose groups are `[{label:' ', links:[]}]`: the list is empty and no message is shown | the row appears exactly when the list is empty, as the comment at line 562 says ("after processing") | medium, not executed | `Subcategories.BlankLabelShowsNeitherListNorMessage` | `Subcategories.TrimmedCheckMatchesList` |

The untrimmed check is modelled as `Subcategories.ShowsNoSubcategories`, and
`MobileMenu.PanelFor` renders with it, as the component does. The corrected
check is `Subcategories.ShowsNoSubcategoriesTrimmed`, and
`MobileMenu.PanelForCorrected` renders with that one.
