/** The slide-in mobile menu: the rows of its main list, the state it keeps
    (open or closed, search open or closed, which view is showing) and how UI
    events change that state, and the panel each state displays. */
module MobileMenu {
  import opened Options
  import opened NavLinks
  import opened Text
  import opened Subcategories

  // ---- the main list ------------------------------------------------------

  /** One row of the main list. A link labelled '' leaves its row empty. */
  datatype MainRow =
    | BlankRow
    | EntryRow(name: string, href: string, chevron: bool)
    | AccountRow(target: string)
    | LogoutRow

  const LogoutHref := "/logout"

  /** A link has subcategories when its groups are present and non-empty. */
  predicate HasSubcategories(item: Link)
  {
    item.groups.Some? && |item.groups.value| > 0
  }

  /** The row for one top-level link. */
  function EntryFor(item: Link): (row: MainRow)
    ensures row.BlankRow? <==> item.name == ""
    ensures !row.BlankRow? ==> row == EntryRow(item.name, item.href, HasSubcategories(item))
  {
    if item.name == "" then BlankRow else EntryRow(item.name, item.href, HasSubcategories(item))
  }

  function EntryRows(links: seq<Link>): (rows: seq<MainRow>)
    ensures |rows| == |links|
    ensures forall i :: 0 <= i < |links| ==> rows[i] == EntryFor(links[i])
  {
    if links == [] then [] else [EntryFor(links[0])] + EntryRows(links[1..])
  }

  /** The main list: one row per link, then "My Account" and "Log out" when a
      user name is present and non-empty. */
  function MainList(links: seq<Link>, username: Option<string>, accountHref: string): (rows: seq<MainRow>)
    ensures |rows| == |links| + (if Truthy(username) then 2 else 0)
    ensures rows[..|links|] == EntryRows(links)
    ensures Truthy(username) ==> rows[|links|..] == [AccountRow(accountHref), LogoutRow]
  {
    EntryRows(links) + (if Truthy(username) then [AccountRow(accountHref), LogoutRow] else [])
  }

  /** The row of link `i` offers a drill-down chevron iff the link has a
      non-empty label and non-empty groups. */
  lemma ChevronIffSubcategories(links: seq<Link>, username: Option<string>, accountHref: string, i: nat)
    requires i < |links|
    ensures var row := MainList(links, username, accountHref)[i];
            (row.EntryRow? && row.chevron) <==> (links[i].name != "" && HasSubcategories(links[i]))
  {
  }

  // ---- state and events ---------------------------------------------------

  datatype View = MainView | CategoryView(category: Link)

  /** The menu's transient state; `searchOpen` is the shared search flag the
      navigation bar can close. */
  datatype MenuState = MenuState(menuOpen: bool, searchOpen: bool, view: View)

  datatype Event =
    | ToggleButton            // the hamburger button
    | OpenChange(open: bool)  // the dialog opening or closing itself (close button, overlay, Escape)
    | DrillDown(item: Link)   // the chevron beside a main-list entry
    | Back                    // the back button of a category view
    | PathChange              // the route's pathname changed (and on first mount)
    | Scroll                  // the window scrolled
    | DesktopMenuChange       // the desktop navigation menu's open item changed

  /** The state before any effect has run: menu closed, main view. */
  function Initial(searchOpen: bool): (s: MenuState)
    ensures !s.menuOpen && s.view == MainView && s.searchOpen == searchOpen
  {
    MenuState(false, searchOpen, MainView)
  }

  function Step(s: MenuState, e: Event): MenuState
  {
    match e
    case ToggleButton => s.(menuOpen := !s.menuOpen)
    case OpenChange(open) => s.(menuOpen := open)
    case DrillDown(item) => s.(view := CategoryView(item))
    case Back => s.(view := MainView)
    case PathChange => MenuState(false, false, MainView)
    case Scroll => s.(menuOpen := false, searchOpen := false)
    case DesktopMenuChange => s.(searchOpen := false)
  }

  function Run(s: MenuState, es: seq<Event>): MenuState
    decreases |es|
  {
    if es == [] then s else Run(Step(s, es[0]), es[1..])
  }

  /** Events the UI can deliver in state `s`: a chevron is only on screen in an
      open menu's main view, beside a link of the list that has subcategories;
      the back button only in an open menu's category view. */
  predicate Enabled(s: MenuState, e: Event, links: seq<Link>)
  {
    match e
    case DrillDown(item) => s.menuOpen && s.view.MainView? && item in links && item.name != "" && HasSubcategories(item)
    case Back => s.menuOpen && s.view.CategoryView?
    case _ => true
  }

  predicate AllEnabled(s: MenuState, es: seq<Event>, links: seq<Link>)
    decreases |es|
  {
    es == [] || (Enabled(s, es[0], links) && AllEnabled(Step(s, es[0]), es[1..], links))
  }

  /** A category view only ever shows a link of the list that has subcategories. */
  predicate ViewInvariant(s: MenuState, links: seq<Link>)
  {
    s.view.CategoryView? ==>
      s.view.category in links && s.view.category.name != "" && HasSubcategories(s.view.category)
  }

  /** Each transition, as the handlers perform it. */
  lemma StepEffects(s: MenuState, e: Event)
    ensures e.DrillDown? ==> Step(s, e) == s.(view := CategoryView(e.item))
    ensures e.Back? ==> Step(s, e).view == MainView && Step(s, e).menuOpen == s.menuOpen
    ensures e.PathChange? ==> !Step(s, e).menuOpen && !Step(s, e).searchOpen && Step(s, e).view == MainView
    ensures e.Scroll? ==> !Step(s, e).menuOpen && !Step(s, e).searchOpen && Step(s, e).view == s.view
    ensures e.OpenChange? ==> Step(s, e).menuOpen == e.open && Step(s, e).view == s.view
    ensures e.ToggleButton? ==> Step(s, e).menuOpen == !s.menuOpen && Step(s, e).view == s.view
    ensures e.DesktopMenuChange? ==> Step(s, e) == s.(searchOpen := false)
    ensures !e.PathChange? && !e.Scroll? && !e.DesktopMenuChange? ==> Step(s, e).searchOpen == s.searchOpen
  {
  }

  lemma StepKeepsInvariant(s: MenuState, e: Event, links: seq<Link>)
    requires ViewInvariant(s, links) && Enabled(s, e, links)
    ensures ViewInvariant(Step(s, e), links)
  {
  }

  /** From the initial state, every sequence of deliverable events keeps the
      category view on a link of the list with subcategories. */
  lemma {:induction false} RunKeepsInvariant(s: MenuState, es: seq<Event>, links: seq<Link>)
    requires ViewInvariant(s, links) && AllEnabled(s, es, links)
    ensures ViewInvariant(Run(s, es), links)
    decreases |es|
  {
    if es != [] {
      StepKeepsInvariant(s, es[0], links);
      RunKeepsInvariant(Step(s, es[0]), es[1..], links);
    }
  }

  lemma InitialRunsKeepInvariant(searchOpen: bool, es: seq<Event>, links: seq<Link>)
    requires AllEnabled(Initial(searchOpen), es, links)
    ensures ViewInvariant(Run(Initial(searchOpen), es), links)
  {
    RunKeepsInvariant(Initial(searchOpen), es, links);
  }

  /** A route change resets everything, whatever came before. */
  lemma {:induction false} PathChangeResets(s: MenuState, es: seq<Event>)
    ensures Run(s, es + [PathChange]) == MenuState(false, false, MainView)
    decreases |es|
  {
    if es == [] {
      assert es + [PathChange] == [PathChange];
    } else {
      assert (es + [PathChange])[1..] == es[1..] + [PathChange];
      PathChangeResets(Step(s, es[0]), es[1..]);
    }
  }

  /** Closing the dialog and opening it again brings back the category view it
      showed: only a route change or the back button returns to the main view. */
  lemma CloseReopenKeepsView(s: MenuState)
    ensures Run(s, [OpenChange(false), OpenChange(true)]).view == s.view
    ensures Run(s, [Scroll, ToggleButton]).view == s.view
  {
  }

  /** Drilling down and going back returns to the main view with the menu as it was. */
  lemma DrillDownThenBack(s: MenuState, item: Link)
    ensures Run(s, [DrillDown(item), Back]) == s.(view := MainView)
  {
    var inCategory := Step(s, DrillDown(item));
    assert [DrillDown(item), Back][1..] == [Back];
    assert Run(s, [DrillDown(item), Back]) == Run(inCategory, [Back]);
    assert Run(inCategory, [Back]) == Step(inCategory, Back);
  }

  // ---- what the open menu shows -------------------------------------------

  datatype Panel =
    | MainPanel(rows: seq<MainRow>)
    | CategoryPanel(title: string, items: seq<LinkItem>, noSubcategoriesRow: bool)

  /** The body of the menu for a view: the main list, or the chosen category's
      label over its sub-list and, when the component's untrimmed check calls
      for it, the "No subcategories available" row. */
  function PanelFor(view: View, links: seq<Link>, username: Option<string>, accountHref: string): (p: Panel)
    ensures p.MainPanel? <==> view.MainView?
    ensures p.MainPanel? ==> p.rows == MainList(links, username, accountHref)
    ensures p.CategoryPanel? ==> p.title == view.category.name
    ensures p.CategoryPanel? ==> p.items == SubcategoryList(view.category)
    ensures p.CategoryPanel? ==> (p.noSubcategoriesRow <==> ShowsNoSubcategories(view.category))
    ensures p.CategoryPanel? && p.noSubcategoriesRow ==> p.items == []
  {
    match view
    case MainView => MainPanel(MainList(links, username, accountHref))
    case CategoryView(c) =>
      if ShowsNoSubcategories(c) then NoSubcategoriesRowMeansEmptyList(c); CategoryPanel(c.name, SubcategoryList(c), true)
      else CategoryPanel(c.name, SubcategoryList(c), false)
  }

  /** The panel with the row decided by the trimmed check, which shows it
      exactly when the list is empty. */
  function PanelForCorrected(view: View, links: seq<Link>, username: Option<string>, accountHref: string): (p: Panel)
    ensures p.MainPanel? <==> view.MainView?
    ensures p.MainPanel? ==> p.rows == MainList(links, username, accountHref)
    ensures p.CategoryPanel? ==> p.title == view.category.name
    ensures p.CategoryPanel? ==> p.items == SubcategoryList(view.category)
    ensures p.CategoryPanel? ==> (p.noSubcategoriesRow <==> p.items == [])
  {
    match view
    case MainView => MainPanel(MainList(links, username, accountHref))
    case CategoryView(c) =>
      TrimmedCheckMatchesList(c);
      CategoryPanel(c.name, SubcategoryList(c), ShowsNoSubcategoriesTrimmed(c))
  }

  /** The two panels differ only in the row, and only on categories whose groups
      carry a non-empty label made of spaces alone. */
  lemma PanelsDifferOnlyOnBlankLabels(view: View, links: seq<Link>, username: Option<string>, accountHref: string)
    requires view.CategoryView? && view.category.groups.Some? ==>
               forall i :: 0 <= i < |view.category.groups.value| && Truthy(view.category.groups.value[i].name)
                 ==> !AllSpace(view.category.groups.value[i].name.value)
    ensures PanelFor(view, links, username, accountHref) == PanelForCorrected(view, links, username, accountHref)
  {
    if view.CategoryView? {
      ChecksAgreeWithoutBlankLabels(view.category);
    }
  }

  /** In any state the UI can reach, a category panel's "No subcategories" row
      means the category has groups, every one of them without links and with a
      label that is absent or ''. */
  lemma ReachablePanelRow(searchOpen: bool, es: seq<Event>, links: seq<Link>, username: Option<string>, accountHref: string)
    requires AllEnabled(Initial(searchOpen), es, links)
    ensures var s := Run(Initial(searchOpen), es);
            var p := PanelFor(s.view, links, username, accountHref);
            p.CategoryPanel? && p.noSubcategoriesRow ==>
              && p.items == []
              && s.view.category.groups.Some?
              && |s.view.category.groups.value| > 0
              && var gs := s.view.category.groups.value;
                 forall i :: 0 <= i < |gs| ==> gs[i].links == [] && (gs[i].name.None? || gs[i].name == Some(""))
  {
    var s := Run(Initial(searchOpen), es);
    InitialRunsKeepInvariant(searchOpen, es, links);
    if s.view.CategoryView? && s.view.category.groups.Some? {
      FlattenEmptyIff(s.view.category.groups.value);
    }
  }
}
