/** The navigation bar's link tree and the desktop rendering decisions over it:
    the split of the top-level links into eight main entries plus a synthetic
    "More" entry, and which flyout each desktop entry opens. */
module NavLinks {
  import opened Options

  /** A leaf `{ label, href }` (the label is `name` here, `label` being a Dafny keyword):
      a group's sub-link, or a link stripped of its groups. */
  datatype LinkItem = LinkItem(name: string, href: string)

  /** One flyout group: an optional heading (label, href) over its sub-links. */
  datatype Group = Group(name: Option<string>, href: Option<string>, links: seq<LinkItem>)

  /** A top-level navigation entry; `groups` may be absent. */
  datatype Link = Link(name: string, href: string, groups: Option<seq<Group>>)

  /** How many top-level links the desktop bar shows before folding the rest into "More". */
  const MainLinkCount: nat := 8
  const MoreLabel := "More"
  const MoreHref := "#"

  function ToItem(l: Link): LinkItem
  {
    LinkItem(l.name, l.href)
  }

  /** The label/href pairs of `ls`, in order (each link's groups dropped). */
  function Items(ls: seq<Link>): (r: seq<LinkItem>)
    ensures |r| == |ls|
    ensures forall i :: 0 <= i < |ls| ==> r[i] == ToItem(ls[i])
  {
    if ls == [] then [] else [ToItem(ls[0])] + Items(ls[1..])
  }

  /** The synthetic entry that collects the overflow links. */
  function MoreEntry(overflow: seq<Link>): Link
  {
    Link(MoreLabel, MoreHref, Some([Group(Some(""), None, Items(overflow))]))
  }

  /** The desktop bar's entries: the first eight links, then a "More" entry
      holding the rest when there are more than eight. */
  function SplitNavLinks(links: seq<Link>): (r: seq<Link>)
    ensures |r| <= MainLinkCount + 1
    ensures |r| == MainLinkCount + 1 <==> |links| > MainLinkCount
    ensures forall i :: 0 <= i < |links| && i < MainLinkCount ==> i < |r| && r[i] == links[i]
    ensures |links| <= MainLinkCount ==> r == links
    ensures |links| > MainLinkCount ==>
              && r[MainLinkCount].name == MoreLabel
              && r[MainLinkCount].href == MoreHref
              && r[MainLinkCount].groups.Some?
              && |r[MainLinkCount].groups.value| == 1
              && r[MainLinkCount].groups.value[0].name == Some("")
              && r[MainLinkCount].groups.value[0].links == Items(links[MainLinkCount..])
  {
    if |links| <= MainLinkCount then links
    else links[..MainLinkCount] + [MoreEntry(links[MainLinkCount..])]
  }

  /** The links a desktop entry lists under "More": its first group's links. */
  function OverflowItems(entry: Link): seq<LinkItem>
  {
    match entry.groups
    case Some(gs) => if |gs| > 0 then gs[0].links else []
    case None => []
  }

  /** Reading the split back: the main entries' label/href pairs followed by the
      "More" entry's links are exactly the label/href pairs of the original links. */
  function Unsplit(bar: seq<Link>): seq<LinkItem>
  {
    if |bar| <= MainLinkCount then Items(bar)
    else Items(bar[..MainLinkCount]) + OverflowItems(bar[MainLinkCount])
  }

  /** The split loses and reorders nothing: un-splitting gives back every
      original label/href pair, in order. */
  lemma SplitRoundTrip(links: seq<Link>)
    ensures Unsplit(SplitNavLinks(links)) == Items(links)
  {
  }

  /** `links.find(cat => cat.label === label)`: the first link with that label. */
  function FindByLabel(links: seq<Link>, wanted: string): (r: Option<Link>)
    ensures r.Some? ==> r.value in links && r.value.name == wanted
    ensures r.None? <==> forall i :: 0 <= i < |links| ==> links[i].name != wanted
    ensures r.Some? ==> exists k :: 0 <= k < |links| && links[k] == r.value
                          && forall i :: 0 <= i < k ==> links[i].name != wanted
  {
    if links == [] then None
    else if links[0].name == wanted then Some(links[0])
    else
      var rest := FindByLabel(links[1..], wanted);
      assert forall i :: 1 <= i < |links| ==> links[i] == links[1..][i - 1];
      rest
  }

  /** A column heading: a link when the group has a non-empty href, otherwise plain text. */
  datatype Heading = HeadingLink(text: string, target: string) | HeadingText(text: string)

  /** One flyout column: an optional heading over a list of links. */
  datatype Column = Column(heading: Option<Heading>, links: seq<LinkItem>)

  /** A "More" flyout column: an overflow link as header, then the columns of the
      first original link carrying the same label. */
  datatype MoreColumn = MoreColumn(head: LinkItem, children: seq<Column>)

  datatype Flyout =
    | NoFlyout
    | MoreFlyout(moreColumns: seq<MoreColumn>)
    | GroupFlyout(columns: seq<Column>)

  /** A group rendered as a column: the heading appears iff the group's label is
      non-empty, and is a link iff its href is non-empty too. */
  function GroupColumn(g: Group): (c: Column)
    ensures c.heading.Some? <==> Truthy(g.name)
    ensures c.heading.Some? ==> c.heading.value.text == g.name.value
    ensures c.heading.Some? ==> (c.heading.value.HeadingLink? <==> Truthy(g.href))
    ensures c.heading.Some? && c.heading.value.HeadingLink? ==> c.heading.value.target == g.href.value
    ensures c.links == g.links
  {
    var heading :=
      if !Truthy(g.name) then None
      else if Truthy(g.href) then Some(HeadingLink(g.name.value, g.href.value))
      else Some(HeadingText(g.name.value));
    Column(heading, g.links)
  }

  function GroupColumns(gs: seq<Group>): (cs: seq<Column>)
    ensures |cs| == |gs|
    ensures forall i :: 0 <= i < |gs| ==> cs[i] == GroupColumn(gs[i])
  {
    if gs == [] then [] else [GroupColumn(gs[0])] + GroupColumns(gs[1..])
  }

  /** The columns under one overflow link: the groups of the first original link
      with the same label, or none. */
  function MoreColumnFor(link: LinkItem, links: seq<Link>): MoreColumn
  {
    var children :=
      match FindByLabel(links, link.name)
      case Some(cat) => (match cat.groups case Some(gs) => GroupColumns(gs) case None => [])
      case None => [];
    MoreColumn(link, children)
  }

  function MoreColumns(overflow: seq<LinkItem>, links: seq<Link>): (cs: seq<MoreColumn>)
    ensures |cs| == |overflow|
    ensures forall i :: 0 <= i < |overflow| ==> cs[i] == MoreColumnFor(overflow[i], links)
  {
    if overflow == [] then [] else [MoreColumnFor(overflow[0], links)] + MoreColumns(overflow[1..], links)
  }

  /** The flyout a desktop entry opens. Entries are told apart by name: one
      labelled "More" lists its first group's links, each with the groups of the
      original link of that label; any other entry with groups shows one column
      per group; the rest open nothing. */
  function DesktopFlyout(entry: Link, links: seq<Link>): (f: Flyout)
    ensures f.MoreFlyout? <==> entry.name == MoreLabel
    ensures f.GroupFlyout? <==> entry.name != MoreLabel && entry.groups.Some? && |entry.groups.value| > 0
    ensures f.MoreFlyout? ==> |f.moreColumns| == |OverflowItems(entry)|
    ensures f.MoreFlyout? ==> forall i :: 0 <= i < |f.moreColumns| ==> f.moreColumns[i].head == OverflowItems(entry)[i]
    ensures f.GroupFlyout? ==> |f.columns| == |entry.groups.value|
    ensures f.GroupFlyout? ==> forall i :: 0 <= i < |f.columns| ==> f.columns[i].links == entry.groups.value[i].links
  {
    if entry.name == MoreLabel then MoreFlyout(MoreColumns(OverflowItems(entry), links))
    else if entry.groups.Some? && |entry.groups.value| > 0 then GroupFlyout(GroupColumns(entry.groups.value))
    else NoFlyout
  }

  /** The flyouts of the whole desktop bar: on an overflowing bar, the last
      entry's flyout lists every link past the eighth, each as a column header. */
  lemma MoreFlyoutListsOverflow(links: seq<Link>)
    requires |links| > MainLinkCount
    ensures var bar := SplitNavLinks(links);
            var f := DesktopFlyout(bar[MainLinkCount], links);
            && f.MoreFlyout?
            && |f.moreColumns| == |links| - MainLinkCount
            && forall i :: 0 <= i < |f.moreColumns| ==>
                 f.moreColumns[i].head == ToItem(links[MainLinkCount + i])
  {
  }

  /** Entries are recognised by label, so a site link labelled "More" among the
      first eight also opens the "More" flyout and never shows its own groups as
      columns. */
  lemma SiteLinkNamedMoreOpensMoreFlyout(links: seq<Link>, i: nat)
    requires i < |links| && i < MainLinkCount
    requires links[i].name == MoreLabel
    ensures DesktopFlyout(SplitNavLinks(links)[i], links).MoreFlyout?
    ensures !DesktopFlyout(SplitNavLinks(links)[i], links).GroupFlyout?
  {
  }
}
