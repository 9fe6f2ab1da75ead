/** The page footer's decisions: which link sections become columns, and when
    the contact, social, copyright and payment blocks appear. */
module Footer {
  import opened Options

  datatype FooterLink = FooterLink(href: string, name: string)

  /** A section of links under an optional title. */
  datatype Section = Section(title: Option<string>, links: seq<FooterLink>)

  datatype ContactInformation = ContactInformation(address: Option<string>, phone: Option<string>)

  /** Icons are rendered as given; the model only needs to tell them apart. */
  datatype Icon = Icon(key: string)

  datatype SocialMediaLink = SocialMediaLink(href: string, icon: Icon)

  const DefaultContactTitle := "Contact Us"

  /** A section is shown when its title is non-empty and it has links. */
  predicate ValidSection(s: Section)
  {
    s.title.Some? && s.title.value != "" && |s.links| > 0
  }

  /** `sections.filter(ValidSection)`. */
  function ValidSections(sections: seq<Section>): (r: seq<Section>)
    ensures |r| <= |sections|
    ensures forall i :: 0 <= i < |r| ==> ValidSection(r[i]) && r[i] in sections
  {
    if sections == [] then []
    else if ValidSection(sections[0]) then [sections[0]] + ValidSections(sections[1..])
    else ValidSections(sections[1..])
  }

  /** `sub` is `full` with some sections left out, the rest in their order. */
  predicate IsSubsequence(sub: seq<Section>, full: seq<Section>)
    decreases |full|
  {
    if sub == [] then true
    else if full == [] then false
    else if sub[0] == full[0] then IsSubsequence(sub[1..], full[1..])
    else IsSubsequence(sub, full[1..])
  }

  /** The filter keeps relative order and adds nothing. */
  lemma {:induction false} ValidSectionsIsSubsequence(sections: seq<Section>)
    ensures IsSubsequence(ValidSections(sections), sections)
    decreases |sections|
  {
    if sections != [] {
      ValidSectionsIsSubsequence(sections[1..]);
      var rest := ValidSections(sections[1..]);
      if !ValidSection(sections[0]) {
        SubsequenceSkipsHead(rest, sections);
      }
    }
  }

  lemma SubsequenceSkipsHead(sub: seq<Section>, full: seq<Section>)
    requires full != [] && IsSubsequence(sub, full[1..])
    ensures IsSubsequence(sub, full)
    decreases |full|, |sub|
  {
    if sub != [] && sub[0] == full[0] {
      SubsequenceDropHead(sub, full[1..]);
    }
  }

  lemma SubsequenceDropHead(sub: seq<Section>, full: seq<Section>)
    requires sub != [] && IsSubsequence(sub, full)
    ensures IsSubsequence(sub[1..], full)
    decreases |full|, |sub|
  {
  }

  /** The filter drops exactly the invalid sections: every valid section of the
      input is kept. */
  lemma {:induction false} ValidSectionsKeepsValid(sections: seq<Section>, s: Section)
    ensures s in ValidSections(sections) <==> s in sections && ValidSection(s)
    decreases |sections|
  {
    if sections != [] {
      ValidSectionsKeepsValid(sections[1..], s);
    }
  }

  /** The filter works section by section, in order: it distributes over `+`. */
  lemma {:induction false} ValidSectionsAppend(a: seq<Section>, b: seq<Section>)
    ensures ValidSections(a + b) == ValidSections(a) + ValidSections(b)
    decreases |a|
  {
    if a == [] {
      assert a + b == b;
    } else {
      assert (a + b)[1..] == a[1..] + b;
      ValidSectionsAppend(a[1..], b);
    }
  }

  /** The filter keeps every copy of a valid section and no copy of an invalid one. */
  lemma {:induction false} ValidSectionsCount(sections: seq<Section>, x: Section)
    ensures multiset(ValidSections(sections))[x] == if ValidSection(x) then multiset(sections)[x] else 0
    decreases |sections|
  {
    if sections != [] {
      ValidSectionsCount(sections[1..], x);
      assert sections == [sections[0]] + sections[1..];
      assert multiset(sections) == multiset([sections[0]]) + multiset(sections[1..]);
      if ValidSection(sections[0]) {
        assert multiset(ValidSections(sections)) == multiset([sections[0]]) + multiset(ValidSections(sections[1..]));
      }
    }
  }

  /** Filtering twice changes nothing. */
  lemma {:induction false} ValidSectionsIdempotent(sections: seq<Section>)
    ensures ValidSections(ValidSections(sections)) == ValidSections(sections)
    decreases |sections|
  {
    if sections != [] {
      ValidSectionsIdempotent(sections[1..]);
      if ValidSection(sections[0]) {
        assert ([sections[0]] + ValidSections(sections[1..]))[1..] == ValidSections(sections[1..]);
      }
    }
  }

  /** A rendered column: the section's title over its links. */
  datatype FooterColumn = FooterColumn(title: string, links: seq<FooterLink>)

  function ColumnsOf(valid: seq<Section>): (cs: seq<FooterColumn>)
    requires forall i :: 0 <= i < |valid| ==> valid[i].title.Some?
    ensures |cs| == |valid|
    ensures forall i :: 0 <= i < |valid| ==> cs[i] == FooterColumn(valid[i].title.value, valid[i].links)
  {
    if valid == [] then [] else [FooterColumn(valid[0].title.value, valid[0].links)] + ColumnsOf(valid[1..])
  }

  /** The columns block: one column per valid section, in order, or nothing when
      no section is valid. */
  function ColumnsBlock(sections: seq<Section>): (b: Option<seq<FooterColumn>>)
    ensures b.None? <==> forall i :: 0 <= i < |sections| ==> !ValidSection(sections[i])
    ensures b.Some? ==> |b.value| > 0
    ensures b.Some? ==> forall i :: 0 <= i < |b.value| ==>
              exists j :: 0 <= j < |sections| && ValidSection(sections[j])
                          && b.value[i] == FooterColumn(sections[j].title.value, sections[j].links)
  {
    var valid := ValidSections(sections);
    forall s | s in sections && ValidSection(s) ensures s in valid {
      ValidSectionsKeepsValid(sections, s);
    }
    if |valid| > 0 then Some(ColumnsOf(valid)) else None
  }

  /** The contact block: its title, then the address and the phone, each only
      when present and non-empty. */
  datatype ContactBlock = ContactBlock(title: string, lines: seq<string>)

  function ContactBlockFor(info: Option<ContactInformation>, contactTitle: Option<string>): (b: Option<ContactBlock>)
    ensures b.Some? <==> info.Some? && (info.value.address.Some? || info.value.phone.Some?)
    ensures b.Some? ==> b.value.title == contactTitle.GetOr(DefaultContactTitle)
    ensures b.Some? ==> |b.value.lines| <= 2
    ensures b.Some? ==> |b.value.lines| == (if Truthy(info.value.address) then 1 else 0)
                                         + (if Truthy(info.value.phone) then 1 else 0)
    ensures b.Some? && Truthy(info.value.address) ==> b.value.lines[0] == info.value.address.value
    ensures b.Some? && Truthy(info.value.phone) ==> b.value.lines[|b.value.lines| - 1] == info.value.phone.value
    ensures b.Some? ==> forall line :: line in b.value.lines ==>
              (Truthy(info.value.address) && line == info.value.address.value)
              || (Truthy(info.value.phone) && line == info.value.phone.value)
  {
    if info.Some? && (info.value.address.Some? || info.value.phone.Some?) then
      var address := if Truthy(info.value.address) then [info.value.address.value] else [];
      var phone := if Truthy(info.value.phone) then [info.value.phone.value] else [];
      Some(ContactBlock(contactTitle.GetOr(DefaultContactTitle), address + phone))
    else None
  }

  /** An empty address and no phone still produce the block: a title and no lines. */
  lemma EmptyAddressShowsBareTitle()
    ensures ContactBlockFor(Some(ContactInformation(Some(""), None)), None)
            == Some(ContactBlock(DefaultContactTitle, []))
  {
  }

  /** The whole footer as rendered from its resolved inputs. */
  datatype FooterView = FooterView(
    contact: Option<ContactBlock>,
    social: Option<seq<SocialMediaLink>>,
    columns: Option<seq<FooterColumn>>,
    copyright: Option<string>,
    paymentIcons: Option<seq<Icon>>)

  function FooterFor(sections: seq<Section>, contactTitle: Option<string>,
                     contactInformation: Option<ContactInformation>,
                     socialMediaLinks: Option<seq<SocialMediaLink>>,
                     copyright: Option<string>, paymentIcons: Option<seq<Icon>>): (v: FooterView)
    ensures v.contact == ContactBlockFor(contactInformation, contactTitle)
    ensures v.columns == ColumnsBlock(sections)
    ensures v.social.Some? <==> socialMediaLinks.Some?
    ensures v.social.Some? ==> v.social.value == socialMediaLinks.value
    ensures v.copyright == copyright
    ensures v.paymentIcons == paymentIcons
  {
    FooterView(ContactBlockFor(contactInformation, contactTitle), socialMediaLinks,
               ColumnsBlock(sections), copyright, paymentIcons)
  }

  /** Each rendered column shows exactly its section's links, in order, and the
      columns follow the valid sections' order. */
  lemma ColumnsFollowValidSections(sections: seq<Section>)
    requires exists i :: 0 <= i < |sections| && ValidSection(sections[i])
    ensures var b := ColumnsBlock(sections);
            && b.Some?
            && |b.value| == |ValidSections(sections)|
            && forall i :: 0 <= i < |b.value| ==>
                 b.value[i].links == ValidSections(sections)[i].links
                 && Some(b.value[i].title) == ValidSections(sections)[i].title
  {
  }
}
