/** The section extractor (packages/harvest/src/extractors/sections.ts): every `h2`/`h3`
    heading collects the list items and description terms of the siblings that follow
    it, up to the next heading. */
module Sections {
  import opened Outcomes
  import opened Strings
  import opened Seqs

  /** A matched `a` element: its text and its `href` ("" when it has none). */
  datatype Anchor = Anchor(text: string, href: string)

  /** An `li` inside a list: its text, its first `a`, and the text of its first
      `p, span.description, .desc` when there is one. */
  datatype ListEntry = ListEntry(text: string, anchor: Option<Anchor>, desc: Option<string>)

  /** The `dd` immediately after a `dt`: its text and its first `a`. */
  datatype Definition = Definition(text: string, anchor: Option<Anchor>)

  /** A `dt` inside a description list: its text, its first `a`, and the `dd` that is its
      next sibling, when that sibling is a `dd`. */
  datatype Term = Term(text: string, anchor: Option<Anchor>, dd: Option<Definition>)

  /** A sibling element after a heading, as the walk classifies it. */
  datatype Sibling =
    | Heading(text: string)                // an `h2` or `h3`: the walk stops here
    | ItemList(entries: seq<ListEntry>)    // a `ul` or `ol` with its `li` descendants
    | DescriptionList(terms: seq<Term>)    // a `dl` with its `dt` descendants
    | Other

  /** One match of `$('h2, h3')`, in document order: its text and the siblings after it. */
  datatype HeadingMatch = HeadingMatch(text: string, following: seq<Sibling>)

  datatype Item = Item(name: string, link: string, description: Option<string>)

  datatype Section = Section(title: string, items: seq<Item>)

  /** `anchor.attr('href') || ''`. */
  function Href(a: Option<Anchor>): string {
    if a.Some? then a.value.href else ""
  }

  /** The item a list entry gives, if its name is not empty. */
  function EntryItem(li: ListEntry): Option<Item> {
    var name := if li.anchor.Some? then Trim(li.anchor.value.text) else Trim(li.text);
    if name == "" then None
    else Some(Item(name, Href(li.anchor), if li.desc.Some? then Some(Trim(li.desc.value)) else None))
  }

  /** The item a description term gives, if its name is not empty. */
  function TermItem(dt: Term): Option<Item> {
    var name := Trim(dt.text);
    var anchor := if dt.anchor.Some? then dt.anchor else if dt.dd.Some? then dt.dd.value.anchor else None;
    if name == "" then None
    else Some(Item(name, Href(anchor), if dt.dd.Some? then Some(Trim(dt.dd.value.text)) else None))
  }

  /** The items one sibling contributes. */
  function SiblingItems(s: Sibling): seq<Item> {
    match s
    case ItemList(lis) => FilterMap(lis, EntryItem)
    case DescriptionList(dts) => FilterMap(dts, TermItem)
    case _ => []
  }

  /** The items of the siblings that come before the next heading. */
  function ItemsUntilHeading(sibs: seq<Sibling>): seq<Item> {
    if sibs == [] || sibs[0].Heading? then []
    else SiblingItems(sibs[0]) + ItemsUntilHeading(sibs[1..])
  }

  /** The section a heading gives: none for an empty title or when no item was found. */
  function SectionOf(h: HeadingMatch): Option<Section> {
    var title := Trim(h.text);
    if title == "" then None
    else
      var items := ItemsUntilHeading(h.following);
      if items == [] then None else Some(Section(title, items))
  }

  function SectionsOf(hs: seq<HeadingMatch>): seq<Section> {
    if hs == [] then []
    else
      var init := SectionsOf(hs[..|hs| - 1]);
      match SectionOf(hs[|hs| - 1])
      case Some(s) => init + [s]
      case None => init
  }

  // ---------------------------------------------------------------- the walk

  /** `extractSections($)`. */
  method ExtractSections(headings: seq<HeadingMatch>) returns (sections: seq<Section>)
    ensures sections == SectionsOf(headings)
  {
    sections := [];
    for i := 0 to |headings|
      invariant sections == SectionsOf(headings[..i])
    {
      assert headings[..i + 1][..i] == headings[..i];
      var title := Trim(headings[i].text);
      if title != "" {
        var items := CollectItems(headings[i].following);
        if |items| > 0 {
          sections := sections + [Section(title, items)];
        }
      }
    }
    assert headings[..|headings|] == headings;
  }

  /** The `while (sibling.length && !sibling.is('h2, h3'))` walk. */
  method CollectItems(following: seq<Sibling>) returns (items: seq<Item>)
    ensures items == ItemsUntilHeading(following)
  {
    items := [];
    var k := 0;
    while k < |following| && !following[k].Heading?
      invariant 0 <= k <= |following|
      invariant items + ItemsUntilHeading(following[k..]) == ItemsUntilHeading(following)
    {
      var sibling := following[k];
      ItemsUntilHeadingStep(following, k);
      ghost var before := items;
      if sibling.ItemList? {
        items := PushEntries(items, sibling.entries);
      }
      if sibling.DescriptionList? {
        items := PushTerms(items, sibling.terms);
      }
      assert items == before + SiblingItems(sibling);
      ghost var rest := ItemsUntilHeading(following[k + 1..]);
      AppendAssoc(before, SiblingItems(sibling), rest);
      k := k + 1;
    }
  }

  /** `sibling.find('li').each(...)`. */
  method PushEntries(items: seq<Item>, lis: seq<ListEntry>) returns (r: seq<Item>)
    ensures r == items + FilterMap(lis, EntryItem)
  {
    r := items;
    for j := 0 to |lis|
      invariant r == items + FilterMap(lis[..j], EntryItem)
    {
      FilterMapStep(lis, j, EntryItem);
      var li := lis[j];
      var name := if li.anchor.Some? then Trim(li.anchor.value.text) else Trim(li.text);
      var link := Href(li.anchor);
      if name != "" {
        var description := if li.desc.Some? then Some(Trim(li.desc.value)) else None;
        assert EntryItem(li) == Some(Item(name, link, description));
        AppendAssoc(items, FilterMap(lis[..j], EntryItem), [Item(name, link, description)]);
        r := r + [Item(name, link, description)];
      } else {
        assert EntryItem(li) == None;
      }
    }
    assert lis[..|lis|] == lis;
  }

  /** `sibling.find('dt').each(...)`. */
  method PushTerms(items: seq<Item>, dts: seq<Term>) returns (r: seq<Item>)
    ensures r == items + FilterMap(dts, TermItem)
  {
    r := items;
    for j := 0 to |dts|
      invariant r == items + FilterMap(dts[..j], TermItem)
    {
      FilterMapStep(dts, j, TermItem);
      var dt := dts[j];
      var name := Trim(dt.text);
      var anchor := if dt.anchor.Some? then dt.anchor else if dt.dd.Some? then dt.dd.value.anchor else None;
      var link := Href(anchor);
      var description := if dt.dd.Some? then Some(Trim(dt.dd.value.text)) else None;
      if name != "" {
        assert TermItem(dt) == Some(Item(name, link, description));
        AppendAssoc(items, FilterMap(dts[..j], TermItem), [Item(name, link, description)]);
        r := r + [Item(name, link, description)];
      } else {
        assert TermItem(dt) == None;
      }
    }
    assert dts[..|dts|] == dts;
  }

  lemma ItemsUntilHeadingStep(sibs: seq<Sibling>, k: nat)
    requires k < |sibs| && !sibs[k].Heading?
    ensures ItemsUntilHeading(sibs[k..]) == SiblingItems(sibs[k]) + ItemsUntilHeading(sibs[k + 1..])
  {
    assert sibs[k..][1..] == sibs[k + 1..];
  }

  // ---------------------------------------------------------------- properties

  /** The siblings before the first heading (all of them when there is none). */
  function BeforeHeading(sibs: seq<Sibling>): (r: seq<Sibling>)
    ensures r <= sibs
    ensures forall i :: 0 <= i < |r| ==> !r[i].Heading?
    ensures |r| < |sibs| ==> sibs[|r|].Heading?
  {
    if sibs == [] || sibs[0].Heading? then [] else [sibs[0]] + BeforeHeading(sibs[1..])
  }

  /** The items of a run of siblings, one after the other. */
  function AllItems(sibs: seq<Sibling>): seq<Item> {
    if sibs == [] then [] else AllItems(sibs[..|sibs| - 1]) + SiblingItems(sibs[|sibs| - 1])
  }

  lemma {:induction false} AllItemsCons(s: Sibling, sibs: seq<Sibling>)
    ensures AllItems([s] + sibs) == SiblingItems(s) + AllItems(sibs)
    decreases |sibs|
  {
    if sibs != [] {
      var init := sibs[..|sibs| - 1];
      assert ([s] + sibs)[..|[s] + sibs| - 1] == [s] + init;
      AllItemsCons(s, init);
      AppendAssoc(SiblingItems(s), AllItems(init), SiblingItems(sibs[|sibs| - 1]));
    }
  }

  /** The walk collects exactly the items of the siblings strictly between the heading
      and the next `h2`/`h3`: whatever follows that next heading is never looked at. */
  lemma {:induction false} ItemsBetweenHeadings(sibs: seq<Sibling>)
    ensures ItemsUntilHeading(sibs) == AllItems(BeforeHeading(sibs))
  {
    if sibs != [] && !sibs[0].Heading? {
      ItemsBetweenHeadings(sibs[1..]);
      AllItemsCons(sibs[0], BeforeHeading(sibs[1..]));
    }
  }

  /** Siblings after the next heading make no difference. */
  lemma ItemsStopAtHeading(pre: seq<Sibling>, t: string, post: seq<Sibling>)
    requires forall i :: 0 <= i < |pre| ==> !pre[i].Heading?
    ensures ItemsUntilHeading(pre + [Heading(t)] + post) == AllItems(pre)
  {
    var sibs := pre + [Heading(t)] + post;
    ItemsBetweenHeadings(sibs);
    BeforeNextHeading(pre, t, post);
  }

  lemma {:induction false} BeforeNextHeading(pre: seq<Sibling>, t: string, post: seq<Sibling>)
    requires forall i :: 0 <= i < |pre| ==> !pre[i].Heading?
    ensures BeforeHeading(pre + [Heading(t)] + post) == pre
  {
    if pre != [] {
      assert (pre + [Heading(t)] + post)[1..] == pre[1..] + [Heading(t)] + post;
      BeforeNextHeading(pre[1..], t, post);
    }
  }

  /** A heading directly followed by another heading gives no section, and neither does
      a heading whose trimmed text is empty. */
  lemma NoSectionWithoutItems(h: HeadingMatch)
    ensures (Trim(h.text) == "" || (h.following != [] && h.following[0].Heading?)) ==> SectionOf(h) == None
    ensures SectionOf(h).Some? ==>
      && SectionOf(h).value.title == Trim(h.text) && SectionOf(h).value.title != ""
      && SectionOf(h).value.items == AllItems(BeforeHeading(h.following)) && SectionOf(h).value.items != []
  {
    ItemsBetweenHeadings(h.following);
  }

  /** Every item a sibling contributes is named, and is the item one of its entries or
      terms gives. */
  lemma SiblingItemsFrom(sib: Sibling)
    ensures forall it :: it in SiblingItems(sib) ==> it.name != ""
    ensures sib.ItemList? ==> forall it :: it in SiblingItems(sib) ==>
      exists k :: 0 <= k < |sib.entries| && EntryItem(sib.entries[k]) == Some(it)
    ensures sib.DescriptionList? ==> forall it :: it in SiblingItems(sib) ==>
      exists k :: 0 <= k < |sib.terms| && TermItem(sib.terms[k]) == Some(it)
  {
    match sib
    case ItemList(lis) => FilterMapMembers(lis, EntryItem);
    case DescriptionList(dts) => FilterMapMembers(dts, TermItem);
    case _ =>
  }

  /** No item of a section has an empty name. */
  lemma {:induction false} ItemsNamed(sibs: seq<Sibling>)
    ensures forall it :: it in ItemsUntilHeading(sibs) ==> it.name != ""
  {
    if sibs != [] && !sibs[0].Heading? {
      ItemsNamed(sibs[1..]);
      SiblingItemsFrom(sibs[0]);
    }
  }

  /** The name rules of a list entry: the first anchor names it and gives the link;
      without an anchor the entry's own text names it and the link is empty. */
  lemma EntryItemRules(li: ListEntry, it: Item)
    requires EntryItem(li) == Some(it)
    ensures it.name != ""
    ensures li.anchor.Some? ==> it.name == Trim(li.anchor.value.text) && it.link == li.anchor.value.href
    ensures li.anchor.None? ==> it.name == Trim(li.text) && it.link == ""
    ensures it.description.Some? <==> li.desc.Some?
  {
  }

  /** The pairing rules of a term: the link comes from the `dt`'s anchor, else from the
      following `dd`'s; the description is the `dd` text and is absent without a `dd`. */
  lemma TermItemRules(dt: Term, it: Item)
    requires TermItem(dt) == Some(it)
    ensures it.name == Trim(dt.text) && it.name != ""
    ensures dt.anchor.Some? ==> it.link == dt.anchor.value.href
    ensures dt.anchor.None? && dt.dd.Some? ==> it.link == Href(dt.dd.value.anchor)
    ensures dt.anchor.None? && dt.dd.None? ==> it.link == ""
    ensures it.description.Some? <==> dt.dd.Some?
    ensures dt.dd.Some? ==> it.description == Some(Trim(dt.dd.value.text))
  {
  }

  /** The sections of consecutive runs of headings are those of each run, in order. */
  lemma {:induction false} SectionsAppend(a: seq<HeadingMatch>, b: seq<HeadingMatch>)
    ensures SectionsOf(a + b) == SectionsOf(a) + SectionsOf(b)
    decreases |b|
  {
    if b == [] {
      assert a + b == a;
    } else {
      var init := b[..|b| - 1];
      assert (a + b)[..|a + b| - 1] == a + init;
      assert (a + b)[|a + b| - 1] == b[|b| - 1];
      SectionsAppend(a, init);
    }
  }

  /** Every section has a non-empty title that is some heading's trimmed text, and at
      least one item; no item has an empty name. */
  lemma {:induction false} SectionsWellFormed(hs: seq<HeadingMatch>)
    ensures |SectionsOf(hs)| <= |hs|
    ensures forall s :: s in SectionsOf(hs) ==>
      s.title != "" && s.items != [] && exists k :: 0 <= k < |hs| && SectionOf(hs[k]) == Some(s)
    ensures forall s, it :: s in SectionsOf(hs) && it in s.items ==> it.name != ""
  {
    if hs != [] {
      var init := hs[..|hs| - 1];
      SectionsWellFormed(init);
      ItemsNamed(hs[|hs| - 1].following);
      forall s | s in SectionsOf(hs)
        ensures s.title != "" && s.items != [] && exists k :: 0 <= k < |hs| && SectionOf(hs[k]) == Some(s)
      {
        if s in SectionsOf(init) {
          var k :| 0 <= k < |init| && SectionOf(init[k]) == Some(s);
          assert hs[k] == init[k];
        } else {
          assert SectionOf(hs[|hs| - 1]) == Some(s);
        }
      }
    }
  }
}
