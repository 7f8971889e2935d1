/**
 * Scroll-driven navigation of the portfolio page (app/page.tsx, Portfolio):
 * the scroll handler that decides which section is active, the scroll target
 * of a navigation click, and the navigation buttons' labels and highlight.
 * Section positions are measured by the browser; here they are inputs.
 */
module SectionTracker {
  import opened Wrappers

  /** The probe sits this far below the top of the viewport. */
  const ProbeOffset: int := 200
  /** A navigation click scrolls so that the section top sits this far below
      the top of the viewport (the fixed header). */
  const HeaderOffset: int := 80
  const InitialSection: string := "home"

  /** The ids of the navigation buttons, in order; the page's sections carry
      the same ids. */
  const NavItems: seq<string> := ["home", "about", "experience", "projects", "contact"]

  /** A section element as measured: its id, offsetTop and offsetHeight. */
  datatype Section = Section(id: string, top: int, height: int)

  /** The half-open vertical extent [top, top + height) holds the probe. */
  predicate Contains(s: Section, probe: int) {
    s.top <= probe < s.top + s.height
  }

  /** The index of the last section in document order whose extent holds the
      probe. */
  function LastMatch(sections: seq<Section>, probe: int): (r: Option<nat>)
    ensures r.None? <==> forall j :: 0 <= j < |sections| ==> !Contains(sections[j], probe)
    ensures r.Some? ==> r.value < |sections| && Contains(sections[r.value], probe)
    ensures r.Some? ==> forall k :: r.value < k < |sections| ==> !Contains(sections[k], probe)
  {
    if |sections| == 0 then None
    else if Contains(sections[|sections| - 1], probe) then Some(|sections| - 1)
    else LastMatch(sections[..|sections| - 1], probe)
  }

  /** The active section after one scroll event: the last section holding
      scrollY + 200 wins; with no such section the previous value stays. */
  function ActiveAfterScroll(current: string, scrollY: int, sections: seq<Section>): string {
    match LastMatch(sections, scrollY + ProbeOffset)
    case Some(j) => sections[j].id
    case None => current
  }

  /** The active id is the previous one or the id of a section holding the
      probe, never anything else. */
  lemma ActiveIsKnown(current: string, scrollY: int, sections: seq<Section>)
    ensures var r := ActiveAfterScroll(current, scrollY, sections);
      || (r == current && forall j :: 0 <= j < |sections| ==> !Contains(sections[j], scrollY + ProbeOffset))
      || (exists j :: 0 <= j < |sections| && Contains(sections[j], scrollY + ProbeOffset) && r == sections[j].id)
  {
  }

  /** Two adjacent sections, home [0, 800) and about [800, 1400): at
      scrollY 700 the probe 900 is in about; at scrollY 0 the probe 200 is in
      home; at scrollY 1300 the probe is past both and about stays. */
  lemma HomeAboutScenario()
    ensures var ss := [Section("home", 0, 800), Section("about", 800, 600)];
      && ActiveAfterScroll(InitialSection, 700, ss) == "about"
      && ActiveAfterScroll("about", 0, ss) == "home"
      && ActiveAfterScroll("about", 1300, ss) == "about"
  {
  }

  /** A second scroll event at the same position with the same layout
      changes nothing. */
  lemma ScrollIdempotent(current: string, scrollY: int, sections: seq<Section>)
    ensures var once := ActiveAfterScroll(current, scrollY, sections);
      ActiveAfterScroll(once, scrollY, sections) == once
  {
  }

  /** The index of the first section with the given id, as
      document.getElementById finds it. */
  function FindById(sections: seq<Section>, id: string): (r: Option<nat>)
    ensures r.None? <==> forall k :: 0 <= k < |sections| ==> sections[k].id != id
    ensures r.Some? ==> r.value < |sections| && sections[r.value].id == id
    ensures r.Some? ==> forall k :: 0 <= k < r.value ==> sections[k].id != id
  {
    if |sections| == 0 then None
    else if sections[0].id == id then Some(0)
    else match FindById(sections[1..], id)
      case None => None
      case Some(j) => Some(j + 1)
  }

  /** Where a navigation click scrolls to: 80 pixels above the top of the
      section with that id, or nowhere when there is none. */
  function ScrollTarget(sections: seq<Section>, id: string): (r: Option<int>)
    ensures r.None? <==> forall k :: 0 <= k < |sections| ==> sections[k].id != id
    ensures r.Some? ==> exists k :: 0 <= k < |sections| && sections[k].id == id && r.value == sections[k].top - HeaderOffset
                                    && (forall j :: 0 <= j < k ==> sections[j].id != id)
  {
    match FindById(sections, id)
    case None => None
    case Some(j) => Some(sections[j].top - HeaderOffset)
  }

  /** Upper-casing of one character, as toUpperCase does for ASCII letters. */
  function UpperAscii(c: char): (u: char)
    ensures 'a' <= c <= 'z' ==> 'A' <= u <= 'Z' && u as int - c as int == 'A' as int - 'a' as int
    ensures !('a' <= c <= 'z') ==> u == c
  {
    if 'a' <= c <= 'z' then (c as int - 'a' as int + 'A' as int) as char else c
  }

  /** A navigation button's label: the id with its first letter capitalised. */
  function NavLabel(id: string): (r: string)
    ensures |r| == |id|
    ensures |id| > 0 ==> r[0] == UpperAscii(id[0]) && r[1..] == id[1..]
  {
    if |id| == 0 then "" else [UpperAscii(id[0])] + id[1..]
  }

  /** A navigation button is highlighted when its id is the active one. */
  function Highlighted(active: string, id: string): bool {
    active == id
  }

  /** The labels of the five navigation buttons. */
  lemma NavLabels()
    ensures NavLabel("home") == "Home" && NavLabel("about") == "About"
    ensures NavLabel("experience") == "Experience" && NavLabel("projects") == "Projects"
    ensures NavLabel("contact") == "Contact"
  {
  }

  /** With the navigation ids all different, at most one button is
      highlighted, and on first render it is Home. */
  lemma OneHighlight(active: string)
    ensures forall a, b :: 0 <= a < b < |NavItems| ==> !(Highlighted(active, NavItems[a]) && Highlighted(active, NavItems[b]))
    ensures forall a :: 0 <= a < |NavItems| ==> (Highlighted(InitialSection, NavItems[a]) <==> a == 0)
  {
  }

  /** The page's scroll state: the active section id. */
  class ScrollSpy {
    var activeSection: string

    constructor()
      ensures activeSection == InitialSection
    {
      activeSection := "home";
    }

    /** The scroll handler: every section holding the probe overwrites the
        active id in turn. */
    method HandleScroll(scrollY: int, sections: seq<Section>)
      modifies this
      ensures activeSection == ActiveAfterScroll(old(activeSection), scrollY, sections)
      ensures (forall j :: 0 <= j < |sections| ==> !Contains(sections[j], scrollY + ProbeOffset)) ==> activeSection == old(activeSection)
      ensures forall j :: 0 <= j < |sections| && Contains(sections[j], scrollY + ProbeOffset) ==>
                (exists k :: j <= k < |sections| && Contains(sections[k], scrollY + ProbeOffset) && activeSection == sections[k].id)
    {
      var scrollPosition := scrollY + 200;
      for i := 0 to |sections|
        invariant activeSection == ActiveAfterScroll(old(activeSection), scrollY, sections[..i])
      {
        var section := sections[i];
        if scrollPosition >= section.top && scrollPosition < section.top + section.height {
          activeSection := section.id;
        }
        assert sections[..i + 1][..i] == sections[..i];
      }
      assert sections[..|sections|] == sections;
    }
  }
}
