/** The tab slider over the course sections: six fixed tabs, the section
    each tab scrolls to, the active tab, the index of the tab scrolled into
    view, and the two arrow buttons whose disabled flags follow the scroll
    position. Scrolling itself is a browser effect; the scroll measurements
    are inputs. */
module CourseSlider {
  import opened Base
  import SectionKinds

  /** A tab: its id and the text on its button. */
  datatype Tab = Tab(id: string, text: string)

  /** The six tabs, in display order. The component takes no section data,
      so the list is the same on every page. */
  const Tabs: seq<Tab> := [
    Tab("instructor", "Course instructor"),
    Tab("layout", "How the course is laid out"),
    Tab("learn", "What you will learn by doing the course"),
    Tab("details", "Course details"),
    Tab("feature_explanations", "Course Exclusive Feature"),
    Tab("free_items", "Free items with this products")
  ]

  /** The section `type` each tab id scrolls to. */
  const TabToSection: map<string, string> := map[
    "instructor" := "instructors",
    "layout" := "features",
    "learn" := "pointers",
    "details" := "about",
    "feature_explanations" := "feature_explanations",
    "free_items" := "free_items"
  ]

  /** The six tab ids are distinct and each has a target. */
  lemma TabsAreMapped()
    ensures |Tabs| == 6
    ensures forall i, j :: 0 <= i < j < |Tabs| ==> Tabs[i].id != Tabs[j].id
    ensures forall i :: 0 <= i < |Tabs| ==> Tabs[i].id in TabToSection
  {
  }

  /** The map has no entry besides the tabs, its six targets are distinct,
      and each is a recognised section tag. */
  lemma TargetsAreDistinctTags()
    ensures forall a :: a in TabToSection ==> exists i :: 0 <= i < |Tabs| && Tabs[i].id == a
    ensures forall a, b :: a in TabToSection && b in TabToSection && a != b ==> TabToSection[a] != TabToSection[b]
    ensures forall a :: a in TabToSection ==> TabToSection[a] in SectionKinds.RecognisedTags
  {
    forall a | a in TabToSection ensures exists i :: 0 <= i < |Tabs| && Tabs[i].id == a {
      if a == "instructor" { assert Tabs[0].id == a; }
      else if a == "layout" { assert Tabs[1].id == a; }
      else if a == "learn" { assert Tabs[2].id == a; }
      else if a == "details" { assert Tabs[3].id == a; }
      else if a == "feature_explanations" { assert Tabs[4].id == a; }
      else { assert Tabs[5].id == a; }
    }
  }

  /** The slider's state. */
  datatype Slider = Slider(
    activeTab: string,
    currentIndex: int,
    viewIndex: int,
    leftDisabled: bool,
    rightDisabled: bool)

  /** No tab active, both indices at the first tab, left arrow disabled and
      right arrow enabled. */
  const Initial: Slider := Slider("", 0, 0, true, false)

  /** Both indices name a tab. */
  predicate Valid(s: Slider) {
    0 <= s.currentIndex < |Tabs| && 0 <= s.viewIndex < |Tabs|
  }

  /** `handleTabClick` on the tab at `index`: it becomes the active tab and
      both indices move to it; the page scrolls to the tab's section, whose
      type is returned. */
  function TabClick(s: Slider, index: nat): (r: (Slider, Option<string>))
    requires index < |Tabs|
    ensures r.0 == s.(activeTab := Tabs[index].id, currentIndex := index, viewIndex := index)
    ensures r.1 == Some(TabToSection[Tabs[index].id])
  {
    TabsAreMapped();
    var id := Tabs[index].id;
    (s.(activeTab := id, currentIndex := index, viewIndex := index),
     if id in TabToSection && TabToSection[id] != "" then Some(TabToSection[id]) else None)
  }

  /** After a click, exactly the clicked tab is shown as active. */
  lemma ClickActivatesOnlyClicked(s: Slider, index: nat, j: nat)
    requires index < |Tabs| && j < |Tabs|
    ensures TabClick(s, index).0.activeTab == Tabs[j].id <==> j == index
  {
    TabsAreMapped();
  }

  /** `goToLeft`: one tab back, only when not at the first tab and the left
      arrow is enabled. */
  function GoLeft(s: Slider): (r: Slider)
    ensures s.viewIndex > 0 && !s.leftDisabled ==> r == s.(viewIndex := s.viewIndex - 1)
    ensures !(s.viewIndex > 0 && !s.leftDisabled) ==> r == s
  {
    if s.viewIndex > 0 && !s.leftDisabled then s.(viewIndex := s.viewIndex - 1) else s
  }

  /** `goToRight`: one tab on, only when not at the last tab and the right
      arrow is enabled. */
  function GoRight(s: Slider): (r: Slider)
    ensures s.viewIndex < |Tabs| - 1 && !s.rightDisabled ==> r == s.(viewIndex := s.viewIndex + 1)
    ensures !(s.viewIndex < |Tabs| - 1 && !s.rightDisabled) ==> r == s
  {
    if s.viewIndex < |Tabs| - 1 && !s.rightDisabled then s.(viewIndex := s.viewIndex + 1) else s
  }

  /** The tab container's scroll measurements, in pixels. */
  datatype Scroll = Scroll(scrollLeft: int, scrollWidth: int, clientWidth: int)

  /** `checkScrollPosition`: with the container mounted, left is disabled at
      the start and right within one pixel of the end; without it nothing
      changes. */
  function CheckScroll(s: Slider, container: Option<Scroll>): (r: Slider)
    ensures container.Some? ==> (r.leftDisabled <==> container.value.scrollLeft <= 0)
    ensures container.Some? ==>
              (r.rightDisabled <==> container.value.scrollLeft >= container.value.scrollWidth - container.value.clientWidth - 1)
    ensures container.None? ==> r == s
    ensures r.activeTab == s.activeTab && r.currentIndex == s.currentIndex && r.viewIndex == s.viewIndex
  {
    match container
    case None => s
    case Some(c) =>
      var maxScrollLeft := c.scrollWidth - c.clientWidth;
      s.(leftDisabled := c.scrollLeft <= 0, rightDisabled := c.scrollLeft >= maxScrollLeft - 1)
  }

  /** What can happen to the slider. */
  datatype Event =
    | ClickTab(index: nat)
    | Left
    | Right
    | Measure(container: Option<Scroll>)

  /** The slider after one event; a click on a position that is not a tab
      cannot happen and changes nothing. */
  function Step(s: Slider, e: Event): Slider {
    match e
    case ClickTab(i) => if i < |Tabs| then TabClick(s, i).0 else s
    case Left => GoLeft(s)
    case Right => GoRight(s)
    case Measure(c) => CheckScroll(s, c)
  }

  /** The slider after a sequence of events, first to last. */
  function Run(s: Slider, es: seq<Event>): Slider
    decreases |es|
  {
    if es == [] then s else Run(Step(s, es[0]), es[1..])
  }

  /** Every event keeps both indices on a tab. */
  lemma StepKeepsValid(s: Slider, e: Event)
    requires Valid(s)
    ensures Valid(Step(s, e))
  {
  }

  /** Whatever happens, both indices stay in `[0, 5]`: from the initial
      state no sequence of clicks, arrow presses and scrolls moves them off
      the tabs. */
  lemma {:induction false} RunKeepsValid(s: Slider, es: seq<Event>)
    requires Valid(s)
    ensures Valid(Run(s, es))
    decreases |es|
  {
    if es != [] {
      StepKeepsValid(s, es[0]);
      RunKeepsValid(Step(s, es[0]), es[1..]);
    }
  }

  lemma InitialIsValid()
    ensures Valid(Initial) && Initial.leftDisabled && !Initial.rightDisabled && Initial.activeTab == ""
  {
  }
}
