/** The scroll-spy reconciler: the class flags it toggles on the tracked
    navigation links and their sections, the module-level `activeId` and
    `topRowChoice`, and the operations that rewrite them (scroll updates
    and the three kinds of click handler). */
module ScrollSpy {
  import opened ScrollPolicy

  /** `classList.toggle(name, on)` on one element, with the element's
      flag stored as membership of its id in `s`. */
  function Toggle(s: set<string>, id: string, on: bool): (r: set<string>)
    ensures id in r <==> on
    ensures r - {id} == s - {id}
  {
    if on then s + {id} else s - {id}
  }

  /** The focus flags after `setTopRowVisual(x)` then `setSectionVisual(x)`,
      where `tracked` are the ids of the tracked sections and `both` says
      whether both top-row sections exist. */
  lemma FocusAfterBoth(f0: set<string>, tracked: set<string>, both: bool, x: string)
    requires f0 <= tracked + (if both then TopIds else {})
    ensures var f1 := if both then (f0 - TopIds) + (TopIds * {x}) else f0;
      (f1 - tracked) + (tracked * {x}) == (tracked + (if both then TopIds else {})) * {x}
  {
  }

  /** The dim flags after the same two calls, for a non-empty `x`. */
  lemma DimAfterBoth(d0: set<string>, tracked: set<string>, both: bool, x: string)
    requires d0 <= tracked + (if both then TopIds else {})
    ensures var d1 := if both then (d0 - TopIds) + (if x in TopIds then {OtherTop(x)} else {}) else d0;
      (d1 - tracked) + (tracked - {x}) ==
        ((if both && x in TopIds then {OtherTop(x)} else {}) - tracked) + (tracked - {x})
  {
  }

  class Reconciler {
    /** The ids of `sectionLinks`, in the order of the navigation links. */
    const ids: seq<string>
    /** Whether `#about` and `#publications` exist in the document. */
    const hasAbout: bool
    const hasPublications: bool
    /** Whether the `.top-row` container exists. */
    const hasTopRow: bool

    /** Per tracked link: `selected-sprout`, `sprouting`, `--sprout-tilt`. */
    var selected: seq<bool>
    var sprouting: seq<bool>
    var tilt: seq<real>
    /** The ids of the sections carrying `is-focused` and `is-dimmed`;
        a section is found by its id, so one id is one element. */
    var focused: set<string>
    var dimmed: set<string>
    var activeId: string
    var topRowChoice: string

    function Tracked(): set<string>
      reads this
    {
      set x | x in ids
    }

    predicate TopRowPresent()
      reads this
    {
      hasAbout && hasPublications
    }

    /** The sections whose flags the reconciler ever touches. */
    function Managed(): set<string>
      reads this
    {
      Tracked() + (if TopRowPresent() then TopIds else {})
    }

    ghost predicate Valid()
      reads this
    {
      && |selected| == |ids| && |sprouting| == |ids| && |tilt| == |ids|
      && (forall k :: 0 <= k < |ids| ==> StartsWithHash(ids[k]))
      && topRowChoice in TopIds
      && (activeId == "" || activeId in ids)
      && focused <= Managed() && dimmed <= Managed()
      && focused * dimmed == {}
      // every selected link is a link to the active section
      && (forall k :: 0 <= k < |ids| && selected[k] ==> ids[k] == activeId)
      // only the link `find` returns for its id can be sprouting, and only while selected
      && (forall k :: 0 <= k < |ids| && sprouting[k] ==> selected[k] && FirstIndex(ids, ids[k]) == Some(k))
    }

    /** About and publications are never focused together. */
    ghost predicate TopRowExclusive()
      reads this
    {
      !(About in focused && Publications in focused)
    }

    /** The other top-row member, dimmed by `setTopRowVisual(x)`. */
    function TopDim(x: string): set<string>
      reads this
    {
      if TopRowPresent() && x in TopIds then {OtherTop(x)} else {}
    }

    /** The section flags once `setTopRowVisual(x)` and `setSectionVisual(x)`
        have both run: only `x` is focused, every other tracked section is
        dimmed, and an untracked top-row member is dimmed when its partner
        is `x`. */
    ghost predicate ShowsFocus(x: string)
      reads this
    {
      && focused == Managed() * {x}
      && dimmed == (TopDim(x) - Tracked()) + (Tracked() - {x})
    }

    /** The link flags once `setActiveLink(x, animate)` has gone past its
        early returns: the links to `x` are selected and no others, only the
        first of them sprouts (and only when animated), and `activeId`
        becomes `x` when some link tracks it. */
    ghost predicate LinksShow(x: string, animate: bool, d: Draw, tilt0: seq<real>, active0: string)
      reads this
    {
      && |selected| == |ids| && |sprouting| == |ids| && |tilt| == |ids| && |tilt0| == |ids|
      && (forall k :: 0 <= k < |ids| ==> selected[k] == (ids[k] == x))
      && (forall k :: 0 <= k < |ids| ==> sprouting[k] == (animate && FirstIndex(ids, x) == Some(k)))
      && (forall k :: 0 <= k < |ids| ==>
            tilt[k] == if animate && FirstIndex(ids, x) == Some(k) then RandomTilt(d) else tilt0[k])
      && activeId == (if x in ids then x else active0)
    }

    /** The state the script sets up before its first update (lines
        99-115): no flags set, no active id, the top-row choice on about. */
    constructor (hrefs: seq<string>, present: set<string>, hasTopRow: bool)
      ensures Valid() && TopRowExclusive()
      ensures ids == SectionLinks(hrefs, present) && this.hasTopRow == hasTopRow
      ensures hasAbout == (About in present) && hasPublications == (Publications in present)
      ensures activeId == "" && topRowChoice == About && focused == {} && dimmed == {}
      ensures forall k :: 0 <= k < |ids| ==> !selected[k] && !sprouting[k] && tilt[k] == 0.0
    {
      var tracked := SectionLinks(hrefs, present);
      ids := tracked;
      hasAbout := About in present;
      hasPublications := Publications in present;
      this.hasTopRow := hasTopRow;
      selected := seq(|tracked|, _ => false);
      sprouting := seq(|tracked|, _ => false);
      tilt := seq(|tracked|, _ => 0.0);
      focused := {};
      dimmed := {};
      activeId := "";
      topRowChoice := About;
      assert forall k :: 0 <= k < |tracked| ==> tracked[k] in tracked;
    }

    /** `setActiveLink(targetId, animate)`. */
    method SetActiveLink(target: string, animate: bool, d: Draw)
      requires Valid()
      modifies this
      ensures Valid()
      ensures focused == old(focused) && dimmed == old(dimmed) && topRowChoice == old(topRowChoice)
      ensures target == "" || (target == old(activeId) && !animate) ==>
        selected == old(selected) && sprouting == old(sprouting) && tilt == old(tilt) && activeId == old(activeId)
      ensures target != "" && (target != old(activeId) || animate) ==>
        LinksShow(target, animate, d, old(tilt), old(activeId))
    {
      if target == "" {
        return;
      }
      if target == activeId && !animate {
        return;
      }
      var k := 0;
      while k < |ids|
        invariant 0 <= k <= |ids|
        invariant |selected| == |ids| && |sprouting| == |ids|
        invariant forall j :: 0 <= j < k ==> selected[j] == (ids[j] == target)
        invariant forall j :: k <= j < |ids| ==> selected[j] == old(selected)[j]
        invariant forall j :: 0 <= j < k ==> sprouting[j] == (ids[j] == target && old(sprouting)[j])
        invariant forall j :: k <= j < |ids| ==> sprouting[j] == old(sprouting)[j]
        invariant tilt == old(tilt) && activeId == old(activeId) && topRowChoice == old(topRowChoice)
        invariant focused == old(focused) && dimmed == old(dimmed)
      {
        var isActive := ids[k] == target;
        selected := selected[k := isActive];
        if !isActive {
          sprouting := sprouting[k := false];
        }
        k := k + 1;
      }
      var found := FirstIndex(ids, target);
      if found.None? {
        return;
      }
      var t := found.value;
      if animate {
        tilt := tilt[t := RandomTilt(d)];
        // removed and re-added after a forced reflow, which restarts the
        // CSS animation; the flag ends up set
        sprouting := sprouting[t := true];
      }
      activeId := target;
    }

    /** The 760 ms timer `setActiveLink` starts: link `k` stops sprouting. */
    method SproutTimeout(k: nat)
      requires Valid() && k < |ids|
      modifies this
      ensures Valid()
      ensures sprouting == old(sprouting)[k := false]
      ensures selected == old(selected) && tilt == old(tilt) && activeId == old(activeId)
      ensures focused == old(focused) && dimmed == old(dimmed) && topRowChoice == old(topRowChoice)
    {
      sprouting := sprouting[k := false];
    }

    /** `setTopRowVisual(focusedId)`. */
    method SetTopRowVisual(f: string)
      requires Valid()
      modifies this
      ensures Valid()
      ensures selected == old(selected) && sprouting == old(sprouting) && tilt == old(tilt)
      ensures activeId == old(activeId) && topRowChoice == old(topRowChoice)
      ensures !TopRowPresent() ==> unchanged(this)
      ensures TopRowPresent() ==>
        && focused == (old(focused) - TopIds) + (TopIds * {f})
        && dimmed == (old(dimmed) - TopIds) + (if f in TopIds then {OtherTop(f)} else {})
    {
      if !(hasAbout && hasPublications) {
        return;
      }
      var focusAbout := f == About;
      var focusPublications := f == Publications;
      focused := Toggle(focused, About, focusAbout);
      dimmed := Toggle(dimmed, About, focusPublications);
      focused := Toggle(focused, Publications, focusPublications);
      dimmed := Toggle(dimmed, Publications, focusAbout);
    }

    function TrackedUpTo(k: nat): set<string>
      requires k <= |ids|
      reads this
    {
      set x | x in ids[..k]
    }

    /** `setSectionVisual(focusedId)`. */
    method SetSectionVisual(f: string)
      requires Valid()
      modifies this
      ensures Valid()
      ensures selected == old(selected) && sprouting == old(sprouting) && tilt == old(tilt)
      ensures activeId == old(activeId) && topRowChoice == old(topRowChoice)
      ensures focused == (old(focused) - Tracked()) + (Tracked() * {f})
      ensures dimmed == (old(dimmed) - Tracked()) + (if f == "" then {} else Tracked() - {f})
    {
      var k := 0;
      while k < |ids|
        invariant 0 <= k <= |ids|
        invariant focused == (old(focused) - TrackedUpTo(k)) + (TrackedUpTo(k) * {f})
        invariant dimmed == (old(dimmed) - TrackedUpTo(k)) + (if f == "" then {} else TrackedUpTo(k) - {f})
        invariant selected == old(selected) && sprouting == old(sprouting) && tilt == old(tilt)
        invariant activeId == old(activeId) && topRowChoice == old(topRowChoice)
      {
        assert ids[..k + 1] == ids[..k] + [ids[k]];
        assert TrackedUpTo(k + 1) == TrackedUpTo(k) + {ids[k]};
        var isFocused := ids[k] == f;
        focused := Toggle(focused, ids[k], isFocused);
        dimmed := Toggle(dimmed, ids[k], f != "" && !isFocused);
        k := k + 1;
      }
      assert ids[..|ids|] == ids;
    }

    /** `updateActiveFromScroll`, given the window's geometry. */
    method UpdateActiveFromScroll(g: Geometry, d: Draw)
      requires Valid() && TopRowExclusive()
      requires |g.sectionTops| == |ids|
      modifies this
      ensures Valid() && TopRowExclusive()
      ensures topRowChoice == old(topRowChoice)
      ensures |ids| == 0 ==> unchanged(this)
      ensures |ids| > 0 ==>
        var x := ScrollChoice(ids, old(topRowChoice), hasTopRow, g);
        && ShowsFocus(x)
        && (x == old(activeId) ==>
              selected == old(selected) && sprouting == old(sprouting) && tilt == old(tilt) && activeId == old(activeId))
        && (x != old(activeId) ==> LinksShow(x, true, d, old(tilt), old(activeId)))
    {
      if |ids| == 0 {
        return;
      }
      var x;
      if g.scrollY <= ScrollTopSlack {
        x := About;
      } else if hasTopRow && InTopRowBand(g) {
        x := topRowChoice;
      } else if BottomGap(g) <= BottomSlack {
        x := ids[|ids| - 1];
      } else {
        x := ActivationScan(ids, g.sectionTops);
      }
      assert x != "" by {
        if x in ids {
          var k :| 0 <= k < |ids| && ids[k] == x;
          assert StartsWithHash(ids[k]);
        }
      }
      SetActiveLink(x, x != activeId, d);
      FocusAfterBoth(focused, Tracked(), TopRowPresent(), x);
      DimAfterBoth(dimmed, Tracked(), TopRowPresent(), x);
      SetTopRowVisual(x);
      SetSectionVisual(x);
    }

    /** The click listener of a navigation link whose `href` is `href`
        ("" when it has none); every navigation link has one, tracked or
        not. */
    method NavLinkClick(href: string, d: Draw)
      requires Valid() && TopRowExclusive()
      modifies this
      ensures Valid() && TopRowExclusive()
      ensures topRowChoice == (if href in TopIds then href else old(topRowChoice))
      ensures href in TopIds ==> ShowsFocus(href)
      ensures href !in TopIds ==>
        && focused == (old(focused) - Tracked()) + (Tracked() * {href})
        && dimmed == (old(dimmed) - Tracked()) + (if href == "" then {} else Tracked() - {href})
      ensures href == "" ==>
        selected == old(selected) && sprouting == old(sprouting) && tilt == old(tilt) && activeId == old(activeId)
      ensures href != "" ==> LinksShow(href, true, d, old(tilt), old(activeId))
    {
      if href in TopIds {
        FocusAfterBoth(focused, Tracked(), TopRowPresent(), href);
        DimAfterBoth(dimmed, Tracked(), TopRowPresent(), href);
        topRowChoice := href;
        SetTopRowVisual(topRowChoice);
      }
      SetSectionVisual(href);
      SetActiveLink(href, true, d);
    }

    /** The click listener of tracked section `k`: it acts, and cancels the
        default action, only when the section is dimmed. */
    method SectionClick(k: nat, d: Draw) returns (prevented: bool)
      requires Valid() && TopRowExclusive() && k < |ids|
      modifies this
      ensures Valid() && TopRowExclusive()
      ensures prevented == (ids[k] in old(dimmed))
      ensures !prevented ==> unchanged(this)
      ensures prevented ==> ids[k] in focused && ids[k] !in dimmed && activeId == ids[k]
      ensures prevented ==> topRowChoice == (if ids[k] in TopIds then ids[k] else old(topRowChoice))
      ensures prevented && ids[k] in TopIds ==> ShowsFocus(ids[k])
      ensures prevented && ids[k] !in TopIds ==>
        && focused == (old(focused) - Tracked()) + (Tracked() * {ids[k]})
        && dimmed == (old(dimmed) - Tracked()) + (Tracked() - {ids[k]})
      ensures prevented ==> LinksShow(ids[k], true, d, old(tilt), old(activeId))
    {
      var id := ids[k];
      if id !in dimmed {
        return false;
      }
      prevented := true;
      assert StartsWithHash(ids[k]);
      if id in TopIds {
        FocusAfterBoth(focused, Tracked(), TopRowPresent(), id);
        DimAfterBoth(dimmed, Tracked(), TopRowPresent(), id);
        topRowChoice := id;
        SetTopRowVisual(topRowChoice);
      }
      SetSectionVisual(id);
      SetActiveLink(id, true, d);
    }

    /** The unconditional click listener `bindTopRowPanelSelection` puts on
        the about and publications sections that exist. */
    method PanelClick(id: string, d: Draw)
      requires Valid() && TopRowExclusive()
      requires id in TopIds && (id == About ==> hasAbout) && (id == Publications ==> hasPublications)
      modifies this
      ensures Valid() && TopRowExclusive()
      ensures topRowChoice == id
      ensures ShowsFocus(id)
      ensures LinksShow(id, true, d, old(tilt), old(activeId))
    {
      FocusAfterBoth(focused, Tracked(), TopRowPresent(), id);
      DimAfterBoth(dimmed, Tracked(), TopRowPresent(), id);
      topRowChoice := id;
      SetTopRowVisual(topRowChoice);
      SetSectionVisual(topRowChoice);
      SetActiveLink(id, true, d);
    }

    /** The two calls that end the script: `setTopRowVisual(topRowChoice)`
        and a first `updateActiveFromScroll()`. */
    method Start(g: Geometry, d: Draw)
      requires Valid() && TopRowExclusive()
      requires |g.sectionTops| == |ids|
      modifies this
      ensures Valid() && TopRowExclusive()
      ensures topRowChoice == old(topRowChoice)
      ensures |ids| == 0 && TopRowPresent() ==> ShowsFocus(old(topRowChoice))
      ensures |ids| == 0 && !TopRowPresent() ==> unchanged(this)
      ensures |ids| > 0 ==>
        var x := ScrollChoice(ids, old(topRowChoice), hasTopRow, g);
        && ShowsFocus(x)
        && (x == old(activeId) ==>
              selected == old(selected) && sprouting == old(sprouting) && tilt == old(tilt) && activeId == old(activeId))
        && (x != old(activeId) ==> LinksShow(x, true, d, old(tilt), old(activeId)))
    {
      FocusAfterBoth(focused, Tracked(), TopRowPresent(), topRowChoice);
      DimAfterBoth(dimmed, Tracked(), TopRowPresent(), topRowChoice);
      SetTopRowVisual(topRowChoice);
      UpdateActiveFromScroll(g, d);
    }
  }

  /** At most one link sprouts at a time. */
  lemma AtMostOneSprouting(r: Reconciler, i: nat, j: nat)
    requires r.Valid() && i < |r.ids| && j < |r.ids|
    requires r.sprouting[i] && r.sprouting[j]
    ensures i == j
  {
  }

  /** What showing `x` means for the sections: exactly the managed section
      `x` is focused, every other tracked section is dimmed, `x` itself is
      not, no section is both, and focusing one top-row member dims the
      other. */
  lemma ShowsFocusMeaning(r: Reconciler, x: string)
    requires r.Valid() && x != "" && r.ShowsFocus(x)
    ensures forall s :: s in r.Managed() ==> (s in r.focused <==> s == x)
    ensures forall s :: s in r.Tracked() && s != x ==> s in r.dimmed
    ensures x !in r.dimmed
    ensures r.focused * r.dimmed == {}
    ensures r.TopRowExclusive()
    ensures r.TopRowPresent() && x in TopIds ==> OtherTop(x) in r.dimmed && OtherTop(x) !in r.focused
  {
  }
}
