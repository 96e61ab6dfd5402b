/** The pure part of the scroll-spy: which navigation links are tracked,
    where `find` lands, the random tilt of the sprout animation, and the
    four-rule policy that turns the page geometry into one section id. */
module ScrollPolicy {

  datatype Option<T> = None | Some(value: T)

  const About: string := "#about"
  const Publications: string := "#publications"
  /** `topIds`: the two sections that share the top-row focus toggle. */
  const TopIds: set<string> := {About, Publications}

  /** The other member of the top row, or "" for any other id. */
  function OtherTop(id: string): (o: string)
    ensures id in TopIds <==> o in TopIds
    ensures id in TopIds ==> o != id
  {
    if id == About then Publications else if id == Publications then About else ""
  }

  predicate StartsWithHash(s: string) {
    |s| > 0 && s[0] == '#'
  }

  predicate Tracks(href: string, present: set<string>) {
    StartsWithHash(href) && href in present
  }

  /** The `sectionLinks` map/filter: keep, in document order, the href of
      every navigation link that is a fragment naming a section present in
      the document (`present` is the set of selectors that resolve). A
      missing `href` attribute is passed as "". */
  function SectionLinks(hrefs: seq<string>, present: set<string>): (ids: seq<string>)
    ensures forall x :: x in ids <==> x in hrefs && Tracks(x, present)
    ensures |ids| <= |hrefs|
  {
    if hrefs == [] then []
    else (if Tracks(hrefs[0], present) then [hrefs[0]] else []) + SectionLinks(hrefs[1..], present)
  }

  /** The filter keeps document order: filtering a concatenation is the
      concatenation of the filtered parts. */
  lemma {:induction false} SectionLinksAppend(a: seq<string>, b: seq<string>, present: set<string>)
    ensures SectionLinks(a + b, present) == SectionLinks(a, present) + SectionLinks(b, present)
  {
    if a == [] {
      assert a + b == b;
    } else {
      assert (a + b)[1..] == a[1..] + b;
      SectionLinksAppend(a[1..], b, present);
    }
  }

  /** `sectionLinks.find(({ id }) => id === x)`: the first tracked link
      whose id is `x`. */
  function FirstIndex(ids: seq<string>, x: string): (r: Option<nat>)
    ensures r.None? <==> x !in ids
    ensures r.Some? ==> r.value < |ids| && ids[r.value] == x
    ensures r.Some? ==> forall j :: 0 <= j < r.value ==> ids[j] != x
  {
    if ids == [] then None
    else if ids[0] == x then Some(0)
    else match FirstIndex(ids[1..], x)
      case None => None
      case Some(k) => Some(k + 1)
  }

  /** The two `Math.random()` draws of `randomTilt`, each in [0, 1). */
  datatype Draw = Draw(sign: real, magnitude: real)

  predicate ValidDraw(d: Draw) {
    0.0 <= d.sign < 1.0 && 0.0 <= d.magnitude < 1.0
  }

  /** `randomTilt`: a tilt of 6 to 15 degrees, clockwise when the first
      draw exceeds one half and counter-clockwise otherwise. */
  function RandomTilt(d: Draw): (deg: real)
    ensures ValidDraw(d) ==> (6.0 <= deg < 15.0 || -15.0 < deg <= -6.0)
    ensures ValidDraw(d) ==> (deg > 0.0 <==> d.sign > 0.5)
  {
    var sign := if d.sign > 0.5 then 1.0 else -1.0;
    var magnitude := 6.0 + d.magnitude * 9.0;
    sign * magnitude
  }

  // ---- the scroll policy --------------------------------------------------

  const ScrollTopSlack: real := 6.0
  const TopRowBandFraction: real := 0.62
  const TopRowBandBottom: real := 120.0
  const BottomSlack: real := 2.0
  const ActivationLine: real := 220.0

  /** What `updateActiveFromScroll` reads from the window: `scrollY`,
      `innerHeight`, the top row's bounding rectangle, the document's
      `scrollHeight`, and the top edge of every tracked section, in the
      order of the tracked links. */
  datatype Geometry = Geometry(
    scrollY: real,
    innerHeight: real,
    topRowTop: real,
    topRowBottom: real,
    scrollHeight: real,
    sectionTops: seq<real>)

  predicate InTopRowBand(g: Geometry) {
    g.topRowTop < g.innerHeight * TopRowBandFraction && g.topRowBottom > TopRowBandBottom
  }

  function BottomGap(g: Geometry): real {
    g.scrollHeight - (g.scrollY + g.innerHeight)
  }

  /** The last section, in document order, whose top is at or above the
      line; the first section when none is. Scans from the end, unlike the
      forward loop of script.js (see ActivationScan). */
  function LastAtOrAbove(tops: seq<real>, line: real): (k: nat)
    requires |tops| > 0
    ensures k < |tops|
    ensures tops[k] <= line ==> forall j :: k < j < |tops| ==> tops[j] > line
    ensures tops[k] > line ==> k == 0 && forall j :: 0 <= j < |tops| ==> tops[j] > line
  {
    if tops[|tops| - 1] <= line then |tops| - 1
    else if |tops| == 1 then 0
    else LastAtOrAbove(tops[..|tops| - 1], line)
  }

  /** The four rules of `updateActiveFromScroll`, first match wins. */
  function ScrollChoice(ids: seq<string>, topRowChoice: string, hasTopRow: bool, g: Geometry): (x: string)
    requires |ids| > 0 && |g.sectionTops| == |ids|
    ensures x == About || x == topRowChoice || x in ids
  {
    if g.scrollY <= ScrollTopSlack then About
    else if hasTopRow && InTopRowBand(g) then topRowChoice
    else if BottomGap(g) <= BottomSlack then ids[|ids| - 1]
    else ids[LastAtOrAbove(g.sectionTops, ActivationLine)]
  }

  /** Rule 1 dominates: at the top of the page the landing section wins
      whatever the top row, the page bottom and the sections say. */
  lemma RuleOneDominates(ids: seq<string>, topRowChoice: string, hasTopRow: bool, g: Geometry, g': Geometry)
    requires |ids| > 0 && |g.sectionTops| == |ids| && |g'.sectionTops| == |ids|
    requires g.scrollY <= ScrollTopSlack && g'.scrollY == g.scrollY
    ensures ScrollChoice(ids, topRowChoice, hasTopRow, g) == About
    ensures ScrollChoice(ids, topRowChoice, hasTopRow, g) == ScrollChoice(ids, topRowChoice, hasTopRow, g')
  {
  }

  /** Past the top of the page, the top-row band answers with the last
      explicit top-row choice, whatever the bottom gap and the sections. */
  lemma TopRowBandGivesChoice(ids: seq<string>, topRowChoice: string, g: Geometry)
    requires |ids| > 0 && |g.sectionTops| == |ids|
    requires g.scrollY > ScrollTopSlack && InTopRowBand(g)
    ensures ScrollChoice(ids, topRowChoice, true, g) == topRowChoice
  {
  }

  /** When neither the top nor the top row applies, the answer is always a
      tracked section: the last one at the bottom of the page, otherwise
      the last one that crossed the activation line (or the first). */
  lemma ScrollChoiceBelowTopRow(ids: seq<string>, topRowChoice: string, hasTopRow: bool, g: Geometry)
    requires |ids| > 0 && |g.sectionTops| == |ids|
    requires g.scrollY > ScrollTopSlack && !(hasTopRow && InTopRowBand(g))
    ensures var x := ScrollChoice(ids, topRowChoice, hasTopRow, g);
      x in ids &&
      (BottomGap(g) <= BottomSlack ==> x == ids[|ids| - 1]) &&
      (BottomGap(g) > BottomSlack ==>
        exists k :: 0 <= k < |ids| && x == ids[k] &&
          (g.sectionTops[k] <= ActivationLine || k == 0) &&
          forall j :: k < j < |ids| ==> g.sectionTops[j] > ActivationLine)
  {
    var k := LastAtOrAbove(g.sectionTops, ActivationLine);
    if BottomGap(g) > BottomSlack {
      assert ScrollChoice(ids, topRowChoice, hasTopRow, g) == ids[k];
    }
  }

  /** The bottom-of-page rule only changes the answer when the last
      section has not reached the activation line: otherwise the scan of
      rule 4 would pick the last section too. */
  lemma BottomRuleAgreesWithScan(tops: seq<real>)
    requires |tops| > 0 && tops[|tops| - 1] <= ActivationLine
    ensures LastAtOrAbove(tops, ActivationLine) == |tops| - 1
  {
  }

  /** The forward `forEach` loop of rule 4: `current` starts at the first
      section and is overwritten by every section whose top is at or above
      the activation line. */
  method ActivationScan(ids: seq<string>, tops: seq<real>) returns (current: string)
    requires |ids| > 0 && |tops| == |ids|
    ensures current == ids[LastAtOrAbove(tops, ActivationLine)]
  {
    current := ids[0];
    var k := 0;
    while k < |ids|
      invariant 0 <= k <= |ids|
      invariant current == ids[if k == 0 then 0 else LastAtOrAbove(tops[..k], ActivationLine)]
    {
      assert tops[..k + 1][..k] == tops[..k];
      if tops[k] <= ActivationLine {
        current := ids[k];
      }
      k := k + 1;
    }
    assert tops[..|ids|] == tops;
  }
}
