# Leaf field and scroll-spy: a Dafny model

This project models the script layer of a static portfolio page and proves
properties of it. The layer has two scripts.

- `script.js` holds:
  - the brand typing effect, which reveals the brand label one character
    per timer tick;
  - the single-leaf tilt animator, which eases a few decorative leaves
    towards a pointer-derived target;
  - the scroll-spy reconciler, which keeps the navigation links and the
    page sections in step with the scroll position and with clicks.
- `publications/publication-motion.js` holds the pointer-reactive leaf
  field: a grid builder that tiles the viewport with leaf cells, per-cell
  targets computed from the pointer's distance and angle, per-frame
  easing, and a tone interpolator that colours each leaf.

Modules and files:

| file | module | what it holds |
|---|---|---|
| `numeric.dfy` | `Numeric` | `clamp`, `lerp`, `Math.ceil` and `Math.round` on exact reals |
| `scroll_policy.dfy` | `ScrollPolicy` | the tracked-link filter, `find`, the random sprout tilt, the four scroll rules |
| `scroll_spy.dfy` | `ScrollSpy` | class `Reconciler`: the flags on links and sections, `activeId`, `topRowChoice` and every operation that rewrites them |
| `brand_typing.dfy` | `BrandTyping` | class `Typist`: the typing counter and its timers |
| `leaf_tilt.dfy` | `LeafTilt` | classes `Leaf` and `Animator`: the single-leaf tilt |
| `leaf_math.dfy` | `LeafMath` | the tone interpolator, grid geometry, per-cell targets and easing factors |
| `leaf_field.dfy` | `LeafField` | classes `Cell` and `Field`: `buildGrid` and `update` |

The model makes several representation choices.

- A section's `is-focused` and `is-dimmed` flags are stored as membership
  of its id in the sets `focused` and `dimmed`. Sections are looked up by
  id, so one id is one element.
- A link's `selected-sprout` and `sprouting` flags and its
  `--sprout-tilt` are per tracked link, in `seq`s. Several links may share
  one href.
- Every `Math.random()` value is passed in as a parameter. These are the
  `Draw` of the sprout tilt and the function `rand` whose `j`-th value is
  the `j`-th draw of `buildGrid`.
- Geometry read from the DOM is passed in: the scroll position, the
  viewport height, the top-row rectangle, the section tops and the leaf
  rectangles.
- Each cell's distance to the pointer, its angle to the pointer and its
  two idle sine values are passed in as a `Pointing`.
- The brand's text is a sequence of UTF-16 code units, as JavaScript's
  `length` and `slice` count it, so a name with a character outside the
  Basic Multilingual Plane takes two ticks for that character.

## Model

| member | source | states |
|---|---|---|
| Numeric.Clamp | publications/publication-motion.js:10 | the result lies in `[lo, hi]`; it is `v` inside the interval, `lo` below it and `hi` above it |
| Numeric.Lerp | publications/publication-motion.js:9 | factor 0 keeps `a` and factor 1 gives `b`; for a factor in `[0, 1]` the result lies between `a` and `b` and is no farther from `b` than `a` was (no overshoot) |
| Numeric.LerpStaysWithin | publications/publication-motion.js:92-95 | easing from a value in an interval towards a target in the same interval stays in the interval |
| Numeric.Ceil | publications/publication-motion.js:47-48 | `Math.ceil`: the least integer not below `x` |
| Numeric.Round | publications/publication-motion.js:15-17 | `Math.round`: the integer within one half of `x`, halves going up |
| LeafMath.Channel | publications/publication-motion.js:15-17 | one rounded channel: the light value at 0, the dark value at 1, and between the two for `t` in `[0, 1]` |
| LeafMath.MixTone | publications/publication-motion.js:12-19 | `mixTone(0)` is (184,198,174) and `mixTone(1)` is (132,155,116); for `t` in `[0, 1]` every channel lies between its dark and light value |
| LeafMath.ChannelDarkens | publications/publication-motion.js:14-17 | a channel never gets lighter as `t` grows |
| LeafMath.MixToneDarkens | publications/publication-motion.js:14-19 | a larger tone never gives a lighter channel, for all three channels |
| LeafMath.Spacing | publications/publication-motion.js:46 | the spacing is 42 exactly when the width is below 760, and 48 otherwise |
| LeafMath.Span | publications/publication-motion.js:47-48 | `ceil(extent / s) + 2`: at least 2 for a non-negative extent; `n - 2` spacings cover the extent and `n - 3` do not |
| LeafMath.CeilCovers | publications/publication-motion.js:47-48 | helper for `Span`: a ceiling of `extent / s`, scaled back by `s`, reaches the extent |
| LeafMath.CeilIsTight | publications/publication-motion.js:47-48 | helper for `Span`: one spacing fewer than that ceiling falls short of the extent |
| LeafMath.CellCountOfViewport | publications/publication-motion.js:46-53 | for a real viewport there are at least 2 columns and 2 rows, the cell count is `cols * rows`, and the grid covers the viewport with one spare cell per side |
| LeafMath.Viewport1024x768 | publications/publication-motion.js:46-53 | a 1024 by 768 viewport has spacing 48, 24 columns and 18 rows: 432 cells |
| LeafMath.BrickLayout | publications/publication-motion.js:49-55 | columns and rows are one spacing apart; odd rows sit a quarter spacing right of even rows; the first cell is half a spacing up and left of the origin |
| LeafMath.RowMajor | publications/publication-motion.js:52-58 | the cell pushed `row * cols + col`-th is at row `k / cols` and column `k % cols` |
| LeafMath.DivModUnique | publications/publication-motion.js:52-53 | helper for `RowMajor`: a quotient and remainder in range are the Euclidean ones |
| LeafMath.BaseRotation | publications/publication-motion.js:62 | for a draw in `[0, 1)` the base rotation is in `[17, 19)` |
| LeafMath.InitialOpacity | publications/publication-motion.js:65 | for a draw in `[0, 1)` the opacity starts in `[0.22, 0.26)` |
| LeafMath.Influence | publications/publication-motion.js:80 | the influence is in `[0, 1]`: 1 at distance 0, 0 at or beyond the 240 radius, `1 - dist / 240` inside it |
| LeafMath.Falloff | publications/publication-motion.js:81 | the falloff lies in `[0, influence]`: 1 at distance 0 and 0 beyond the radius |
| LeafMath.PointerTilt | publications/publication-motion.js:86 | the pointer tilt is in `[-2, 2]`, and 0 when the falloff is 0 |
| LeafMath.IdleAmp | publications/publication-motion.js:74 | the idle amplitude is in `[0, 0.9]` and is 0 exactly under reduced motion |
| LeafMath.IdleWave | publications/publication-motion.js:87-88 | for a sine value in `[-1, 1]` the idle oscillation is in `[-0.9, 0.9]`; it is 0 when the amplitude is 0 |
| LeafMath.SignedFraction | publications/publication-motion.js:87-88 | helper for `IdleWave`: a value in `[-1, 1]` times an amount in `[0, bound]` lies in `[-bound, bound]` |
| LeafMath.CellTargets | publications/publication-motion.js:86-90 | opacity in `[0.2, 0.44]`, tone in `[0, 0.92]`, rotation within 2.072 of the base and scale in `[0.9546, 1.2254]`; with no idle motion, rotation within 2 of the base and scale in `[0.96, 1.22]` |
| LeafMath.PointerOnCell | publications/publication-motion.js:80-90 | with the pointer on the cell and no idle motion: scale 1.22, opacity 0.44, tone 0.92, and the tilt is the unscaled pointer tilt |
| LeafMath.PointerOutOfReach | publications/publication-motion.js:80-90 | beyond the radius, with no idle motion, the targets are the resting ones: the base rotation, scale 0.96, opacity 0.2, tone 0 |
| LeafMath.EasingFactors | publications/publication-motion.js:92-95 | every easing factor is in `(0, 1]`, and rotation and scale share one |
| LeafMath.ReducedMotionIsSnappier | publications/publication-motion.js:92-95 | every easing factor is larger under reduced motion (0.16, 0.16, 0.18, 0.2 against 0.11, 0.11, 0.12, 0.14) |
| LeafField.Cell.constructor | publications/publication-motion.js:58-67 | a new cell has its position, a base rotation and an opacity from its two draws, rotation 0, scale 1 and tone 0, within the cell invariant |
| LeafField.Cell.Ease | publications/publication-motion.js:77-95 | each current value is eased towards its target by its factor, and the cell stays within its ranges |
| LeafField.Field.BuildGrid | publications/publication-motion.js:42-70 | the list is replaced by exactly `cols * rows` fresh, distinct cells; cell `k` is at row `k / cols`, column `k % cols`, and takes draws `2k` and `2k + 1`; the count depends only on the viewport |
| LeafField.Field.Update | publications/publication-motion.js:72-102 | every cell's four values are eased towards that cell's targets, and every cell stays within its ranges |
| LeafTilt.TiltTarget | script.js:77-83 | the target rotation lies within 15 degrees of the base; both translations lie in `[-10, 10]`; a pointer on the anchor gives the base rotation and no translation |
| LeafTilt.Leaf.RecalcAnchor | script.js:62-64 | the anchor becomes the centre of the leaf's box; the eased values are untouched |
| LeafTilt.Leaf.Step | script.js:77-88 | rotation and translation are eased by 0.05 towards the target, and stay within the target ranges |
| LeafTilt.Animator.Create | script.js:47-57 | the animator exists exactly when there are leaves and reduced motion is off; each leaf starts at its base rotation with no translation |
| LeafTilt.Animator.RecalcAnchors | script.js:60-66 | every leaf's anchor is the centre of its box, and no eased value changes |
| LeafTilt.Animator.Animate | script.js:75-91 | every leaf takes one eased step towards its own target, and all leaves stay in range |
| BrandTyping.Revealed | script.js:36 | `fullName.slice(0, i)`: a prefix of length `min(i, length)`, the whole name once `i` reaches the length |
| BrandTyping.RevealedStep | script.js:34-37 | each tick reveals exactly the next UTF-16 code unit until the name is complete, and nothing more after that |
| BrandTyping.Typist.constructor | script.js:28-33 | the effect runs only with a brand and without reduced motion; then it starts empty, typing, with a tick pending; otherwise the full text shows and no timer is pending |
| BrandTyping.Typist.Tick | script.js:34-42 | the counter grows by one and the text is the counter's prefix, one code unit longer; another tick is due exactly while the counter is below the length, the settle timer otherwise |
| BrandTyping.Typist.ClearTyping | script.js:40 | the indicator is cleared with the full name shown, and no timer is left |
| ScrollPolicy.SectionLinks | script.js:99-108 | an href is kept exactly when it starts with `#` and names a present section; no more ids than links |
| ScrollPolicy.SectionLinksAppend | script.js:100-108 | the filter keeps document order: a concatenation is filtered part by part |
| ScrollPolicy.FirstIndex | script.js:135 | `find`: nothing exactly when no tracked link has the id, otherwise the first link that does |
| ScrollPolicy.RandomTilt | script.js:117-121 | for draws in `[0, 1)` the tilt has a magnitude in `[6, 15)` and is positive exactly when the first draw exceeds one half |
| ScrollPolicy.LastAtOrAbove | script.js:200-208 | the last section whose top is at or above the line; the first section when none is |
| ScrollPolicy.ScrollChoice | script.js:169-208 | the chosen id is about, the top-row choice, or a tracked id |
| ScrollPolicy.RuleOneDominates | script.js:172-177 | at scroll offset 6 or less the choice is about, whatever the top row, the bottom gap and the section tops |
| ScrollPolicy.TopRowBandGivesChoice | script.js:179-188 | past the top, the top-row band gives the last top-row choice, whatever the bottom gap and the sections |
| ScrollPolicy.ScrollChoiceBelowTopRow | script.js:190-208 | otherwise the choice is tracked: the last section at the page bottom, else the last section at or above the 220 line, or the first |
| ScrollPolicy.BottomRuleAgreesWithScan | script.js:190-208 | when the last section has crossed the activation line, the scan also picks it |
| ScrollPolicy.ActivationScan | script.js:200-208 | the forward `forEach` of rule 4 ends on the section that `LastAtOrAbove` names |
| ScrollSpy.Toggle | script.js:129 | `classList.toggle(name, on)`: the flag is set exactly when `on`, and no other element changes |
| ScrollSpy.Reconciler.constructor | script.js:99-116 | the tracked ids are the filtered hrefs; no flags are set, no id is active, and the top-row choice is about |
| ScrollSpy.Reconciler.SetActiveLink | script.js:123-147 | nothing changes for an empty target, nor for the active target without animation; otherwise exactly the links to the target are selected, only the first of them sprouts (with a new tilt) when animated, and `activeId` moves only when some link tracks the target |
| ScrollSpy.Reconciler.SproutTimeout | script.js:143 | the 760 ms timer stops that one link sprouting and changes nothing else |
| ScrollSpy.Reconciler.SetTopRowVisual | script.js:149-159 | nothing changes unless both top-row sections exist; then about or publications is focused, the other is dimmed, and any other id clears both |
| ScrollSpy.Reconciler.SetSectionVisual | script.js:161-167 | exactly the tracked section `f` is focused; every other tracked section is dimmed exactly when `f` is non-empty |
| ScrollSpy.Reconciler.UpdateActiveFromScroll | script.js:169-213 | with no tracked links nothing changes; otherwise the sections show the id `ScrollChoice` picks; the links animate only when that id differs from `activeId`; `topRowChoice` never changes |
| ScrollSpy.Reconciler.NavLinkClick | script.js:215-225 | the choice moves only for about or publications; the sections show the target, and the links always animate to it |
| ScrollSpy.Reconciler.SectionClick | script.js:227-240 | the click is cancelled exactly when the section is dimmed, and otherwise nothing changes; after a cancelled click the section is focused, undimmed and active |
| ScrollSpy.Reconciler.PanelClick | script.js:242-253 | a click on the about or publications panel makes it the top-row choice, focuses it and animates its link |
| ScrollSpy.Reconciler.Start | script.js:267-268 | after the first top-row visual and the first scroll update, the page shows the scroll choice (the top-row visual alone when no link is tracked), and the top-row choice is unchanged |
| ScrollSpy.AtMostOneSprouting | script.js:135-143 | at most one link sprouts at a time |
| ScrollSpy.ShowsFocusMeaning | script.js:149-167 | after both visuals for `x`, exactly `x` is focused among the managed sections, every other tracked section is dimmed, no section is both, and about and publications are never both focused |

## Left out

- The date stamp, the `IntersectionObserver` reveal and the SVG node
  construction of each leaf cell: these are DOM plumbing with no logic of
  their own.
- The style output: the `transform`, `opacity`, `color`, `left` and
  `top` strings and their `toFixed` formatting. The colour is
  `MixTone(currentTone)`, and `--sprout-tilt` is kept as a number of
  degrees.
- `requestAnimationFrame`, the `setTimeout` delays, the forced reflow
  that restarts the sprout animation, and the `ticking` flag that coalesces
  scroll updates into one per frame. These are event-loop scheduling.
  Timers are methods the caller invokes when they fire.
- `Math.hypot`, `Math.atan2` and `Math.sin`: the distance, the angle and
  the two idle sine values are inputs. The model does not relate them to
  the cell position, the pointer or the time.
- The pointer and resize listeners, which only overwrite the shared
  pointer coordinates or re-run `buildGrid` and `recalcAnchors`.
- Floating point: all numbers are exact reals, so IEEE-754 rounding in
  `lerp`, the divisions and the grid positions is not modelled.
- `document.querySelector(href)` throwing on an href that is not a valid
  selector, such as `"#"`. The model treats such an href as naming a
  missing section.
- The initial HTML: no section or link is assumed to carry a flag before
  the script runs.
- The order in which several click listeners on one section run. The dimmed
  listener and the top-row panel listener are modelled separately.
- LeafField.Field.BuildGrid: requires a non-negative viewport, which a
  browser window always has.
- LeafField.Cell.Ease: the rotation invariant is the hull `[0, base +
  2.072]` of the start value and the targets, not a tighter range.

## Behaviour worth noting

- Every scroll update recomputes the section flags, but `setActiveLink`
  returns early when the target is already active and animation is off,
  so in that case the link classes stay as they were.
- When several navigation links have the same href, all of them are
  selected. Only the first, the one `find` returns, sprouts.
- When `#about` has no tracked link, rule 1 still selects `"#about"`.
  The effect is that every link is deselected, every tracked section is
  dimmed, and `activeId` keeps its old value.
