/** The brand typing effect: the label is emptied and refilled one
    UTF-16 code unit per timer tick, after which a last timer clears the
    `typing` indicator. The timers' delays (140 ms before the first tick,
    70 ms between ticks, 450 ms before clearing) are not modelled; which
    timer is pending is. */
module BrandTyping {

  /** JavaScript strings, and so `length` and `slice`, count UTF-16 code
      units: a character outside the Basic Multilingual Plane is two of
      them, and a tick may show half of such a pair. */
  newtype CodeUnit = x: int | 0 <= x < 0x1_0000

  type JsString = seq<CodeUnit>

  /** The one timer the effect has pending. */
  datatype Timer = NoTimer | TickDue | ClearDue

  function Min(a: nat, b: nat): nat { if a <= b then a else b }

  /** `fullName.slice(0, i)`: JavaScript clamps the end to the length. */
  function Revealed(fullName: JsString, i: nat): (s: JsString)
    ensures |s| == Min(i, |fullName|)
    ensures s <= fullName
    ensures i >= |fullName| ==> s == fullName
  {
    fullName[..Min(i, |fullName|)]
  }

  /** Each tick reveals exactly the next character until the whole name
      is shown, and nothing after that. */
  lemma RevealedStep(fullName: JsString, i: nat)
    ensures i < |fullName| ==> Revealed(fullName, i + 1) == Revealed(fullName, i) + [fullName[i]]
    ensures i >= |fullName| ==> Revealed(fullName, i + 1) == Revealed(fullName, i)
  {
    if i < |fullName| {
      assert fullName[..i + 1] == fullName[..i] + [fullName[i]];
    }
  }

  class Typist {
    /** Whether the effect runs: the brand element exists and reduced
        motion is not requested. */
    const animated: bool
    const fullName: JsString
    /** The counter `i` of `tick`. */
    var i: nat
    /** The brand's `textContent` and its `typing` class. */
    var text: JsString
    var typing: bool
    var pending: Timer

    ghost predicate Valid()
      reads this
    {
      && (!animated ==> text == fullName && !typing && pending == NoTimer)
      && (animated ==> text == Revealed(fullName, i))
      && (pending == TickDue ==> animated && typing && (i == 0 || i < |fullName|))
      && (pending == ClearDue ==> animated && typing && i >= |fullName|)
    }

    /** The set-up at load (lines 28-33, 44): `content` is the brand's text
        (`textContent || ""`). */
    constructor (brandPresent: bool, reducedMotion: bool, content: JsString)
      ensures Valid()
      ensures animated == (brandPresent && !reducedMotion) && fullName == content
      ensures animated ==> text == [] && typing && i == 0 && pending == TickDue
      ensures !animated ==> text == content && !typing && pending == NoTimer
    {
      animated := brandPresent && !reducedMotion;
      fullName := content;
      i := 0;
      text := content;
      typing := false;
      pending := NoTimer;
      if brandPresent && !reducedMotion {
        text := [];
        typing := true;
        pending := TickDue;
      }
    }

    /** `tick`, run when its timer fires. */
    method Tick()
      requires Valid() && pending == TickDue
      modifies this
      ensures Valid()
      ensures i == old(i) + 1 && typing == old(typing)
      ensures text == Revealed(fullName, i)
      ensures old(i) < |fullName| ==> text == old(text) + [fullName[old(i)]]
      ensures pending == if i < |fullName| then TickDue else ClearDue
    {
      RevealedStep(fullName, i);
      i := i + 1;
      text := fullName[..Min(i, |fullName|)];
      if i < |fullName| {
        pending := TickDue;
      } else {
        pending := ClearDue;
      }
    }

    /** The 450 ms timer started by the last tick. */
    method ClearTyping()
      requires Valid() && pending == ClearDue
      modifies this
      ensures Valid()
      ensures !typing && pending == NoTimer
      ensures text == old(text) == fullName && i == old(i)
    {
      typing := false;
      pending := NoTimer;
    }
  }
}
