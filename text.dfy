/**
 * The text screen: a fixed message drawn in one of seven palette colours.
 * A short click steps to the next colour, a long click goes back to the
 * first, and in edit mode a rotation steps forward or back.  The text
 * screen keeps the default `update`, `on_enter` and `on_exit`.
 */
module Text {
  import opened Events

  datatype Color = Color(r: int, g: int, b: int)

  /** White, red, green, blue, yellow, magenta, cyan. */
  const Palette: seq<Color> := [
    Color(255, 255, 255), Color(255, 0, 0), Color(0, 255, 0), Color(0, 0, 255),
    Color(255, 255, 0), Color(255, 0, 255), Color(0, 255, 255)
  ]

  /** The colour after a short click: the next one, the last wrapping to the first. */
  function NextColor(i: int): (j: int)
    requires 0 <= i < |Palette|
    ensures 0 <= j < |Palette|
    ensures j == if i + 1 < |Palette| then i + 1 else 0
  {
    (i + 1) % |Palette|
  }

  /** The colour after a rotation in edit mode: forward for a positive delta, back otherwise. */
  function RotateColor(i: int, delta: int): (j: int)
    requires 0 <= i < |Palette|
    ensures 0 <= j < |Palette|
    ensures delta > 0 ==> j == NextColor(i)
    ensures delta <= 0 ==> j == if i > 0 then i - 1 else |Palette| - 1
  {
    (i + (if delta > 0 then 1 else -1)) % |Palette|
  }

  /** The colour after `k` short clicks. */
  function AfterShortClicks(i: int, k: nat): (j: int)
    requires 0 <= i < |Palette|
    ensures 0 <= j < |Palette|
  {
    if k == 0 then i else NextColor(AfterShortClicks(i, k - 1))
  }

  /** `k` short clicks move `k` places round the palette. */
  lemma {:induction false} ShortClicksAdvance(i: int, k: nat)
    requires 0 <= i < |Palette|
    ensures AfterShortClicks(i, k) == (i + k) % |Palette|
  {
    if k > 0 {
      ShortClicksAdvance(i, k - 1);
    }
  }

  /** Seven short clicks bring back the colour one started with. */
  lemma SevenShortClicksRestore(i: int)
    requires 0 <= i < |Palette|
    ensures AfterShortClicks(i, 7) == i
  {
    ShortClicksAdvance(i, 7);
  }

  /** A rotation one way then the other restores the colour. */
  lemma RotateBackRestores(i: int)
    requires 0 <= i < |Palette|
    ensures RotateColor(RotateColor(i, 1), -1) == i
    ensures RotateColor(RotateColor(i, -1), 1) == i
  {
  }

  class TextScreen {
    const message: string
    var colorI: int
    var editMode: bool

    ghost predicate Valid()
      reads this
    {
      0 <= colorI < |Palette|
    }

    constructor (message: string)
      ensures Valid()
      ensures this.message == message && colorI == 0 && !editMode
    {
      this.message := message;
      colorI := 0;
      editMode := false;
    }

    /** The colour the message is drawn in. */
    function CurrentColor(): (c: Color)
      reads this
      requires Valid()
      ensures c == Palette[colorI] && c in Palette
    {
      Palette[colorI]
    }

    /** Whether the event was consumed; `handle` never changes `edit_mode`. */
    method Handle(e: Event) returns (consumed: bool)
      requires Valid()
      modifies this
      ensures Valid()
      ensures editMode == old(editMode)
      ensures e.ShortClick? ==> consumed && colorI == NextColor(old(colorI))
      ensures e.LongClick? ==> consumed && colorI == 0
      ensures e.Rotate? ==> consumed == old(editMode)
      ensures e.Rotate? && old(editMode) ==> colorI == RotateColor(old(colorI), e.delta)
      ensures (e.Rotate? && !old(editMode)) || e.Unknown? ==> !consumed && colorI == old(colorI)
    {
      if e.ShortClick? {
        colorI := (colorI + 1) % |Palette|;
        return true;
      }
      if e.LongClick? {
        colorI := 0;
        return true;
      }
      if editMode && e.Rotate? {
        var d := e.delta;
        colorI := (colorI + (if d > 0 then 1 else -1)) % |Palette|;
        return true;
      }
      return false;
    }
  }
}
