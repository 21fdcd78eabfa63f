/**
 * The countdown screen: the seconds left until local midnight, shown as
 * "HH:MM:SS  (N)" and recomputed once per second rather than every frame.
 * Reading the wall clock and the time-zone arithmetic that yields the
 * seconds to midnight are not part of this model: that reading, before it
 * is clamped, is passed in.
 */
module Countdown {
  import opened Events
  import opened Format

  /** A negative count (the clock past midnight) is shown as zero. */
  function Clamp(remaining: int): (r: nat)
    ensures remaining >= 0 ==> r == remaining
    ensures remaining < 0 ==> r == 0
  {
    if remaining < 0 then 0 else remaining
  }

  datatype Hms = Hms(h: nat, m: nat, s: nat)

  /** The clamped count as hours, minutes and seconds. */
  function SplitHms(remaining: int): (t: Hms)
    ensures t.m < 60 && t.s < 60
    ensures t.h * 3600 + t.m * 60 + t.s == Clamp(remaining)
  {
    var r := Clamp(remaining);
    SplitHmsSum(r);
    Hms(r / 3600, (r % 3600) / 60, r % 60)
  }

  /** Hours, minutes and seconds put back together give the count. */
  lemma SplitHmsSum(r: nat)
    ensures (r / 3600) * 3600 + ((r % 3600) / 60) * 60 + r % 60 == r
  {
    var h, rest := r / 3600, r % 3600;
    var m, s := rest / 60, rest % 60;
    assert r == h * 3600 + rest;
    assert rest == m * 60 + s;
    assert r == (h * 60 + m) * 60 + s by {
      assert h * 3600 == (h * 60) * 60;
      assert (h * 60 + m) * 60 == (h * 60) * 60 + m * 60;
    }
    DivModUnique(r, 60, h * 60 + m, s);
  }

  /** "HH:MM:SS" zero-padded, two spaces, then the clamped count in parentheses. */
  function CountdownText(remaining: int): (text: string)
    ensures |text| >= 12 + |Decimal(Clamp(remaining))| && text[|text| - 1] == ')'
  {
    var t := SplitHms(remaining);
    ZeroPad(t.h, 2) + ":" + ZeroPad(t.m, 2) + ":" + ZeroPad(t.s, 2) + "  (" + Decimal(Clamp(remaining)) + ")"
  }

  /** At any count the text ends in "  (N)", and N reads back as the clamped count. */
  lemma CountdownTextCount(remaining: int)
    ensures var text, d := CountdownText(remaining), |Decimal(Clamp(remaining))|;
      && text[|text| - 4 - d..|text| - 1 - d] == "  ("
      && AllDigits(text[|text| - 1 - d..|text| - 1])
      && ParseDecimal(text[|text| - 1 - d..|text| - 1]) == Clamp(remaining)
  {
    var t := SplitHms(remaining);
    var count := Decimal(Clamp(remaining));
    var text := CountdownText(remaining);
    assert text == ZeroPad(t.h, 2) + ":" + ZeroPad(t.m, 2) + ":" + ZeroPad(t.s, 2) + "  (" + count + ")";
    assert text[|text| - 1 - |count|..|text| - 1] == count;
    assert text[|text| - 4 - |count|..|text| - 1 - |count|] == "  (";
    ParseDecimalOfDecimal(Clamp(remaining));
  }

  /** Under 100 hours the text has fixed columns, and each field reads back as its value. */
  lemma CountdownTextRoundTrip(remaining: int)
    requires remaining < 360_000
    ensures var text := CountdownText(remaining);
      && |text| == 12 + |Decimal(Clamp(remaining))|
      && text[2] == ':' && text[5] == ':' && text[8..11] == "  (" && text[|text| - 1] == ')'
      && AllDigits(text[..2]) && AllDigits(text[3..5]) && AllDigits(text[6..8])
      && ParseDecimal(text[..2]) == SplitHms(remaining).h
      && ParseDecimal(text[3..5]) == SplitHms(remaining).m
      && ParseDecimal(text[6..8]) == SplitHms(remaining).s
      && ParseDecimal(text[..2]) * 3600 + ParseDecimal(text[3..5]) * 60 + ParseDecimal(text[6..8]) == Clamp(remaining)
      && ParseDecimal(text[11..|text| - 1]) == Clamp(remaining)
  {
    var t := SplitHms(remaining);
    var text := CountdownText(remaining);
    assert t.h < 100;
    ZeroPadWidth(t.h, 2);
    ZeroPadWidth(t.m, 2);
    ZeroPadWidth(t.s, 2);
    assert text[..2] == ZeroPad(t.h, 2);
    assert text[3..5] == ZeroPad(t.m, 2);
    assert text[6..8] == ZeroPad(t.s, 2);
    assert text[11..|text| - 1] == Decimal(Clamp(remaining));
    ParseZeroPad(t.h, 2);
    ParseZeroPad(t.m, 2);
    ParseZeroPad(t.s, 2);
    ParseDecimalOfDecimal(Clamp(remaining));
  }

  class CountdownScreen {
    var accum: int
    var text: string

    /** The refresh accumulator always holds less than a second. */
    ghost predicate Valid()
      reads this
    {
      accum < Second
    }

    /** `remaining` is the clock's seconds to midnight at construction. */
    constructor (remaining: int)
      ensures Valid()
      ensures accum == 0 && text == CountdownText(remaining)
    {
      accum := 0;
      text := CountdownText(remaining);
    }

    /** The accumulator part of `update`: whether a whole second has built up, keeping only the remainder. */
    method Accumulate(dt: int) returns (refresh: bool)
      requires Valid()
      modifies this
      ensures Valid()
      ensures refresh <==> old(accum) + dt >= Second
      ensures accum == if refresh then (old(accum) + dt) % Second else old(accum) + dt
      ensures text == old(text)
    {
      accum := accum + dt;
      refresh := accum >= Second;
      if refresh {
        accum := accum % Second;
      }
    }

    /**
     * Advance by `dt`; `remaining` is what the clock would give if the text
     * is recomputed now.  The text is recomputed only once a whole second
     * has built up, and the whole seconds are dropped from the accumulator.
     */
    method Update(dt: int, remaining: int)
      requires Valid()
      modifies this
      ensures Valid()
      ensures old(accum) + dt >= Second ==> accum == (old(accum) + dt) % Second && text == CountdownText(remaining)
      ensures old(accum) + dt < Second ==> accum == old(accum) + dt && text == old(text)
    {
      var refresh := Accumulate(dt);
      if refresh {
        text := CountdownText(remaining);
      }
    }
  }
}
