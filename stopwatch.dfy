/**
 * The stopwatch screen.  Idle, it plays an eight-frame animation; a short
 * click starts timing from zero, further short clicks pause and resume,
 * and a long click resets everything to idle.  While timing, the shown
 * text "MM:SS.mmm" is refreshed at the display rate rather than every
 * frame.  Loading the animation frames and drawing are not part of this
 * model.
 */
module Stopwatch {
  import opened Events
  import opened Format

  datatype Mode = Idle | Running | Paused

  /** Mode, accumulated time, animation frame and the two time accumulators (times in microseconds). */
  datatype StopwatchState = StopwatchState(mode: Mode, elapsed: int, animI: int, animT: int, tickT: int)

  const InitialState: StopwatchState := StopwatchState(Idle, 0, 0, 0, 0)

  /** The animation always has eight frames, `stopwatch0.png` to `stopwatch7.png`. */
  const FrameCount: nat := 8

  const ZeroText: string := "00:00.000"

  /** `1 / max(fps, 1)` seconds, in whole microseconds and never below one. */
  function FramePeriod(fps: int): (period: int)
    ensures 0 < period <= Second
    ensures 1 <= fps <= Second ==> period == Second / fps
    ensures fps < 1 ==> period == Second
  {
    var rate := if fps < 1 then 1 else fps;
    if Second / rate < 1 then 1 else Second / rate
  }

  // ---------------------------------------------------------------------
  // The time text
  // ---------------------------------------------------------------------

  /** `int(elapsed_s * 1000)`, with a negative total shown as zero. */
  function TotalMs(elapsed: int): (ms: nat)
    ensures elapsed >= 0 ==> ms * 1000 <= elapsed < (ms + 1) * 1000
    ensures elapsed < 0 ==> ms == 0
  {
    if elapsed < 0 then 0 else elapsed / 1000
  }

  datatype TimeFields = TimeFields(minutes: nat, sec: nat, ms: nat)

  /** A millisecond total as minutes (wrapping at 100), seconds and milliseconds. */
  function SplitTime(totalMs: nat): (f: TimeFields)
    ensures f.ms < 1000 && f.sec < 60 && f.minutes < 100
    ensures f.minutes * 60_000 + f.sec * 1000 + f.ms == totalMs % 6_000_000
  {
    var totalS := totalMs / 1000;
    SplitTimeSum(totalMs);
    TimeFields((totalS / 60) % 100, totalS % 60, totalMs % 1000)
  }

  /** The three fields put back together give the total modulo 100 minutes. */
  lemma SplitTimeSum(totalMs: nat)
    ensures var totalS := totalMs / 1000;
      ((totalS / 60) % 100) * 60_000 + (totalS % 60) * 1000 + totalMs % 1000 == totalMs % 6_000_000
  {
    var ms, totalS := totalMs % 1000, totalMs / 1000;
    var sec, q := totalS % 60, totalS / 60;
    var minutes, h := q % 100, q / 100;
    var rest := minutes * 60_000 + sec * 1000 + ms;
    assert totalS * 1000 == (q * 60 + sec) * 1000 == q * 60_000 + sec * 1000;
    assert q * 60_000 == (h * 100 + minutes) * 60_000 == h * 6_000_000 + minutes * 60_000;
    assert totalMs == h * 6_000_000 + rest;
    assert rest < 6_000_000 by {
      assert minutes * 60_000 <= 99 * 60_000;
      assert sec * 1000 <= 59 * 1000;
    }
    DivModUnique(totalMs, 6_000_000, h, rest);
  }

  /** Where the three fields sit in "MM:SS.mmm". */
  lemma TimeLayout(mm: string, ss: string, mmm: string)
    requires |mm| == 2 && |ss| == 2
    ensures var text := mm + ":" + ss + "." + mmm;
      && text[..2] == mm && text[2] == ':' && text[3..5] == ss && text[5] == '.' && text[6..] == mmm
  {
    var text := mm + ":" + ss + "." + mmm;
    assert text == (mm + ":") + (ss + "." + mmm);
    assert (mm + ":")[..2] == mm;
    assert text[3..] == ss + "." + mmm;
    assert (ss + "." + mmm)[..2] == ss;
    assert (ss + "." + mmm)[3..] == mmm;
  }

  /** The stopwatch text for an elapsed time: "MM:SS.mmm", zero-padded, always nine characters. */
  function FormatTime(elapsed: int): (text: string)
    ensures |text| == 9 && text[2] == ':' && text[5] == '.'
    ensures AllDigits(text[..2]) && AllDigits(text[3..5]) && AllDigits(text[6..])
  {
    var f := SplitTime(TotalMs(elapsed));
    ZeroPadWidth(f.minutes, 2);
    ZeroPadWidth(f.sec, 2);
    ZeroPadWidth(f.ms, 3);
    TimeLayout(ZeroPad(f.minutes, 2), ZeroPad(f.sec, 2), ZeroPad(f.ms, 3));
    ZeroPad(f.minutes, 2) + ":" + ZeroPad(f.sec, 2) + "." + ZeroPad(f.ms, 3)
  }

  /** Reads a "MM:SS.mmm" text back as milliseconds. */
  function ReadTime(text: string): int
    requires |text| == 9
  {
    ParseDecimal(text[..2]) * 60_000 + ParseDecimal(text[3..5]) * 1000 + ParseDecimal(text[6..])
  }

  /** The text shows the elapsed milliseconds modulo 100 minutes. */
  lemma FormatTimeRoundTrip(elapsed: int)
    ensures var text, f := FormatTime(elapsed), SplitTime(TotalMs(elapsed));
      && ParseDecimal(text[..2]) == f.minutes
      && ParseDecimal(text[3..5]) == f.sec
      && ParseDecimal(text[6..]) == f.ms
    ensures ReadTime(FormatTime(elapsed)) == TotalMs(elapsed) % 6_000_000
  {
    var f := SplitTime(TotalMs(elapsed));
    var text := FormatTime(elapsed);
    ZeroPadWidth(f.minutes, 2);
    ZeroPadWidth(f.sec, 2);
    ZeroPadWidth(f.ms, 3);
    TimeLayout(ZeroPad(f.minutes, 2), ZeroPad(f.sec, 2), ZeroPad(f.ms, 3));
    ParseZeroPad(f.minutes, 2);
    ParseZeroPad(f.sec, 2);
    ParseZeroPad(f.ms, 3);
  }

  /** Below 100 minutes the text is exact. */
  lemma FormatTimeExact(elapsed: int)
    requires TotalMs(elapsed) < 6_000_000
    ensures ReadTime(FormatTime(elapsed)) == TotalMs(elapsed)
  {
    FormatTimeRoundTrip(elapsed);
    DivModUnique(TotalMs(elapsed), 6_000_000, 0, TotalMs(elapsed));
  }

  lemma ZeroTextIsFormatOfZero()
    ensures FormatTime(0) == ZeroText
  {
    assert SplitTime(TotalMs(0)) == TimeFields(0, 0, 0);
    assert Decimal(0) == "0";
    assert ZeroPad(0, 2) == "00" && ZeroPad(0, 3) == "000";
  }

  // ---------------------------------------------------------------------
  // The idle animation
  // ---------------------------------------------------------------------

  /**
   * The frame and the remainder after `dt` more time at `period` per frame:
   * a whole number of frame periods is turned into frame steps, and what is
   * left stays in the accumulator.
   */
  function AnimAdvance(animI: int, animT: int, dt: int, period: int): (res: (int, int))
    requires period > 0 && 0 <= animI < FrameCount
    ensures 0 <= res.0 < FrameCount && res.1 < period
    ensures animT + dt < period ==> res == (animI, animT + dt)
  {
    var total := animT + dt;
    if total < period then (animI, total) else ((animI + total / period) % FrameCount, total % period)
  }

  /** One more frame step from `(start + k) % FrameCount`. */
  lemma FrameStep(start: int, k: int)
    ensures ((start + k) % FrameCount + 1) % FrameCount == (start + k + 1) % FrameCount
  {
  }

  class StopwatchScreen {
    const animDt: int
    const displayDt: int
    var s: StopwatchState
    var timeText: string

    /** The frame index is a frame, the accumulators hold less than one period, the text is nine characters. */
    ghost predicate Valid()
      reads this
    {
      && animDt > 0 && displayDt > 0
      && 0 <= s.animI < FrameCount
      && s.animT < animDt && s.tickT < displayDt
      && |timeText| == 9
    }

    /** Animation at 12 frames per second and text refreshed 30 times per second by default. */
    constructor (animFps: int := 12, displayFps: int := 30)
      ensures Valid()
      ensures animDt == FramePeriod(animFps) && displayDt == FramePeriod(displayFps)
      ensures s == InitialState && timeText == ZeroText
    {
      animDt := FramePeriod(animFps);
      displayDt := FramePeriod(displayFps);
      s := InitialState;
      timeText := ZeroText;
    }

    /** Whether the event was consumed. */
    method Handle(e: Event) returns (consumed: bool)
      requires Valid()
      modifies this
      ensures Valid()
      ensures e.LongClick? ==> consumed && s == InitialState && timeText == ZeroText
      ensures e.ShortClick? && old(s.mode) == Idle ==>
        consumed && s == old(s).(mode := Running, elapsed := 0) && timeText == ZeroText
      ensures e.ShortClick? && old(s.mode) == Running ==>
        consumed && s == old(s).(mode := Paused) && timeText == old(timeText)
      ensures e.ShortClick? && old(s.mode) == Paused ==>
        consumed && s == old(s).(mode := Running) && timeText == old(timeText)
      ensures e.Rotate? || e.Unknown? ==> !consumed && s == old(s) && timeText == old(timeText)
    {
      if e.LongClick? {
        s := InitialState;
        timeText := ZeroText;
        return true;
      }
      if e.ShortClick? {
        if s.mode == Idle {
          s := s.(mode := Running, elapsed := 0);
          timeText := ZeroText;
          return true;
        }
        if s.mode == Running {
          s := s.(mode := Paused);
          return true;
        }
        if s.mode == Paused {
          s := s.(mode := Running);
          return true;
        }
      }
      return false;
    }

    /** The idle branch of `update`: turn whole frame periods into frame steps. */
    method Animate(dt: int)
      requires Valid() && s.mode == Idle
      modifies this
      ensures Valid()
      ensures s == old(s).(animI := AnimAdvance(old(s.animI), old(s.animT), dt, animDt).0,
                           animT := AnimAdvance(old(s.animI), old(s.animT), dt, animDt).1)
      ensures timeText == old(timeText)
    {
      var i, t := s.animI, s.animT + dt;
      ghost var k := 0;
      while t >= animDt
        invariant unchanged(this)
        invariant 0 <= i < FrameCount
        invariant k >= 0 && old(s.animT) + dt == k * animDt + t
        invariant i == (old(s.animI) + k) % FrameCount
        invariant k > 0 ==> t >= 0
        decreases t
      {
        FrameStep(old(s.animI), k);
        assert (k + 1) * animDt == k * animDt + animDt;
        t := t - animDt;
        i := (i + 1) % FrameCount;
        k := k + 1;
      }
      if k > 0 {
        MulAtLeastOnce(k, animDt);
        DivModUnique(old(s.animT) + dt, animDt, k, t);
      }
      assert AnimAdvance(s.animI, s.animT, dt, animDt) == (i, t);
      s := s.(animI := i, animT := t);
    }

    /** The running or paused branch of `update`, up to the text refresh: whether the text is due. */
    method AdvanceClock(dt: int) returns (refresh: bool)
      requires Valid() && s.mode != Idle
      modifies this
      ensures Valid()
      ensures s == old(s).(elapsed := old(s.elapsed) + (if old(s.mode) == Running then dt else 0),
                           tickT := if refresh then (old(s.tickT) + dt) % displayDt else old(s.tickT) + dt)
      ensures refresh <==> old(s.tickT) + dt >= displayDt
      ensures timeText == old(timeText)
    {
      var elapsed := if s.mode == Running then s.elapsed + dt else s.elapsed;
      var tick := s.tickT + dt;
      refresh := tick >= displayDt;
      if refresh {
        tick := tick % displayDt;
      }
      s := s.(elapsed := elapsed, tickT := tick);
    }

    /**
     * Advance by `dt`.  Idle: only the animation moves.  Running: the
     * elapsed time grows by `dt`; paused: it stays.  Either way the text
     * is refreshed only when a display period has built up.
     */
    method Update(dt: int)
      requires Valid()
      modifies this
      ensures Valid()
      ensures old(s.mode) == Idle ==>
        && s == old(s).(animI := AnimAdvance(old(s.animI), old(s.animT), dt, animDt).0,
                        animT := AnimAdvance(old(s.animI), old(s.animT), dt, animDt).1)
        && timeText == old(timeText)
      ensures old(s.mode) != Idle ==>
        && s.mode == old(s.mode) && s.animI == old(s.animI) && s.animT == old(s.animT)
        && s.elapsed == old(s.elapsed) + (if old(s.mode) == Running then dt else 0)
      ensures old(s.mode) != Idle && old(s.tickT) + dt >= displayDt ==>
        s.tickT == (old(s.tickT) + dt) % displayDt && timeText == FormatTime(s.elapsed)
      ensures old(s.mode) != Idle && old(s.tickT) + dt < displayDt ==>
        s.tickT == old(s.tickT) + dt && timeText == old(timeText)
    {
      if s.mode == Idle {
        Animate(dt);
        return;
      }

      var refresh := AdvanceClock(dt);
      if refresh {
        timeText := FormatTime(s.elapsed);
      }
    }
  }
}
