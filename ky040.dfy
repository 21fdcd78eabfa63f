/**
 * The KY-040 rotary encoder and push button, polled.  One poll tick samples
 * the CLK and DT lines and the switch line at time `now`, runs the
 * quadrature decoder and the button classifier, and emits at most one
 * ROTATE and at most one click.  The sampling thread, the sleep between
 * ticks and the pin set-up are not part of this model: `Tick` receives the
 * time and the three levels, and returns what it would have queued.
 */
module Ky040 {
  import opened Events

  /** A logic level as read from a pin. */
  type Level = l: int | 0 <= l <= 1

  /** A sampled quadrature state: bit 1 is the CLK line, bit 0 the DT line. */
  type RawState = s: int | 0 <= s < 4

  /** `(clk << 1) | dt`. */
  function Pack(clk: Level, dt: Level): (s: RawState)
    ensures s / 2 == clk && s % 2 == dt
  {
    2 * clk + dt
  }

  // ---------------------------------------------------------------------
  // Quadrature decoding
  // ---------------------------------------------------------------------

  /** The states of one clockwise cycle of the quadrature Gray code. */
  const GrayCycle: seq<RawState> := [0, 1, 3, 2]  // 00, 01, 11, 10

  /** Where a state sits in the clockwise cycle. */
  function GrayPosition(s: RawState): (p: nat)
    ensures p < 4 && GrayCycle[p] == s
  {
    if s == 0 then 0 else if s == 1 then 1 else if s == 3 then 2 else 3
  }

  /**
   * The eight-entry transition table, with 0 for every pair it lacks.
   * A step of +1 is one position forward in the Gray cycle, -1 one
   * position back; a repeated state or a jump of two positions is no step.
   */
  function Trans(prev: RawState, cur: RawState): (step: int)
    ensures step == 1 <==> GrayPosition(cur) == (GrayPosition(prev) + 1) % 4
    ensures step == -1 <==> GrayPosition(prev) == (GrayPosition(cur) + 1) % 4
    ensures step == 0 || step == 1 || step == -1
  {
    // states written as (CLK << 1) | DT: 0 = 00, 1 = 01, 2 = 10, 3 = 11
    match (prev, cur)
    case (0, 1) => 1
    case (1, 3) => 1
    case (3, 2) => 1
    case (2, 0) => 1
    case (0, 2) => -1
    case (2, 3) => -1
    case (3, 1) => -1
    case (1, 0) => -1
    case _ => 0
  }

  /** The ROTATE event `_emit_rotate` queues: the delta, negated when the direction is inverted. */
  function EmitRotate(invert: bool, delta: int): (e: Event)
    ensures e.Rotate? && (if invert then -e.delta else e.delta) == delta
  {
    Rotate(if invert then -delta else delta)
  }

  /** `max(1, steps_per_detent)`: a detent is at least one step. */
  function ClampSteps(stepsPerDetent: int): (spd: int)
    ensures spd >= 1
    ensures stepsPerDetent >= 1 ==> spd == stepsPerDetent
    ensures stepsPerDetent < 1 ==> spd == 1
  {
    if stepsPerDetent < 1 then 1 else stepsPerDetent
  }

  /** The decoder's own fields: `_last_state`, `_accum`, `_last_rot_time`. */
  datatype Rotation = Rotation(lastState: RawState, accum: int, lastRotTime: int)

  datatype RotateResult = RotateResult(rotation: Rotation, emitted: seq<Event>)

  /** A state change that the table maps to a step and that is far enough from the last accepted step. */
  predicate Accepted(rotDebounce: int, r: Rotation, now: int, state: RawState) {
    state != r.lastState && Trans(r.lastState, state) != 0 && now - r.lastRotTime >= rotDebounce
  }

  /** The step a tick adds to the accumulator: the table's step when accepted, else 0. */
  function AcceptedStep(rotDebounce: int, r: Rotation, now: int, state: RawState): int {
    if Accepted(rotDebounce, r, now, state) then Trans(r.lastState, state) else 0
  }

  /** The sum of the deltas of the ROTATE events in `events`. */
  function NetRotation(events: seq<Event>): int {
    if events == [] then 0
    else (if events[0].Rotate? then events[0].delta else 0) + NetRotation(events[1..])
  }

  /** A delta as the decoder counted it, before `invert_direction` was applied. */
  function Uninverted(invert: bool, delta: int): int {
    if invert then -delta else delta
  }

  /**
   * The rotation half of one tick, on the decoder's fields.  The
   * accumulator stays strictly inside (-steps_per_detent, steps_per_detent);
   * what it gains from an accepted step is either kept or, on reaching
   * +-steps_per_detent, paid out as exactly one ROTATE of that sign.
   */
  function RotateStep(spd: int, rotDebounce: int, invert: bool, r: Rotation, now: int, state: RawState): (res: RotateResult)
    requires spd >= 1 && -spd < r.accum < spd
    ensures state == r.lastState ==> res == RotateResult(r, [])
    ensures res.rotation.lastState == state
    ensures !Accepted(rotDebounce, r, now, state) ==>
      res.rotation.accum == r.accum && res.rotation.lastRotTime == r.lastRotTime && res.emitted == []
    ensures Accepted(rotDebounce, r, now, state) ==> res.rotation.lastRotTime == now
    ensures -spd < res.rotation.accum < spd
    ensures res.emitted != [] <==>
      Accepted(rotDebounce, r, now, state) && (r.accum + Trans(r.lastState, state) == spd || r.accum + Trans(r.lastState, state) == -spd)
    ensures res.emitted != [] ==>
      res.rotation.accum == 0 && res.emitted == [EmitRotate(invert, Trans(r.lastState, state))]
    ensures r.accum + AcceptedStep(rotDebounce, r, now, state) == res.rotation.accum + spd * Uninverted(invert, NetRotation(res.emitted))
  {
    if state == r.lastState then RotateResult(r, [])
    else
      var step := Trans(r.lastState, state);
      var moved := r.(lastState := state);
      if step != 0 && now - r.lastRotTime >= rotDebounce then
        var accum := r.accum + step;
        var stepped := moved.(lastRotTime := now, accum := accum);
        if accum >= spd then RotateResult(stepped.(accum := 0), [EmitRotate(invert, 1)])
        else if accum <= -spd then RotateResult(stepped.(accum := 0), [EmitRotate(invert, -1)])
        else RotateResult(stepped, [])
      else RotateResult(moved, [])
  }

  // ---------------------------------------------------------------------
  // Button classification
  // ---------------------------------------------------------------------

  /** The classifier's own fields: `_pressed`, `_press_time`, `_last_btn_edge`, `_prev_sw`. */
  datatype Button = Button(pressed: bool, pressTime: int, lastBtnEdge: int, prevSw: Level)

  datatype ButtonResult = ButtonResult(button: Button, emitted: seq<Event>)

  /** A level change strictly more than `debounce` after the last accepted edge. */
  predicate EdgeAccepted(debounce: int, b: Button, now: int, sw: Level) {
    sw != b.prevSw && now - b.lastBtnEdge > debounce
  }

  /** The click a release emits: long when held at least `longPress`, short otherwise. */
  function Classify(longPress: int, held: int): (e: Event)
    ensures e == LongClick <==> held >= longPress
    ensures e == ShortClick <==> held < longPress
  {
    if held >= longPress then LongClick else ShortClick
  }

  /**
   * The button half of one tick.  Pressing (level 0 while not pressed)
   * records the time; releasing (level 1 while pressed) emits exactly one
   * click, classified by how long the button was held.  Only an accepted
   * edge changes anything but `_prev_sw`, which always takes the new level.
   */
  function ButtonStep(longPress: int, debounce: int, b: Button, now: int, sw: Level): (res: ButtonResult)
    ensures res.button.prevSw == sw
    ensures !EdgeAccepted(debounce, b, now, sw) ==> res == ButtonResult(b.(prevSw := sw), [])
    ensures EdgeAccepted(debounce, b, now, sw) ==> res.button.lastBtnEdge == now
    ensures EdgeAccepted(debounce, b, now, sw) && sw == 0 && !b.pressed ==>
      res.button.pressed && res.button.pressTime == now && res.emitted == []
    ensures EdgeAccepted(debounce, b, now, sw) && sw == 1 && b.pressed ==>
      !res.button.pressed && res.button.pressTime == b.pressTime && res.emitted == [Classify(longPress, now - b.pressTime)]
    ensures EdgeAccepted(debounce, b, now, sw) && (sw == 0) == b.pressed ==>
      res == ButtonResult(b.(prevSw := sw, lastBtnEdge := now), [])
    ensures res.emitted != [] ==> b.pressed && !res.button.pressed && |res.emitted| == 1
  {
    if sw != b.prevSw && now - b.lastBtnEdge > debounce then
      var edged := b.(lastBtnEdge := now, prevSw := sw);
      if sw == 0 && !b.pressed then ButtonResult(edged.(pressed := true, pressTime := now), [])
      else if sw == 1 && b.pressed then ButtonResult(edged.(pressed := false), [Classify(longPress, now - b.pressTime)])
      else ButtonResult(edged, [])
    else ButtonResult(b.(prevSw := sw), [])
  }

  // ---------------------------------------------------------------------
  // Properties of runs of ticks
  // ---------------------------------------------------------------------

  /** One sample of the two quadrature lines, packed, at time `now`. */
  datatype RotarySample = RotarySample(now: int, state: RawState)

  /** The decoder fed a run of samples: the final fields and every event emitted, in order. */
  function RotateRun(spd: int, rotDebounce: int, invert: bool, r: Rotation, samples: seq<RotarySample>): (res: RotateResult)
    requires spd >= 1 && -spd < r.accum < spd
    ensures -spd < res.rotation.accum < spd
    ensures forall i :: 0 <= i < |res.emitted| ==> res.emitted[i] == Rotate(1) || res.emitted[i] == Rotate(-1)
    decreases |samples|
  {
    if samples == [] then RotateResult(r, [])
    else
      var first := RotateStep(spd, rotDebounce, invert, r, samples[0].now, samples[0].state);
      var rest := RotateRun(spd, rotDebounce, invert, first.rotation, samples[1..]);
      RotateResult(rest.rotation, first.emitted + rest.emitted)
  }

  /** The sum of the steps the decoder accepts over a run of samples. */
  function AcceptedTotal(spd: int, rotDebounce: int, r: Rotation, samples: seq<RotarySample>): int
    requires spd >= 1 && -spd < r.accum < spd
    decreases |samples|
  {
    if samples == [] then 0
    else
      var next := RotateStep(spd, rotDebounce, false, r, samples[0].now, samples[0].state).rotation;
      AcceptedStep(rotDebounce, r, samples[0].now, samples[0].state) + AcceptedTotal(spd, rotDebounce, next, samples[1..])
  }

  lemma {:induction false} NetRotationAppend(a: seq<Event>, b: seq<Event>)
    ensures NetRotation(a + b) == NetRotation(a) + NetRotation(b)
    decreases |a|
  {
    if a == [] {
      assert a + b == b;
    } else {
      assert (a + b)[0] == a[0];
      assert (a + b)[1..] == a[1..] + b;
      NetRotationAppend(a[1..], b);
    }
  }

  /** `invert_direction` changes only the sign of what is emitted, never the decoder's fields. */
  lemma InvertOnlyNegates(spd: int, rotDebounce: int, r: Rotation, now: int, state: RawState)
    requires spd >= 1 && -spd < r.accum < spd
    ensures RotateStep(spd, rotDebounce, true, r, now, state).rotation == RotateStep(spd, rotDebounce, false, r, now, state).rotation
    ensures |RotateStep(spd, rotDebounce, true, r, now, state).emitted| == |RotateStep(spd, rotDebounce, false, r, now, state).emitted|
    ensures forall i :: 0 <= i < |RotateStep(spd, rotDebounce, true, r, now, state).emitted| ==>
      RotateStep(spd, rotDebounce, true, r, now, state).emitted[i].delta == -RotateStep(spd, rotDebounce, false, r, now, state).emitted[i].delta
  {
  }

  /**
   * Detent granularity over any run: every accepted step is either still in
   * the accumulator or was paid out, `steps_per_detent` steps per ROTATE.
   * Since the accumulator stays strictly below one detent, no step is lost
   * or counted twice.
   */
  lemma {:induction false} DetentConservation(spd: int, rotDebounce: int, invert: bool, r: Rotation, samples: seq<RotarySample>)
    requires spd >= 1 && -spd < r.accum < spd
    ensures var res := RotateRun(spd, rotDebounce, invert, r, samples);
      r.accum + AcceptedTotal(spd, rotDebounce, r, samples) == res.rotation.accum + spd * Uninverted(invert, NetRotation(res.emitted))
    decreases |samples|
  {
    if samples != [] {
      var s0 := samples[0];
      var first := RotateStep(spd, rotDebounce, invert, r, s0.now, s0.state);
      assert first.rotation == RotateStep(spd, rotDebounce, false, r, s0.now, s0.state).rotation;
      var rest := RotateRun(spd, rotDebounce, invert, first.rotation, samples[1..]);
      assert RotateRun(spd, rotDebounce, invert, r, samples) == RotateResult(rest.rotation, first.emitted + rest.emitted);
      assert AcceptedTotal(spd, rotDebounce, r, samples)
        == AcceptedStep(rotDebounce, r, s0.now, s0.state) + AcceptedTotal(spd, rotDebounce, first.rotation, samples[1..]);
      DetentConservation(spd, rotDebounce, invert, first.rotation, samples[1..]);
      NetRotationAppend(first.emitted, rest.emitted);
      var x := Uninverted(invert, NetRotation(first.emitted));
      var y := Uninverted(invert, NetRotation(rest.emitted));
      assert Uninverted(invert, NetRotation(first.emitted + rest.emitted)) == x + y;
      assert spd * (x + y) == spd * x + spd * y;
    }
  }

  /** One sample of the switch line at time `now`. */
  datatype ButtonSample = ButtonSample(now: int, sw: Level)

  /** The classifier fed a run of samples: the final fields and every click emitted, in order. */
  function ButtonRun(longPress: int, debounce: int, b: Button, samples: seq<ButtonSample>): (res: ButtonResult)
    ensures forall i :: 0 <= i < |res.emitted| ==> res.emitted[i] == ShortClick || res.emitted[i] == LongClick
    decreases |samples|
  {
    if samples == [] then ButtonResult(b, [])
    else
      var first := ButtonStep(longPress, debounce, b, samples[0].now, samples[0].sw);
      var rest := ButtonRun(longPress, debounce, first.button, samples[1..]);
      ButtonResult(rest.button, first.emitted + rest.emitted)
  }

  /** How many presses the classifier registers over a run of samples. */
  function Presses(longPress: int, debounce: int, b: Button, samples: seq<ButtonSample>): nat
    decreases |samples|
  {
    if samples == [] then 0
    else
      var first := ButtonStep(longPress, debounce, b, samples[0].now, samples[0].sw);
      (if !b.pressed && first.button.pressed then 1 else 0) + Presses(longPress, debounce, first.button, samples[1..])
  }

  /**
   * One click per press/release cycle: over any run, the clicks emitted and
   * a press still held at the end together match the presses registered and
   * a press already held at the start.  So no cycle yields two clicks, and
   * a press yields none until it is released.
   */
  lemma {:induction false} OneClickPerPress(longPress: int, debounce: int, b: Button, samples: seq<ButtonSample>)
    ensures var res := ButtonRun(longPress, debounce, b, samples);
      |res.emitted| + (if res.button.pressed then 1 else 0) == Presses(longPress, debounce, b, samples) + (if b.pressed then 1 else 0)
    decreases |samples|
  {
    if samples != [] {
      var first := ButtonStep(longPress, debounce, b, samples[0].now, samples[0].sw);
      OneClickPerPress(longPress, debounce, first.button, samples[1..]);
    }
  }

  /**
   * Because `_prev_sw` follows the level even on a debounced edge, a release
   * that comes within the debounce interval of its press is never seen:
   * the button stays pressed and no click is emitted, even once the level
   * has been high for longer than the debounce interval.
   */
  lemma QuickReleaseIsLost()
    ensures var samples := [ButtonSample(100_000, 0), ButtonSample(110_000, 1), ButtonSample(200_000, 1)];
      var res := ButtonRun(600_000, 30_000, Button(false, 0, 0, 1), samples);
      res.button.pressed && res.button.pressTime == 100_000 && res.emitted == []
  {
    var b0 := Button(false, 0, 0, 1);
    var b1 := ButtonStep(600_000, 30_000, b0, 100_000, 0).button;
    assert b1 == Button(true, 100_000, 100_000, 0);
    var b2 := ButtonStep(600_000, 30_000, b1, 110_000, 1).button;
    assert b2 == Button(true, 100_000, 100_000, 1);
    assert ButtonStep(600_000, 30_000, b2, 200_000, 1) == ButtonResult(b2, []);
  }

  // ---------------------------------------------------------------------
  // The poller's state, updated in place one tick at a time
  // ---------------------------------------------------------------------

  class KY040Input {
    const longPress: int
    const debounce: int
    const invertDirection: bool
    const stepsPerDetent: int
    const rotDebounce: int

    var lastState: RawState
    var accum: int
    var lastRotTime: int

    var pressed: bool
    var pressTime: int
    var lastBtnEdge: int
    var prevSw: Level

    /** The accumulator never holds a whole detent between ticks. */
    ghost predicate Valid()
      reads this
    {
      stepsPerDetent >= 1 && -stepsPerDetent < accum < stepsPerDetent
    }

    function RotationFields(): Rotation
      reads this
    {
      Rotation(lastState, accum, lastRotTime)
    }

    function ButtonFields(): Button
      reads this
    {
      Button(pressed, pressTime, lastBtnEdge, prevSw)
    }

    /** Times in microseconds; the defaults are 0.60 s, 30 ms, one step per detent and 0.5 ms. */
    constructor (longPress: int := 600_000, debounce: int := 30_000, invertDirection: bool := false,
                 stepsPerDetent: int := 1, rotDebounce: int := 500)
      ensures Valid()
      ensures this.longPress == longPress && this.debounce == debounce && this.invertDirection == invertDirection
      ensures this.stepsPerDetent == ClampSteps(stepsPerDetent) && this.rotDebounce == rotDebounce
      ensures RotationFields() == Rotation(0, 0, 0)
      ensures ButtonFields() == Button(false, 0, 0, 1)
    {
      this.longPress := longPress;
      this.debounce := debounce;
      this.invertDirection := invertDirection;
      this.stepsPerDetent := ClampSteps(stepsPerDetent);
      this.rotDebounce := rotDebounce;
      lastState, accum, lastRotTime := 0, 0, 0;
      pressed, pressTime, lastBtnEdge, prevSw := false, 0, 0, 1;
    }

    /** The initial samples `start` takes before polling: the quadrature state and the switch level. */
    method Start(clk: Level, dt: Level, sw: Level)
      requires Valid()
      modifies this
      ensures Valid()
      ensures RotationFields() == old(RotationFields()).(lastState := Pack(clk, dt))
      ensures ButtonFields() == old(ButtonFields()).(prevSw := sw)
    {
      lastState := Pack(clk, dt);
      prevSw := sw;
    }

    /** The rotation section of one polling iteration: the ROTATE it queues, if any. */
    method PollRotation(now: int, state: RawState) returns (emitted: seq<Event>)
      requires Valid()
      modifies this
      ensures Valid()
      ensures var rot := RotateStep(stepsPerDetent, rotDebounce, invertDirection, old(RotationFields()), now, state);
              RotationFields() == rot.rotation && emitted == rot.emitted
      ensures ButtonFields() == old(ButtonFields())
    {
      emitted := [];
      if state != lastState {
        var step := Trans(lastState, state);
        lastState := state;
        if step != 0 && now - lastRotTime >= rotDebounce {
          lastRotTime := now;
          accum := accum + step;
          if accum >= stepsPerDetent {
            accum := 0;
            emitted := [EmitRotate(invertDirection, 1)];
          } else if accum <= -stepsPerDetent {
            accum := 0;
            emitted := [EmitRotate(invertDirection, -1)];
          }
        }
      }
    }

    /** The button section of one polling iteration: the click it queues, if any. */
    method PollButton(now: int, sw: Level) returns (clicks: seq<Event>)
      requires Valid()
      modifies this
      ensures Valid()
      ensures var btn := ButtonStep(longPress, debounce, old(ButtonFields()), now, sw);
              ButtonFields() == btn.button && clicks == btn.emitted
      ensures RotationFields() == old(RotationFields())
    {
      clicks := [];
      if sw != prevSw && now - lastBtnEdge > debounce {
        lastBtnEdge := now;
        if sw == 0 && !pressed {
          pressed := true;
          pressTime := now;
        } else if sw == 1 && pressed {
          pressed := false;
          var held := now - pressTime;
          clicks := [Classify(longPress, held)];
        }
      }
      prevSw := sw;
    }

    /** One iteration of the polling loop: the events it queues, rotation first. */
    method Tick(now: int, clk: Level, dt: Level, sw: Level) returns (events: seq<Event>)
      requires Valid()
      modifies this
      ensures Valid()
      ensures var rot := RotateStep(stepsPerDetent, rotDebounce, invertDirection, old(RotationFields()), now, Pack(clk, dt));
              var btn := ButtonStep(longPress, debounce, old(ButtonFields()), now, sw);
              RotationFields() == rot.rotation && ButtonFields() == btn.button && events == rot.emitted + btn.emitted
    {
      var rotated := PollRotation(now, Pack(clk, dt));
      var clicks := PollButton(now, sw);
      events := rotated + clicks;
    }
  }
}
