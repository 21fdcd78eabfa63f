/**
 * The screen coordinator: an ordered, non-empty list of screens and the
 * index of the active one.  Each event goes to the active screen first;
 * when that screen does not consume it, a ROTATE moves to the next screen
 * (delta > 0) or the previous one (otherwise), wrapping around.
 *
 * Screens are abstract here: whether the active screen consumed an event is
 * passed in by the caller, and the lifecycle hooks the coordinator calls
 * are recorded, in order, in a ghost trace.
 */
module Manager {
  import opened Events
  import opened Wrappers

  /** A lifecycle call made by the coordinator, naming the screen by its index. */
  datatype Hook = OnEnter(screen: nat) | OnExit(screen: nat)

  datatype ManagerError = EmptyScreenList

  /** `(idx + 1) % n`: one screen forward, from the last back to the first. */
  function NextIndex(idx: nat, n: nat): (j: nat)
    requires idx < n
    ensures j == if idx + 1 < n then idx + 1 else 0
  {
    (idx + 1) % n
  }

  /** `(idx - 1) % n` with a non-negative remainder: one screen back, from the first to the last. */
  function PrevIndex(idx: nat, n: nat): (j: nat)
    requires idx < n
    ensures j == if idx > 0 then idx - 1 else n - 1
  {
    (idx - 1) % n
  }

  /** The hooks a switch from `from` to `to` calls: none for a self-switch, else exit then enter. */
  function SwitchHooks(from: nat, to: nat): (hooks: seq<Hook>)
    ensures from == to <==> hooks == []
    ensures from != to ==> hooks == [OnExit(from), OnEnter(to)]
  {
    if from == to then [] else [OnExit(from), OnEnter(to)]
  }

  /** The active index after `handle`, given whether the active screen consumed the event. */
  function Navigate(idx: nat, n: nat, e: Event, consumed: bool): (j: nat)
    requires idx < n
    ensures j < n
    ensures consumed || !e.Rotate? ==> j == idx
    ensures !consumed && e.Rotate? && e.delta > 0 ==> j == NextIndex(idx, n)
    ensures !consumed && e.Rotate? && e.delta <= 0 ==> j == PrevIndex(idx, n)
  {
    if consumed then idx
    else if e.Rotate? then (if e.delta > 0 then NextIndex(idx, n) else PrevIndex(idx, n))
    else idx
  }

  /**
   * A well-formed lifecycle history ending with `idx` active: it opens by
   * entering one screen, and every later switch exits the screen that was
   * active and enters a different one.
   */
  ghost predicate Lifecycle(trace: seq<Hook>, idx: nat)
    decreases |trace|
  {
    || trace == [OnEnter(idx)]
    || (&& |trace| >= 3
        && trace[|trace| - 1] == OnEnter(idx)
        && trace[|trace| - 2].OnExit?
        && trace[|trace| - 2].screen != idx
        && Lifecycle(trace[..|trace| - 2], trace[|trace| - 2].screen))
  }

  function CountEnters(trace: seq<Hook>): nat {
    if trace == [] then 0 else (if trace[|trace| - 1].OnEnter? then 1 else 0) + CountEnters(trace[..|trace| - 1])
  }

  function CountExits(trace: seq<Hook>): nat {
    if trace == [] then 0 else (if trace[|trace| - 1].OnExit? then 1 else 0) + CountExits(trace[..|trace| - 1])
  }

  /** In any lifecycle history exactly one screen has been entered and not exited: the active one. */
  lemma {:induction false} EntersExceedExitsByOne(trace: seq<Hook>, idx: nat)
    requires Lifecycle(trace, idx)
    ensures CountEnters(trace) == CountExits(trace) + 1
    decreases |trace|
  {
    if trace == [OnEnter(idx)] {
      assert trace[..0] == [];
    } else {
      var t := trace[..|trace| - 2];
      var k := trace[|trace| - 2].screen;
      EntersExceedExitsByOne(t, k);
      assert trace[..|trace| - 1][..|trace| - 2] == t;
    }
  }

  /** Switching extends a lifecycle history with at most one exit/enter pair. */
  lemma SwitchKeepsLifecycle(trace: seq<Hook>, from: nat, to: nat)
    requires Lifecycle(trace, from)
    ensures Lifecycle(trace + SwitchHooks(from, to), to)
  {
    if from != to {
      var t := trace + SwitchHooks(from, to);
      assert t[..|t| - 2] == trace;
    } else {
      assert trace + SwitchHooks(from, to) == trace;
    }
  }

  /** `next` then `prev`, or `prev` then `next`, returns to the same screen. */
  lemma NextPrevInverse(idx: nat, n: nat)
    requires idx < n
    ensures PrevIndex(NextIndex(idx, n), n) == idx
    ensures NextIndex(PrevIndex(idx, n), n) == idx
  {
  }

  /** With a single screen no event moves the coordinator or calls a hook. */
  lemma SingleScreenStays(e: Event, consumed: bool)
    ensures Navigate(0, 1, e, consumed) == 0
    ensures SwitchHooks(0, Navigate(0, 1, e, consumed)) == []
  {
  }

  class ScreenManager<S> {
    const screens: seq<S>
    var idx: nat
    ghost var trace: seq<Hook>

    ghost predicate Valid()
      reads this
    {
      0 <= idx < |screens| && Lifecycle(trace, idx)
    }

    /** The part of construction after the emptiness check: screen 0 is entered. */
    constructor Init(screens: seq<S>)
      requires screens != []
      ensures Valid()
      ensures this.screens == screens && idx == 0 && trace == [OnEnter(0)]
    {
      this.screens := screens;
      idx := 0;
      trace := [OnEnter(0)];
    }

    /** Construction: an empty list is rejected, otherwise screen 0 becomes active and is entered once. */
    static method Create(screens: seq<S>) returns (r: Result<ScreenManager<S>, ManagerError>)
      ensures screens == [] <==> r.Failure?
      ensures r.Success? ==>
        && fresh(r.value) && r.value.Valid()
        && r.value.screens == screens && r.value.idx == 0 && r.value.trace == [OnEnter(0)]
    {
      if screens == [] {
        return Failure(EmptyScreenList);
      }
      var m := new ScreenManager.Init(screens);
      r := Success(m);
    }

    /** The active screen. */
    function Current(): (s: S)
      reads this
      requires Valid()
      ensures s == screens[idx] && s in screens
    {
      screens[idx]
    }

    method SwitchTo(newIdx: nat)
      requires Valid() && newIdx < |screens|
      modifies this
      ensures Valid()
      ensures idx == newIdx
      ensures trace == old(trace) + SwitchHooks(old(idx), newIdx)
    {
      SwitchKeepsLifecycle(trace, idx, newIdx);
      if newIdx == idx {
        return;
      }
      ghost var before := trace;
      trace := trace + [OnExit(idx)];
      idx := newIdx;
      trace := trace + [OnEnter(idx)];
      assert trace == before + [OnExit(old(idx)), OnEnter(newIdx)];
    }

    method Next()
      requires Valid()
      modifies this
      ensures Valid()
      ensures idx == NextIndex(old(idx), |screens|)
      ensures trace == old(trace) + SwitchHooks(old(idx), idx)
    {
      var newIdx := (idx + 1) % |screens|;
      SwitchTo(newIdx);
    }

    method Prev()
      requires Valid()
      modifies this
      ensures Valid()
      ensures idx == PrevIndex(old(idx), |screens|)
      ensures trace == old(trace) + SwitchHooks(old(idx), idx)
    {
      var newIdx := (idx - 1) % |screens|;
      SwitchTo(newIdx);
    }

    /** Route one event; `consumed` is what the active screen's `handle` returned for it. */
    method Handle(e: Event, consumed: bool)
      requires Valid()
      modifies this
      ensures Valid()
      ensures idx == Navigate(old(idx), |screens|, e, consumed)
      ensures trace == old(trace) + SwitchHooks(old(idx), idx)
    {
      if consumed {
        return;
      }
      if e.Rotate? {
        if e.delta > 0 {
          Next();
        } else {
          Prev();
        }
      }
    }
  }

  /** Three screens: an unconsumed ROTATE +1 moves from the first to the second, and from the third wraps to the first. */
  method ThreeScreenWalk<S>(a: S, b: S, c: S)
  {
    var r := ScreenManager.Create([a, b, c]);
    var m := r.value;
    m.Handle(ShortClick, true);
    assert m.idx == 0 && m.trace == [OnEnter(0)];
    m.Handle(Rotate(1), false);
    assert m.idx == 1 && m.trace == [OnEnter(0), OnExit(0), OnEnter(1)];
    m.Handle(Rotate(1), false);
    m.Handle(Rotate(1), false);
    assert m.idx == 0 && m.trace[|m.trace| - 2..] == [OnExit(2), OnEnter(0)];
  }
}
