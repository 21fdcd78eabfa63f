/**
 * The default screen behaviour every screen inherits unless it overrides
 * it.  A screen's private state is the type parameter `S`; the defaults
 * leave it as it is and consume no event.
 */
module Base {
  import opened Events
  import Manager

  /** The default `on_enter`: nothing changes. */
  function OnEnter<S>(state: S): (state': S)
    ensures state' == state
  {
    state
  }

  /** The default `on_exit`: nothing changes. */
  function OnExit<S>(state: S): (state': S)
    ensures state' == state
  {
    state
  }

  /** The default `handle`: no event is consumed. */
  function Handle(e: Event): (consumed: bool)
    ensures !consumed
  {
    false
  }

  /** The default `update`: nothing changes, whatever time has passed. */
  function Update<S>(state: S, dt: int): (state': S)
    ensures state' == state
  {
    state
  }

  /**
   * A screen that keeps the default `handle` never holds on to a ROTATE: the
   * coordinator moves forward on a positive delta and back otherwise, and
   * any other event leaves the active screen in place.
   */
  lemma DefaultScreenNavigates(idx: nat, n: nat, e: Event)
    requires idx < n
    ensures e.Rotate? && e.delta > 0 ==> Manager.Navigate(idx, n, e, Handle(e)) == Manager.NextIndex(idx, n)
    ensures e.Rotate? && e.delta <= 0 ==> Manager.Navigate(idx, n, e, Handle(e)) == Manager.PrevIndex(idx, n)
    ensures !e.Rotate? ==> Manager.Navigate(idx, n, e, Handle(e)) == idx
  {
  }
}
