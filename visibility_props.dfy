/** What a visibility request promises: the callback runs exactly when the
    visibility really changes, and carries the new value. */
module VisibilityProps {
  import opened Dispatch

  /** The request always ends with the requested visibility; it notifies once,
      with that value, on a change, and not at all otherwise. */
  lemma NotifiesOnlyOnChange(visible: bool, active: bool)
    ensures var s := VisibilityAfter(visible, active);
            && s.visible == active
            && |s.events| == (if active == visible then 0 else 1)
            && forall e :: e in s.events ==> e == VisibilityChanged(active)
  {
  }

  /** Repeating a request changes nothing and notifies no one. */
  lemma RepeatIsSilent(visible: bool, active: bool)
    ensures var once := VisibilityAfter(visible, active);
            VisibilityAfter(once.visible, active) == Shown(once.visible, [])
  {
  }

  /** Switching twice restores the visibility, with one notification each way. */
  lemma SwitchTwiceRestores(visible: bool)
    ensures var once := VisibilityAfter(visible, !visible);
            var twice := VisibilityAfter(once.visible, !once.visible);
            && twice.visible == visible
            && once.events + twice.events == [VisibilityChanged(!visible), VisibilityChanged(visible)]
  {
  }
}
