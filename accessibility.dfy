/** The keyboard helpers of src/hooks/use-accessibility.tsx: the index rule of
    `useKeyboardNavigation` and the Tab wrap-around of `useFocusTrap`.

    Elements are named by their position among the `n` items (or focusable
    elements); focusing a position outside `[0, n)` does nothing, as
    `items[k]?.focus()` does. */
module Accessibility {
  import opened Text

  // ---------------------------------------------------------------------------
  // useKeyboardNavigation
  // ---------------------------------------------------------------------------

  /** What a key press does besides moving focus. */
  datatype KeyOutcome = KeyOutcome(prevented: bool, selected: Option<int>, focused: Option<int>)

  predicate IsForward(key: string) { key == "ArrowDown" || key == "ArrowRight" }
  predicate IsBackward(key: string) { key == "ArrowUp" || key == "ArrowLeft" }
  predicate IsSelect(key: string) { key == "Enter" || key == " " }
  predicate IsHandled(key: string) {
    IsForward(key) || IsBackward(key) || key == "Home" || key == "End" || IsSelect(key)
  }

  /** The index a navigation key leads to, as a reference definition. */
  function NextIndex(key: string, i: int, n: nat, loop: bool): (j: int)
    ensures IsForward(key) && i + 1 < n ==> j == i + 1
    ensures IsForward(key) && i + 1 >= n ==> j == (if loop then 0 else n - 1)
    ensures IsBackward(key) && i - 1 >= 0 ==> j == i - 1
    ensures IsBackward(key) && i - 1 < 0 ==> j == (if loop then n - 1 else 0)
    ensures key == "Home" ==> j == 0
    ensures key == "End" ==> j == n - 1
    ensures !IsForward(key) && !IsBackward(key) && key != "Home" && key != "End" ==> j == i
  {
    if IsForward(key) then (if i + 1 >= n then (if loop then 0 else n - 1) else i + 1)
    else if IsBackward(key) then (if i - 1 < 0 then (if loop then n - 1 else 0) else i - 1)
    else if key == "Home" then 0
    else if key == "End" then n - 1
    else i
  }

  /** `items[k]?.focus()`. */
  function FocusAt(k: int, n: nat): (f: Option<int>)
    ensures f.Some? <==> 0 <= k < n
    ensures f.Some? ==> f.value == k
  {
    if 0 <= k < n then Some(k) else None
  }

  /** `handleKeyDown(e, currentIndex)` over `n` items; `loop` defaults to true
      in the hook. */
  method HandleKeyDown(key: string, currentIndex: int, n: nat, loop: bool) returns (out: KeyOutcome)
    ensures out.prevented <==> IsHandled(key)
    ensures IsSelect(key) ==> out.selected == Some(currentIndex) && out.focused.None?
    ensures !IsSelect(key) ==> out.selected.None? && out.focused == FocusAt(NextIndex(key, currentIndex, n, loop), n)
  {
    var nextIndex := currentIndex;
    var prevented := false;
    if key == "ArrowDown" || key == "ArrowRight" {
      prevented := true;
      nextIndex := currentIndex + 1;
      if nextIndex >= n {
        nextIndex := if loop then 0 else n - 1;
      }
    } else if key == "ArrowUp" || key == "ArrowLeft" {
      prevented := true;
      nextIndex := currentIndex - 1;
      if nextIndex < 0 {
        nextIndex := if loop then n - 1 else 0;
      }
    } else if key == "Home" {
      prevented := true;
      nextIndex := 0;
    } else if key == "End" {
      prevented := true;
      nextIndex := n - 1;
    } else if key == "Enter" || key == " " {
      return KeyOutcome(true, Some(currentIndex), None);
    }
    out := KeyOutcome(prevented, None, FocusAt(nextIndex, n));
  }

  /** From a position among `n > 0` items every key leads to a position among
      them, so some item is always focused. */
  lemma NextIndexInRange(key: string, i: int, n: nat, loop: bool)
    requires 0 <= i < n
    ensures 0 <= NextIndex(key, i, n, loop) < n
  {
  }

  /** With looping, forward then backward returns to the start, and so does
      backward then forward. */
  lemma ForwardBackwardCancel(i: int, n: nat)
    requires 0 <= i < n
    ensures NextIndex("ArrowUp", NextIndex("ArrowDown", i, n, true), n, true) == i
    ensures NextIndex("ArrowRight", NextIndex("ArrowLeft", i, n, true), n, true) == i
  {
  }

  /** Without looping, the ends stick: forward from the last item and backward
      from the first stay put. */
  lemma WithoutLoopEndsStick(n: nat)
    requires n > 0
    ensures NextIndex("ArrowDown", n - 1, n, false) == n - 1
    ensures NextIndex("ArrowUp", 0, n, false) == 0
    ensures NextIndex("ArrowDown", n - 1, n, true) == 0
  {
  }

  /** The position reached by `k` forward presses with looping from `i`. */
  function ForwardPresses(i: int, k: nat, n: nat): int
    decreases k
  {
    if k == 0 then i else NextIndex("ArrowDown", ForwardPresses(i, k - 1, n), n, true)
  }

  /** From the first item, `k < n` forward presses reach item `k`, and `n`
      presses come back round to the first. */
  lemma {:induction false} ForwardPressesWalkTheList(k: nat, n: nat)
    requires k <= n && n > 0
    ensures ForwardPresses(0, k, n) == (if k < n then k else 0)
    decreases k
  {
    if k > 0 {
      ForwardPressesWalkTheList(k - 1, n);
    }
  }

  // ---------------------------------------------------------------------------
  // useFocusTrap
  // ---------------------------------------------------------------------------

  datatype TrapOutcome = TrapOutcome(focused: Option<nat>, prevented: bool, closed: bool)

  /** The two `keydown` listeners of an active trap over `n` focusable
      elements; `active` is the position of the focused element among them,
      `None` when the focus is elsewhere. */
  function TrapKeyDown(key: string, shift: bool, active: Option<nat>, n: nat): (out: TrapOutcome)
    ensures out.closed <==> key == "Escape"
    ensures out.prevented ==> key == "Tab" && n > 0
    ensures key == "Tab" && n > 0 && !shift && active == Some(n - 1) ==> out.focused == Some(0) && out.prevented
    ensures key == "Tab" && n > 0 && shift && active == Some(0) ==> out.focused == Some(n - 1) && out.prevented
    ensures out.focused.Some? <==> out.prevented
  {
    var closed := key == "Escape";
    if key != "Tab" || n == 0 then TrapOutcome(None, false, closed)
    else if shift then
      (if active == Some(0) then TrapOutcome(Some(n - 1), true, closed) else TrapOutcome(None, false, closed))
    else
      (if active == Some(n - 1) then TrapOutcome(Some(0), true, closed) else TrapOutcome(None, false, closed))
  }

  /** Inside the trap the browser's own Tab order is left alone except at the
      two ends, so focus never leaves the container through Tab. */
  lemma TrapOnlyActsAtTheEnds(shift: bool, k: nat, n: nat)
    requires 0 < k < n - 1
    ensures TrapKeyDown("Tab", shift, Some(k), n) == TrapOutcome(None, false, false)
    ensures TrapKeyDown("Tab", false, Some(n - 1), n).focused == Some(0)
  {
  }

  /** What the trap does when its effect runs: nothing unless active and
      mounted, else it focuses the first focusable element, if any. */
  function TrapMountFocus(isActive: bool, mounted: bool, n: nat): (f: Option<nat>)
    ensures f.Some? <==> isActive && mounted && n > 0
    ensures f.Some? ==> f.value == 0
  {
    if !isActive || !mounted then None else if n > 0 then Some(0) else None
  }
}
