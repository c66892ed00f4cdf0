/**
  The form's tab index: `switchTab`, `previousTab`, `nextTab` and the
  visibility of the two navigation buttons, on the index alone. Each
  operation takes the list `this.tabs` as `tabs`; the application's list is
  `TabNames`, whose names are distinct, and the properties are stated for
  any list of distinct names.
*/
module Tabs {
  import opened Lists

  /** `this.tabs`, in page order. */
  const TabNames: seq<string> := ["personal", "candidate", "experience", "projects", "education", "skills", "job"]

  lemma TabNamesDistinct()
    ensures Distinct(TabNames) && |TabNames| == 7
  {
  }

  /** `xs.indexOf(x)`: the first position holding `x`, or -1. */
  function IndexOf(xs: seq<string>, x: string): (r: int)
    ensures -1 <= r < |xs|
    ensures r == -1 <==> x !in xs
    ensures 0 <= r ==> xs[r] == x && x !in xs[..r]
    decreases |xs|
  {
    if xs == [] then -1
    else if xs[0] == x then 0
    else
      var k := IndexOf(xs[1..], x);
      assert xs[1..] == xs[1..][..|xs| - 1];
      if k == -1 then -1
      else
        assert xs[..k + 1] == [xs[0]] + xs[1..][..k];
        k + 1
  }

  /** In a list without repeats, looking up the entry at `i` finds `i`. */
  lemma {:induction false} IndexOfDistinct(xs: seq<string>, i: nat)
    requires Distinct(xs) && i < |xs|
    ensures IndexOf(xs, xs[i]) == i
  {
    var r := IndexOf(xs, xs[i]);
    assert xs[r] == xs[i];
  }

  /**
    `switchTab(tabName)` on the index. A name with no tab panel makes the
    DOM lookup fail before the assignment, so the index stays as it was.
  */
  function SwitchTab(tabs: seq<string>, current: int, name: string): (r: int)
    ensures name in tabs ==> 0 <= r < |tabs| && tabs[r] == name
    ensures name !in tabs ==> r == current
  {
    if name in tabs then IndexOf(tabs, name) else current
  }

  /** `previousTab()`; `tabs[k]` outside the list is `undefined`, which has no panel. */
  function PreviousTab(tabs: seq<string>, current: int): (r: int)
    ensures Distinct(tabs) && 0 < current <= |tabs| ==> r == current - 1
    ensures current <= 0 || current > |tabs| ==> r == current
  {
    if current > 0 then
      if current - 1 < |tabs| then
        SwitchTab(tabs, current, tabs[current - 1])
      else current
    else current
  }

  /** `nextTab()`. */
  function NextTab(tabs: seq<string>, current: int): (r: int)
    ensures Distinct(tabs) && -1 <= current < |tabs| - 1 ==> r == current + 1
    ensures current < -1 || current >= |tabs| - 1 ==> r == current
  {
    if current < |tabs| - 1 then
      if 0 <= current + 1 then
        SwitchTab(tabs, current, tabs[current + 1])
      else current
    else current
  }

  /** `currentTab` names a tab. */
  predicate ValidTab(tabs: seq<string>, current: int) {
    0 <= current < |tabs|
  }

  /** The constructor's index is valid, and every transition keeps it valid. */
  lemma TabIndexStaysValid(tabs: seq<string>, current: int, name: string)
    requires Distinct(tabs)
    ensures tabs != [] ==> ValidTab(tabs, 0)
    ensures ValidTab(tabs, current) ==> ValidTab(tabs, SwitchTab(tabs, current, name))
    ensures ValidTab(tabs, current) ==> ValidTab(tabs, PreviousTab(tabs, current))
    ensures ValidTab(tabs, current) ==> ValidTab(tabs, NextTab(tabs, current))
  {
  }

  /** `nextTab` never goes past the last tab from a valid index. */
  lemma NextTabBounded(tabs: seq<string>, current: int)
    requires Distinct(tabs) && ValidTab(tabs, current)
    ensures NextTab(tabs, current) <= |tabs| - 1
    ensures NextTab(tabs, current) == |tabs| - 1 <==> current >= |tabs| - 2
  {
  }

  /** Stepping back undoes stepping forward, and the other way round, away from the ends. */
  lemma PreviousUndoesNext(tabs: seq<string>, current: int)
    requires Distinct(tabs)
    ensures 0 <= current < |tabs| - 1 ==> PreviousTab(tabs, NextTab(tabs, current)) == current
    ensures 0 < current <= |tabs| - 1 ==> NextTab(tabs, PreviousTab(tabs, current)) == current
  {
  }

  /** `updateTabButtons()`: whether Previous and Next are displayed. */
  function TabButtons(tabs: seq<string>, current: int): (shown: (bool, bool)) {
    (current != 0, current != |tabs| - 1)
  }

  /** From a valid index, a button is displayed exactly when pressing it moves. */
  lemma ButtonsShowWhenTheyMove(tabs: seq<string>, current: int)
    requires Distinct(tabs) && ValidTab(tabs, current)
    ensures TabButtons(tabs, current).0 <==> PreviousTab(tabs, current) != current
    ensures TabButtons(tabs, current).1 <==> NextTab(tabs, current) != current
  {
  }

  /** The index after pressing Next `k` times. */
  function PressNext(tabs: seq<string>, current: int, k: nat): int
    decreases k
  {
    if k == 0 then current else NextTab(tabs, PressNext(tabs, current, k - 1))
  }

  /** Pressing Next `k` times from the first tab reaches tab `k`, and stops at the last. */
  lemma {:induction false} PressNextReaches(tabs: seq<string>, k: nat)
    requires Distinct(tabs) && tabs != []
    ensures PressNext(tabs, 0, k) == if k < |tabs| - 1 then k else |tabs| - 1
    decreases k
  {
    if k > 0 {
      PressNextReaches(tabs, k - 1);
      assert PressNext(tabs, 0, k) == NextTab(tabs, PressNext(tabs, 0, k - 1));
    }
  }

  /** The application's seven tabs: six presses of Next from the first reach "job", and a seventh stays there. */
  lemma ApplicationTabs()
    ensures TabNames[PressNext(TabNames, 0, 6)] == "job"
    ensures PressNext(TabNames, 0, 7) == 6
    ensures TabButtons(TabNames, 6) == (true, false)
  {
    TabNamesDistinct();
    PressNextReaches(TabNames, 6);
    PressNextReaches(TabNames, 7);
  }
}
