/**
 The routine list of the main screen: an ordered list of checklist entries,
 the text typed into the "add" box, and whether the collapsible section of
 entries past the tenth is open. Every user action is a pure transition from
 one state to the next; React's state hooks and re-rendering are not modelled.
 */
module RoutineList {
  import Text

  /** Entries past this many are shown only in the collapsible section. */
  const VisibleLimit: nat := 10

  /** One checklist entry. */
  datatype RoutineItem = RoutineItem(text: string, completed: bool)

  /** The list, the add box's text and the flag that opens the hidden section. */
  datatype ListState = ListState(items: seq<RoutineItem>, input: string, showHidden: bool)

  /** The state when the screen is first shown. */
  function Initial(): ListState {
    ListState([], "", false)
  }

  /** Typing into the add box replaces its text and touches nothing else. */
  function SetInput(s: ListState, text: string): (r: ListState)
    ensures r.input == text
    ensures r.items == s.items && r.showHidden == s.showHidden
  {
    s.(input := text)
  }

  /**
   The add button: a non-blank box text is appended, untrimmed and not yet
   completed, and the box is cleared; a blank box text changes nothing.
   */
  function AddItem(s: ListState): (r: ListState)
    ensures Text.IsBlank(s.input) ==> r == s
    ensures !Text.IsBlank(s.input) ==>
              && r.items == s.items + [RoutineItem(s.input, false)]
              && r.input == ""
    ensures r.showHidden == s.showHidden
  {
    if Text.Trim(s.input) != "" then
      s.(items := s.items + [RoutineItem(s.input, false)], input := "")
    else
      s
  }

  /** The check box of entry `i`: flips its completion and nothing else. */
  function ToggleCompletion(s: ListState, i: nat): (r: ListState)
    requires i < |s.items|
    ensures |r.items| == |s.items|
    ensures r.items[i].completed == !s.items[i].completed
    ensures r.items[i].text == s.items[i].text
    ensures forall j :: 0 <= j < |s.items| && j != i ==> r.items[j] == s.items[j]
    ensures r.input == s.input && r.showHidden == s.showHidden
  {
    var item := s.items[i];
    s.(items := s.items[i := item.(completed := !item.completed)])
  }

  /** The trash button of entry `i`: entry `i` is gone, the rest close ranks. */
  function RemoveItem(s: ListState, i: nat): (r: ListState)
    requires i < |s.items|
    ensures |r.items| == |s.items| - 1
    ensures forall j :: 0 <= j < i ==> r.items[j] == s.items[j]
    ensures forall j :: i <= j < |r.items| ==> r.items[j] == s.items[j + 1]
    ensures multiset(r.items) + multiset{s.items[i]} == multiset(s.items)
    ensures r.input == s.input && r.showHidden == s.showHidden
  {
    assert s.items == s.items[..i] + [s.items[i]] + s.items[i + 1..];
    s.(items := s.items[..i] + s.items[i + 1..])
  }

  /**
   Editing the text field of entry `i`: the new text is stored verbatim (no
   trimming, the empty string allowed); completion and other entries stay.
   */
  function ModifyItem(s: ListState, i: nat, text: string): (r: ListState)
    requires i < |s.items|
    ensures |r.items| == |s.items|
    ensures r.items[i] == RoutineItem(text, s.items[i].completed)
    ensures forall j :: 0 <= j < |s.items| && j != i ==> r.items[j] == s.items[j]
    ensures r.input == s.input && r.showHidden == s.showHidden
  {
    s.(items := s.items[i := s.items[i].(text := text)])
  }

  /** The view-more button: opens or closes the hidden section. */
  function ToggleHidden(s: ListState): (r: ListState)
    ensures r.showHidden == !s.showHidden
    ensures r.items == s.items && r.input == s.input
  {
    s.(showHidden := !s.showHidden)
  }

  /** Number of entries shown outside the collapsible section. */
  function VisibleCount(items: seq<RoutineItem>): (n: nat)
    ensures n <= |items| && n <= VisibleLimit
    ensures n == |items| || n == VisibleLimit
  {
    if |items| < VisibleLimit then |items| else VisibleLimit
  }

  /** `items.slice(0, 10)`. */
  function Visible(items: seq<RoutineItem>): (v: seq<RoutineItem>)
    ensures |v| == VisibleCount(items)
    ensures forall j :: 0 <= j < |v| ==> v[j] == items[j]
  {
    items[..VisibleCount(items)]
  }

  /** `items.slice(10)`. */
  function Hidden(items: seq<RoutineItem>): (h: seq<RoutineItem>)
    ensures |h| == |items| - VisibleCount(items)
    ensures forall k :: 0 <= k < |h| ==> h[k] == items[VisibleLimit + k]
  {
    items[VisibleCount(items)..]
  }

  /** The view-more button is rendered only when something is hidden. */
  function HasViewMore(s: ListState): (b: bool)
    ensures b <==> |s.items| > VisibleLimit
  {
    |Hidden(s.items)| > 0
  }

  /** The entries on screen: the visible ones, then the hidden ones if open. */
  function Rendered(s: ListState): (r: seq<RoutineItem>)
    ensures |r| == if s.showHidden then |s.items| else VisibleCount(s.items)
    ensures forall j :: 0 <= j < |r| ==> r[j] == s.items[j]
  {
    Visible(s.items) + (if s.showHidden then Hidden(s.items) else [])
  }

  /** Splitting loses and reorders nothing. */
  lemma SplitIsPartition(items: seq<RoutineItem>)
    ensures Visible(items) + Hidden(items) == items
  {
  }

  /** Something is hidden exactly when there are more than ten entries. */
  lemma ViewMoreIffOverLimit(s: ListState)
    ensures HasViewMore(s) <==> |s.items| > VisibleLimit
    ensures HasViewMore(s) ==> |Visible(s.items)| == VisibleLimit
  {
  }

  /** With the section open every entry is on screen, in list order. */
  lemma OpenShowsEverything(s: ListState)
    requires s.showHidden
    ensures Rendered(s) == s.items
  {
    SplitIsPartition(s.items);
  }

  /** Toggling an entry twice restores the original state. */
  lemma ToggleCompletionTwice(s: ListState, i: nat)
    requires i < |s.items|
    ensures ToggleCompletion(ToggleCompletion(s, i), i) == s
  {
  }

  /** Opening and closing the section restores the original state. */
  lemma ToggleHiddenTwice(s: ListState)
    ensures ToggleHidden(ToggleHidden(s)) == s
  {
  }

  /**
   Removing entry `i` keeps the relative order of the others: entries `j < k`
   other than `i` are still in that order, at `j` or `j - 1` and `k` or `k - 1`.
   */
  lemma RemoveKeepsOrder(s: ListState, i: nat, j: nat, k: nat)
    requires i < |s.items| && j < k < |s.items| && j != i && k != i
    ensures var r := RemoveItem(s, i).items;
            var j' := if j < i then j else j - 1;
            var k' := if k < i then k else k - 1;
            j' < k' < |r| && r[j'] == s.items[j] && r[k'] == s.items[k]
  {
  }

  /** Pressing add twice adds once: the first press clears the box. */
  lemma AddItemClearsInput(s: ListState)
    requires !Text.IsBlank(s.input)
    ensures AddItem(AddItem(s)) == AddItem(s)
  {
  }

  /** The first screen shows no entries, no view-more button and an empty box. */
  lemma InitialIsEmpty(t: string)
    ensures Rendered(Initial()) == [] && !HasViewMore(Initial())
    ensures Initial().input == "" && !Initial().showHidden
    ensures !Text.IsBlank(t) ==>
              Rendered(AddItem(SetInput(Initial(), t))) == [RoutineItem(t, false)]
  {
  }

  // ---------------------------------------------------------------------------
  // The rendered controls and the index each passes to its handler.
  // ---------------------------------------------------------------------------

  /**
   A user action on the screen. Controls of the visible section carry the
   index of their entry within `Visible`; controls of the hidden section the
   index of their entry within `Hidden`, as the render loop numbers them.
   */
  datatype Event =
    | InputChanged(text: string)
    | AddPressed
    | ViewMorePressed
    | VisibleToggle(k: nat)
    | VisibleEdit(k: nat, text: string)
    | VisibleRemove(k: nat)
    | HiddenToggle(k: nat)
    | HiddenEdit(k: nat, text: string)
    | HiddenRemove(k: nat)

  /**
   The control that raises `e` is on screen in state `s`. A rendered control
   always names an existing entry, so the handler's unguarded index is in range.
   */
  function Enabled(s: ListState, e: Event): (b: bool)
    ensures e.InputChanged? || e.AddPressed? ==> b
    ensures e.ViewMorePressed? ==> (b <==> |s.items| > VisibleLimit)
    ensures (e.VisibleToggle? || e.VisibleEdit? || e.VisibleRemove?) ==>
              (b <==> e.k < VisibleCount(s.items))
    ensures (e.HiddenToggle? || e.HiddenEdit? || e.HiddenRemove?) ==>
              (b <==> s.showHidden && VisibleLimit + e.k < |s.items|)
    ensures b && (e.VisibleToggle? || e.VisibleEdit? || e.VisibleRemove?) ==>
              e.k < |s.items| && e.k < VisibleLimit
    ensures b && (e.HiddenToggle? || e.HiddenEdit? || e.HiddenRemove?) ==>
              s.showHidden && VisibleLimit + e.k < |s.items|
  {
    match e
    case InputChanged(_) => true
    case AddPressed => true
    case ViewMorePressed => HasViewMore(s)
    case VisibleToggle(k) => k < |Visible(s.items)|
    case VisibleEdit(k, _) => k < |Visible(s.items)|
    case VisibleRemove(k) => k < |Visible(s.items)|
    case HiddenToggle(k) => s.showHidden && k < |Hidden(s.items)|
    case HiddenEdit(k, _) => s.showHidden && k < |Hidden(s.items)|
    case HiddenRemove(k) => s.showHidden && k < |Hidden(s.items)|
  }

  /**
   Runs the handler behind `e`. A hidden-section control for entry `k` of
   `Hidden` passes `hiddenBase + k` to the handler.
   */
  function Dispatch(s: ListState, e: Event, hiddenBase: nat): (r: ListState)
    requires Enabled(s, e)
    requires hiddenBase <= VisibleLimit
    ensures r.showHidden == (s.showHidden != e.ViewMorePressed?)
    ensures |r.items| == |s.items|
              + (if e.AddPressed? && !Text.IsBlank(s.input) then 1 else 0)
              - (if e.VisibleRemove? || e.HiddenRemove? then 1 else 0)
    ensures e.InputChanged? ==> r.input == e.text
    ensures e.AddPressed? ==> r.input == (if Text.IsBlank(s.input) then s.input else "")
    ensures !e.InputChanged? && !e.AddPressed? ==> r.input == s.input
    ensures e.InputChanged? ==> r == SetInput(s, e.text)
    ensures e.AddPressed? ==> r == AddItem(s)
    ensures e.ViewMorePressed? ==> r == ToggleHidden(s)
    ensures e.VisibleToggle? ==> r == ToggleCompletion(s, e.k)
    ensures e.VisibleEdit? ==> r == ModifyItem(s, e.k, e.text)
    ensures e.VisibleRemove? ==> r == RemoveItem(s, e.k)
    ensures e.HiddenToggle? ==> r == ToggleCompletion(s, hiddenBase + e.k)
    ensures e.HiddenEdit? ==> r == ModifyItem(s, hiddenBase + e.k, e.text)
    ensures e.HiddenRemove? ==> r == RemoveItem(s, hiddenBase + e.k)
  {
    match e
    case InputChanged(t) => SetInput(s, t)
    case AddPressed => AddItem(s)
    case ViewMorePressed => ToggleHidden(s)
    case VisibleToggle(k) => ToggleCompletion(s, k)
    case VisibleEdit(k, t) => ModifyItem(s, k, t)
    case VisibleRemove(k) => RemoveItem(s, k)
    case HiddenToggle(k) => ToggleCompletion(s, hiddenBase + k)
    case HiddenEdit(k, t) => ModifyItem(s, hiddenBase + k, t)
    case HiddenRemove(k) => RemoveItem(s, hiddenBase + k)
  }

  /**
   The screen as written: the hidden section's controls pass their position
   within `Hidden` unchanged, so the handler acts on that absolute position.
   */
  function Step(s: ListState, e: Event): (r: ListState)
    requires Enabled(s, e)
    ensures e.InputChanged? ==> r == SetInput(s, e.text)
    ensures e.AddPressed? ==> r == AddItem(s)
    ensures e.ViewMorePressed? ==> r == ToggleHidden(s)
    ensures e.VisibleToggle? ==> r == ToggleCompletion(s, e.k)
    ensures e.VisibleEdit? ==> r == ModifyItem(s, e.k, e.text)
    ensures e.VisibleRemove? ==> r == RemoveItem(s, e.k)
    ensures e.HiddenToggle? ==> r == ToggleCompletion(s, e.k)
    ensures e.HiddenEdit? ==> r == ModifyItem(s, e.k, e.text)
    ensures e.HiddenRemove? ==> r == RemoveItem(s, e.k)
  {
    Dispatch(s, e, 0)
  }

  /**
   The screen as evidently intended: hidden controls offset their position by
   the ten visible entries, so they act on the entry they are drawn next to.
   */
  function StepIntended(s: ListState, e: Event): (r: ListState)
    requires Enabled(s, e)
    ensures e.InputChanged? ==> r == SetInput(s, e.text)
    ensures e.AddPressed? ==> r == AddItem(s)
    ensures e.ViewMorePressed? ==> r == ToggleHidden(s)
    ensures e.VisibleToggle? ==> r == ToggleCompletion(s, e.k)
    ensures e.VisibleEdit? ==> r == ModifyItem(s, e.k, e.text)
    ensures e.VisibleRemove? ==> r == RemoveItem(s, e.k)
    ensures e.HiddenToggle? ==> r == ToggleCompletion(s, VisibleLimit + e.k)
    ensures e.HiddenEdit? ==> r == ModifyItem(s, VisibleLimit + e.k, e.text)
    ensures e.HiddenRemove? ==> r == RemoveItem(s, VisibleLimit + e.k)
  {
    Dispatch(s, e, VisibleLimit)
  }

  /** A visible control acts on the entry it is drawn next to. */
  lemma VisibleControlActsOnItsEntry(s: ListState, k: nat)
    requires Enabled(s, VisibleToggle(k))
    ensures Step(s, VisibleToggle(k)).items[k].completed != Visible(s.items)[k].completed
    ensures Step(s, VisibleToggle(k)).items[k].text == Visible(s.items)[k].text
  {
  }

  /**
   As written, the check box drawn next to hidden entry `k` (list entry
   `10 + k`) flips entry `k` instead, and leaves entry `10 + k` untouched.
   */
  lemma HiddenToggleHitsWrongEntry(s: ListState, k: nat)
    requires Enabled(s, HiddenToggle(k))
    ensures var r := Step(s, HiddenToggle(k)).items;
            && r[k].completed != s.items[k].completed
            && r[VisibleLimit + k] == s.items[VisibleLimit + k]
            && r[VisibleLimit + k] == Hidden(s.items)[k]
  {
  }

  /**
   As written, hidden entry `k`'s trash button deletes list entry `k`; the
   entry drawn next to it, list entry `10 + k`, survives one place down.
   */
  lemma HiddenRemoveHitsWrongEntry(s: ListState, k: nat)
    requires Enabled(s, HiddenRemove(k))
    ensures var r := Step(s, HiddenRemove(k)).items;
            && r == s.items[..k] + s.items[k + 1..]
            && r[VisibleLimit + k - 1] == s.items[VisibleLimit + k]
  {
  }

  /** A concrete instance: eleven unchecked entries, tap hidden entry 0. */
  lemma HiddenToggleCounterexample()
    ensures var s := ListState(seq(11, j => RoutineItem("", false)), "", true);
            && Enabled(s, HiddenToggle(0))
            && Step(s, HiddenToggle(0)).items[0].completed
            && !Step(s, HiddenToggle(0)).items[10].completed
  {
  }

  /** Corrected: the check box next to hidden entry `k` flips that entry only. */
  lemma IntendedHiddenToggleActsOnItsEntry(s: ListState, k: nat)
    requires Enabled(s, HiddenToggle(k))
    ensures var r := StepIntended(s, HiddenToggle(k));
            && Hidden(r.items)[k].completed == !Hidden(s.items)[k].completed
            && Hidden(r.items)[k].text == Hidden(s.items)[k].text
            && Visible(r.items) == Visible(s.items)
            && |Hidden(r.items)| == |Hidden(s.items)|
            && forall j :: 0 <= j < |Hidden(s.items)| && j != k ==>
                 Hidden(r.items)[j] == Hidden(s.items)[j]
  {
  }

  /** Corrected: editing hidden entry `k` changes that entry's text only. */
  lemma IntendedHiddenEditActsOnItsEntry(s: ListState, k: nat, text: string)
    requires Enabled(s, HiddenEdit(k, text))
    ensures var r := StepIntended(s, HiddenEdit(k, text));
            && Hidden(r.items)[k] == RoutineItem(text, Hidden(s.items)[k].completed)
            && Visible(r.items) == Visible(s.items)
            && |Hidden(r.items)| == |Hidden(s.items)|
            && forall j :: 0 <= j < |Hidden(s.items)| && j != k ==>
                 Hidden(r.items)[j] == Hidden(s.items)[j]
  {
  }

  /** Corrected: hidden entry `k`'s trash button deletes exactly that entry. */
  lemma IntendedHiddenRemoveActsOnItsEntry(s: ListState, k: nat)
    requires Enabled(s, HiddenRemove(k))
    ensures var r := StepIntended(s, HiddenRemove(k)).items;
            && multiset(r) + multiset{Hidden(s.items)[k]} == multiset(s.items)
            && Visible(r) == Visible(s.items)
            && Hidden(r) == Hidden(s.items)[..k] + Hidden(s.items)[k + 1..]
  {
  }

  /** Only the view-more button moves the section flag; it never edits entries. */
  lemma ViewMoreOnlyFlipsFlag(s: ListState, e: Event)
    requires Enabled(s, e)
    ensures Step(s, e).showHidden == (if e.ViewMorePressed? then !s.showHidden else s.showHidden)
    ensures e.ViewMorePressed? ==> Step(s, e).items == s.items
  {
  }

  /** Twelve entries: ten shown, two hidden until the section is opened. */
  lemma TwelveEntriesExample(items: seq<RoutineItem>)
    requires |items| == 12
    ensures var s := ListState(items, "", false);
            && Rendered(s) == items[..10]
            && Rendered(ToggleHidden(s)) == items
            && ToggleHidden(ToggleHidden(s)) == s
            && HasViewMore(s)
  {
    OpenShowsEverything(ToggleHidden(ListState(items, "", false)));
  }
}
