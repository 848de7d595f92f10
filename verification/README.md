# Main screen logic of the routine app, in Dafny

The main screen of the app (`Mainpage.tsx`) shows a week strip of seven days
and an editable routine list. This project models the two pieces of logic
behind them as pure functions and proves what they promise.

- `Text` (`text.dfy`): JavaScript's `String.prototype.trim`. It is defined for
  any set of strippable characters and then used with the fixed set of white
  space and line terminators from sections 11.2 and 11.3 of ECMAScript 2015.
  It is empty exactly when the input is blank.
- `RoutineList` (`routine_list.dfy`): the routine-list state. The state is the
  ordered list of `{text, completed}` entries, the add box's text and the flag
  that opens the section of entries past the tenth. `Initial` is the state the
  screen starts in. Every handler is a transition from one state to the next:
  add, toggle, remove, edit, typing into the add box, and view-more. The
  `slice(0, 10)` / `slice(10)` split is modelled too. The `Event` datatype
  names each control on screen, and `Enabled` says when that control is
  rendered. `Step` runs the handler behind an event with the index that the
  control passes, exactly as the screen does.
- `Week` (`week.dfy`): `getWeekDays` and the highlight of the selected day.
  Dates are whole days counted from 1970-01-01, which was a Thursday. The
  weekday is that number shifted and taken mod 7, with Monday as 0.
  `startOfWeek(d, {weekStartsOn: 1})` is the latest Monday on or before `d`.
  `addDays` is addition. `isSameDay` is equality. The weekday label
  (`format(…, 'EEE')`) and the day of the month (`getDate`) are given to
  `GetWeekDays` as function parameters, so they are left uninterpreted.

The toggle, edit and remove handlers index the list without a guard. An
out-of-range index is not a silent no-op: toggling or editing would fail on
`undefined`. The model follows the code and excludes out-of-range indices by
preconditions. Every control is rendered only for an existing entry, so
`Enabled` always meets them.

## Model

| member | source | states |
|---|---|---|
| Text.IsWhitespace | Mainpage.tsx:34 | the characters `trim()` strips: the ECMAScript white space and line terminators |
| Text.IsWhitespaceIffListed | Mainpage.tsx:34 | `IsWhitespace` holds of exactly the 25 characters of an explicit table, in both directions |
| Text.LeadingCount | Mainpage.tsx:34 | the count is at most the length, every counted leading character is strippable, and the next character, if any, is not |
| Text.TrailingCount | Mainpage.tsx:34 | the count is at most the length, every counted trailing character is strippable, and the one before them, if any, is not |
| Text.TrimWith | Mainpage.tsx:34 | the result is the infix starting after the leading strippable characters; everything outside it is strippable; neither of its ends is strippable; it is empty iff every character is strippable |
| Text.Trim | Mainpage.tsx:34 | `trim()` is empty exactly when the text is blank; a non-empty result neither starts nor ends with white space; it is the text between its leading and its trailing white space, and everything outside it is white space |
| RoutineList.Initial | Mainpage.tsx:29-31 | the screen starts with no entries, an empty add box and the hidden section closed |
| RoutineList.InitialIsEmpty | Mainpage.tsx:29-31 | the first screen renders no entry and no view-more button, and adding a non-blank text to it renders exactly that one unchecked entry |
| RoutineList.SetInput | Mainpage.tsx:70-72 | typing replaces the add box's text and leaves the list and the section flag alone |
| RoutineList.AddItem | Mainpage.tsx:33-41 | blank box text: the state is unchanged; otherwise exactly one entry `{text: box text, completed: false}` is appended, the text untrimmed, and the box is cleared |
| RoutineList.AddItemClearsInput | Mainpage.tsx:33-40 | pressing add a second time adds nothing more, because the first press cleared the box |
| RoutineList.ToggleCompletion | Mainpage.tsx:44-48 | entry i's completion flips and its text stays; length, every other entry, the box and the flag are unchanged |
| RoutineList.ToggleCompletionTwice | Mainpage.tsx:44-48 | toggling the same entry twice restores the original state |
| RoutineList.RemoveItem | Mainpage.tsx:50-54 | the length drops by one, entries before i stay in place, entries after i move down one, and the multiset loses exactly entry i |
| RoutineList.RemoveKeepsOrder | Mainpage.tsx:50-54 | any two other entries keep their relative order after a removal |
| RoutineList.ModifyItem | Mainpage.tsx:56-60 | entry i becomes `{text: new text verbatim, completed: as before}`; length and every other entry are unchanged |
| RoutineList.ToggleHidden | Mainpage.tsx:106-109 | the view-more button flips the section flag and changes neither the list nor the box |
| RoutineList.ToggleHiddenTwice | Mainpage.tsx:108 | opening and then closing the section restores the original state |
| RoutineList.VisibleCount | Mainpage.tsx:62 | the number of visible entries is the smaller of 10 and the list length |
| RoutineList.Visible | Mainpage.tsx:62 | the visible part is the first min(10, length) entries, in list order |
| RoutineList.Hidden | Mainpage.tsx:63 | hidden entry k is list entry 10 + k, and the hidden part holds all entries past the tenth |
| RoutineList.HasViewMore | Mainpage.tsx:105 | the view-more button is rendered exactly when the list has more than 10 entries |
| RoutineList.Rendered | Mainpage.tsx:80-143 | the entries on screen are a prefix of the list: all of it when the section is open, else the first min(10, length) |
| RoutineList.SplitIsPartition | Mainpage.tsx:62-63 | visible followed by hidden is exactly the list |
| RoutineList.ViewMoreIffOverLimit | Mainpage.tsx:105-112 | the view-more button is rendered iff the list has more than 10 entries, and then exactly 10 are visible |
| RoutineList.OpenShowsEverything | Mainpage.tsx:80-143 | with the section open, the entries on screen are the whole list in order |
| RoutineList.TwelveEntriesExample | Mainpage.tsx:62-63 | with 12 entries, 10 are shown; opening the section shows all 12; closing it again gives back the same state |
| RoutineList.ViewMoreOnlyFlipsFlag | Mainpage.tsx:105-112 | only the view-more button changes the section flag, and it never changes the entries |
| RoutineList.VisibleControlActsOnItsEntry | Mainpage.tsx:80-103 | a visible entry's check box flips the entry it is drawn next to |
| RoutineList.Enabled | Mainpage.tsx:80-136 | typing and add are always rendered; view-more iff there are more than 10 entries; a visible control for entry k iff k < min(10, length); a hidden control for hidden entry k iff the section is open and 10 + k is an existing entry |
| RoutineList.Dispatch | Mainpage.tsx:70-136 | each control runs its own handler: typing runs `SetInput`, add runs `AddItem`, view-more runs `ToggleHidden`, a visible control for entry k runs its handler on k, and a hidden control for hidden entry k runs it on the given base + k; only view-more flips the section flag; the length grows by one only on a non-blank add and shrinks by one only on a remove; only typing and a non-blank add change the box |
| RoutineList.Step | Mainpage.tsx:70-136 | typing, add, view-more and every visible control run their handler on the entry they are drawn next to; a hidden-section control for hidden entry k calls its handler with k, so it acts on absolute list entry k |
| RoutineList.HiddenToggleHitsWrongEntry | Mainpage.tsx:116-127 | hidden entry k's check box flips list entry k and leaves list entry 10 + k, the one drawn, untouched |
| RoutineList.HiddenRemoveHitsWrongEntry | Mainpage.tsx:133-136 | hidden entry k's trash button removes list entry k, and the entry drawn next to it, list entry 10 + k, survives one place down |
| RoutineList.HiddenToggleCounterexample | Mainpage.tsx:116-127 | with 11 unchecked entries and the section open, tapping hidden entry 0 checks entry 0 and leaves entry 10 unchecked |
| RoutineList.StepIntended | Mainpage.tsx:70-136 | the same as `Step` for typing, add, view-more and the visible controls; with the offset restored, hidden entry k's controls call their handlers with 10 + k |
| RoutineList.IntendedHiddenToggleActsOnItsEntry | Mainpage.tsx:116-127 | corrected: hidden entry k's check box flips exactly hidden entry k and keeps its text; the visible part, the number of hidden entries and every other hidden entry are unchanged |
| RoutineList.IntendedHiddenEditActsOnItsEntry | Mainpage.tsx:128-131 | corrected: editing hidden entry k sets that entry's text and keeps its completion; the visible part, the number of hidden entries and every other hidden entry are unchanged |
| RoutineList.IntendedHiddenRemoveActsOnItsEntry | Mainpage.tsx:133-136 | corrected: hidden entry k's trash button removes exactly that entry; the visible part is unchanged and the other hidden entries close ranks in order |
| Week.Weekday | Mainpage.tsx:339 | the weekday number lies in 0..6 |
| Week.EpochIsThursday | Mainpage.tsx:339 | day 0 (1970-01-01) is a Thursday under the Monday-first numbering |
| Week.WeekdayOfAddDays | Mainpage.tsx:343 | adding n days advances the weekday by n mod 7 |
| Week.AddDays | Mainpage.tsx:343 | definition: `addDays` is `+` on day numbers; its weekday behaviour is stated by `WeekdayOfAddDays` |
| Week.StartOfWeek | Mainpage.tsx:339 | the week start is a Monday, on or before the date and less than a week before it |
| Week.MondaysAreAWeekApart | Mainpage.tsx:339 | two different Mondays are at least a week apart |
| Week.StartOfWeekIsLatestMonday | Mainpage.tsx:339 | every Monday on or before the date is on or before the week start |
| Week.StartOfWeekWithinWeek | Mainpage.tsx:339-343 | every day of a Monday-started week has that week's start |
| Week.GetWeekDays | Mainpage.tsx:338-352 | exactly 7 cells; cell i is dated week start + i, labelled with that day's `format`, and carries that day's `getDate` |
| Week.WeekRunsMondayToSunday | Mainpage.tsx:338-352 | the first cell is a Monday, cell i has weekday i, and the dates are consecutive |
| Week.IsSameDay | Mainpage.tsx:188 | definition: `isSameDay` is equality of day numbers |
| Week.Highlights | Mainpage.tsx:184-192 | definition: cell i is highlighted when `IsSameDay(cell date, date)`; that exactly one cell is, is stated by `ExactlyOneHighlighted` |
| Week.CountTrueOneHot | Mainpage.tsx:183-189 | a flag sequence that is true at exactly one position has one true entry |
| Week.ExactlyOneHighlighted | Mainpage.tsx:183-189 | the reference date is the cell at its weekday's position and the only highlighted cell |
| Week.SelectingACellKeepsTheWeek | Mainpage.tsx:197-198 | tapping any cell selects a date whose week start is the same, so the strip shows the same week |
| Week.WednesdayExample | Mainpage.tsx:338-352 | a Wednesday's strip starts two days before it and ends four days after it |

## Findings

| source | as written | input that shows it | evidently intended | confidence | as-written member | corrected member |
|---|---|---|---|---|---|---|
| Mainpage.tsx:116-136 | the hidden section's controls pass their position within `hiddenRoutineItems` to handlers that index the whole list | 11 unchecked entries, section open, tap the check box of hidden entry 0 (list entry 10): list entry 0 becomes checked and entry 10 stays unchecked | pass 10 + k, the position of the entry in the whole list | high; not executed | RoutineList.HiddenToggleCounterexample | RoutineList.IntendedHiddenToggleActsOnItsEntry |

`Step` keeps the behaviour as written, because that is what the screen does.
`StepIntended` is the corrected dispatch. Both come from one `Dispatch`
function that takes the offset as a parameter.

## Left out

- Rendering, layout, styles, the `key` props and the icon shortcuts (water, sleep, wash): presentation only, and the icons have no handlers. The commented-out menu bar is not code.
- React's `useState` and `useEffect` scheduling and re-rendering: the state is an explicit record, and the week is recomputed by calling `GetWeekDays`. Because the routine-list component is declared inside the main screen's body (Mainpage.tsx:28), every re-render of the main screen, such as the `setWeek` after each date change, mounts it afresh and resets the list to `Initial`; the model does not reproduce this reset.
- The shallow array copy in the toggle and edit handlers mutates the shared entry object. The model uses value semantics.
- Out-of-range and negative indices: the code would throw or hit `splice` edge cases. The model excludes them with preconditions, and `Enabled` shows that rendered controls always meet them.
- Calendar internals of the date library: time of day, time zones, the locale of the `'EEE'` label and the real month arithmetic of `getDate`. Days are integers, and the label and day of month are function parameters.
- The white-space set: a fixed table of the ECMAScript white space and line terminators as of Unicode's current "Zs" category; later changes to that category are not tracked.
- Strings as UTF-16 code units: the model's strings are sequences of Unicode scalar values, so a lone surrogate typed into a text box cannot be represented. For every string that can be, `trim() !== ''` gives the same answer, because every white-space character is a single code unit below U+10000 and not a surrogate.
