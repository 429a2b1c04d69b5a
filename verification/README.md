# CTO ordering, workload calendar and Reactive roster — a Dafny model

This project models two small pieces of logic in the quoting tool.

**The CTO tab** (`app/cto_pcp.py`) sits on top of a base quote calculation.
- It decides whether a machine model is an RPC model: the name, stripped of white space and upper-cased, starts with "RPC".
- `calc` re-sorts two lists: the machine breakdown rows by (RPC flag, model) and the per-person assignments by (RPC flag, model, role, person number). Non-RPC models come first. Everything else the base calculation returned passes through unchanged.
- It draws a 14-day workload calendar, one row per assignment, twice: once in an on-screen table and once in the printed quote. Engineers on RPC-PH and RPC-OU travel in on day index 1, everyone else on day 0. Onsite days follow the travel-in day and are cut off at index 12. The travel-out day comes straight after the last onsite day.

**The Reactive tab** (`app/reactive_pcp.py`) keeps a roster of resource rows (role, start day, onsite days).
- It is rebuilt from a technician count and an engineer count.
- One field of one row can be edited in place by index.
- The roster can be handed out as a shallow copy.

Modules:
- `Text` (text.dfy): Python's `str.strip()`, `str.upper()` and `str.startswith()`, and the decimal rendering of an int.
- `Ordering` (ordering.dfy): Python's order on strings and on the key tuples, and `sorted()` as a stable insertion sort. Its contract is a permutation, sortedness, and stability: for every key, the items with that key keep their input order.
- `Cto` (cto.dfy):
  - The RPC predicate and a proof of what it accepts.
  - `Calc`.
  - The day-cell classifier `DayCell` as a pure function, with the row shape and counts proved about it.
  - The two row-filling loops as methods proved against that function.
- `Reactive` (reactive.dfy):
  - Each row is a `ResourceRow` class, because the panel mutates rows in place and the copy shares them.
  - The roster is a `ResourceModel` class with a `rows` field.
  - `SetCounts`, `SetStartDay`, `SetOnsiteDays` and `GetResources` are methods with frame conditions.
  - `FreshRoster` is the pure specification of a rebuilt roster, with lemmas about it.

For a negative number of onsite days the model computes exactly what the code does. The onsite range is then empty, and the travel-out day can land on the travel-in day or before day 0. `MarkedDaysFit` states the in-range property only for a non-negative number of days.

## Model

| member | source | states |
|---|---|---|
| Cto.IsRpcExactly | app/cto_pcp.py:87-89 | a model is RPC exactly when, after nothing but leading white space, the letters R, P, C follow in either case |
| Cto.IsRpcHasRpcAt | app/cto_pcp.py:88-89 | an RPC model has R, P, C (any case) where its leading white space ends |
| Cto.RpcAtIsRpc | app/cto_pcp.py:88-89 | leading white space followed by R, P, C in any case makes the model RPC, whatever follows |
| Cto.IsRpcExamples | app/cto_pcp.py:88-89 | " rpc-ph" is an RPC model: leading space and lower case do not matter |
| Cto.NonRpcExamples | app/cto_pcp.py:88-89 | "XRPC" is not an RPC model: "RPC" must come first |
| Cto.LeadingLetterNotR | app/cto_pcp.py:88-89 | a model whose first character is neither white space nor R/r is not RPC |
| Cto.LettersAreNotSpace | app/cto_pcp.py:89 | characters that upper-case to A..Z are not white space, so strip() never removes them |
| Cto.LStripAt | app/cto_pcp.py:89 | strip() on the left removes exactly the white space before the first other character |
| Cto.RStripKeepsWord | app/cto_pcp.py:89 | strip() on the right keeps a leading run of non-space characters intact |
| Cto.Calc | app/cto_pcp.py:109-115 | tech, eng, expenses and other metadata unchanged; both lists are permutations of their input with non-RPC before RPC; machine rows ascend by model within a group; assignments are sorted by (RPC flag, model, role, person number); both sorts are stable |
| Cto.TravelIn | app/cto_pcp.py:129 | the travel-in day is index 1 exactly for an Engineer on model "RPC-PH" or "RPC-OU" (exact text), and index 0 otherwise |
| Cto.OnsiteEnd | app/cto_pcp.py:131 | the last onsite day is at most index 12 |
| Cto.TravelOut | app/cto_pcp.py:132 | the travel-out day is at most index 13 |
| Cto.DayCell | app/cto_pcp.py:134-141 | a day is Travel exactly when it is the travel-in or travel-out day, and Onsite exactly when it lies in the onsite range; so travel days never fall in the onsite range |
| Cto.MarkedDaysFit | app/cto_pcp.py:129-134 | for onsite days >= 0: travel-in < onsite start, onsite end < travel-out <= 13, and every marked day lies in 0..13 |
| Cto.CalendarShape | app/cto_pcp.py:129-141 | for onsite days >= 1 the row is: blanks, one T, min(days, 12 - travel-in) O's, one T, blanks up to 14 cells |
| Cto.ZeroOnsiteDaysShape | app/cto_pcp.py:129-141 | with zero onsite days the two travel days are adjacent and the rest is blank |
| Cto.CountConcat | app/cto_pcp.py:134-141 | the number of cells of a kind in two joined pieces of a row is the sum of the two counts |
| Cto.CountRepeat | app/cto_pcp.py:134-141 | a run of n equal cells holds n cells of that kind and none of any other |
| Cto.CalendarCounts | app/cto_pcp.py:129-141 | for onsite days >= 1: exactly two T cells, min(onsite days, 13 - onsite start) O cells, and the rest blank |
| Cto.CellRenderingsReadBack | app/cto_pcp.py:134-141 | the screen text and the print class of a cell each identify its kind, and both show the same letter |
| Cto.RenderCalendar | app/cto_pcp.py:117-143 | one on-screen row per assignment, in order, each equal to that assignment's specified row |
| Cto.RenderCalendarRow | app/cto_pcp.py:123-143 | the filled row holds the label "role initial, person number, ' - ', model", the RPC/Non-RPC group, and the rendering of the classification of every day 0..13 |
| Cto.RedrawCalendar | app/cto_pcp.py:149-150 | the calendar recalc draws has one row per assignment, each the row of the assignment at that place in calc's sorted order, with every "Non-RPC" row before every "RPC" row |
| Cto.QuoteCalendarRows | app/cto_pcp.py:186-202 | one printed row per assignment, in order, each equal to that assignment's specified row |
| Cto.QuoteCalendarRow | app/cto_pcp.py:187-202 | the printed row holds the label without spaces around the dash, the same group, and the class/text rendering of every day 0..13 |
| Cto.ScreenAndPrintAgree | app/cto_pcp.py:186-202 | screen and print give every assignment the same group, the same classification of every day (both equal to DayCell) and the same cell letters |
| Ordering.StrLeReflexive | app/cto_pcp.py:113-114 | Python's string <= is reflexive |
| Ordering.StrLeTotal | app/cto_pcp.py:113-114 | any two strings are comparable |
| Ordering.StrLeAntisymmetric | app/cto_pcp.py:113-114 | strings that are each <= the other are equal |
| Ordering.StrLeTransitive | app/cto_pcp.py:113-114 | string <= is transitive |
| Ordering.KeyLeTotalOrder | app/cto_pcp.py:113-114 | the lexicographic order on key tuples is a total order |
| Ordering.KeyLeGroupThenModel | app/cto_pcp.py:113-114 | keys in order have their RPC flags in order, and within one flag their models |
| Ordering.Insert | app/cto_pcp.py:113-114 | inserting adds exactly the one item |
| Ordering.InsertSorted | app/cto_pcp.py:113-114 | inserting into a sorted list keeps it sorted |
| Ordering.InsertSelect | app/cto_pcp.py:113-114 | the inserted item goes ahead of the items with the same key, and the others keep their order |
| Ordering.SortBy | app/cto_pcp.py:113-114 | sorted(): a permutation of the input, sorted by the key, with the items of each key in input order |
| Text.LStripSpec | app/cto_pcp.py:89 | left strip keeps the tail after a run of white space, and that tail does not start with white space |
| Text.RStripSpec | app/cto_pcp.py:89 | right strip keeps the head before a run of white space, and that head does not end with white space |
| Text.UpperChar | app/cto_pcp.py:89 | an ASCII lower-case letter becomes the capital at the same alphabet position; any other character is unchanged; no lower-case ASCII letter is produced |
| Text.Upper | app/cto_pcp.py:89 | upper() keeps the length and upper-cases each character on its own |
| Text.UpperMeaning | app/cto_pcp.py:89 | after upper() no lower-case ASCII letter is left, and every other character is unchanged |
| Text.UpperIdempotent | app/cto_pcp.py:89 | upper-casing twice is upper-casing once |
| Text.UpperPrefix | app/cto_pcp.py:89 | upper-casing commutes with taking a prefix |
| Text.NatToString | app/cto_pcp.py:124 | the decimal text of a number is non-empty, all digits, with no leading zero |
| Text.IntToString | app/cto_pcp.py:124 | the decimal text starts with '-' exactly for a negative number |
| Text.ParseNatToString | app/reactive_pcp.py:35 | reading the decimal text of a number back gives the number |
| Text.NatToStringInjective | app/reactive_pcp.py:35-37 | different numbers have different decimal texts |
| Reactive.DaysAreTheWeek | app/reactive_pcp.py:15 | DAYS holds seven distinct names, from "Mon" to "Sun" |
| Reactive.ResourceRow.constructor | app/reactive_pcp.py:18-22 | a new row holds the given role, start day and onsite days |
| Reactive.ValuesOf | app/reactive_pcp.py:139-140 | the contents of a list of rows, one value per row, in order |
| Reactive.Numbered | app/reactive_pcp.py:34-37 | one loop of the roster builder makes max(n, 0) rows |
| Reactive.FreshRosterShape | app/reactive_pcp.py:32-38 | the rebuilt roster has max(t,0) + max(e,0) rows; technician i is "Technician i+1", then engineer i is "Engineer i+1"; every row starts on "Mon" for one day |
| Reactive.TechniciansFirst | app/reactive_pcp.py:34-37 | no technician row comes after an engineer row |
| Reactive.FreshRosterRolesDistinct | app/reactive_pcp.py:34-37 | no two rows of a rebuilt roster share a role |
| Reactive.NumberedRolesDiffer | app/reactive_pcp.py:35-37 | roles with the same prefix and different numbers differ |
| Reactive.NewRows | app/reactive_pcp.py:34-37 | one append loop yields new, distinct row objects whose contents are the numbered rows |
| Reactive.ResourceModel.constructor | app/reactive_pcp.py:28-30 | a new model has no rows |
| Reactive.ResourceModel.SetCounts | app/reactive_pcp.py:32-39 | the roster becomes exactly the rebuilt roster, in new and distinct row objects, so no earlier edit survives |
| Reactive.ResourceModel.SetStartDay | app/reactive_pcp.py:129-132 | in range: only row idx's start day changes, to day; out of range: nothing changes; the list itself is never replaced |
| Reactive.ResourceModel.SetOnsiteDays | app/reactive_pcp.py:134-137 | in range: only row idx's onsite days change, to days; out of range: nothing changes |
| Reactive.ResourceModel.GetResources | app/reactive_pcp.py:139-140 | returns the same row objects in the same order and changes nothing |

## Left out

- The base quote calculation (`super().calc()`), the allocator and the rate and model catalogs are not part of this model. The base result is an input. Its totals, expense lines, other metadata and the quantity, totals and head counts of each machine row are type parameters that `Calc` carries along without looking at them.
- `recalc` (app/cto_pcp.py:145-152) is not modelled as a whole. It runs `super().recalc()`, reapplies the table formatting, calls `calc()` a second time and hands the re-sorted assignments to the on-screen calendar, all inside one `try` that swallows every exception. Its only modelled part is that last step, `Cto.RedrawCalendar`: `Cto.RenderCalendar` applied to the assignments of `Cto.Calc`. Left out are the base recalculation, the formatting, and the half-redrawn table an exception part-way through would leave, because the model has no exceptions.
- `Cto.Calc` returns a new result record. The source instead overwrites the `machine_rows` and `assignments` entries of the base result's own `meta` dict in place (app/cto_pcp.py:113-114). The other values are passed through unchanged, but the model does not capture that it is the same dict object, nor any other holder of a reference to it seeing the change.
- Widget and table construction, column sizing, cell alignment and the legend are not modelled.
- Signals are not modelled: `changed.emit()`, `connect` and the re-render they trigger. The spin box's 1..60 range and the weekday combo box are UI only, so the setters accept any value, as the methods themselves do.
- The HTML assembly of the printed quote is left out, including the machine and expense tables, the requirements list, today's date, the 30-day validity and the base64 logo. The calendar rows are modelled as (label, group, cells) rather than as HTML text.
- `Text.Upper`: only the ASCII letters are mapped. Python's `str.upper()` also maps other letters, some of them to several characters. The model agrees with Python whenever the first three characters left after stripping are ASCII.
- `int(a.onsite_days)` is taken to be the integer onsite-days field already; a float or string value would go through Python's `int()`.
- `Reactive.ResourceModel.SetStartDay` and `Reactive.ResourceModel.SetOnsiteDays` require the roster's rows to be distinct objects. Every roster the model builds has that property, and the methods preserve it.
