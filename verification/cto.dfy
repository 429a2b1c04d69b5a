/** The CTO tab of the quoting tool: the RPC-model predicate, the re-ordering of the
    machine breakdown and the per-person assignments that `calc` applies on top of the
    base quote, and the 14-day workload calendar drawn on screen and in the printed quote. */
module Cto {
  import opened Text
  import opened Ordering

  /** One person's work on one model in one role, as the base quote computes it. */
  datatype Assignment = Assignment(model: string, role: string, personNum: int, onsiteDays: int)

  /** One line of the machine breakdown table: its model, which the ordering reads, and the
      quantity, totals and head counts, which it only carries along (`data`). */
  datatype MachineRow<D> = MachineRow(model: string, data: D)

  /** The four results of the base quote calculation: technician and engineer totals,
      the expense lines and the metadata. Of the metadata only the machine rows and the
      assignments are touched here; every other entry is carried as `otherMeta`. */
  datatype CalcResult<R, E, M, D> = CalcResult(
    tech: R, eng: R, expenses: seq<E>,
    machineRows: seq<MachineRow<D>>, assignments: seq<Assignment>, otherMeta: M)

  function Min(a: int, b: int): int {
    if a <= b then a else b
  }

  // ---------------------------------------------------------------------------
  // RPC models

  /** A model is an RPC model when its name, trimmed and upper-cased, starts with "RPC". */
  predicate IsRpc(model: string) {
    StartsWith(Upper(Strip(model)), "RPC")
  }

  /** The model has the letters R, P, C, in either case, at index k, after nothing but
      white space. */
  predicate RpcAt(model: string, k: int) {
    0 <= k && k + 3 <= |model| && SpaceBetween(model, 0, k) && Upper(model[k..k + 3]) == "RPC"
  }

  /** IsRpc without strip and upper: after some leading white space (and nothing else)
      come the letters R, P, C in either case. */
  lemma IsRpcExactly(model: string)
    ensures IsRpc(model) <==> exists k :: RpcAt(model, k)
  {
    if IsRpc(model) {
      IsRpcHasRpcAt(model);
    }
    if exists k :: RpcAt(model, k) {
      var k :| RpcAt(model, k);
      RpcAtIsRpc(model, k);
    }
  }

  lemma IsRpcHasRpcAt(model: string)
    requires IsRpc(model)
    ensures RpcAt(model, |model| - |LStrip(model)|)
  {
    var t := LStrip(model);
    var k0 := |model| - |t|;
    LStripSpec(model);
    var u := RStrip(t);
    RStripSpec(t);
    assert |u| >= 3 && Upper(u)[..3] == "RPC" by {
      assert Strip(model) == u;
    }
    assert u[..3] == model[k0..k0 + 3] by {
      assert u[..3] == t[..3];
      assert t == model[k0..];
    }
    UpperPrefix(u, 3);
  }

  lemma RpcAtIsRpc(model: string, k: int)
    requires RpcAt(model, k)
    ensures IsRpc(model)
  {
    var word := model[k..k + 3];
    LettersAreNotSpace(word);
    LStripAt(model, k);
    var t := LStrip(model);
    assert t[..3] == word;
    RStripKeepsWord(t, 3);
    var u := RStrip(t);
    assert u[..3] == word;
    UpperPrefix(u, 3);
    assert Strip(model) == u;
  }

  /** A word that upper-cases to ASCII capitals has no white space in it. */
  lemma LettersAreNotSpace(word: string)
    requires forall i :: 0 <= i < |word| ==> 'A' <= Upper(word)[i] <= 'Z'
    ensures forall i :: 0 <= i < |word| ==> !IsSpace(word[i])
  {
    forall i | 0 <= i < |word| ensures !IsSpace(word[i]) {
      var c := word[i];
      assert Upper(word)[i] == UpperChar(c);
      assert 'A' <= c <= 'Z' || 'a' <= c <= 'z';
    }
  }

  /** Where the leading white space ends, LStrip starts. */
  lemma LStripAt(s: string, k: nat)
    requires k < |s| && SpaceBetween(s, 0, k) && !IsSpace(s[k])
    ensures LStrip(s) == s[k..]
  {
    var t := LStrip(s);
    LStripSpec(s);
    assert t[0] == s[|s| - |t|];
  }

  /** RStrip keeps a prefix that contains no white space. */
  lemma RStripKeepsWord(t: string, n: nat)
    requires n <= |t| && forall i :: 0 <= i < n ==> !IsSpace(t[i])
    ensures |RStrip(t)| >= n && RStrip(t)[..n] == t[..n]
  {
    RStripSpec(t);
  }

  /** Leading white space and lower case do not matter. */
  lemma IsRpcExamples()
    ensures IsRpc(" rpc-ph")
  {
    assert " rpc-ph"[1..4] == "rpc";
    RpcAtIsRpc(" rpc-ph", 1);
  }

  /** Anything but white space before "RPC" makes a model non-RPC. */
  lemma NonRpcExamples()
    ensures !IsRpc("XRPC")
  {
    LeadingLetterNotR("XRPC");
  }

  /** A model whose first character is neither white space nor R/r is not an RPC model. */
  lemma LeadingLetterNotR(model: string)
    requires |model| > 0 && !IsSpace(model[0]) && UpperChar(model[0]) != 'R'
    ensures !IsRpc(model)
  {
    if IsRpc(model) {
      assert model[..0] == [];
      LStripAt(model, 0);
      IsRpcHasRpcAt(model);
      assert false;
    }
  }

  /** The first component of both sort keys: 0 for non-RPC models, 1 for RPC models. */
  function RpcGroup(model: string): int {
    if IsRpc(model) then 1 else 0
  }

  /** The machine-row key (RPC group, model). */
  function RowKey<D>(r: MachineRow<D>): SortKey {
    SortKey(RpcGroup(r.model), r.model, "", 0)
  }

  /** The assignment key (RPC group, model, role, person number). */
  function AssignmentKey(a: Assignment): SortKey {
    SortKey(RpcGroup(a.model), a.model, a.role, a.personNum)
  }

  // ---------------------------------------------------------------------------
  // calc: regroup the base result so that RPC models come last

  /** The CTO `calc`: the base result with machine rows and assignments stably re-sorted,
      non-RPC models first, everything else passed through. */
  function Calc<R, E, M, D>(base: CalcResult<R, E, M, D>): (r: CalcResult<R, E, M, D>)
    // nothing but the two lists changes
    ensures r.tech == base.tech && r.eng == base.eng && r.expenses == base.expenses
    ensures r.otherMeta == base.otherMeta
    // machine rows: a permutation, non-RPC before RPC, by model within a group, stable
    ensures multiset(r.machineRows) == multiset(base.machineRows)
    ensures forall i, j :: 0 <= i < j < |r.machineRows| && IsRpc(r.machineRows[i].model) ==>
      IsRpc(r.machineRows[j].model)
    ensures forall i, j ::
      0 <= i < j < |r.machineRows| && IsRpc(r.machineRows[i].model) == IsRpc(r.machineRows[j].model)
      ==> StrLe(r.machineRows[i].model, r.machineRows[j].model)
    ensures forall k :: Select(r.machineRows, RowKey, k) == Select(base.machineRows, RowKey, k)
    // assignments: a permutation, non-RPC before RPC, ordered by the key tuple, stable
    ensures multiset(r.assignments) == multiset(base.assignments)
    ensures |r.assignments| == |base.assignments|
    ensures forall i, j :: 0 <= i < j < |r.assignments| && IsRpc(r.assignments[i].model) ==>
      IsRpc(r.assignments[j].model)
    ensures SortedBy(r.assignments, AssignmentKey)
    ensures forall k :: Select(r.assignments, AssignmentKey, k) == Select(base.assignments, AssignmentKey, k)
  {
    var rows := SortBy(base.machineRows, RowKey);
    var assignments := SortBy(base.assignments, AssignmentKey);
    forall i, j | 0 <= i < j < |rows|
      ensures RpcGroup(rows[i].model) <= RpcGroup(rows[j].model)
      ensures RpcGroup(rows[i].model) == RpcGroup(rows[j].model) ==> StrLe(rows[i].model, rows[j].model)
    {
      KeyLeGroupThenModel(RowKey(rows[i]), RowKey(rows[j]));
    }
    forall i, j | 0 <= i < j < |assignments|
      ensures RpcGroup(assignments[i].model) <= RpcGroup(assignments[j].model)
    {
      KeyLeGroupThenModel(AssignmentKey(assignments[i]), AssignmentKey(assignments[j]));
    }
    base.(machineRows := rows, assignments := assignments)
  }

  // ---------------------------------------------------------------------------
  // The 14-day workload calendar

  /** What one day column of a person's calendar row shows. */
  datatype Cell = Travel | Onsite | Blank

  /** The calendar has columns D1..D14, day indices 0..13. */
  const CALENDAR_DAYS: nat := 14
  /** Onsite work is cut off at day index 12, leaving index 13 for the last travel day. */
  const LAST_ONSITE_DAY: int := 12

  /** Engineers on the RPC-PH and RPC-OU models travel in on the second day. */
  predicate LateTravelIn(a: Assignment) {
    a.role == "Engineer" && a.model in {"RPC-PH", "RPC-OU"}
  }

  function TravelIn(a: Assignment): (d: int)
    ensures d == 0 || d == 1
    ensures d == 1 <==> a.role == "Engineer" && (a.model == "RPC-PH" || a.model == "RPC-OU")
  {
    if LateTravelIn(a) then 1 else 0
  }

  function OnsiteStart(a: Assignment): int {
    TravelIn(a) + 1
  }

  function OnsiteEnd(a: Assignment): (d: int)
    ensures d <= LAST_ONSITE_DAY
  {
    Min(OnsiteStart(a) + a.onsiteDays - 1, LAST_ONSITE_DAY)
  }

  function TravelOut(a: Assignment): (d: int)
    ensures d <= CALENDAR_DAYS - 1
  {
    OnsiteEnd(a) + 1
  }

  /** The classification of day index d. The two travel days take precedence, but they
      never fall inside the onsite range, so the onsite test alone decides Onsite. */
  function DayCell(a: Assignment, d: int): (c: Cell)
    ensures c == Travel <==> d == TravelIn(a) || d == TravelOut(a)
    ensures c == Onsite <==> OnsiteStart(a) <= d <= OnsiteEnd(a)
  {
    if d == TravelIn(a) || d == TravelOut(a) then Travel
    else if OnsiteStart(a) <= d <= OnsiteEnd(a) then Onsite
    else Blank
  }

  /** With a non-negative number of onsite days, travel-in, the onsite range and travel-out
      come in that order and every marked day falls on an index 0..13, so the 14 columns
      show all of them. */
  lemma MarkedDaysFit(a: Assignment)
    requires a.onsiteDays >= 0
    ensures 0 <= TravelIn(a) < OnsiteStart(a) && OnsiteEnd(a) < TravelOut(a) < CALENDAR_DAYS
    ensures forall d :: DayCell(a, d) != Blank ==> 0 <= d < CALENDAR_DAYS
  {
  }

  /** A person's calendar row: one cell per day index 0..13. */
  function CalendarRow(a: Assignment): seq<Cell> {
    seq(CALENDAR_DAYS, d => DayCell(a, d))
  }

  function Repeat(c: Cell, n: nat): (r: seq<Cell>)
    ensures |r| == n && forall i :: 0 <= i < n ==> r[i] == c
  {
    seq(n, _ => c)
  }

  /** How many cells of the row are c. */
  function Count(row: seq<Cell>, c: Cell): nat {
    if row == [] then 0 else (if row[0] == c then 1 else 0) + Count(row[1..], c)
  }

  /** For a positive number of onsite days the row is: blank days before travel-in, one
      travel day, the onsite days (cut to fit), one travel day, blank days to day 13. */
  lemma CalendarShape(a: Assignment)
    requires a.onsiteDays >= 1
    ensures var t := TravelIn(a);
            var k := Min(a.onsiteDays, LAST_ONSITE_DAY - t);
            CalendarRow(a) ==
              Repeat(Blank, t) + [Travel] + Repeat(Onsite, k) + [Travel] + Repeat(Blank, LAST_ONSITE_DAY - t - k)
  {
    var t := TravelIn(a);
    var k := Min(a.onsiteDays, LAST_ONSITE_DAY - t);
    var shape := Repeat(Blank, t) + [Travel] + Repeat(Onsite, k) + [Travel] + Repeat(Blank, LAST_ONSITE_DAY - t - k);
    assert OnsiteEnd(a) == t + k;
    forall d | 0 <= d < CALENDAR_DAYS ensures CalendarRow(a)[d] == shape[d] {
      if d < t {
        assert shape[d] == Blank;
      } else if d == t {
        assert shape[d] == Travel;
      } else if d <= t + k {
        assert shape[d] == Repeat(Onsite, k)[d - t - 1];
      } else if d == t + k + 1 {
        assert shape[d] == Travel;
      } else {
        assert shape[d] == Repeat(Blank, LAST_ONSITE_DAY - t - k)[d - t - k - 2];
      }
    }
  }

  /** With zero onsite days the two travel days are adjacent. */
  lemma ZeroOnsiteDaysShape(a: Assignment)
    requires a.onsiteDays == 0
    ensures var t := TravelIn(a);
            CalendarRow(a) == Repeat(Blank, t) + [Travel, Travel] + Repeat(Blank, LAST_ONSITE_DAY - t)
  {
    var t := TravelIn(a);
    var shape := Repeat(Blank, t) + [Travel, Travel] + Repeat(Blank, LAST_ONSITE_DAY - t);
    forall d | 0 <= d < CALENDAR_DAYS ensures CalendarRow(a)[d] == shape[d] {
      if d < t {
        assert shape[d] == Blank;
      } else if d <= t + 1 {
        assert shape[d] == Travel;
      } else {
        assert shape[d] == Repeat(Blank, LAST_ONSITE_DAY - t)[d - t - 2];
      }
    }
  }

  lemma {:induction false} CountConcat(x: seq<Cell>, y: seq<Cell>, c: Cell)
    ensures Count(x + y, c) == Count(x, c) + Count(y, c)
  {
    if x == [] {
      assert x + y == y;
    } else {
      assert (x + y)[0] == x[0];
      assert (x + y)[1..] == x[1..] + y;
      CountConcat(x[1..], y, c);
    }
  }

  lemma {:induction false} CountRepeat(c: Cell, n: nat, e: Cell)
    ensures Count(Repeat(c, n), e) == if c == e then n else 0
  {
    if n > 0 {
      assert Repeat(c, n)[1..] == Repeat(c, n - 1);
      CountRepeat(c, n - 1, e);
    }
  }

  /** For a positive number of onsite days the row has exactly two travel days and
      min(onsite days, 13 - onsite start) onsite days; the rest are blank. */
  lemma CalendarCounts(a: Assignment)
    requires a.onsiteDays >= 1
    ensures Count(CalendarRow(a), Travel) == 2
    ensures Count(CalendarRow(a), Onsite) == Min(a.onsiteDays, 13 - OnsiteStart(a))
    ensures Count(CalendarRow(a), Blank) == CALENDAR_DAYS - 2 - Min(a.onsiteDays, 13 - OnsiteStart(a))
  {
    var t := TravelIn(a);
    var k := Min(a.onsiteDays, LAST_ONSITE_DAY - t);
    CalendarShape(a);
    var b1, o, b2 := Repeat(Blank, t), Repeat(Onsite, k), Repeat(Blank, LAST_ONSITE_DAY - t - k);
    forall c: Cell ensures Count(CalendarRow(a), c) == Count(b1, c) + Count([Travel], c) + Count(o, c) + Count([Travel], c) + Count(b2, c) {
      CountConcat(b1 + [Travel] + o + [Travel], b2, c);
      CountConcat(b1 + [Travel] + o, [Travel], c);
      CountConcat(b1 + [Travel], o, c);
      CountConcat(b1, [Travel], c);
    }
    forall c: Cell ensures Count(b1, c) == (if c == Blank then t else 0)
                      && Count(o, c) == (if c == Onsite then k else 0)
                      && Count(b2, c) == (if c == Blank then LAST_ONSITE_DAY - t - k else 0)
                      && Count([Travel], c) == (if c == Travel then 1 else 0) {
      CountRepeat(Blank, t, c);
      CountRepeat(Onsite, k, c);
      CountRepeat(Blank, LAST_ONSITE_DAY - t - k, c);
      assert [Travel][1..] == [];
    }
  }

  // ---------------------------------------------------------------------------
  // Drawing the calendar: on screen and in the printed quote

  const TRAVEL_COLOR: string := "#d9e8ff"
  const ONSITE_COLOR: string := "#d7f4df"

  /** A table cell's background: the widget default, or a fill colour. */
  datatype Shade = Unshaded | Shaded(color: string)

  /** An on-screen table cell: its text and background. */
  datatype ScreenCell = ScreenCell(text: string, shade: Shade)

  /** One on-screen calendar row: the resource label, the group and the 14 day cells. */
  datatype ScreenRow = ScreenRow(resource: string, group: string, days: seq<ScreenCell>)

  /** A printed table cell: its CSS class and text. */
  datatype PrintCell = PrintCell(cls: string, txt: string)

  /** One printed calendar row. */
  datatype PrintRow = PrintRow(resource: string, group: string, cells: seq<PrintCell>)

  /** The group column: "RPC" or "Non-RPC". */
  function GroupLabel(model: string): string {
    if IsRpc(model) then "RPC" else "Non-RPC"
  }

  /** `role[:1]`: the first letter of the role, or nothing for an empty role. */
  function Initial(role: string): string {
    if |role| == 0 then "" else role[..1]
  }

  /** The on-screen resource label, e.g. "E2 - RPC-PH". */
  function ScreenLabel(a: Assignment): string {
    Initial(a.role) + IntToString(a.personNum) + " - " + a.model
  }

  /** The printed resource label, e.g. "E2-RPC-PH" (no spaces around the dash). */
  function PrintLabel(a: Assignment): string {
    Initial(a.role) + IntToString(a.personNum) + "-" + a.model
  }

  /** How the screen shows a cell. */
  function ScreenCellOf(c: Cell): ScreenCell {
    match c
    case Travel => ScreenCell("T", Shaded(TRAVEL_COLOR))
    case Onsite => ScreenCell("O", Shaded(ONSITE_COLOR))
    case Blank => ScreenCell("", Unshaded)
  }

  /** How the printed quote shows a cell. */
  function PrintCellOf(c: Cell): PrintCell {
    match c
    case Travel => PrintCell("travel", "T")
    case Onsite => PrintCell("onsite", "O")
    case Blank => PrintCell("", "")
  }

  /** What a reader takes an on-screen cell to mean, from its text. */
  function ScreenKind(s: ScreenCell): Cell {
    if s.text == "T" then Travel else if s.text == "O" then Onsite else Blank
  }

  /** What a reader takes a printed cell to mean, from its class. */
  function PrintKind(p: PrintCell): Cell {
    if p.cls == "travel" then Travel else if p.cls == "onsite" then Onsite else Blank
  }

  /** Both renderings can be read back, and they show the same letter for every cell. */
  lemma CellRenderingsReadBack(c: Cell)
    ensures ScreenKind(ScreenCellOf(c)) == c
    ensures PrintKind(PrintCellOf(c)) == c
    ensures ScreenCellOf(c).text == PrintCellOf(c).txt
  {
  }

  /** The 14 on-screen day cells of an assignment's row. */
  function ScreenDays(a: Assignment): (days: seq<ScreenCell>)
    ensures |days| == CALENDAR_DAYS
    ensures forall d :: 0 <= d < CALENDAR_DAYS ==> days[d] == ScreenCellOf(DayCell(a, d))
  {
    seq(CALENDAR_DAYS, d => ScreenCellOf(DayCell(a, d)))
  }

  /** The on-screen row an assignment should get. */
  function ScreenRowOf(a: Assignment): ScreenRow {
    ScreenRow(ScreenLabel(a), GroupLabel(a.model), ScreenDays(a))
  }

  /** The printed row an assignment should get. */
  function PrintRowOf(a: Assignment): PrintRow {
    PrintRow(PrintLabel(a), GroupLabel(a.model), seq(CALENDAR_DAYS, d => PrintCellOf(DayCell(a, d))))
  }

  /** The on-screen calendar: one row per assignment, in the given order, each showing
      the resource, its group and the classification of days 0..13. */
  method RenderCalendar(assignments: seq<Assignment>) returns (table: seq<ScreenRow>)
    ensures |table| == |assignments|
    ensures forall r :: 0 <= r < |table| ==> table[r] == ScreenRowOf(assignments[r])
  {
    table := [];
    for r := 0 to |assignments|
      invariant |table| == r
      invariant forall i :: 0 <= i < r ==> table[i] == ScreenRowOf(assignments[i])
    {
      var row := RenderCalendarRow(assignments[r]);
      table := table + [row];
    }
  }

  /** One on-screen calendar row: the day cells are filled left to right. */
  method RenderCalendarRow(a: Assignment) returns (row: ScreenRow)
    ensures row == ScreenRowOf(a)
  {
    var resource := Initial(a.role) + IntToString(a.personNum) + " - " + a.model;
    var group := GroupLabel(a.model);

    var travelIn := if a.role == "Engineer" && a.model in {"RPC-PH", "RPC-OU"} then 1 else 0;
    var onsiteStart := travelIn + 1;
    var onsiteEnd := Min(onsiteStart + a.onsiteDays - 1, 12);
    var travelOut := onsiteEnd + 1;

    var days: seq<ScreenCell> := [];
    for d := 0 to 14
      invariant |days| == d
      invariant forall j :: 0 <= j < d ==> days[j] == ScreenCellOf(DayCell(a, j))
    {
      var cell := ScreenCell("", Unshaded);
      if d == travelIn || d == travelOut {
        cell := ScreenCell("T", Shaded(TRAVEL_COLOR));
      } else if onsiteStart <= d <= onsiteEnd {
        cell := ScreenCell("O", Shaded(ONSITE_COLOR));
      }
      days := days + [cell];
    }
    row := ScreenRow(resource, group, days);
  }

  /** The calendar rows of the printed quote: one row per assignment, in the given order. */
  method QuoteCalendarRows(assignments: seq<Assignment>) returns (rows: seq<PrintRow>)
    ensures |rows| == |assignments|
    ensures forall r :: 0 <= r < |rows| ==> rows[r] == PrintRowOf(assignments[r])
  {
    rows := [];
    for r := 0 to |assignments|
      invariant |rows| == r
      invariant forall i :: 0 <= i < r ==> rows[i] == PrintRowOf(assignments[i])
    {
      var row := QuoteCalendarRow(assignments[r]);
      rows := rows + [row];
    }
  }

  /** One printed calendar row: the day cells are appended left to right. */
  method QuoteCalendarRow(a: Assignment) returns (row: PrintRow)
    ensures row == PrintRowOf(a)
  {
    var travelIn := if a.role == "Engineer" && a.model in {"RPC-PH", "RPC-OU"} then 1 else 0;
    var onsiteStart := travelIn + 1;
    var onsiteEnd := Min(onsiteStart + a.onsiteDays - 1, 12);
    var travelOut := onsiteEnd + 1;
    var rowCells: seq<PrintCell> := [];
    for d := 0 to 14
      invariant |rowCells| == d
      invariant forall j :: 0 <= j < d ==> rowCells[j] == PrintCellOf(DayCell(a, j))
    {
      var cls, txt := "", "";
      if d == travelIn || d == travelOut {
        cls, txt := "travel", "T";
      } else if onsiteStart <= d <= onsiteEnd {
        cls, txt := "onsite", "O";
      }
      rowCells := rowCells + [PrintCell(cls, txt)];
    }
    var group := GroupLabel(a.model);
    row := PrintRow(Initial(a.role) + IntToString(a.personNum) + "-" + a.model, group, rowCells);
  }

  /** The calendar step of recalc: the on-screen calendar is drawn from the assignments of
      a fresh calc, so its rows are those assignments' rows in sorted order and every
      "Non-RPC" row comes before every "RPC" row. */
  method RedrawCalendar<R, E, M, D>(base: CalcResult<R, E, M, D>) returns (table: seq<ScreenRow>)
    ensures |table| == |base.assignments|
    ensures forall i :: 0 <= i < |table| ==> table[i] == ScreenRowOf(Calc(base).assignments[i])
    ensures forall i, j :: 0 <= i < j < |table| && table[i].group == "RPC" ==> table[j].group == "RPC"
  {
    var assignments := Calc(base).assignments;
    table := RenderCalendar(assignments);
  }

  /** Drawn from the same assignments, the screen and the printed quote classify every
      day of every row alike, show the same letters and the same group. */
  method ScreenAndPrintAgree(assignments: seq<Assignment>) returns (screen: seq<ScreenRow>, printed: seq<PrintRow>)
    ensures |screen| == |printed| == |assignments|
    ensures forall r :: 0 <= r < |screen| ==>
      && screen[r].group == printed[r].group
      && |screen[r].days| == |printed[r].cells| == CALENDAR_DAYS
      && forall d :: 0 <= d < CALENDAR_DAYS ==>
           && ScreenKind(screen[r].days[d]) == PrintKind(printed[r].cells[d]) == DayCell(assignments[r], d)
           && screen[r].days[d].text == printed[r].cells[d].txt
  {
    screen := RenderCalendar(assignments);
    printed := QuoteCalendarRows(assignments);
    assert forall r, d :: 0 <= r < |screen| && 0 <= d < CALENDAR_DAYS ==>
      screen[r].days[d] == ScreenCellOf(DayCell(assignments[r], d)) &&
      printed[r].cells[d] == PrintCellOf(DayCell(assignments[r], d));
    forall c: Cell ensures ScreenKind(ScreenCellOf(c)) == c && PrintKind(PrintCellOf(c)) == c
                        && ScreenCellOf(c).text == PrintCellOf(c).txt {
      CellRenderingsReadBack(c);
    }
  }
}
