/** The Reactive tab's resource list: a roster of technicians and engineers, each with a
    first onsite weekday and a number of onsite days. The roster is rebuilt from two
    head counts, and single rows are edited in place by index. */
module Reactive {
  import opened Text

  /** The weekday names a start day is chosen from, Monday first. */
  const DAYS: seq<string> := ["Mon", "Tue", "Wed", "Thu", "Fri", "Sat", "Sun"]

  /** DAYS is the seven weekdays in order, each named once, and a new row's start day
      "Mon" is its first entry. */
  lemma DaysAreTheWeek()
    ensures |DAYS| == 7
    ensures DAYS[0] == "Mon" && DAYS[6] == "Sun"
    ensures forall i, j :: 0 <= i < j < |DAYS| ==> DAYS[i] != DAYS[j]
  {
  }

  /** One resource of the roster; the panel edits its fields in place. */
  class ResourceRow {
    var role: string
    var startDay: string
    var onsiteDays: int

    constructor (role: string, startDay: string, onsiteDays: int)
      ensures this.role == role && this.startDay == startDay && this.onsiteDays == onsiteDays
    {
      this.role := role;
      this.startDay := startDay;
      this.onsiteDays := onsiteDays;
    }
  }

  /** The contents of a row at one moment. */
  datatype RowValue = RowValue(role: string, startDay: string, onsiteDays: int)

  /** The contents of one row. */
  function Value(row: ResourceRow): RowValue
    reads row
  {
    RowValue(row.role, row.startDay, row.onsiteDays)
  }

  /** The contents of every row of rows, in order. */
  function ValuesOf(rows: seq<ResourceRow>): (vs: seq<RowValue>)
    reads rows
    ensures |vs| == |rows|
    ensures forall i :: 0 <= i < |rows| ==> vs[i] == Value(rows[i])
  {
    if rows == [] then []
    else [Value(rows[0])] + ValuesOf(rows[1..])
  }

  /** Python's range(n) is empty for a negative n. */
  function RangeLength(n: int): nat {
    if n < 0 then 0 else n
  }

  /** n new rows named prefix 1 .. prefix n, each starting on Monday for one day. */
  function Numbered(prefix: string, n: int): (vs: seq<RowValue>)
    ensures |vs| == RangeLength(n)
  {
    seq(RangeLength(n), i requires 0 <= i => RowValue(prefix + NatToString(i + 1), "Mon", 1))
  }

  /** The roster that set_counts(techs, engs) builds. */
  function FreshRoster(techs: int, engs: int): seq<RowValue> {
    Numbered("Technician ", techs) + Numbered("Engineer ", engs)
  }

  predicate IsTechnician(v: RowValue) {
    StartsWith(v.role, "Technician ")
  }

  predicate IsEngineer(v: RowValue) {
    StartsWith(v.role, "Engineer ")
  }

  /** The roster holds one row per technician followed by one row per engineer (none for a
      negative count); the technicians are numbered from 1 in order, then the engineers,
      and every row starts on the first weekday for a single day. */
  lemma FreshRosterShape(techs: int, engs: int)
    ensures var r := FreshRoster(techs, engs);
      && |r| == RangeLength(techs) + RangeLength(engs)
      && (forall i :: 0 <= i < RangeLength(techs) ==>
            r[i].role == "Technician " + NatToString(i + 1) && IsTechnician(r[i]) && !IsEngineer(r[i]))
      && (forall i :: RangeLength(techs) <= i < |r| ==>
            r[i].role == "Engineer " + NatToString(i - RangeLength(techs) + 1) && IsEngineer(r[i]) && !IsTechnician(r[i]))
      && (forall i :: 0 <= i < |r| ==> r[i].startDay == DAYS[0] && r[i].onsiteDays == 1)
  {
    var r := FreshRoster(techs, engs);
    var t := RangeLength(techs);
    forall i | 0 <= i < |r|
      ensures i < t ==> r[i].role == "Technician " + NatToString(i + 1) && IsTechnician(r[i]) && !IsEngineer(r[i])
      ensures t <= i ==> r[i].role == "Engineer " + NatToString(i - t + 1) && IsEngineer(r[i]) && !IsTechnician(r[i])
    {
      if i < t {
        assert r[i] == Numbered("Technician ", techs)[i];
        assert r[i].role[..11] == "Technician ";
        assert r[i].role[0] == 'T';
      } else {
        assert r[i] == Numbered("Engineer ", engs)[i - t];
        assert r[i].role[..9] == "Engineer ";
        assert r[i].role[0] == 'E';
      }
    }
  }

  /** All technicians come before all engineers. */
  lemma TechniciansFirst(techs: int, engs: int)
    ensures var r := FreshRoster(techs, engs);
      forall i, j :: 0 <= i < j < |r| && IsEngineer(r[i]) ==> IsEngineer(r[j])
  {
    FreshRosterShape(techs, engs);
  }

  /** No two rows of the roster share a role, so each resource is told apart by its label. */
  lemma FreshRosterRolesDistinct(techs: int, engs: int)
    ensures var r := FreshRoster(techs, engs);
      forall i, j :: 0 <= i < j < |r| ==> r[i].role != r[j].role
  {
    var r := FreshRoster(techs, engs);
    var t := RangeLength(techs);
    FreshRosterShape(techs, engs);
    forall i, j | 0 <= i < j < |r| ensures r[i].role != r[j].role {
      if j < t {
        NumberedRolesDiffer("Technician ", i + 1, j + 1);
      } else if t <= i {
        NumberedRolesDiffer("Engineer ", i - t + 1, j - t + 1);
      } else {
        assert r[i].role[0] == 'T' && r[j].role[0] == 'E';
      }
    }
  }

  /** Two labels with the same prefix and different numbers differ. */
  lemma NumberedRolesDiffer(prefix: string, m: nat, n: nat)
    requires m != n
    ensures prefix + NatToString(m) != prefix + NatToString(n)
  {
    if prefix + NatToString(m) == prefix + NatToString(n) {
      assert NatToString(m) == (prefix + NatToString(m))[|prefix|..];
      NatToStringInjective(m, n);
    }
  }

  /** One append loop of set_counts: n new rows named prefix 1 .. prefix n, each starting
      on Monday for one day (none for a negative n). */
  method NewRows(prefix: string, n: int) returns (rs: seq<ResourceRow>)
    ensures |rs| == RangeLength(n)
    ensures forall k :: 0 <= k < |rs| ==> Value(rs[k]) == Numbered(prefix, n)[k]
    ensures forall k :: 0 <= k < |rs| ==> fresh(rs[k])
    ensures forall k, l :: 0 <= k < l < |rs| ==> rs[k] != rs[l]
  {
    rs := [];
    for i := 0 to RangeLength(n)
      invariant |rs| == i
      invariant forall k :: 0 <= k < i ==> fresh(rs[k])
      invariant forall k, l :: 0 <= k < l < i ==> rs[k] != rs[l]
      invariant forall k :: 0 <= k < i ==> Value(rs[k]) == Numbered(prefix, n)[k]
    {
      var row := new ResourceRow(prefix + NatToString(i + 1), "Mon", 1);
      rs := rs + [row];
    }
  }

  /** The roster of the Reactive panel. */
  class ResourceModel {
    var rows: seq<ResourceRow>

    /** The roster's contents. */
    function Values(): seq<RowValue>
      reads this, rows
    {
      ValuesOf(rows)
    }

    /** No row object appears twice, so editing one row leaves the others alone. */
    predicate Valid()
      reads this
    {
      forall i, j :: 0 <= i < j < |rows| ==> rows[i] != rows[j]
    }

    /** A new model has no rows. */
    constructor ()
      ensures rows == [] && Valid()
    {
      rows := [];
    }

    /** Replaces the roster by techs technician rows followed by engs engineer rows, all of
        them new objects, so no edit made before survives. */
    method SetCounts(techs: int, engs: int)
      modifies this
      ensures |rows| == |FreshRoster(techs, engs)|
      ensures forall i :: 0 <= i < |rows| ==> Value(rows[i]) == FreshRoster(techs, engs)[i]
      ensures forall i :: 0 <= i < |rows| ==> fresh(rows[i])
      ensures Valid()
    {
      var technicians := NewRows("Technician ", techs);
      var engineers := NewRows("Engineer ", engs);
      rows := technicians + engineers;
    }

    /** Sets the start day of row idx; an index outside the roster changes nothing. */
    method SetStartDay(idx: int, day: string)
      requires Valid()
      modifies if 0 <= idx < |rows| then {rows[idx]} else {}
      ensures rows == old(rows) && Valid()
      ensures 0 <= idx < |rows| ==>
                Values() == old(Values())[idx := old(Values())[idx].(startDay := day)]
      ensures !(0 <= idx < |rows|) ==> Values() == old(Values())
    {
      if 0 <= idx < |rows| {
        rows[idx].startDay := day;
      }
    }

    /** Sets the number of onsite days of row idx; an index outside the roster changes
        nothing. */
    method SetOnsiteDays(idx: int, days: int)
      requires Valid()
      modifies if 0 <= idx < |rows| then {rows[idx]} else {}
      ensures rows == old(rows) && Valid()
      ensures 0 <= idx < |rows| ==>
                Values() == old(Values())[idx := old(Values())[idx].(onsiteDays := days)]
      ensures !(0 <= idx < |rows|) ==> Values() == old(Values())
    {
      if 0 <= idx < |rows| {
        rows[idx].onsiteDays := days;
      }
    }

    /** A copy of the roster list: the same row objects in the same order, so the caller
        sees later edits to those rows but not a later change of the roster itself. */
    method GetResources() returns (resources: seq<ResourceRow>)
      ensures resources == rows
      ensures ValuesOf(resources) == Values()
    {
      resources := rows;
    }
  }
}
