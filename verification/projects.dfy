/**
 Projects and timesheets (proma/projects/models.py).

 The timesheet table is a sequence in creation order; `clock_in` appends to
 it. The clock (`timezone.now()`) is the parameter `now`, a timestamp in
 whole units of the source's datetime resolution.
 */
module Projects {
  import opened Base

  type ClientRef = nat
  type ProjectRef = nat

  datatype ProjectStatus = Active | Archived

  /** The source's RATE_CHOICES, spelling included. */
  datatype PaymentType = FlatRate | HourlyRate | DailyRate | WeeklyRate | MounthlyRate

  datatype Project = Project(
    id: ProjectRef,
    client: ClientRef,
    name: string,
    status: ProjectStatus,
    startDate: Date,
    endDate: Option<Date>,
    paymentType: PaymentType,
    rate: real,
    currency: string,
    notes: Option<string>)

  type Timestamp = int

  datatype Timesheet = Timesheet(
    project: Option<ProjectRef>,
    isActive: bool,
    labelText: Option<string>,
    dateStart: Timestamp,
    dateEnd: Option<Timestamp>)

  datatype TimesheetError = ActiveTimesheetExists | ActiveTimesheetDoesNotExist

  /** `Timesheet.diff`: the elapsed time once the timesheet has an end, else None. */
  function Diff(t: Timesheet): (r: Option<int>)
    ensures r.None? <==> t.dateEnd.None?
    ensures r.Some? ==> t.dateStart + r.value == t.dateEnd.value
  {
    match t.dateEnd
    case Some(e) => Some(e - t.dateStart)
    case None => None
  }

  /** `Timesheet.finish`: stamp the end and deactivate; nothing else changes. */
  function Finish(t: Timesheet, now: Timestamp): (r: Timesheet)
    ensures !r.isActive
    ensures r.dateEnd == Some(now)
    ensures Diff(r) == Some(now - t.dateStart)
    ensures r.(isActive := t.isActive, dateEnd := t.dateEnd) == t
  {
    t.(dateEnd := Some(now), isActive := false)
  }

  /** How many timesheets are active. */
  function ActiveCount(s: seq<Timesheet>): (n: nat)
    ensures n <= |s|
    ensures n == 0 <==> forall i :: 0 <= i < |s| ==> !s[i].isActive
  {
    if |s| == 0 then 0
    else ActiveCount(s[..|s| - 1]) + (if s[|s| - 1].isActive then 1 else 0)
  }

  predicate HasActive(s: seq<Timesheet>) {
    exists i :: 0 <= i < |s| && s[i].isActive
  }

  /** The timesheet `clock_in` creates: active, started now, not ended. */
  function NewTimesheet(project: Option<ProjectRef>, labelText: Option<string>, now: Timestamp): Timesheet {
    Timesheet(project, true, labelText, now, None)
  }

  /** `Timesheet.clock_in`: refuses while any timesheet is active, otherwise
      appends exactly one new active timesheet. */
  function ClockIn(s: seq<Timesheet>, project: Option<ProjectRef>, labelText: Option<string>, now: Timestamp)
    : (r: Result<seq<Timesheet>, TimesheetError>)
    ensures r.Err? <==> HasActive(s)
    ensures r.Err? ==> r.error == ActiveTimesheetExists
    ensures r.Ok? ==> |r.value| == |s| + 1 && r.value[..|s|] == s
    ensures r.Ok? ==> var t := r.value[|s|];
      t.isActive && t.project == project && t.labelText == labelText && t.dateStart == now && t.dateEnd.None?
    ensures r.Ok? ==> ActiveCount(r.value) == 1
  {
    if HasActive(s) then Err(ActiveTimesheetExists)
    else
      var s' := s + [NewTimesheet(project, labelText, now)];
      assert s'[..|s|] == s;
      Ok(s')
  }

  /** The timesheet `filter(is_active=True).first()` picks: under the
      ordering `-created` that is the most recently created active one, the
      last active entry of the sequence. */
  function LastActive(s: seq<Timesheet>): (r: Option<nat>)
    ensures r.None? <==> !HasActive(s)
    ensures r.Some? ==> r.value < |s| && s[r.value].isActive
    ensures r.Some? ==> forall j :: r.value < j < |s| ==> !s[j].isActive
  {
    if |s| == 0 then None
    else if s[|s| - 1].isActive then Some(|s| - 1)
    else LastActive(s[..|s| - 1])
  }

  /** Replacing one active timesheet with an inactive one lowers the active count by one. */
  lemma {:induction false} ActiveCountDeactivate(s: seq<Timesheet>, k: nat, t: Timesheet)
    requires k < |s| && s[k].isActive && !t.isActive
    ensures ActiveCount(s[k := t]) == ActiveCount(s) - 1
  {
    var n := |s| - 1;
    if k < n {
      assert s[k := t][..n] == s[..n][k := t];
      ActiveCountDeactivate(s[..n], k, t);
    } else {
      assert s[k := t][..n] == s[..n];
    }
  }

  /** `Timesheet.clock_out`: refuses when no timesheet is active, otherwise
      finishes exactly one active timesheet and leaves every other one alone. */
  function ClockOut(s: seq<Timesheet>, now: Timestamp): (r: Result<seq<Timesheet>, TimesheetError>)
    ensures r.Err? <==> !HasActive(s)
    ensures r.Err? ==> r.error == ActiveTimesheetDoesNotExist
    ensures r.Ok? ==> |r.value| == |s|
    ensures r.Ok? ==> exists k :: (0 <= k < |s| && s[k].isActive && r.value[k] == Finish(s[k], now)
                                   && forall j :: 0 <= j < |s| && j != k ==> r.value[j] == s[j])
    ensures r.Ok? ==> ActiveCount(r.value) == ActiveCount(s) - 1
  {
    match LastActive(s)
    case None => Err(ActiveTimesheetDoesNotExist)
    case Some(k) =>
      ActiveCountDeactivate(s, k, Finish(s[k], now));
      Ok(s[k := Finish(s[k], now)])
  }

  /** A request a user can make of the timesheet clock. */
  datatype ClockEvent =
    | ClockInEvent(project: Option<ProjectRef>, labelText: Option<string>, at: Timestamp)
    | ClockOutEvent(at: Timestamp)

  /** One request; a refused request leaves the table as it was. */
  function Apply(s: seq<Timesheet>, e: ClockEvent): seq<Timesheet> {
    var r := match e
      case ClockInEvent(p, l, at) => ClockIn(s, p, l, at)
      case ClockOutEvent(at) => ClockOut(s, at);
    if r.Ok? then r.value else s
  }

  function Replay(s: seq<Timesheet>, es: seq<ClockEvent>): seq<Timesheet>
    decreases |es|
  {
    if |es| == 0 then s else Replay(Apply(s, es[0]), es[1..])
  }

  /** A single request never makes a second timesheet active. */
  lemma ApplyKeepsOneActive(s: seq<Timesheet>, e: ClockEvent)
    requires ActiveCount(s) <= 1
    ensures ActiveCount(Apply(s, e)) <= 1
  {
  }

  /** Starting from at most one active timesheet, any sequence of clock-in and
      clock-out requests keeps at most one active. */
  lemma {:induction false} ReplayKeepsOneActive(s: seq<Timesheet>, es: seq<ClockEvent>)
    requires ActiveCount(s) <= 1
    ensures ActiveCount(Replay(s, es)) <= 1
    decreases |es|
  {
    if |es| > 0 {
      ApplyKeepsOneActive(s, es[0]);
      ReplayKeepsOneActive(Apply(s, es[0]), es[1..]);
    }
  }
}
