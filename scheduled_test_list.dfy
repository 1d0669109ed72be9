/** The list of scheduled tests (`src/components/admin/ScheduledTestList.tsx`):
    each test is shown with a status worked out from its window and the
    current time, a badge when it is disabled, and a switch that is locked
    once the test has ended. */
module ScheduledTestList {
  import opened Types
  import MockDb

  datatype Status = Upcoming | InProgress | Completed

  /** The status of one test at `now`; `isActive` plays no part. */
  function StatusAt(t: ScheduledTest, now: int): (s: Status)
    ensures s == Completed <==> now > t.endDate
    ensures s == InProgress <==> t.startDate <= now <= t.endDate
    ensures s == Upcoming <==> now < t.startDate && now <= t.endDate
  {
    if now > t.endDate then Completed
    else if now >= t.startDate then InProgress
    else Upcoming
  }

  /** What the list shows for one test. */
  datatype Row = Row(id: string, status: Status, disabledBadge: bool, switchOn: bool, switchLocked: bool)

  function RowOf(t: ScheduledTest, now: int): (r: Row)
    ensures r.disabledBadge <==> !t.isActive
    ensures r.switchOn == t.isActive
    ensures r.switchLocked <==> now > t.endDate
  {
    var status := StatusAt(t, now);
    Row(t.id, status, !t.isActive, t.isActive, status == Completed)
  }

  /** One row per test, in order. */
  function Rows(tests: seq<ScheduledTest>, now: int): (rows: seq<Row>)
    ensures |rows| == |tests|
    ensures forall i :: 0 <= i < |tests| ==> rows[i] == RowOf(tests[i], now)
  {
    seq(|tests|, i requires 0 <= i < |tests| => RowOf(tests[i], now))
  }

  /** A test is among those students may take at `now` exactly when it is
      shown in progress with its switch on. */
  lemma InProgressAndOnIsOpen(tests: seq<ScheduledTest>, now: int)
    ensures forall i :: 0 <= i < |tests| ==>
      (tests[i] in MockDb.ActiveScheduledTests(tests, now) <==>
        exists j :: 0 <= j < |tests| && tests[j] == tests[i]
          && Rows(tests, now)[j].status == InProgress && Rows(tests, now)[j].switchOn)
  {
  }
}
