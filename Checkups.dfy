/** The checkup management screen: the list of follow-up appointments, its
    status filter, deleting an appointment, switching its reminder on or off,
    marking it completed, the urgency of an upcoming one and the counts shown
    below the list. */
module CheckupManagement {
  import Lists
  import opened Shared

  datatype CheckupStatus = Upcoming | Completed | Missed

  datatype ReminderSetting = Enabled | Disabled

  /** A scheduled checkup (`interface Checkup`). */
  datatype Checkup = Checkup(
    id: string, doctor: string, department: string, hospital: string,
    date: string, time: string, purpose: string, notes: Option<string>,
    status: CheckupStatus, reminderStatus: ReminderSetting)

  /** The status filter: the sentinel `'all'` or one status. */
  datatype StatusFilter = All | Only(status: CheckupStatus)

  /** The test `filteredCheckups` applies to each checkup. */
  function PassesFilter(f: StatusFilter): Checkup -> bool {
    (c: Checkup) => f.All? || c.status == f.status
  }

  /** `filteredCheckups`: under `'all'` the whole list; under a status, exactly
      the checkups with that status, in list order, each as often as it occurs. */
  function FilterCheckups(checkups: seq<Checkup>, f: StatusFilter): (r: seq<Checkup>)
    ensures f.All? ==> r == checkups
    ensures Lists.IsSubsequence(r, checkups)
    ensures f.Only? ==> forall x :: multiset(r)[x] == if x.status == f.status then multiset(checkups)[x] else 0
    ensures forall i :: 0 <= i < |r| ==> f.All? || r[i].status == f.status
  {
    var r := Lists.Filter(checkups, PassesFilter(f));
    if f.All? then (Lists.FilterKeepsAll(checkups, PassesFilter(f)); r) else r
  }

  /** The test `handleDeleteCheckup` keeps a checkup by. */
  function KeepOthers(id: string): Checkup -> bool {
    (c: Checkup) => c.id != id
  }

  /** `handleDeleteCheckup`: every checkup with `id` goes, every other one
      stays, in order and as often as it occurred. */
  function RemoveCheckup(checkups: seq<Checkup>, id: string): (r: seq<Checkup>)
    ensures Lists.IsSubsequence(r, checkups)
    ensures forall i :: 0 <= i < |r| ==> r[i].id != id
    ensures forall x: Checkup :: x.id != id ==> multiset(r)[x] == multiset(checkups)[x]
  {
    Lists.Filter(checkups, KeepOthers(id))
  }

  function Flip(setting: ReminderSetting): ReminderSetting {
    if setting == Enabled then Disabled else Enabled
  }

  /** `handleToggleReminder`: the checkups with `id` switch their reminder
      between enabled and disabled and keep every other field; the others stay
      as they are, in place. */
  function ToggleReminder(checkups: seq<Checkup>, id: string): (r: seq<Checkup>)
    ensures |r| == |checkups|
    ensures forall i :: 0 <= i < |r| ==>
      if checkups[i].id == id
      then r[i] == checkups[i].(reminderStatus := r[i].reminderStatus) && r[i].reminderStatus != checkups[i].reminderStatus
      else r[i] == checkups[i]
  {
    Lists.ReplaceWhere(checkups, (c: Checkup) => c.id == id,
      (c: Checkup) => c.(reminderStatus := Flip(c.reminderStatus)))
  }

  /** Toggling the same reminder twice restores the list. */
  lemma ToggleReminderTwice(checkups: seq<Checkup>, id: string)
    ensures ToggleReminder(ToggleReminder(checkups, id), id) == checkups
  {
    var once := ToggleReminder(checkups, id);
    var twice := ToggleReminder(once, id);
    forall i | 0 <= i < |checkups| ensures twice[i] == checkups[i] {
      if checkups[i].id == id {
        assert once[i].reminderStatus != checkups[i].reminderStatus;
        assert twice[i].reminderStatus != once[i].reminderStatus;
      }
    }
  }

  /** `handleMarkAsCompleted`: the checkups with `id` become completed whatever
      their status was and keep every other field; the others stay as they
      are, in place. */
  function MarkCompleted(checkups: seq<Checkup>, id: string): (r: seq<Checkup>)
    ensures |r| == |checkups|
    ensures forall i :: 0 <= i < |r| ==>
      if checkups[i].id == id then r[i] == checkups[i].(status := Completed) else r[i] == checkups[i]
  {
    Lists.ReplaceWhere(checkups, (c: Checkup) => c.id == id, (c: Checkup) => c.(status := Completed))
  }

  /** Marking a checkup completed twice is marking it once. */
  lemma MarkCompletedIdempotent(checkups: seq<Checkup>, id: string)
    ensures MarkCompleted(MarkCompleted(checkups, id), id) == MarkCompleted(checkups, id)
  {
  }

  /** Deleting, toggling or completing an id no checkup has changes nothing. */
  lemma UnknownIdChangesNothing(checkups: seq<Checkup>, id: string)
    requires forall i :: 0 <= i < |checkups| ==> checkups[i].id != id
    ensures RemoveCheckup(checkups, id) == checkups
    ensures ToggleReminder(checkups, id) == checkups
    ensures MarkCompleted(checkups, id) == checkups
  {
    Lists.FilterKeepsAll(checkups, KeepOthers(id));
  }

  /** The text `getStatusLabel` shows for a status string. */
  function StatusLabel(status: string): (text: string)
    ensures text == "未知" <==> status != "upcoming" && status != "completed" && status != "missed"
  {
    match status
    case "upcoming" => "即将到来"
    case "completed" => "已完成"
    case "missed" => "已错过"
    case _ => "未知"
  }

  /** The string a status has in the source's union type. */
  function StatusName(status: CheckupStatus): string {
    match status
    case Upcoming => "upcoming"
    case Completed => "completed"
    case Missed => "missed"
  }

  /** Every status gets a label of its own, none of them the unknown one. */
  lemma StatusLabelsDistinct(a: CheckupStatus, b: CheckupStatus)
    ensures StatusLabel(StatusName(a)) != "未知"
    ensures StatusLabel(StatusName(a)) == StatusLabel(StatusName(b)) <==> a == b
  {
  }

  /** An upcoming checkup at most three days away is highlighted as urgent;
      only checkups that carry a due badge can be. */
  function IsUrgent(c: Checkup, daysUntil: int): (b: bool)
    ensures b <==> BadgeFor(c, daysUntil).Some? && daysUntil <= 3
  {
    c.status == Upcoming && daysUntil <= 3
  }

  /** The badge next to an upcoming checkup's date. */
  datatype DueBadge = Today | InDays(days: int)

  /** The badge shown for `c`, given the whole days until its date: none unless
      the checkup is upcoming, "today" from zero days on down, otherwise the
      number of days. */
  function BadgeFor(c: Checkup, daysUntil: int): (b: Option<DueBadge>)
    ensures b.Some? <==> c.status == Upcoming
    ensures b == Some(Today) <==> c.status == Upcoming && daysUntil <= 0
    ensures b.Some? && b.value.InDays? ==> b.value.days == daysUntil && daysUntil >= 1
  {
    if c.status != Upcoming then None
    else if daysUntil <= 0 then Some(Today)
    else Some(InDays(daysUntil))
  }

  /** A checkup due today (or overdue) is urgent, and so is one due in one to
      three days; one further away is not. */
  lemma BadgeAndUrgency(c: Checkup, daysUntil: int)
    requires BadgeFor(c, daysUntil).Some?
    ensures BadgeFor(c, daysUntil) == Some(Today) ==> IsUrgent(c, daysUntil)
    ensures IsUrgent(c, daysUntil) <==> daysUntil <= 3
  {
  }

  /** The count on a status card: the length of the status filter's result. */
  function StatusCount(checkups: seq<Checkup>, status: CheckupStatus): (n: nat)
    ensures n <= |checkups|
    ensures n == 0 <==> forall i :: 0 <= i < |checkups| ==> checkups[i].status != status
    ensures n == |checkups| <==> forall i :: 0 <= i < |checkups| ==> checkups[i].status == status
  {
    Lists.FilterLength(checkups, PassesFilter(Only(status)));
    |Lists.Filter(checkups, PassesFilter(Only(status)))|
  }

  /** Every checkup has exactly one of the three statuses, so the three counts
      add up to the total; in particular upcoming plus missed never exceeds it. */
  lemma {:induction false} StatusCountsPartition(checkups: seq<Checkup>)
    ensures StatusCount(checkups, Upcoming) + StatusCount(checkups, Completed)
          + StatusCount(checkups, CheckupStatus.Missed) == |checkups|
    ensures StatusCount(checkups, Upcoming) + StatusCount(checkups, CheckupStatus.Missed) <= |checkups|
  {
    if checkups != [] {
      StatusCountsPartition(checkups[1..]);
      Lists.FilterLengthStep(checkups, PassesFilter(Only(Upcoming)));
      Lists.FilterLengthStep(checkups, PassesFilter(Only(Completed)));
      Lists.FilterLengthStep(checkups, PassesFilter(Only(CheckupStatus.Missed)));
    }
  }

  /** The screen's state: the checkups and the selected status filter. */
  class CheckupScreen {
    var checkups: seq<Checkup>
    var statusFilter: StatusFilter

    constructor (initial: seq<Checkup>)
      ensures checkups == initial && statusFilter == All
    {
      checkups := initial;
      statusFilter := All;
    }

    /** `handleStatusFilter`. */
    method SelectStatusFilter(f: StatusFilter)
      modifies this`statusFilter
      ensures statusFilter == f
    {
      statusFilter := f;
    }

    /** `handleDeleteCheckup`, once the deletion is confirmed. */
    method DeleteCheckup(id: string)
      modifies this`checkups
      ensures checkups == RemoveCheckup(old(checkups), id)
    {
      checkups := RemoveCheckup(checkups, id);
    }

    /** `handleToggleReminder`. */
    method ToggleReminderOf(id: string)
      modifies this`checkups
      ensures checkups == ToggleReminder(old(checkups), id)
    {
      checkups := ToggleReminder(checkups, id);
    }

    /** `handleMarkAsCompleted`. */
    method MarkAsCompleted(id: string)
      modifies this`checkups
      ensures checkups == MarkCompleted(old(checkups), id)
    {
      checkups := MarkCompleted(checkups, id);
    }

    /** The checkups listed on screen: all of them under `'all'`, otherwise
        those with the selected status, in list order. */
    function Shown(): (r: seq<Checkup>)
      reads this
      ensures statusFilter.All? ==> r == checkups
      ensures Lists.IsSubsequence(r, checkups)
      ensures forall i :: 0 <= i < |r| ==> statusFilter.All? || r[i].status == statusFilter.status
    {
      FilterCheckups(checkups, statusFilter)
    }
  }
}
