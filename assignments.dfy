/** The student's assignment list: loadAssignments classifies every assignment into one of
    four statuses, writes it on the card as data-status, and shows a badge; filterAssignments
    records the chosen filter, marks the matching filter button and shows or hides each card
    by its data-status. Due dates are time values compared with an integer "now". */
module Assignments {
  import opened JsText

  /** submission.grade as it arrives in the JSON: absent, null, or a value. */
  datatype Grade = Undefined | Null | Points(points: int)

  datatype Submission = Submission(grade: Grade)

  /** An assignment as the list sees it. due is the due date's time value, None when the date
      does not parse (an Invalid Date is never earlier than now); submission is None when the
      student has not submitted. */
  datatype Assignment = Assignment(due: Option<int>, submission: Option<Submission>)

  datatype Status = Graded | Submitted | Overdue | Pending

  function StatusName(s: Status): string {
    match s
    case Graded => "graded"
    case Submitted => "submitted"
    case Overdue => "overdue"
    case Pending => "pending"
  }

  lemma StatusNamesDistinct(s: Status, t: Status)
    ensures StatusName(s) == StatusName(t) <==> s == t
  {
  }

  predicate IsOverdue(a: Assignment, now: int) {
    a.due.Some? && a.due.value < now
  }

  /** The card's data-status, as written: a submission counts as graded unless its grade is
      exactly null. */
  function DataStatus(a: Assignment, now: int): Status {
    if a.submission.Some? then
      if a.submission.value.grade != Null then Graded else Submitted
    else if IsOverdue(a, now) then Overdue
    else Pending
  }

  /** The badge text: "Graded: g/p" only when the grade is neither null nor undefined. */
  function BadgeText(a: Assignment, now: int, points: int): string {
    if a.submission.Some? then
      match a.submission.value.grade
      case Points(g) => "Graded: " + DecimalString(g) + "/" + DecimalString(points)
      case _ => "Submitted"
    else if IsOverdue(a, now) then "Overdue"
    else "Pending"
  }

  predicate BadgeSaysGraded(a: Assignment, now: int, points: int) {
    |BadgeText(a, now, points)| >= 6 && BadgeText(a, now, points)[..6] == "Graded"
  }

  /** The badge starts with "Graded" exactly when a submission has a grade value. */
  lemma GradedBadge(a: Assignment, now: int, points: int)
    ensures BadgeSaysGraded(a, now, points) <==> a.submission.Some? && a.submission.value.grade.Points?
  {
    if a.submission.Some? && a.submission.value.grade.Points? {
      var tail := DecimalString(a.submission.value.grade.points) + "/" + DecimalString(points);
      assert BadgeText(a, now, points) == "Graded: " + tail;
      assert ("Graded: " + tail)[..6] == "Graded";
    } else {
      var text := BadgeText(a, now, points);
      assert text[0] != 'G';
      assert |text| >= 6 ==> text[..6][0] == text[0];
    }
  }

  /** The four statuses split the assignments by submission, grade and due date. */
  lemma StatusClassification(a: Assignment, now: int)
    ensures DataStatus(a, now) == Graded <==> a.submission.Some? && a.submission.value.grade != Null
    ensures DataStatus(a, now) == Submitted <==> a.submission.Some? && a.submission.value.grade == Null
    ensures DataStatus(a, now) == Overdue <==> a.submission.None? && IsOverdue(a, now)
    ensures DataStatus(a, now) == Pending <==> a.submission.None? && !IsOverdue(a, now)
  {
  }

  /** Card status and badge agree on everything except a submission whose grade is undefined. */
  lemma {:induction false} DataStatusMatchesBadge(a: Assignment, now: int, points: int)
    ensures (DataStatus(a, now) == Graded <==> BadgeSaysGraded(a, now, points))
        <==> !(a.submission.Some? && a.submission.value.grade == Undefined)
  {
    GradedBadge(a, now, points);
  }

  /** A submission without a grade field: the card is filed under "graded" while its badge
      reads "Submitted". */
  lemma UndefinedGradeMisfiled(now: int, points: int)
    ensures var a := Assignment(None, Some(Submission(Undefined)));
      DataStatus(a, now) == Graded && BadgeText(a, now, points) == "Submitted"
  {
  }

  /** The status the card evidently should carry: graded exactly when the badge shows a grade. */
  function IntendedDataStatus(a: Assignment, now: int): Status {
    if a.submission.Some? then
      if a.submission.value.grade.Points? then Graded else Submitted
    else if IsOverdue(a, now) then Overdue
    else Pending
  }

  /** With the intended status, the "graded" filter shows exactly the cards whose badge shows a
      grade, and the "submitted" filter exactly the submitted cards whose badge says so. */
  lemma {:induction false} IntendedStatusMatchesBadge(a: Assignment, now: int, points: int)
    ensures Shows("graded", StatusName(IntendedDataStatus(a, now))) <==> BadgeSaysGraded(a, now, points)
    ensures Shows("submitted", StatusName(IntendedDataStatus(a, now))) <==> BadgeText(a, now, points) == "Submitted"
  {
    GradedBadge(a, now, points);
  }

  // ---- filtering ----------------------------------------------------------------------------

  /** Whether filterAssignments(filter) leaves a card with the given data-status visible:
      "all" shows everything, "pending" also shows overdue cards, any other filter shows the
      cards whose status is exactly the filter. */
  predicate Shows(filter: string, itemStatus: string) {
    if filter == "all" then true
    else if filter == "pending" then itemStatus == "pending" || itemStatus == "overdue"
    else itemStatus == filter
  }

  /** What each filter button shows, in terms of the assignments themselves. */
  lemma FilterMeaning(a: Assignment, now: int)
    ensures Shows("all", StatusName(DataStatus(a, now)))
    ensures Shows("pending", StatusName(DataStatus(a, now))) <==> a.submission.None?
    ensures Shows("overdue", StatusName(DataStatus(a, now))) <==> a.submission.None? && IsOverdue(a, now)
    ensures Shows("submitted", StatusName(DataStatus(a, now))) <==> a.submission.Some? && a.submission.value.grade == Null
    ensures Shows("graded", StatusName(DataStatus(a, now))) <==> a.submission.Some? && a.submission.value.grade != Null
  {
  }

  /** The data-status of every card, in list order. */
  function CardStatuses(assignments: seq<Assignment>, now: int): (r: seq<string>)
    ensures |r| == |assignments|
    ensures forall i :: 0 <= i < |r| ==> r[i] == StatusName(DataStatus(assignments[i], now))
  {
    seq(|assignments|, i requires 0 <= i < |assignments| => StatusName(DataStatus(assignments[i], now)))
  }

  /** The assignment list on the page: the current filter, the data-status and visibility of
      each card, and the filter attribute and active state of each filter button. */
  class AssignmentBoard {
    var currentFilter: string
    var statuses: seq<string>
    var visible: seq<bool>
    var buttons: seq<string>
    var active: seq<bool>

    ghost predicate Valid()
      reads this
    {
      |visible| == |statuses| && |active| == |buttons|
    }

    /** The page as loaded, with its filter buttons; the filter starts at "all". */
    constructor (buttonFilters: seq<string>)
      ensures Valid()
      ensures currentFilter == "all" && statuses == [] && visible == []
      ensures buttons == buttonFilters && active == seq(|buttonFilters|, _ => false)
    {
      currentFilter := "all";
      statuses, visible := [], [];
      buttons, active := buttonFilters, seq(|buttonFilters|, _ => false);
    }

    /** filterAssignments(status): records the filter, marks exactly the buttons for it, and
        shows exactly the cards the filter admits. */
    method Filter(status: string)
      requires Valid()
      modifies this
      ensures Valid()
      ensures currentFilter == status
      ensures statuses == old(statuses) && buttons == old(buttons)
      ensures forall i :: 0 <= i < |active| ==> active[i] == (buttons[i] == status)
      ensures forall i :: 0 <= i < |visible| ==> visible[i] == Shows(status, statuses[i])
    {
      currentFilter := status;
      var b := 0;
      while b < |buttons|
        invariant 0 <= b <= |buttons| && |active| == |buttons| && |visible| == |statuses|
        invariant currentFilter == status && statuses == old(statuses) && buttons == old(buttons)
        invariant forall i :: 0 <= i < b ==> active[i] == (buttons[i] == status)
      {
        active := active[b := buttons[b] == status];
        b := b + 1;
      }
      var k := 0;
      while k < |statuses|
        invariant 0 <= k <= |statuses| && |visible| == |statuses| && |active| == |buttons|
        invariant currentFilter == status && statuses == old(statuses) && buttons == old(buttons)
        invariant forall i :: 0 <= i < |active| ==> active[i] == (buttons[i] == status)
        invariant forall i :: 0 <= i < k ==> visible[i] == Shows(status, statuses[i])
      {
        visible := visible[k := Shows(status, statuses[k])];
        k := k + 1;
      }
    }

    /** The rendering part of loadAssignments once the list has arrived: an empty list leaves
        no cards; otherwise every card carries its status and starts visible, and a student's
        remembered filter other than "all" is applied again, which re-marks the filter buttons. */
    method Load(assignments: seq<Assignment>, now: int, isTeacher: bool)
      requires Valid()
      modifies this
      ensures Valid()
      ensures statuses == CardStatuses(assignments, now)
      ensures forall i :: 0 <= i < |visible| ==> visible[i] == (isTeacher || Shows(currentFilter, statuses[i]))
      ensures currentFilter == old(currentFilter) && buttons == old(buttons)
      ensures !isTeacher && currentFilter != "all" && |assignments| > 0 ==>
        forall i :: 0 <= i < |active| ==> active[i] == (buttons[i] == currentFilter)
      ensures !(!isTeacher && currentFilter != "all" && |assignments| > 0) ==> active == old(active)
    {
      if |assignments| == 0 {
        statuses, visible := [], [];
        return;
      }
      statuses := CardStatuses(assignments, now);
      visible := seq(|statuses|, _ => true);
      if !isTeacher && currentFilter != "all" {
        Filter(currentFilter);
      }
    }
  }
}
