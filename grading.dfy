/** The teacher's grade form: gradeAssignment reads the submission id, the grade and the
    feedback from the form and the assignment's maximum points from the page, and sends a grade
    only when the checks below pass. */
module Grading {
  import opened JsText

  /** The body of the grade request: the submission id as parseInt reads it (None is NaN,
      which the JSON carries as null), the grade, and the trimmed feedback. */
  datatype GradeRequest = GradeRequest(submissionId: Option<int>, grade: int, feedback: string)

  datatype GradeError =
    | MissingGrade                      // "Please enter a grade"
    | NotANumber                        // "Please enter a valid number for the grade"
    | OutOfRange(maxPoints: Option<int>) // "Grade must be between 0 and maxPoints"

  datatype GradeDecision = Send(request: GradeRequest) | Reject(error: GradeError)

  /** gradeAssignment's checks, in the order it makes them. A grade is sent exactly when both
      fields are filled in, the grade parses, it is not negative, and it does not exceed the
      maximum; a maximum that does not parse (NaN) rejects nothing, since every comparison with
      NaN is false. */
  function Validate(submissionId: string, grade: string, feedback: string, maxPointsText: string): (d: GradeDecision)
    ensures d == Reject(MissingGrade) <==> submissionId == [] || grade == []
    ensures d.Send? <==>
      && submissionId != [] && grade != [] && ParseInt(grade).Some?
      && 0 <= ParseInt(grade).value
      && (ParseInt(maxPointsText).Some? ==> ParseInt(grade).value <= ParseInt(maxPointsText).value)
    ensures d.Send? ==> d.request == GradeRequest(ParseInt(submissionId), ParseInt(grade).value, Trim(feedback))
  {
    var trimmed := Trim(feedback);
    if submissionId == [] || grade == [] then Reject(MissingGrade)
    else
      var numGrade := ParseInt(grade);
      var maxPoints := ParseInt(maxPointsText);
      if numGrade.None? then Reject(NotANumber)
      else if numGrade.value < 0 || (maxPoints.Some? && numGrade.value > maxPoints.value) then Reject(OutOfRange(maxPoints))
      else Send(GradeRequest(ParseInt(submissionId), numGrade.value, trimmed))
  }

  /** A grade typed as a whole number against a page showing the maximum as a whole number is
      sent, unchanged, exactly when it lies between 0 and that maximum. */
  lemma TypedGradeAccepted(submissionId: string, g: int, feedback: string, maxPoints: int)
    requires submissionId != []
    ensures var d := Validate(submissionId, DecimalString(g), feedback, DecimalString(maxPoints));
      (d.Send? <==> 0 <= g <= maxPoints) && (d.Send? ==> d.request.grade == g)
      && (g < 0 || g > maxPoints ==> d == Reject(OutOfRange(Some(maxPoints))))
  {
    ParseIntDecimalString(g);
    ParseIntDecimalString(maxPoints);
  }

  /** When the maximum on the page does not parse, any non-negative grade is sent, however
      large. */
  lemma UnreadableMaximumAcceptsAnyGrade(submissionId: string, g: nat, feedback: string, maxPointsText: string)
    requires submissionId != [] && ParseInt(maxPointsText) == None
    ensures Validate(submissionId, DecimalString(g), feedback, maxPointsText).Send?
  {
    ParseIntDecimalString(g);
  }

  /** Text that holds no digit where parseInt looks for one is refused as not a number. */
  lemma BlankGradeIsNotANumber(submissionId: string, grade: string, feedback: string, maxPointsText: string)
    requires submissionId != [] && grade != [] && AllSpace(grade)
    ensures Validate(submissionId, grade, feedback, maxPointsText) == Reject(NotANumber)
  {
  }
}
