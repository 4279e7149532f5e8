# Classroom dashboard logic, modelled in Dafny

The dashboard script (`script.js`) of a classroom web application is mostly browser glue:
`fetch` calls, HTML templates and DOM toggling. Inside it sit a few small pieces of sequential
logic. This project lifts each of them out of its DOM wrapper and models it in Dafny:

- **The quiz countdown.** `startQuiz` arms a one-second interval. Each firing decrements
  `quizTimeRemaining` and repaints the timer. At zero or below the firing cancels itself and
  submits the quiz. `closeModal('takeQuizModal')` and an accepted submission cancel the interval
  and set `quizTimerInterval` to null.
  - Module `QuizTimer`. The `Countdown` snapshot and specification functions give the meaning
    of each step. The class `QuizSession` performs the same steps in place on the page's globals.
  - The browser's timer table is a set of live interval ids, and each firing is an explicit
    `Tick` call.
- **The two timer read-outs.** The quiz timer shows `m:ss`, in the danger colour from 60
  seconds on. The subscription teaser shows `mm:ss`, turns red from 30 seconds on and opens the
  popup at zero. Both are modelled, with their inverse, in module `TimerText`.
- **The subscription teaser.** Two minutes from page load, unless local storage holds the Pro
  flag. Module `SubscriptionTimer`, class `Teaser`.
- **The assignment list.** The four-way status written as `data-status`, the badge text, and
  `filterAssignments`, which records the filter, marks the matching button and shows or hides
  each card. Module `Assignments`, class `AssignmentBoard`.
- **The grade form's validation** (`gradeAssignment`). Module `Grading`.
- **The quiz builder** (`createQuiz`). Module `QuizBuilder`.
- **Answer collection** (`submitQuiz`), together with the cards `startQuiz` renders. Module
  `QuizAnswers`.
- **The 10 MB file-size check** of both upload handlers. Module `Uploads`.

The JavaScript primitives these pieces rely on are modelled once, in module `JsText`:
- `String.prototype.trim`, with the ECMAScript white-space and line-terminator set;
- `padStart`;
- `Number.prototype.toString` on integers;
- the global `parseInt` with no radix, where `None` stands for NaN.

Dafny's `/` by a positive divisor is `Math.floor` of the quotient. JavaScript's truncating `%`
is written out as `TimerText.JsRemainder`. Due dates are integer time values compared with an
integer "now". Every comparison with NaN is false, and the model states that explicitly where
it matters (the maximum points of the grade form).

## Model

| member | source | states |
|---|---|---|
| JsText.Trim | script.js:1597 | the result has no white space at either end, is no longer than the input, and is empty exactly when the input is all white space |
| JsText.TrimSlice | script.js:1597 | the trimmed text is the input itself with only white space removed before it and after it: a contiguous slice with nothing but white space on either side |
| JsText.ParseInt | script.js:1607 | text that is all white space (the empty string included) reads as NaN |
| JsText.ParseIntDecimalString | script.js:1607-1608 | `parseInt` reads the decimal string `toString` writes for any integer back as that integer |
| TimerText.JsRemainder | script.js:1799 | the remainder lies strictly between minus and plus the divisor, differs from the dividend by a multiple of the divisor, and takes the dividend's sign; this pins it to the truncated remainder for every dividend |
| TimerText.QuizTimerDisplay | script.js:1797-1806 | the quiz read-out is the stopwatch prefix followed by exactly `QuizClock` of the counter, and the danger colour is called for exactly when at most 60 seconds remain |
| TimerText.SubscriptionDisplay | script.js:2035-2051 | the teaser read-out is the padded clock; the red gradient is called for exactly when at most 30 seconds remain and the popup exactly when none remain |
| TimerText.QuizClockRoundTrip | script.js:1798-1802 | for every non-negative counter, reading the `m:ss` text back (minutes, colon, two-digit seconds below 60) gives the counter |
| TimerText.SubscriptionClockRoundTrip | script.js:2035-2037 | for every non-negative counter, reading the `mm:ss` text back gives the counter |
| TimerText.SubscriptionClockWidth | script.js:2035-2037 | below 100 minutes the teaser text is always five characters |
| TimerText.ClockBelowZero | script.js:1768-1802 | a counter of -1 seconds, as a negative time limit produces, shows the quiz clock "-1:-1": both the floored minutes and the truncated seconds are -1 |
| TimerText.ClocksAtZero | script.js:2008-2037 | concrete read-outs: the quiz clock at 0 is "0:00", the teaser at 0 is "00:00" and at 120 is "02:00" |
| QuizTimer.AtMostOneLive | script.js:1772-1776 | under the countdown invariant at most one quiz interval is live, and it is the one the handle names |
| QuizTimer.Released | script.js:1845-1848 | clearing the handle leaves no live interval and a null handle, and changes nothing else |
| QuizTimer.Started | script.js:1767-1788 | with a truthy time limit the counter becomes limit * 60, the timer is shown and painted, the old interval is cancelled and exactly one fresh interval is live and remembered; without one the timer is only hidden |
| QuizTimer.Ticked | script.js:1776-1785 | a firing takes exactly one second off, repaints, and submits and cancels its interval exactly when the counter reaches zero or below, leaving the handle set |
| QuizTimer.Closed | script.js:188-191 | closing the quiz modal leaves no live interval and a null handle; closing any other modal changes nothing |
| QuizTimer.AfterSubmit | script.js:1844-1849 | after an accepted submission no interval is live and the handle is null |
| QuizTimer.CountsDown | script.js:1776-1779 | while seconds remain, each second takes exactly one off and keeps the interval live |
| QuizTimer.StaysStopped | script.js:1780-1781 | once the submitting firing has happened no interval is live again, however long one waits |
| QuizTimer.ExpiresOnSecond | script.js:1776-1785 | a live countdown submits on exactly one second: the one that brings the counter to zero, or the first one if it is already at one or below |
| QuizTimer.TimedQuizSubmitsAtLimit | script.js:1767-1785 | a quiz started with a limit of B minutes submits on second B*60 and on no other second (on the first, for a negative limit) |
| QuizTimer.UntimedQuizNeverExpires | script.js:1786-1788 | a quiz started without a limit, with no interval live, is never submitted by the clock |
| QuizTimer.ClosingStopsTheClock | script.js:188-191 | after the quiz modal is closed, no number of seconds changes the countdown |
| QuizTimer.QuizSession.constructor | script.js:8-9 | the globals as loaded: nothing remaining, null handle, nothing scheduled |
| QuizTimer.QuizSession.Repaint | script.js:1803-1806 | the danger colour is added once at most 60 seconds remain and never removed |
| QuizTimer.QuizSession.Start | script.js:1767-1788 | the globals after `startQuiz` are `Started` of the globals before, and the countdown invariant is kept |
| QuizTimer.QuizSession.Tick | script.js:1776-1785 | the globals after one firing, and whether it submits, are `Ticked` of the globals before |
| QuizTimer.QuizSession.Close | script.js:188-191 | the globals after `closeModal` are `Closed` of the globals before |
| QuizTimer.QuizSession.SubmitSucceeded | script.js:1844-1849 | the globals after an accepted submission are `AfterSubmit` of the globals before |
| SubscriptionTimer.Teaser.constructor | script.js:2007-2008 | the teaser starts at 120 seconds, not running, hidden and without popup |
| SubscriptionTimer.Teaser.Load | script.js:2011-2031 | the teaser is shown and armed when the stored flag is not "true"; with the flag updateUIForProUser (script.js:2170-2174) hides the timer and nothing is armed; the counter, colour and popup are untouched |
| SubscriptionTimer.Teaser.Tick | script.js:2031-2060 | a firing takes exactly one second off, turns red from 30 seconds on, and at zero or below stops, hides the timer and opens the popup |
| SubscriptionTimer.TeaserRunsTwoMinutes | script.js:2008-2060 | a page loaded without the Pro flag opens the popup on the 120th firing and not before |
| Assignments.StatusNamesDistinct | script.js:1089 | the four data-status strings are pairwise different |
| Assignments.StatusClassification | script.js:1084-1089 | graded iff submitted with a grade other than null; submitted iff the grade is null; overdue iff not submitted and due before now; pending otherwise |
| Assignments.GradedBadge | script.js:1098-1106 | the badge starts with "Graded" exactly when the submission carries a grade value (neither null nor undefined) |
| Assignments.DataStatusMatchesBadge | script.js:1089-1106 | data-status and badge agree on "graded" for every assignment except one whose submission has an undefined grade |
| Assignments.UndefinedGradeMisfiled | script.js:1089-1101 | a submission with an undefined grade is filed as "graded" while its badge says "Submitted" |
| Assignments.IntendedStatusMatchesBadge | script.js:1098-1101 | with the status computed as the badge computes it, the "graded" and "submitted" filters show exactly the cards whose badge says so |
| Assignments.FilterMeaning | script.js:1155-1164 | in terms of the assignments: "all" shows all, "pending" every unsubmitted one (overdue included), "overdue" the unsubmitted late ones, "submitted" and "graded" the submitted ones by grade |
| Assignments.AssignmentBoard.constructor | script.js:5 | the remembered filter starts as "all" |
| Assignments.AssignmentBoard.Filter | script.js:1142-1165 | records the filter, marks exactly the buttons whose data-filter equals it, shows exactly the cards the filter admits, and changes no status |
| Assignments.AssignmentBoard.Load | script.js:1078-1135 | one card per assignment, in list order, each carrying its assignment's data-status; each card is visible for a teacher, and for a student exactly when the remembered filter admits it; a student's remembered filter other than "all" re-marks exactly its buttons as active, and otherwise the marks are untouched |
| Grading.Validate | script.js:1439-1476 | refused as missing exactly when the id or grade is empty; sent exactly when the grade parses, is not negative and does not exceed a maximum that parses; the request carries the parsed id and grade and the trimmed feedback |
| Grading.TypedGradeAccepted | script.js:1457-1468 | a whole-number grade against a whole-number maximum is sent, unchanged, exactly when it lies in [0, maximum], and refused as out of range otherwise |
| Grading.UnreadableMaximumAcceptsAnyGrade | script.js:1458-1468 | when the maximum on the page does not parse, every non-negative grade is sent |
| Grading.BlankGradeIsNotANumber | script.js:1457-1462 | a grade of only white space is refused as not a number |
| QuizBuilder.KeptOptionsClean | script.js:1595-1599 | every kept option is non-empty and trimmed |
| QuizBuilder.BuildQuestion | script.js:1582-1617 | a block is skipped exactly when its text is blank |
| QuizBuilder.BuildQuestionDecides | script.js:1582-1617 | a block with text is refused exactly when it is multiple choice with fewer than two non-blank options or otherwise has a blank answer, and kept in every other case; a kept question has the trimmed text, the block's type, the kept options (none for a short answer) and the select's number or the trimmed answer |
| QuizBuilder.BuildQuestionWellFormed | script.js:1582-1617 | every question kept from a block has trimmed non-empty text and either two or more trimmed non-blank options or a trimmed non-empty answer |
| QuizBuilder.KeptSnoc | script.js:1581-1618 | one more block appends its own question or its own alert, and nothing else |
| QuizBuilder.CollectOptions | script.js:1595-1599 | the inner loop builds exactly the kept options of the fields |
| QuizBuilder.CollectQuestions | script.js:1579-1618 | the outer loop builds exactly the kept questions and raises exactly the alerts of the blocks, in order |
| QuizBuilder.CreateQuiz | script.js:1575-1623 | a payload (trimmed title and description, empty time limit as null, the kept questions) exists exactly when some question is kept; otherwise the extra "no questions" alert follows the others |
| QuizBuilder.KeptAppend | script.js:1581-1618 | the questions and alerts of two runs of blocks are those of each run, one after the other |
| QuizBuilder.KeptWellFormed | script.js:1582-1617 | every question posted has trimmed non-empty text and either two or more trimmed non-blank options or a trimmed non-empty answer |
| QuizBuilder.DroppedQuestionKeepsOthers | script.js:1601-1614 | a refused block costs only itself: every question before and after it is kept and its alert is raised in place |
| QuizBuilder.CorrectIndexReadsBack | script.js:1607-1608 | the stored correct answer parses back to the select's number |
| QuizBuilder.CorrectIndexShiftsPastBlankOption | script.js:1596-1608 | with the first and last option fields empty, choosing "Option 3" stores index 2 against only two stored options |
| QuizBuilder.BuildQuestionIntended | script.js:1582-1608 | the corrected builder skips a block exactly when its text is blank, and a question it keeps has the block's trimmed text and its type |
| QuizBuilder.BuildQuestionIntendedWellFormed | script.js:1594-1608 | the corrected builder keeps only well-formed questions |
| QuizBuilder.KeptOptionAt | script.js:1596-1599 | a non-blank field is the kept option numbered by the count of kept fields before it |
| QuizBuilder.IntendedCorrectAnswerNamesChosenOption | script.js:1697-1701 | with the corrected builder the stored answer indexes the stored options and names exactly the option the teacher chose |
| QuizAnswers.RenderCard | script.js:1747-1763 | a card carries its question's id as text, has a text field exactly for a question that is not multiple choice, and can have a checked radio only for one that is |
| QuizAnswers.AnswerOf | script.js:1813-1828 | the answer is the checked radio's value, else the trimmed text, else the empty string; the id is parsed from the card |
| QuizAnswers.AnswersOf | script.js:1811-1829 | the answers array has exactly one answer per card, in page order, each that card's answer |
| QuizAnswers.CollectAnswers | script.js:1811-1829 | the loop pushes, card by card, exactly the answers array AnswersOf describes |
| QuizAnswers.RenderedCardReadsBack | script.js:1747-1829 | a rendered card hands back its question's id and the student's own answer (the chosen position or the trimmed text, else empty) |
| QuizAnswers.ChosenOptionReadsBack | script.js:1752-1820 | a chosen option comes back as its position written in decimal, which parses back to that very position |
| QuizAnswers.RenderedQuizReadsBack | script.js:1747-1829 | submitting the cards startQuiz renders sends exactly one answer per question, in question order, each with that question's id and the student's answer to it |
| Uploads.CheckFile | script.js:577-587 | no file does nothing; a file is refused exactly when it is larger than 10 MB, and otherwise accepted with its size |
| Uploads.LimitIsInclusive | script.js:583-587 | the limit is 10485760 bytes; a file of exactly that size is accepted and one byte more is refused |
| Uploads.SmallerFilesAccepted | script.js:1224-1228 | any file no larger than an accepted one is accepted |

## Left out

- `fetch` and the server are left out: listing, creating, grading, scoring, persistence and authentication. An accepted or failed response is an input, and a failed submission changes no countdown state.
- The DOM is left out: HTML templates, modals, innerHTML, styles other than the flags modelled, `escapeHtml`, clipboard and drag-and-drop. Cards and form blocks are records of the values the code reads.
- `setInterval` is not modelled as real concurrency. Each firing is an explicit call on one thread.
- `localStorage` is left out, except for the Pro flag read at load. `FileReader` and base64 encoding are left out: an accepted file only passes the size check.
- The Razorpay payment flow is left out. This covers its GST computation and its cancelling of the teaser interval on payment, since both sit inside a third-party widget callback.
- `toFixed` in the kilobyte display of file sizes is left out, because it is floating-point formatting.
- `Date` and locale formatting are left out. A due date is an integer time value; an Invalid Date is `None` and never counts as overdue.
- JsText.DecimalString: does not model the exponent notation JavaScript uses from 10^21 up.
- JsText.ParseInt: does not model the rounding of very long digit runs to the nearest double. Its contract only pins down the blank-text case; its meaning is stated through ParseIntDecimalString.
- SubscriptionTimer.Teaser.Tick: its contract does not name the text the firing writes. That text is `Teaser.Readout()`, the `mm:ss` display of the new counter, whose properties are stated on TimerText.SubscriptionDisplay.
- The quiz's `time_limit` is taken as a whole number of minutes or null (`Option<int>`). A fractional limit such as 1.5 minutes, which JavaScript turns into a 90-second countdown, cannot be expressed, and a string-typed limit that JavaScript would coerce is not modelled.
- Of `updateUIForProUser`, only its hiding of the teaser timer is modelled; the Pro badge it adds to the user chip is DOM decoration and is left out.
- The HTML's initial display of the timer elements, before any script runs, is not modelled.
- The code has no guard against a second submission, no submitting or retry state, and no client-side grading. The model adds none of them.
- An untimed `startQuiz` does not cancel an interval still live from an earlier quiz. The cancel sits only in the timed branch, and the model follows the code.
- The quiz timer's danger colour is sticky: `updateQuizTimer` never removes it, so it carries over to the next quiz. The model follows the code.
- The file-size alert speaks of files "less than 10MB", but the check refuses only files larger than 10 MB. The model follows the check.

## Findings

| source | as written | input that shows it | evidently intended | confidence | as-written member | corrected member |
|---|---|---|---|---|---|---|
| script.js:1596-1608 | the correct answer is the select's position among all four option fields, but blank fields are dropped from the stored options | options "", "Paris", "Rome", "" with "Option 3" (value "2") chosen: the stored options are ["Paris", "Rome"] and the stored answer is "2", past their end | renumber the chosen field among the kept options, and refuse a choice of a blank field | not executed | QuizBuilder.CorrectIndexShiftsPastBlankOption | QuizBuilder.IntendedCorrectAnswerNamesChosenOption |
| script.js:1089-1101 | data-status is "graded" whenever the grade is not null, while the badge also requires it not to be undefined | a submission without a grade field: data-status "graded", badge "Submitted", so the "graded" filter shows an ungraded card | classify as the badge does | not executed | Assignments.UndefinedGradeMisfiled | Assignments.IntendedStatusMatchesBadge |
