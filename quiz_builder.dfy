/** The teacher's create-quiz form: createQuiz walks the question blocks in order, skips the
    ones with blank text, keeps the trimmed non-blank options of a multiple-choice question,
    refuses (with an alert, but without stopping) a multiple-choice question with fewer than two
    options or a short-answer question without an answer, and aborts when no question is left. */
module QuizBuilder {
  import opened JsText

  const MultipleChoice := "multiple_choice"

  /** One question block of the form as the teacher left it: the raw values of its text field,
      type select, the four option fields, the correct-option select and the short-answer field. */
  datatype QuestionItem = QuestionItem(
    text: string, questionType: string, options: seq<string>, correctSelect: string, shortAnswer: string)

  /** One entry of the questions array sent to the server. */
  datatype Question = Question(text: string, questionType: string, options: seq<string>, correctAnswer: string)

  datatype Alert =
    | NeedsTwoOptions(question: string)     // "Question ... needs at least 2 options"
    | NeedsCorrectAnswer(question: string)  // "Please provide correct answer for ..."
    | CorrectOptionBlank(question: string)  // only in the intended builder below
    | NoQuestions                           // "Please add at least one question"

  /** No white space at either end. */
  predicate Trimmed(s: string) {
    s == [] || (!IsSpace(s[0]) && !IsSpace(s[|s| - 1]))
  }

  /** What every question that reaches the server looks like. */
  predicate WellFormed(q: Question) {
    && q.text != [] && Trimmed(q.text)
    && (q.questionType == MultipleChoice ==>
          |q.options| >= 2 && forall i :: 0 <= i < |q.options| ==> q.options[i] != [] && Trimmed(q.options[i]))
    && (q.questionType != MultipleChoice ==>
          q.options == [] && q.correctAnswer != [] && Trimmed(q.correctAnswer))
  }

  /** The options kept for a multiple-choice question: each value trimmed, blank ones left out,
      in the order of the fields. */
  function KeptOptions(raw: seq<string>): (r: seq<string>)
    ensures |r| <= |raw|
  {
    if raw == [] then []
    else
      var v := Trim(raw[|raw| - 1]);
      if v != [] then KeptOptions(raw[..|raw| - 1]) + [v] else KeptOptions(raw[..|raw| - 1])
  }

  /** parseInt(select.value).toString(): the decimal string of the number, or "NaN". */
  function IndexString(select: string): string {
    match ParseInt(select)
    case None => "NaN"
    case Some(n) => DecimalString(n)
  }

  /** What happens to one question block. */
  datatype ItemOutcome = Keep(question: Question) | Skip | Drop(alert: Alert)

  /** The body of createQuiz's forEach for one block, as written: the correct answer is the
      position chosen in the select, among all four option fields. */
  function BuildQuestion(item: QuestionItem): (o: ItemOutcome)
    ensures o.Skip? <==> AllSpace(item.text)
  {
    var text := Trim(item.text);
    if text == [] then Skip
    else if item.questionType == MultipleChoice then
      var options := KeptOptions(item.options);
      if |options| < 2 then Drop(NeedsTwoOptions(text))
      else Keep(Question(text, item.questionType, options, IndexString(item.correctSelect)))
    else
      var answer := Trim(item.shortAnswer);
      if answer == [] then Drop(NeedsCorrectAnswer(text))
      else Keep(Question(text, item.questionType, [], answer))
  }

  /** Every kept option is trimmed and non-empty. */
  lemma {:induction false} KeptOptionsClean(raw: seq<string>)
    ensures forall i :: 0 <= i < |KeptOptions(raw)| ==> KeptOptions(raw)[i] != [] && Trimmed(KeptOptions(raw)[i])
    decreases |raw|
  {
    if raw != [] {
      KeptOptionsClean(raw[..|raw| - 1]);
    }
  }

  /** Every question the builder keeps is well formed. */
  lemma BuildQuestionWellFormed(item: QuestionItem)
    ensures BuildQuestion(item).Keep? ==> WellFormed(BuildQuestion(item).question)
  {
    var o := BuildQuestion(item);
    if o.Keep? {
      var q := o.question;
      assert q.text == Trim(item.text) && q.text != [];
      if item.questionType == MultipleChoice {
        assert q.options == KeptOptions(item.options) && |q.options| >= 2;
        KeptOptionsClean(item.options);
      } else {
        assert q.options == [] && q.correctAnswer == Trim(item.shortAnswer) && q.correctAnswer != [];
      }
    }
  }

  /** Which blocks survive: a block with text is refused exactly when it is a multiple-choice
      question with fewer than two non-blank options or another question with a blank answer,
      and kept otherwise, with its trimmed text, its type, its kept options and its answer. */
  lemma BuildQuestionDecides(item: QuestionItem)
    ensures var o := BuildQuestion(item);
      o.Drop? <==> (!AllSpace(item.text)
        && (if item.questionType == MultipleChoice then |KeptOptions(item.options)| < 2 else AllSpace(item.shortAnswer)))
    ensures var o := BuildQuestion(item);
      o.Keep? <==> (!AllSpace(item.text)
        && (if item.questionType == MultipleChoice then |KeptOptions(item.options)| >= 2 else !AllSpace(item.shortAnswer)))
    ensures var o := BuildQuestion(item);
      o.Keep? ==>
        && o.question.text == Trim(item.text) && o.question.questionType == item.questionType
        && o.question.options == (if item.questionType == MultipleChoice then KeptOptions(item.options) else [])
        && o.question.correctAnswer
             == (if item.questionType == MultipleChoice then IndexString(item.correctSelect) else Trim(item.shortAnswer))
  {
  }

  /** The outcome of every block, in order. */
  function Outcomes(items: seq<QuestionItem>): (r: seq<ItemOutcome>)
    ensures |r| == |items|
    ensures forall i :: 0 <= i < |items| ==> r[i] == BuildQuestion(items[i])
  {
    seq(|items|, i requires 0 <= i < |items| => BuildQuestion(items[i]))
  }

  /** The questions of the kept outcomes, in order. */
  function QuestionsIn(os: seq<ItemOutcome>): (r: seq<Question>)
    ensures |r| <= |os|
  {
    if os == [] then []
    else
      var last := os[|os| - 1];
      if last.Keep? then QuestionsIn(os[..|os| - 1]) + [last.question] else QuestionsIn(os[..|os| - 1])
  }

  /** The alerts of the refused outcomes, in order. */
  function AlertsIn(os: seq<ItemOutcome>): seq<Alert> {
    if os == [] then []
    else
      var last := os[|os| - 1];
      if last.Drop? then AlertsIn(os[..|os| - 1]) + [last.alert] else AlertsIn(os[..|os| - 1])
  }

  /** The questions array createQuiz builds from the blocks, in order. */
  function Kept(items: seq<QuestionItem>): (r: seq<Question>)
    ensures |r| <= |items|
  {
    QuestionsIn(Outcomes(items))
  }

  /** The alerts raised while walking the blocks, in order. */
  function Alerts(items: seq<QuestionItem>): seq<Alert> {
    AlertsIn(Outcomes(items))
  }

  /** One more block adds its outcome at the end. */
  lemma OutcomesSnoc(items: seq<QuestionItem>, item: QuestionItem)
    ensures Outcomes(items + [item]) == Outcomes(items) + [BuildQuestion(item)]
  {
    OutcomesAppend(items, [item]);
  }

  /** One more block adds its question or its alert at the end. */
  lemma KeptSnoc(items: seq<QuestionItem>, item: QuestionItem, o: ItemOutcome)
    requires o == BuildQuestion(item)
    ensures o.Keep? ==> Kept(items + [item]) == Kept(items) + [o.question]
    ensures !o.Keep? ==> Kept(items + [item]) == Kept(items)
    ensures o.Drop? ==> Alerts(items + [item]) == Alerts(items) + [o.alert]
    ensures !o.Drop? ==> Alerts(items + [item]) == Alerts(items)
  {
    OutcomesSnoc(items, item);
    var os := Outcomes(items) + [o];
    assert os[..|items|] == Outcomes(items);
  }

  /** The inner forEach over the option fields. */
  method CollectOptions(raw: seq<string>) returns (options: seq<string>)
    ensures options == KeptOptions(raw)
  {
    options := [];
    var i := 0;
    while i < |raw|
      invariant 0 <= i <= |raw|
      invariant options == KeptOptions(raw[..i])
    {
      var v := Trim(raw[i]);
      if v != [] {
        options := options + [v];
      }
      assert raw[..i + 1][..i] == raw[..i];
      i := i + 1;
    }
    assert raw[..|raw|] == raw;
  }

  /** The outer forEach over the question blocks: returns the questions array and the alerts
      shown on the way. */
  method CollectQuestions(items: seq<QuestionItem>) returns (questions: seq<Question>, alerts: seq<Alert>)
    ensures questions == Kept(items) && alerts == Alerts(items)
  {
    questions, alerts := [], [];
    var i := 0;
    while i < |items|
      invariant 0 <= i <= |items|
      invariant questions == Kept(items[..i]) && alerts == Alerts(items[..i])
    {
      var item := items[i];
      assert items[..i + 1] == items[..i] + [item];
      KeptSnoc(items[..i], item, BuildQuestion(item));
      i := i + 1;
      var questionText := Trim(item.text);
      if questionText == [] {
        continue;
      }
      if item.questionType == MultipleChoice {
        var options := CollectOptions(item.options);
        if |options| < 2 {
          alerts := alerts + [NeedsTwoOptions(questionText)];
          continue;
        }
        questions := questions + [Question(questionText, item.questionType, options, IndexString(item.correctSelect))];
      } else {
        var answer := Trim(item.shortAnswer);
        if answer == [] {
          alerts := alerts + [NeedsCorrectAnswer(questionText)];
          continue;
        }
        questions := questions + [Question(questionText, item.questionType, [], answer)];
      }
    }
    assert items[..|items|] == items;
  }

  /** The body createQuiz posts: trimmed title and description, the time limit field (an empty
      field is sent as null) and the questions. */
  datatype QuizPayload = QuizPayload(title: string, description: string, timeLimit: Option<string>, questions: seq<Question>)

  /** createQuiz up to the request: the payload when at least one question survives, None
      (after the extra "add at least one question" alert) otherwise. */
  method CreateQuiz(title: string, description: string, timeLimit: string, items: seq<QuestionItem>)
    returns (payload: Option<QuizPayload>, alerts: seq<Alert>)
    ensures payload.Some? <==> |Kept(items)| > 0
    ensures payload.Some? ==>
      payload.value == QuizPayload(Trim(title), Trim(description), if timeLimit == [] then None else Some(timeLimit), Kept(items))
    ensures |Kept(items)| > 0 ==> alerts == Alerts(items)
    ensures |Kept(items)| == 0 ==> alerts == Alerts(items) + [NoQuestions]
  {
    var questions;
    questions, alerts := CollectQuestions(items);
    if |questions| == 0 {
      alerts := alerts + [NoQuestions];
      payload := None;
    } else {
      var limit := if timeLimit == [] then None else Some(timeLimit);
      payload := Some(QuizPayload(Trim(title), Trim(description), limit, questions));
    }
  }

  // ---- properties of the builder --------------------------------------------------------------

  /** Outcomes of two runs of blocks, one after the other, fall one after the other. */
  lemma OutcomesAppend(a: seq<QuestionItem>, b: seq<QuestionItem>)
    ensures Outcomes(a + b) == Outcomes(a) + Outcomes(b)
  {
  }

  lemma {:induction false} QuestionsInAppend(a: seq<ItemOutcome>, b: seq<ItemOutcome>)
    ensures QuestionsIn(a + b) == QuestionsIn(a) + QuestionsIn(b)
    decreases |b|
  {
    if b == [] {
      assert a + b == a;
    } else {
      var init := b[..|b| - 1];
      assert (a + b)[..|a + b| - 1] == a + init;
      QuestionsInAppend(a, init);
    }
  }

  lemma {:induction false} AlertsInAppend(a: seq<ItemOutcome>, b: seq<ItemOutcome>)
    ensures AlertsIn(a + b) == AlertsIn(a) + AlertsIn(b)
    decreases |b|
  {
    if b == [] {
      assert a + b == a;
    } else {
      var init := b[..|b| - 1];
      assert (a + b)[..|a + b| - 1] == a + init;
      AlertsInAppend(a, init);
    }
  }

  /** Walking two runs of blocks one after the other keeps the questions and raises the alerts
      of each. */
  lemma KeptAppend(a: seq<QuestionItem>, b: seq<QuestionItem>)
    ensures Kept(a + b) == Kept(a) + Kept(b)
    ensures Alerts(a + b) == Alerts(a) + Alerts(b)
  {
    OutcomesAppend(a, b);
    QuestionsInAppend(Outcomes(a), Outcomes(b));
    AlertsInAppend(Outcomes(a), Outcomes(b));
  }

  /** Every question in the posted array is well formed: trimmed non-empty text, and either two
      or more trimmed non-blank options or a trimmed non-empty answer. */
  lemma {:induction false} QuestionsInWellFormed(os: seq<ItemOutcome>)
    requires forall i :: 0 <= i < |os| && os[i].Keep? ==> WellFormed(os[i].question)
    ensures forall k :: 0 <= k < |QuestionsIn(os)| ==> WellFormed(QuestionsIn(os)[k])
    decreases |os|
  {
    if os != [] {
      var init := os[..|os| - 1];
      QuestionsInWellFormed(init);
    }
  }

  lemma KeptWellFormed(items: seq<QuestionItem>)
    ensures forall k :: 0 <= k < |Kept(items)| ==> WellFormed(Kept(items)[k])
  {
    var os := Outcomes(items);
    forall i | 0 <= i < |os| && os[i].Keep?
      ensures WellFormed(os[i].question)
    {
      BuildQuestionWellFormed(items[i]);
    }
    QuestionsInWellFormed(os);
  }

  /** A refused outcome contributes its alert and nothing else. */
  lemma DroppedOutcomeKeepsOthers(os: seq<ItemOutcome>, i: nat)
    requires i < |os| && os[i].Drop?
    ensures QuestionsIn(os) == QuestionsIn(os[..i]) + QuestionsIn(os[i + 1..])
    ensures AlertsIn(os) == AlertsIn(os[..i]) + [os[i].alert] + AlertsIn(os[i + 1..])
  {
    var upto := os[..i + 1];
    assert os == upto + os[i + 1..];
    assert upto[..i] == os[..i];
    assert QuestionsIn(os) == QuestionsIn(os[..i]) + QuestionsIn(os[i + 1..]) by {
      QuestionsInAppend(upto, os[i + 1..]);
    }
    assert AlertsIn(os) == AlertsIn(os[..i]) + [os[i].alert] + AlertsIn(os[i + 1..]) by {
      AlertsInAppend(upto, os[i + 1..]);
    }
  }

  /** A refused question costs only itself: the questions before and after it are all kept,
      and its alert is raised. */
  lemma DroppedQuestionKeepsOthers(items: seq<QuestionItem>, i: nat)
    requires i < |items| && BuildQuestion(items[i]).Drop?
    ensures Kept(items) == Kept(items[..i]) + Kept(items[i + 1..])
    ensures Alerts(items) == Alerts(items[..i]) + [BuildQuestion(items[i]).alert] + Alerts(items[i + 1..])
  {
    var os := Outcomes(items);
    assert Outcomes(items[..i]) == os[..i];
    assert Outcomes(items[i + 1..]) == os[i + 1..];
    DroppedOutcomeKeepsOthers(os, i);
  }

  /** A kept multiple-choice question stores its select's number as a decimal string, which
      parseInt reads back as that number. */
  lemma CorrectIndexReadsBack(item: QuestionItem)
    requires BuildQuestion(item).Keep? && item.questionType == MultipleChoice
    requires ParseInt(item.correctSelect).Some?
    ensures ParseInt(BuildQuestion(item).question.correctAnswer) == ParseInt(item.correctSelect)
  {
    ParseIntDecimalString(ParseInt(item.correctSelect).value);
  }

  /** The stored index counts all four option fields, blank ones included, while the stored
      options leave the blank ones out: with the first and last fields blank, choosing the third
      field ("Option 3", select value "2") stores index 2 against only two options, so the answer
      points past the end of the list instead of at the option chosen. */
  lemma CorrectIndexShiftsPastBlankOption(text: string, p: string, r: string)
    requires text != [] && Trimmed(text) && p != [] && Trimmed(p) && r != [] && Trimmed(r)
    ensures var item := QuestionItem(text, MultipleChoice, ["", p, r, ""], "2", "");
      && BuildQuestion(item) == Keep(Question(text, MultipleChoice, [p, r], "2"))
      && ParseInt(BuildQuestion(item).question.correctAnswer) == Some(2)
      && Trim(item.options[2]) == r
  {
    var item := QuestionItem(text, MultipleChoice, ["", p, r, ""], "2", "");
    assert Trim(item.text) == text by {
      TrimOfTrimmed(text);
    }
    assert KeptOptions(item.options) == [p, r] by {
      BlankFieldsDropped(p, r);
    }
    assert IndexString(item.correctSelect) == "2" && ParseInt("2") == Some(2) by {
      SelectTwo();
    }
    assert Trim(item.options[2]) == r by {
      TrimOfTrimmed(r);
    }
  }

  /** The option fields ["", p, r, ""] keep exactly p and r. */
  lemma BlankFieldsDropped(p: string, r: string)
    requires p != [] && Trimmed(p) && r != [] && Trimmed(r)
    ensures KeptOptions(["", p, r, ""]) == [p, r]
  {
    var s4: seq<string> := ["", p, r, ""];
    var s3: seq<string> := ["", p, r];
    var s2: seq<string> := ["", p];
    var s1: seq<string> := [""];
    assert KeptOptions(s1) == [] by { assert s1[..0] == []; }
    assert KeptOptions(s2) == [p] by { assert s2[..1] == s1; TrimOfTrimmed(p); }
    assert KeptOptions(s3) == [p, r] by { assert s3[..2] == s2; TrimOfTrimmed(r); }
    assert KeptOptions(s4) == [p, r] by { assert s4[..3] == s3; }
  }

  /** The select value "2" is stored as "2", and reads back as 2. */
  lemma SelectTwo()
    ensures ParseInt("2") == Some(2) && IndexString("2") == "2"
  {
    ParseIntDecimalString(2);
    assert DecimalString(2) == "2";
  }

  /** Trimming text without white space at its ends leaves it as it is. */
  lemma TrimOfTrimmed(s: string)
    requires Trimmed(s)
    ensures Trim(s) == s
  {
  }

  // ---- the builder as evidently intended ------------------------------------------------------

  /** One block, with the correct answer renumbered among the kept options; a select pointing
      at a blank field is refused instead. */
  function BuildQuestionIntended(item: QuestionItem): (o: ItemOutcome)
    ensures o.Skip? <==> AllSpace(item.text)
    ensures o.Keep? ==> o.question.text == Trim(item.text) && o.question.questionType == item.questionType
  {
    var text := Trim(item.text);
    if text == [] then Skip
    else if item.questionType == MultipleChoice then
      var options := KeptOptions(item.options);
      var chosen := ParseInt(item.correctSelect);
      if |options| < 2 then Drop(NeedsTwoOptions(text))
      else if chosen.None? || !(0 <= chosen.value < |item.options|) || Trim(item.options[chosen.value]) == [] then
        Drop(CorrectOptionBlank(text))
      else Keep(Question(text, item.questionType, options, DecimalString(|KeptOptions(item.options[..chosen.value])|)))
    else
      var answer := Trim(item.shortAnswer);
      if answer == [] then Drop(NeedsCorrectAnswer(text))
      else Keep(Question(text, item.questionType, [], answer))
  }

  /** The corrected builder, too, keeps only well-formed questions. */
  lemma BuildQuestionIntendedWellFormed(item: QuestionItem)
    ensures BuildQuestionIntended(item).Keep? ==> WellFormed(BuildQuestionIntended(item).question)
  {
    KeptOptionsClean(item.options);
  }

  /** A non-blank field keeps its place: it is the kept option numbered by how many non-blank
      fields precede it. */
  lemma {:induction false} KeptOptionAt(raw: seq<string>, j: nat)
    requires j < |raw| && Trim(raw[j]) != []
    ensures |KeptOptions(raw[..j])| < |KeptOptions(raw)|
    ensures KeptOptions(raw)[|KeptOptions(raw[..j])|] == Trim(raw[j])
    decreases |raw|
  {
    var init := raw[..|raw| - 1];
    if j == |raw| - 1 {
      assert raw[..j] == init;
    } else {
      KeptOptionAt(init, j);
      assert init[..j] == raw[..j];
    }
  }

  /** With the intended builder, the stored correct answer is an index into the stored options
      that names exactly the option the teacher chose. */
  lemma IntendedCorrectAnswerNamesChosenOption(item: QuestionItem)
    requires BuildQuestionIntended(item).Keep? && item.questionType == MultipleChoice
    ensures var q := BuildQuestionIntended(item).question;
      var k := ParseInt(q.correctAnswer);
      && k.Some? && 0 <= k.value < |q.options|
      && ParseInt(item.correctSelect).Some?
      && q.options[k.value] == Trim(item.options[ParseInt(item.correctSelect).value])
  {
    var j := ParseInt(item.correctSelect).value;
    KeptOptionAt(item.options, j);
    ParseIntDecimalString(|KeptOptions(item.options[..j])|);
  }
}
