/** Taking a quiz: startQuiz renders one card per question (a radio button per option for a
    multiple-choice question, a text field otherwise, both tagged with the question's id), and
    submitQuiz reads one answer back from every card, in page order. */
module QuizAnswers {
  import opened JsText
  import opened QuizBuilder

  /** A question as the server sends it to startQuiz. */
  datatype QuizQuestion = QuizQuestion(id: int, questionType: string, options: seq<string>)

  /** What the student did with one card before submitting. */
  datatype Response = NoResponse | Chose(index: nat) | Typed(text: string)

  /** One .quiz-question card as submitQuiz finds it: its data-question-id, the value of its
      checked radio button if any, and the value of its short-answer field if it has one. */
  datatype QuestionCard = QuestionCard(questionId: string, checked: Option<string>, textInput: Option<string>)

  /** One entry of the answers array: parseInt of the card's id (None is NaN) and the answer. */
  datatype Answer = Answer(questionId: Option<int>, answer: string)

  /** The card startQuiz renders for a question, after the student's response: radio values
      are the option positions; a choice of a position the card does not have checks nothing,
      and typing into a multiple-choice card is impossible (it has no text field). */
  function RenderCard(q: QuizQuestion, response: Response): (card: QuestionCard)
    ensures card.questionId == DecimalString(q.id)
    ensures card.textInput.Some? <==> q.questionType != MultipleChoice
    ensures card.checked.Some? ==> q.questionType == MultipleChoice
  {
    if q.questionType == MultipleChoice then
      var checked := if response.Chose? && response.index < |q.options| then Some(DecimalString(response.index)) else None;
      QuestionCard(DecimalString(q.id), checked, None)
    else
      QuestionCard(DecimalString(q.id), None, Some(if response.Typed? then response.text else ""))
  }

  /** The answer submitQuiz reads from one card: the checked radio's value, else the trimmed
      text of the short-answer field, else the empty string. */
  function AnswerOf(card: QuestionCard): (a: Answer)
    ensures a.questionId == ParseInt(card.questionId)
    ensures card.checked.Some? ==> a.answer == card.checked.value
    ensures card.checked.None? && card.textInput.Some? ==> a.answer == Trim(card.textInput.value)
    ensures card.checked.None? && card.textInput.None? ==> a.answer == []
  {
    var answer :=
      if card.checked.Some? then card.checked.value
      else if card.textInput.Some? then Trim(card.textInput.value)
      else "";
    Answer(ParseInt(card.questionId), answer)
  }

  /** f applied to every element of xs, in order. */
  function Map<X, Y>(f: X -> Y, xs: seq<X>): (ys: seq<Y>)
    ensures |ys| == |xs|
  {
    if xs == [] then [] else Map(f, xs[..|xs| - 1]) + [f(xs[|xs| - 1])]
  }

  lemma {:induction false} MapEach<X, Y>(f: X -> Y, xs: seq<X>)
    ensures forall i :: 0 <= i < |xs| ==> Map(f, xs)[i] == f(xs[i])
    decreases |xs|
  {
    if xs != [] {
      var init := xs[..|xs| - 1];
      MapEach(f, init);
      assert forall i :: 0 <= i < |init| ==> xs[i] == init[i];
    }
  }

  /** The answers array submitQuiz sends: one answer per card, in page order. */
  function AnswersOf(cards: seq<QuestionCard>): (answers: seq<Answer>)
    ensures |answers| == |cards|
    ensures forall i :: 0 <= i < |cards| ==> answers[i] == AnswerOf(cards[i])
  {
    MapEach(AnswerOf, cards);
    Map(AnswerOf, cards)
  }

  /** submitQuiz's forEach over the cards; the body of its callback is AnswerOf. */
  method CollectAnswers(cards: seq<QuestionCard>) returns (answers: seq<Answer>)
    ensures answers == AnswersOf(cards)
  {
    answers := [];
    var i := 0;
    while i < |cards|
      invariant 0 <= i <= |cards|
      invariant answers == Map(AnswerOf, cards[..i])
    {
      assert cards[..i + 1][..i] == cards[..i];
      answers := answers + [AnswerOf(cards[i])];
      i := i + 1;
    }
    assert cards[..|cards|] == cards;
  }

  /** What the student meant to answer: the position of the option chosen, the trimmed text
      typed, or nothing. */
  function Given(q: QuizQuestion, response: Response): string {
    if q.questionType == MultipleChoice then
      if response.Chose? && response.index < |q.options| then DecimalString(response.index) else ""
    else if response.Typed? then Trim(response.text)
    else ""
  }

  /** Every card hands back the id of its question and the student's own answer. */
  lemma RenderedCardReadsBack(q: QuizQuestion, response: Response)
    ensures AnswerOf(RenderCard(q, response)) == Answer(Some(q.id), Given(q, response))
  {
    ParseIntDecimalString(q.id);
  }

  /** A chosen option comes back as its position written in decimal, which parseInt reads
      back as that very position. */
  lemma ChosenOptionReadsBack(q: QuizQuestion, j: nat)
    requires q.questionType == MultipleChoice && j < |q.options|
    ensures var a := AnswerOf(RenderCard(q, Chose(j))).answer;
      a == DecimalString(j) && ParseInt(a) == Some(j)
  {
    RenderedCardReadsBack(q, Chose(j));
    ParseIntDecimalString(j);
  }

  /** The cards of a whole quiz, in the order of its questions. */
  function RenderQuiz(qs: seq<QuizQuestion>, responses: seq<Response>): (cards: seq<QuestionCard>)
    requires |responses| == |qs|
    ensures |cards| == |qs|
    ensures forall i :: 0 <= i < |qs| ==> cards[i] == RenderCard(qs[i], responses[i])
  {
    seq(|qs|, i requires 0 <= i < |qs| => RenderCard(qs[i], responses[i]))
  }

  /** Submitting a rendered quiz sends one answer per question, in question order: its id and
      the student's answer to it. */
  lemma RenderedQuizReadsBack(qs: seq<QuizQuestion>, responses: seq<Response>)
    requires |responses| == |qs|
    ensures var answers := AnswersOf(RenderQuiz(qs, responses));
      && |answers| == |qs|
      && forall i :: 0 <= i < |qs| ==> answers[i] == Answer(Some(qs[i].id), Given(qs[i], responses[i]))
  {
    var cards := RenderQuiz(qs, responses);
    forall i | 0 <= i < |qs|
      ensures AnswersOf(cards)[i] == Answer(Some(qs[i].id), Given(qs[i], responses[i]))
    {
      RenderedCardReadsBack(qs[i], responses[i]);
    }
  }
}
