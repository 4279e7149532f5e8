/** The countdown of the "take quiz" modal. The page keeps two globals, quizTimeRemaining and
    quizTimerInterval; startQuiz arms a one-second setInterval whose callback decrements the
    first, repaints the timer and, at zero or below, cancels itself and submits the quiz;
    closing the modal and a successful submission cancel the interval and forget its handle.

    Here the browser's timer table is a set of live interval ids and each firing of the
    interval is an explicit call. The functions below give the meaning of every step on a
    snapshot (Countdown); the class QuizSession performs the same steps in place. */
module QuizTimer {
  import opened JsText

  /** Everything the countdown touches. */
  datatype Countdown = Countdown(
    remaining: int,       // quizTimeRemaining
    handle: Option<nat>,  // quizTimerInterval; None is null
    live: set<nat>,       // intervals the browser will still fire
    nextId: nat,          // the id the browser's next setInterval returns
    shown: bool,          // the #quizTimer element is displayed
    urgent: bool)         // the #quizTimer element carries the danger colour

  /** The page as loaded: nothing remaining, no handle, nothing scheduled. */
  const Loaded := Countdown(0, None, {}, 1, false, false)

  const TakeQuizModal := "takeQuizModal"

  /** The countdown's invariant: every live interval is the one the handle names, and the
      handle is an id the browser has already handed out (ids start at 1, so a set handle is
      truthy). */
  predicate Valid(c: Countdown) {
    && (forall h :: h in c.live ==> c.handle == Some(h))
    && (c.handle.Some? ==> 1 <= c.handle.value < c.nextId)
    && c.nextId >= 1
  }

  /** At most one quiz interval is ever live. */
  lemma AtMostOneLive(c: Countdown)
    requires Valid(c)
    ensures |c.live| <= 1
    ensures c.live != {} ==> c.handle.Some? && c.live == {c.handle.value}
  {
    if c.live != {} {
      var h :| h in c.live;
      assert c.live == {h};
    }
  }

  /** A quiz's time_limit as the page reads it: None for null; JavaScript also takes 0 as false. */
  predicate HasLimit(timeLimit: Option<int>) {
    timeLimit.Some? && timeLimit.value != 0
  }

  /** What updateQuizTimer leaves on the element's style: it adds the danger colour once r is
      at most 60 (the test TimerText.QuizTimerDisplay reports) and never takes it away. */
  function Painted(urgent: bool, r: int): bool {
    urgent || r <= 60
  }

  /** `if (quizTimerInterval) { clearInterval(quizTimerInterval); quizTimerInterval = null; }` */
  function Released(c: Countdown): (r: Countdown)
    requires Valid(c)
    ensures Valid(r) && r.handle == None && r.live == {}
    ensures r.remaining == c.remaining && r.nextId == c.nextId && r.shown == c.shown && r.urgent == c.urgent
  {
    if c.handle.Some? then c.(handle := None, live := c.live - {c.handle.value}) else c
  }

  /** The timer part of startQuiz. With a limit: the counter becomes the limit in seconds, the
      timer is shown and painted, the interval the handle names is cancelled and a fresh one is
      armed and remembered, so exactly that one is live. Without a limit the timer is only
      hidden: nothing is cancelled and nothing is armed. */
  function Started(c: Countdown, timeLimit: Option<int>): (r: Countdown)
    requires Valid(c)
    ensures Valid(r)
    ensures HasLimit(timeLimit) ==>
      && r.remaining == timeLimit.value * 60 && r.shown
      && r.handle == Some(c.nextId) && c.nextId !in c.live && r.live == {c.nextId}
      && r.urgent == (c.urgent || timeLimit.value * 60 <= 60)
    ensures !HasLimit(timeLimit) ==> r == c.(shown := false)
  {
    if HasLimit(timeLimit) then
      var seconds := timeLimit.value * 60;
      var cancelled := if c.handle.Some? then c.live - {c.handle.value} else c.live;
      assert cancelled == {};
      Countdown(seconds, Some(c.nextId), cancelled + {c.nextId}, c.nextId + 1, true, Painted(c.urgent, seconds))
    else
      c.(shown := false)
  }

  /** The snapshot after one firing, and whether the firing called submitQuiz. */
  datatype TickOutcome = TickOutcome(after: Countdown, submit: bool)

  /** One firing of the interval: the counter drops by exactly one and the timer is repainted;
      at zero or below the interval is cancelled and the quiz submitted, but the handle is
      left set. */
  function Ticked(c: Countdown): (t: TickOutcome)
    requires Valid(c) && c.live != {}
    ensures Valid(t.after)
    ensures t.after.remaining == c.remaining - 1
    ensures t.submit <==> t.after.remaining <= 0
    ensures t.after.live == if t.submit then {} else c.live
    ensures t.after.handle == c.handle && t.after.nextId == c.nextId && t.after.shown == c.shown
    ensures t.after.urgent == (c.urgent || t.after.remaining <= 60)
  {
    AtMostOneLive(c);
    var r := c.remaining - 1;
    var painted := c.(remaining := r, urgent := Painted(c.urgent, r));
    if r <= 0 then TickOutcome(painted.(live := c.live - {c.handle.value}), true)
    else TickOutcome(painted, false)
  }

  /** The timer part of closeModal(modalId): only the quiz modal releases the timer, and after
      that no interval is live. */
  function Closed(c: Countdown, modalId: string): (r: Countdown)
    requires Valid(c)
    ensures Valid(r)
    ensures modalId == TakeQuizModal ==> r.handle == None && r.live == {}
    ensures modalId != TakeQuizModal ==> r == c
    ensures r.remaining == c.remaining && r.urgent == c.urgent
  {
    if modalId == TakeQuizModal && c.handle.Some? then Released(c) else c
  }

  /** The timer part of a submission the server accepted: the handle is released and then
      the quiz modal is closed. A submission that fails changes nothing. */
  function AfterSubmit(c: Countdown): (r: Countdown)
    requires Valid(c)
    ensures Valid(r) && r.handle == None && r.live == {}
    ensures r.remaining == c.remaining
  {
    Closed(Released(c), TakeQuizModal)
  }

  // ---- the countdown over time --------------------------------------------------------------

  /** The snapshot after n seconds with no user action: the interval fires once a second for as
      long as it is live. */
  function AfterSeconds(c: Countdown, n: nat): (r: Countdown)
    requires Valid(c)
    ensures Valid(r)
    decreases n
  {
    if n == 0 || c.live == {} then c else AfterSeconds(Ticked(c).after, n - 1)
  }

  /** The firing at second k (counting from 1) is the one that submits the quiz. */
  predicate SubmitsOnSecond(c: Countdown, k: nat)
    requires Valid(c)
  {
    k >= 1 && AfterSeconds(c, k - 1).live != {} && Ticked(AfterSeconds(c, k - 1)).submit
  }

  /** While seconds remain, each second takes exactly one off and leaves the interval live. */
  lemma {:induction false} CountsDown(c: Countdown, k: nat)
    requires Valid(c) && c.live != {} && k < c.remaining
    ensures AfterSeconds(c, k).live == c.live
    ensures AfterSeconds(c, k).remaining == c.remaining - k
    decreases k
  {
    if k > 0 {
      var next := Ticked(c).after;
      assert next.live == c.live && next.remaining == c.remaining - 1;
      CountsDown(next, k - 1);
      assert AfterSeconds(c, k) == AfterSeconds(next, k - 1);
    }
  }

  /** Once the submitting firing has happened no interval is live again, however long one waits. */
  lemma {:induction false} StaysStopped(c: Countdown, n: nat)
    requires Valid(c) && c.live != {}
    requires n >= c.remaining && n >= 1
    ensures AfterSeconds(c, n).live == {}
    decreases n
  {
    var t := Ticked(c);
    if !t.submit {
      StaysStopped(t.after, n - 1);
    }
  }

  /** A live countdown submits the quiz exactly once, on the firing that brings the counter to
      zero (the first firing, when the counter is already at one or below). */
  lemma ExpiresOnSecond(c: Countdown, k: nat)
    requires Valid(c) && c.live != {} && k >= 1
    ensures SubmitsOnSecond(c, k) <==> k == (if c.remaining >= 1 then c.remaining else 1)
  {
    var last := if c.remaining >= 1 then c.remaining else 1;
    var p := AfterSeconds(c, k - 1);
    if k < last {
      CountsDown(c, k - 1);
      assert p.live != {} && p.remaining >= 2;
      assert !Ticked(p).submit;
    } else if k == last {
      if c.remaining > 1 {
        CountsDown(c, k - 1);
        assert p.live != {} && p.remaining == 1;
      } else {
        assert p == c;
      }
      assert Ticked(p).submit;
    } else {
      StaysStopped(c, k - 1);
      assert p.live == {};
    }
  }

  /** Starting a quiz with a limit of B minutes submits it on second B*60 and on no other
      second; a negative limit submits on the first second. */
  lemma TimedQuizSubmitsAtLimit(c: Countdown, minutes: int, k: nat)
    requires Valid(c) && minutes != 0 && k >= 1
    ensures SubmitsOnSecond(Started(c, Some(minutes)), k) <==> k == (if minutes > 0 then minutes * 60 else 1)
  {
    ExpiresOnSecond(Started(c, Some(minutes)), k);
  }

  /** Starting a quiz without a limit, when no earlier interval is live, never submits it by
      the clock. */
  lemma UntimedQuizNeverExpires(c: Countdown, timeLimit: Option<int>, k: nat)
    requires Valid(c) && c.live == {} && !HasLimit(timeLimit)
    ensures !SubmitsOnSecond(Started(c, timeLimit), k)
  {
  }

  /** Closing the quiz modal stops the clock for good: no later second fires. */
  lemma ClosingStopsTheClock(c: Countdown, n: nat)
    requires Valid(c)
    ensures AfterSeconds(Closed(c, TakeQuizModal), n) == Closed(c, TakeQuizModal)
  {
  }

  // ---- the page's globals, updated in place ---------------------------------------------------

  class QuizSession {
    var remaining: int
    var handle: Option<nat>
    var live: set<nat>
    var nextId: nat
    var shown: bool
    var urgent: bool

    function State(): Countdown
      reads this
    {
      Countdown(remaining, handle, live, nextId, shown, urgent)
    }

    constructor ()
      ensures State() == Loaded
    {
      remaining, handle, live, nextId, shown, urgent := 0, None, {}, 1, false, false;
    }

    /** updateQuizTimer's effect on the element's style. */
    method Repaint()
      modifies this`urgent
      ensures urgent == Painted(old(urgent), remaining)
    {
      if remaining <= 60 {
        urgent := true;
      }
    }

    /** The timer part of startQuiz for a quiz with the given time_limit. */
    method Start(timeLimit: Option<int>)
      requires Valid(State())
      modifies this
      ensures State() == Started(old(State()), timeLimit)
      ensures Valid(State())
    {
      if timeLimit.Some? && timeLimit.value != 0 {
        remaining := timeLimit.value * 60;
        shown := true;
        Repaint();
        if handle.Some? {
          live := live - {handle.value};
        }
        handle := Some(nextId);
        live := live + {nextId};
        nextId := nextId + 1;
      } else {
        shown := false;
      }
    }

    /** One firing of the interval; submit tells whether it called submitQuiz. */
    method Tick() returns (submit: bool)
      requires Valid(State()) && live != {}
      modifies this
      ensures TickOutcome(State(), submit) == Ticked(old(State()))
      ensures Valid(State())
    {
      AtMostOneLive(State());
      remaining := remaining - 1;
      Repaint();
      submit := remaining <= 0;
      if submit {
        live := live - {handle.value};
      }
    }

    /** The timer part of closeModal(modalId). */
    method Close(modalId: string)
      requires Valid(State())
      modifies this
      ensures State() == Closed(old(State()), modalId)
      ensures Valid(State())
    {
      if modalId == TakeQuizModal && handle.Some? {
        live := live - {handle.value};
        handle := None;
      }
    }

    /** The timer part of submitQuiz once the server has accepted the answers. */
    method SubmitSucceeded()
      requires Valid(State())
      modifies this
      ensures State() == AfterSubmit(old(State()))
      ensures Valid(State())
    {
      if handle.Some? {
        live := live - {handle.value};
        handle := None;
      }
      Close(TakeQuizModal);
    }
  }
}
