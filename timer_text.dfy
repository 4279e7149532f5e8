/** The two countdown read-outs of the dashboard: the quiz timer ("m:ss", emphasised in the
    last minute) and the subscription teaser timer ("mm:ss", emphasised in the last 30
    seconds, opening the subscription popup at zero). */
module TimerText {
  import opened JsText

  /** A multiple of b leaves no remainder. */
  lemma MultipleMod(b: int, k: int)
    requires b > 0
    ensures (b * k) % b == 0
  {
    var q, m := (b * k) / b, (b * k) % b;
    assert b * k == b * q + m && 0 <= m < b;
    var d := k - q;
    assert b * d == m by {
      assert b * k - b * q == b * (k - q);
    }
  }

  /** Taking the remainder off leaves a multiple of b. */
  lemma RemainderOff(n: int, b: int)
    requires n >= 0 && b > 0
    ensures (n - n % b) % b == 0 && (-(n - n % b)) % b == 0
  {
    var q := n / b;
    assert n - n % b == b * q;
    assert -(b * q) == b * (-q);
    MultipleMod(b, q);
    MultipleMod(b, -q);
  }

  /** The `%` operator of JavaScript on integers: the remainder takes the sign of the dividend. */
  function JsRemainder(a: int, b: int): (r: int)
    requires b > 0
    ensures -b < r < b
    ensures a >= 0 ==> r == a % b
    ensures a <= 0 ==> r <= 0
    ensures (a - r) % b == 0
  {
    if a >= 0 then
      RemainderOff(a, b);
      a % b
    else
      RemainderOff(-a, b);
      -((-a) % b)
  }

  /** Math.floor(r / 60): Dafny's division by a positive divisor already rounds down. */
  function Minutes(r: int): int {
    r / 60
  }

  /** The quiz clock: whole minutes, a colon, and the seconds padded to two places. */
  function QuizClock(r: int): string {
    DecimalString(Minutes(r)) + ":" + PadStart(DecimalString(JsRemainder(r, 60)), 2, '0')
  }

  /** The subscription clock: minutes and seconds both padded to two places. */
  function SubscriptionClock(r: int): string {
    PadStart(DecimalString(Minutes(r)), 2, '0') + ":" + PadStart(DecimalString(JsRemainder(r, 60)), 2, '0')
  }

  /** The stopwatch emoji and a space that precede the quiz clock. */
  const QuizTimerPrefix: string := "\U{23F1}\U{FE0F} "

  datatype QuizTimerView = QuizTimerView(text: string, urgent: bool)

  /** What updateQuizTimer writes for r seconds left, and whether it paints the timer in the
      danger colour. */
  function QuizTimerDisplay(r: int): (v: QuizTimerView)
    ensures |v.text| > |QuizTimerPrefix| && v.text[..|QuizTimerPrefix|] == QuizTimerPrefix
    ensures v.text[|QuizTimerPrefix|..] == QuizClock(r)
    ensures v.urgent <==> r <= 60
  {
    QuizTimerView(QuizTimerPrefix + QuizClock(r), r <= 60)
  }

  datatype SubscriptionView = SubscriptionView(text: string, urgent: bool, popup: bool)

  /** What one tick of the subscription countdown shows for r seconds left: the red gradient
      from 30 seconds on, and the popup (with the countdown stopped) at zero. */
  function SubscriptionDisplay(r: int): (v: SubscriptionView)
    ensures v.urgent <==> r <= 30
    ensures v.popup <==> r <= 0
    ensures v.popup ==> v.urgent
  {
    SubscriptionView(SubscriptionClock(r), r <= 30, r <= 0)
  }

  // ---- reading a clock back ---------------------------------------------------------------

  /** An independent reading of "digits:ss": the number of seconds the text denotes, if it
      is well formed (two-digit seconds below 60, at least one minute digit). */
  function ParseClock(s: string): (r: Option<int>)
    ensures r.Some? ==> r.value >= 0
  {
    if |s| >= 4 && s[|s| - 3] == ':'
       && AllRadixDigits(s[..|s| - 3], false) && AllRadixDigits(s[|s| - 2..], false)
    then
      var seconds := DigitsValue(s[|s| - 2..], false);
      if seconds < 60 then Some(DigitsValue(s[..|s| - 3], false) * 60 + seconds) else None
    else None
  }

  predicate AllZeros(z: string) {
    forall i :: 0 <= i < |z| ==> z[i] == '0'
  }

  /** A run of zeros denotes zero. */
  lemma {:induction false} ZerosValue(z: string)
    requires AllZeros(z)
    ensures AllRadixDigits(z, false) && DigitsValue(z, false) == 0
  {
    if z != [] {
      ZerosValue(z[..|z| - 1]);
    }
  }

  /** Leading zeros do not change the number a string of digits denotes. */
  lemma {:induction false} LeadingZerosValue(z: string, s: string)
    requires AllZeros(z) && AllRadixDigits(s, false)
    ensures AllRadixDigits(z + s, false) && DigitsValue(z + s, false) == DigitsValue(s, false)
    decreases |s|
  {
    if s == [] {
      assert z + s == z;
      ZerosValue(z);
    } else {
      LeadingZerosValue(z, s[..|s| - 1]);
      assert (z + s)[..|z + s| - 1] == z + s[..|s| - 1];
    }
  }

  /** Zero-padding the decimal digits of k keeps them all digits and keeps their value. */
  lemma PaddedValue(k: nat, width: nat)
    ensures AllRadixDigits(PadStart(NatString(k), width, '0'), false)
    ensures DigitsValue(PadStart(NatString(k), width, '0'), false) == k
  {
    var s := NatString(k);
    var p := PadStart(s, width, '0');
    NatStringValue(k);
    if |s| < width {
      var z := seq(width - |s|, _ => '0');
      assert p == z + s;
      LeadingZerosValue(z, s);
    }
  }

  /** Seconds below 60 fill exactly the two places after the colon and read back as themselves. */
  lemma SecondsField(sec: nat)
    requires sec < 60
    ensures var right := PadStart(NatString(sec), 2, '0');
      |right| == 2 && AllRadixDigits(right, false) && DigitsValue(right, false) == sec
  {
    if sec >= 10 {
      assert sec / 10 < 10;
      assert |NatString(sec / 10)| == 1;
    }
    PaddedValue(sec, 2);
  }

  /** A well-formed clock text reads as its minutes times 60 plus its seconds. */
  lemma ParseClockOf(left: string, right: string, n: int)
    requires left != [] && AllRadixDigits(left, false)
    requires |right| == 2 && AllRadixDigits(right, false) && DigitsValue(right, false) < 60
    requires n == DigitsValue(left, false) * 60 + DigitsValue(right, false)
    ensures ParseClock(left + ":" + right) == Some(n)
  {
    var s := left + ":" + right;
    assert |s| >= 4 && s[|s| - 3] == ':' && s[..|s| - 3] == left && s[|s| - 2..] == right by {
      assert |s| == |left| + 3;
    }
  }

  /** For a non-negative count both clocks show r / 60 and r % 60 in decimal. */
  lemma ClockFields(r: int)
    requires r >= 0
    ensures QuizClock(r) == NatString(r / 60) + ":" + PadStart(NatString(r % 60), 2, '0')
    ensures SubscriptionClock(r) == PadStart(NatString(r / 60), 2, '0') + ":" + PadStart(NatString(r % 60), 2, '0')
  {
  }

  /** The quiz clock of a non-negative count reads back as exactly that many seconds. */
  lemma QuizClockRoundTrip(r: int)
    requires r >= 0
    ensures ParseClock(QuizClock(r)) == Some(r)
  {
    var left := NatString(r / 60);
    var right := PadStart(NatString(r % 60), 2, '0');
    assert left != [] && AllRadixDigits(left, false) && DigitsValue(left, false) == r / 60 by {
      NatStringValue(r / 60);
    }
    assert |right| == 2 && AllRadixDigits(right, false) && DigitsValue(right, false) == r % 60 by {
      SecondsField(r % 60);
    }
    ParseClockOf(left, right, r);
    assert QuizClock(r) == left + ":" + right by { ClockFields(r); }
  }

  /** The subscription clock of a non-negative count reads back as exactly that many seconds. */
  lemma SubscriptionClockRoundTrip(r: int)
    requires r >= 0
    ensures ParseClock(SubscriptionClock(r)) == Some(r)
  {
    var left := PadStart(NatString(r / 60), 2, '0');
    var right := PadStart(NatString(r % 60), 2, '0');
    assert left != [] && AllRadixDigits(left, false) && DigitsValue(left, false) == r / 60 by {
      PaddedValue(r / 60, 2);
    }
    assert |right| == 2 && AllRadixDigits(right, false) && DigitsValue(right, false) == r % 60 by {
      SecondsField(r % 60);
    }
    ParseClockOf(left, right, r);
    assert SubscriptionClock(r) == left + ":" + right by { ClockFields(r); }
  }

  /** Below 100 minutes the subscription clock is always five characters, "mm:ss". */
  lemma SubscriptionClockWidth(r: int)
    requires 0 <= r < 6000
    ensures |SubscriptionClock(r)| == 5
  {
    var m := r / 60;
    ClockFields(r);
    if m >= 10 {
      assert m / 10 < 10;
      assert |NatString(m / 10)| == 1;
    }
    SecondsField(r % 60);
  }

  /** A counter below zero (a negative time limit starts one) shows a negative minute and a
      negative second: -1 seconds read "-1:-1", since Math.floor gives -1 and `%` gives -1. */
  lemma ClockBelowZero()
    ensures JsRemainder(-1, 60) == -1 && Minutes(-1) == -1
    ensures QuizClock(-1) == "-1:-1"
  {
    assert DecimalString(-1) == "-1" by {
      assert NatString(1) == "1";
    }
  }

  /** The values the read-outs take when the countdowns run out. */
  lemma ClocksAtZero()
    ensures QuizClock(0) == "0:00"
    ensures SubscriptionClock(0) == "00:00"
    ensures SubscriptionClock(120) == "02:00"
  {
    assert DecimalString(0) == "0" && DecimalString(2) == "2";
    assert PadStart("0", 2, '0') == "00" && PadStart("2", 2, '0') == "02";
  }
}
