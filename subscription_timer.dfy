/** The subscription teaser: for a visitor without the Pro flag in local storage, a two-minute
    countdown (the globals remainingTime and countdownInterval) ticks once a second, turns red
    in its last 30 seconds and, at zero, stops itself and opens the subscription popup. */
module SubscriptionTimer {
  import opened JsText
  import TimerText

  /** remainingTime's initial value: two minutes. */
  const TeaserSeconds := 120

  /** The page starts the teaser unless local storage holds hasProSubscription === 'true'. */
  predicate StartsTeaser(storedFlag: Option<string>) {
    storedFlag != Some("true")
  }

  class Teaser {
    var remaining: int     // remainingTime
    var running: bool      // countdownInterval is scheduled
    var shown: bool        // the #subscriptionTimer element is displayed
    var urgent: bool       // the red gradient has been applied to the read-out
    var popup: bool        // showSubscriptionPopup has run

    constructor ()
      ensures remaining == TeaserSeconds && !running && !shown && !urgent && !popup
    {
      remaining, running, shown, urgent, popup := TeaserSeconds, false, false, false, false;
    }

    /** The DOMContentLoaded handler: with the Pro flag updateUIForProUser hides the timer and
        nothing starts; otherwise the timer is shown and its interval armed. */
    method Load(storedFlag: Option<string>)
      modifies this
      ensures running == (old(running) || StartsTeaser(storedFlag))
      ensures shown == StartsTeaser(storedFlag)
      ensures remaining == old(remaining) && urgent == old(urgent) && popup == old(popup)
    {
      if StartsTeaser(storedFlag) {
        shown := true;
        running := true;
      } else {
        shown := false;
      }
    }

    /** What the read-out shows once a firing has written it: the counter as mm:ss, and
        whether this counter calls for the red gradient and the popup. */
    function Readout(): TimerText.SubscriptionView
      reads this
    {
      TimerText.SubscriptionDisplay(remaining)
    }

    /** One firing of the interval: the counter drops by one and the read-out is rewritten
        (it then shows Readout()); the red gradient is applied from 30 seconds on; at zero or
        below the interval is cancelled and showSubscriptionPopup hides the timer and opens the
        popup. */
    method Tick()
      requires running
      modifies this
      ensures remaining == old(remaining) - 1
      ensures urgent == (old(urgent) || remaining <= 30)
      ensures running == (remaining > 0)
      ensures popup == (old(popup) || remaining <= 0)
      ensures shown == (old(shown) && remaining > 0)
    {
      remaining := remaining - 1;
      if remaining <= 30 {
        urgent := true;
      }
      if remaining <= 0 {
        running := false;
        shown := false;
        popup := true;
      }
    }
  }

  /** A freshly loaded page without the Pro flag opens the popup on its 120th tick: every
      earlier tick leaves the countdown running and the popup closed. */
  method TeaserRunsTwoMinutes(storedFlag: Option<string>) returns (ticks: nat)
    requires StartsTeaser(storedFlag)
    ensures ticks == TeaserSeconds
  {
    var t := new Teaser();
    t.Load(storedFlag);
    ticks := 0;
    while t.running
      invariant t.remaining == TeaserSeconds - ticks && 0 <= ticks <= TeaserSeconds
      invariant t.running <==> ticks < TeaserSeconds
      invariant t.popup <==> ticks == TeaserSeconds
      invariant t.shown <==> ticks < TeaserSeconds
      decreases t.remaining
    {
      t.Tick();
      ticks := ticks + 1;
    }
  }
}
