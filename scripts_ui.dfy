/**
 * scripts.js: the page script's event countdown, password-visibility toggle
 * and Bootstrap form-validation handler.
 *
 * Each rewritten DOM element is an object: a `CountdownElement` ticked once a
 * second by its interval, a `PasswordToggle` (the field's `type` attribute and
 * the icon's class list) and a `ValidatedForm` (its class list). The clock is
 * the `now` argument of a tick, in milliseconds like `Date.getTime`.
 */
module PageScript {
  import opened Common

  const SECOND_MS: nat := 1000
  const MINUTE_MS: nat := 60 * SECOND_MS
  const HOUR_MS: nat := 60 * MINUTE_MS
  const DAY_MS: nat := 24 * HOUR_MS

  /** The four numbers the countdown shows. */
  datatype Remaining = Remaining(days: nat, hours: nat, minutes: nat, seconds: nat)

  /** `Math.floor` of the four divisions, for a time left that is not negative. */
  function Decompose(timeLeft: nat): Remaining
  {
    Remaining(timeLeft / DAY_MS,
              (timeLeft % DAY_MS) / HOUR_MS,
              (timeLeft % HOUR_MS) / MINUTE_MS,
              (timeLeft % MINUTE_MS) / SECOND_MS)
  }

  /** The milliseconds the four numbers stand for. */
  function Millis(r: Remaining): nat
  {
    r.days * DAY_MS + r.hours * HOUR_MS + r.minutes * MINUTE_MS + r.seconds * SECOND_MS
  }

  /**
   * Hours, minutes and seconds stay within a clock's range, and the four
   * numbers account for the whole time left except its last partial second.
   */
  lemma {:induction false} DecompositionIsExact(timeLeft: nat)
    ensures Decompose(timeLeft).hours < 24
    ensures Decompose(timeLeft).minutes < 60
    ensures Decompose(timeLeft).seconds < 60
    ensures Millis(Decompose(timeLeft)) <= timeLeft < Millis(Decompose(timeLeft)) + SECOND_MS
  {
    var d := timeLeft / DAY_MS;
    var inDay := timeLeft % DAY_MS;
    var h := inDay / HOUR_MS;
    var inHour := timeLeft % HOUR_MS;
    var m := inHour / MINUTE_MS;
    var inMinute := timeLeft % MINUTE_MS;
    var s := inMinute / SECOND_MS;
    assert timeLeft == d * DAY_MS + inDay;
    // the hour within the day is the hour remainder of the time left
    assert inDay == h * HOUR_MS + inDay % HOUR_MS;
    assert d * DAY_MS == (d * 24) * HOUR_MS;
    assert timeLeft == (d * 24 + h) * HOUR_MS + inDay % HOUR_MS;
    ModOfMultiplePlus(d * 24 + h, HOUR_MS, inDay % HOUR_MS);
    assert inHour == inDay % HOUR_MS;
    assert h < 24;
    assert inHour == m * MINUTE_MS + inHour % MINUTE_MS;
    assert timeLeft == ((d * 24 + h) * 60 + m) * MINUTE_MS + inHour % MINUTE_MS;
    ModOfMultiplePlus((d * 24 + h) * 60 + m, MINUTE_MS, inHour % MINUTE_MS);
    assert inMinute == inHour % MINUTE_MS;
    assert m < 60;
    assert inMinute == s * SECOND_MS + inMinute % SECOND_MS;
    assert s < 60;
    assert timeLeft == d * DAY_MS + h * HOUR_MS + m * MINUTE_MS + s * SECOND_MS + inMinute % SECOND_MS;
  }

  /** `(q * n + r) % n == r` for a remainder `r` below `n`. */
  lemma ModOfMultiplePlus(q: nat, n: nat, r: nat)
    requires 0 < n && r < n
    ensures (q * n + r) % n == r
  {
    var x := q * n + r;
    var k := q - x / n;
    assert k * n == x % n - r by {
      assert x == (x / n) * n + x % n;
      assert k * n == q * n - (x / n) * n;
    }
  }

  /** `${days}d ${hours}h ${minutes}m ${seconds}s`. */
  function RemainingText(r: Remaining): string
  {
    NatToString(r.days) + "d " + NatToString(r.hours) + "h " +
    NatToString(r.minutes) + "m " + NatToString(r.seconds) + "s"
  }

  const STARTED := "Event has started!"

  /** A countdown element: whether its interval still runs, and its `innerHTML`. */
  datatype Countdown = Countdown(active: bool, html: string)

  /**
   * One tick of the interval at time `now`. A cleared interval never ticks
   * again; a negative time left clears it and shows the started message.
   */
  function Tick(c: Countdown, eventDate: int, now: int): (r: Countdown)
    ensures !c.active ==> r == c
    ensures c.active && eventDate - now < 0 ==> r == Countdown(false, STARTED)
    ensures c.active && eventDate - now >= 0 ==>
              r.active && r.html == RemainingText(Decompose(eventDate - now))
  {
    if !c.active then c
    else
      var timeLeft := eventDate - now;
      if timeLeft < 0 then Countdown(false, STARTED)
      else Countdown(true, RemainingText(Decompose(timeLeft)))
  }

  /** The element after ticks at the successive times `nows`. */
  function RunTicks(c: Countdown, eventDate: int, nows: seq<int>): Countdown
    decreases nows
  {
    if nows == [] then c else RunTicks(Tick(c, eventDate, nows[0]), eventDate, nows[1..])
  }

  /** Once stopped, later ticks change nothing, whatever the clock says. */
  lemma {:induction false} StoppedStaysStopped(c: Countdown, eventDate: int, nows: seq<int>)
    requires !c.active
    ensures RunTicks(c, eventDate, nows) == c
  {
    if nows != [] {
      StoppedStaysStopped(Tick(c, eventDate, nows[0]), eventDate, nows[1..]);
    }
  }

  /**
   * A tick after the event's start stops the countdown for good: after any
   * further ticks, even at earlier clock readings, it shows the started message.
   */
  lemma {:induction false} ExpiredTickIsFinal(c: Countdown, eventDate: int, nows: seq<int>, j: nat)
    requires c.active && j < |nows| && nows[j] > eventDate
    ensures RunTicks(c, eventDate, nows) == Countdown(false, STARTED)
    decreases nows
  {
    var next := Tick(c, eventDate, nows[0]);
    if j == 0 {
      StoppedStaysStopped(next, eventDate, nows[1..]);
    } else if next.active {
      ExpiredTickIsFinal(next, eventDate, nows[1..], j - 1);
    } else {
      StoppedStaysStopped(next, eventDate, nows[1..]);
    }
  }

  /** At the very start instant the test `timeLeft < 0` fails, so zeros are shown. */
  lemma ZeroTimeLeftShowsZeros(c: Countdown, eventDate: int)
    requires c.active
    ensures Tick(c, eventDate, eventDate) == Countdown(true, "0d 0h 0m 0s")
  {
    assert Decompose(0) == Remaining(0, 0, 0, 0);
    assert NatToString(0) == "0";
  }

  /** The `type` the toggle gives the password field. */
  function ToggledType(t: string): (r: string)
    ensures r == "text" <==> t == "password"
    ensures r == "password" <==> t != "password"
  {
    if t == "password" then "text" else "password"
  }

  /** `classList.toggle(c)`. */
  function ToggleClass(classes: set<string>, c: string): (r: set<string>)
    ensures c in r <==> c !in classes
    ensures forall x :: x != c ==> (x in r <==> x in classes)
  {
    if c in classes then classes - {c} else classes + {c}
  }

  /** Both eye classes toggled, as one click does. */
  function ToggledIcon(classes: set<string>): set<string>
  {
    ToggleClass(ToggleClass(classes, "bi-eye"), "bi-eye-slash")
  }

  /** Two clicks restore a field of type 'password' or 'text' and the icon's classes. */
  lemma TwoClicksRestore(t: string, classes: set<string>)
    requires t == "password" || t == "text"
    ensures ToggledType(ToggledType(t)) == t
    ensures ToggledIcon(ToggledIcon(classes)) == classes
  {
    assert ToggledIcon(ToggledIcon(classes)) == classes by {
      forall x ensures x in ToggledIcon(ToggledIcon(classes)) <==> x in classes {
      }
    }
  }

  /** A click flips each eye class: the icon that showed is swapped for the other. */
  lemma ClickSwapsEye(classes: set<string>)
    ensures "bi-eye" in ToggledIcon(classes) <==> "bi-eye" !in classes
    ensures "bi-eye-slash" in ToggledIcon(classes) <==> "bi-eye-slash" !in classes
    ensures forall x :: x != "bi-eye" && x != "bi-eye-slash" ==> (x in ToggledIcon(classes) <==> x in classes)
  {
  }

  /** A submission: whether it is stopped, and the form's classes afterwards. */
  datatype Submission = Submission(prevented: bool, classes: set<string>)

  /** The submit listener: an invalid form is stopped; 'was-validated' is added either way. */
  function Submit(classes: set<string>, valid: bool): (r: Submission)
    ensures r.prevented <==> !valid
    ensures r.classes == classes + {"was-validated"}
  {
    Submission(!valid, classes + {"was-validated"})
  }

  class CountdownElement {
    const eventDate: int
    var state: Countdown

    /** The element with its interval started and its initial markup. */
    constructor (eventDate: int, initialHtml: string)
      ensures this.eventDate == eventDate && state == Countdown(true, initialHtml)
    {
      this.eventDate := eventDate;
      state := Countdown(true, initialHtml);
    }

    /** The interval's callback at time `now`. */
    method OnTick(now: int)
      modifies this
      ensures state == Tick(old(state), eventDate, now)
    {
      if !state.active {
        return;
      }
      var timeLeft := eventDate - now;
      if timeLeft < 0 {
        state := Countdown(false, STARTED);
        return;
      }
      var days := timeLeft / DAY_MS;
      var hours := (timeLeft % DAY_MS) / HOUR_MS;
      var minutes := (timeLeft % HOUR_MS) / MINUTE_MS;
      var seconds := (timeLeft % MINUTE_MS) / SECOND_MS;
      state := Countdown(true, RemainingText(Remaining(days, hours, minutes, seconds)));
    }
  }

  class PasswordToggle {
    var fieldType: string
    var iconClasses: set<string>

    constructor (fieldType: string, iconClasses: set<string>)
      ensures this.fieldType == fieldType && this.iconClasses == iconClasses
    {
      this.fieldType := fieldType;
      this.iconClasses := iconClasses;
    }

    /** The button's click listener. */
    method OnClick()
      modifies this
      ensures fieldType == ToggledType(old(fieldType))
      ensures iconClasses == ToggledIcon(old(iconClasses))
    {
      fieldType := if fieldType == "password" then "text" else "password";
      iconClasses := ToggleClass(iconClasses, "bi-eye");
      iconClasses := ToggleClass(iconClasses, "bi-eye-slash");
    }
  }

  class ValidatedForm {
    var classes: set<string>

    constructor (classes: set<string>)
      ensures this.classes == classes
    {
      this.classes := classes;
    }

    /** The submit listener; `prevented` says whether the submission is stopped. */
    method OnSubmit(valid: bool) returns (prevented: bool)
      modifies this
      ensures Submission(prevented, classes) == Submit(old(classes), valid)
    {
      prevented := !valid;
      classes := classes + {"was-validated"};
    }
  }
}
