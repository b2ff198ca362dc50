/** The work/break interval timer of the header bar: a countdown in whole
    seconds that the interval callback decrements once per second while it
    runs, that raises one alert naming the next phase when it expires, and
    that then flips to the other mode without starting again. */
module Timer {
  import opened Wrappers
  import opened Text
  import opened Types

  datatype Mode = Work | Break

  const WorkDuration: nat := 25 * 60
  const BreakDuration: nat := 5 * 60

  /** The title of the OS notification raised on expiry. */
  const NotificationTitle := "Purple Notes Timer"

  function Duration(m: Mode): nat {
    match m
    case Work => WorkDuration
    case Break => BreakDuration
  }

  function Other(m: Mode): Mode {
    match m
    case Work => Break
    case Break => Work
  }

  /** The expiry message of a `m` interval names the phase that follows it. */
  function EndMessage(m: Mode): string {
    match m
    case Work => "Time for a break!"
    case Break => "Break's over! Back to work."
  }

  /** The three state variables of the component. */
  datatype State = State(mode: Mode, timeLeft: int, isRunning: bool)

  /** The component's initial render: work mode, full work duration, stopped. */
  const Initial := State(Work, WorkDuration, false)

  /** The invariant of every reachable state: the countdown is positive and
      never above the current mode's duration. */
  predicate InRange(s: State) {
    1 <= s.timeLeft <= Duration(s.mode)
  }

  /** What one step yields: the next state, and the message of the alert it raised, if any. */
  datatype Step = Step(next: State, message: Option<string>)

  /** One call of the interval callback, followed by the effect the mode change
      triggers. Without an interval (timer stopped) nothing happens. At 1 or
      below the callback stops the timer and raises the expiry alert; the mode
      flips and the mode-change effect reloads the new mode's duration. */
  function TickStep(s: State): (r: Step)
    ensures r.message.Some? <==> s.isRunning && s.timeLeft <= 1
    ensures r.message.Some? ==>
      && r.message.value == EndMessage(s.mode)
      && r.next == State(Other(s.mode), Duration(Other(s.mode)), false)
    ensures r.message.None? ==>
      && r.next.mode == s.mode && r.next.isRunning == s.isRunning
      && r.next.timeLeft == (if s.isRunning then s.timeLeft - 1 else s.timeLeft)
    ensures InRange(s) ==> InRange(r.next)
  {
    if !s.isRunning then Step(s, None)
    else if s.timeLeft <= 1 then
      var next := Other(s.mode);
      Step(State(next, Duration(next), false), Some(EndMessage(s.mode)))
    else Step(s.(timeLeft := s.timeLeft - 1), None)
  }

  /** `toggleTimer`: start or pause; the countdown keeps its value. */
  function ToggleStep(s: State): (r: State)
    ensures r.mode == s.mode && r.timeLeft == s.timeLeft && r.isRunning != s.isRunning
    ensures InRange(s) ==> InRange(r)
  {
    s.(isRunning := !s.isRunning)
  }

  /** `resetTimer`: stop and reload the current mode's duration. */
  function ResetStep(s: State): (r: State)
    ensures r.mode == s.mode && !r.isRunning && r.timeLeft == Duration(s.mode)
    ensures InRange(r)
  {
    State(s.mode, Duration(s.mode), false)
  }

  /** `switchMode(newMode)`: nothing when already in `newMode`; otherwise
      enter it stopped, with its full duration. */
  function SwitchStep(s: State, newMode: Mode): (r: State)
    ensures newMode == s.mode ==> r == s
    ensures newMode != s.mode ==> r == State(newMode, Duration(newMode), false)
    ensures InRange(s) ==> InRange(r)
  {
    if s.mode == newMode then s else State(newMode, Duration(newMode), false)
  }

  function Messages(m: Option<string>): seq<string> {
    match m
    case None => []
    case Some(text) => [text]
  }

  /** The state after `n` interval callbacks and the messages raised on the way. */
  datatype Run = Run(final: State, messages: seq<string>)

  function RunTicks(s: State, n: nat): Run
    decreases n
  {
    if n == 0 then Run(s, [])
    else
      var step := TickStep(s);
      var rest := RunTicks(step.next, n - 1);
      Run(rest.final, Messages(step.message) + rest.messages)
  }

  /** A stopped timer has no interval: ticks change nothing and raise nothing. */
  lemma {:induction false} StoppedTimerIsInert(s: State, n: nat)
    requires !s.isRunning
    ensures RunTicks(s, n) == Run(s, [])
    decreases n
  {
    if n > 0 {
      StoppedTimerIsInert(s, n - 1);
    }
  }

  /** Before expiry each tick takes exactly one second off and raises nothing. */
  lemma {:induction false} CountsDown(s: State, k: nat)
    requires s.isRunning && k < s.timeLeft
    ensures RunTicks(s, k) == Run(s.(timeLeft := s.timeLeft - k), [])
    decreases k
  {
    if k > 0 {
      var next := TickStep(s).next;
      assert next == s.(timeLeft := s.timeLeft - 1);
      CountsDown(next, k - 1);
    }
  }

  /** A running timer showing `T` seconds expires on exactly the `T`-th tick:
      one alert naming the next phase, then the other mode, full, stopped. */
  lemma ExpiresAfterTimeLeftTicks(s: State)
    requires s.isRunning && s.timeLeft >= 1
    ensures RunTicks(s, s.timeLeft) ==
      Run(State(Other(s.mode), Duration(Other(s.mode)), false), [EndMessage(s.mode)])
  {
    var k := s.timeLeft - 1;
    var last := s.(timeLeft := 1);
    RunTicksSplit(s, k, 1);
    CountsDown(s, k);
    assert RunTicks(last, 1) == Run(State(Other(s.mode), Duration(Other(s.mode)), false), [EndMessage(s.mode)]);
  }

  /** Running `a + b` ticks is running `a` ticks and then `b` more. */
  lemma {:induction false} RunTicksSplit(s: State, a: nat, b: nat)
    ensures RunTicks(s, a + b) ==
      Run(RunTicks(RunTicks(s, a).final, b).final,
          RunTicks(s, a).messages + RunTicks(RunTicks(s, a).final, b).messages)
    decreases a
  {
    if a > 0 {
      var step := TickStep(s);
      RunTicksSplit(step.next, a - 1, b);
      assert a + b - 1 == (a - 1) + b;
    }
  }

  /** From any reachable state, `n` ticks raise exactly one alert when the
      timer runs and `n` reaches the countdown, and none otherwise. */
  lemma AlertCount(s: State, n: nat)
    requires InRange(s)
    ensures |RunTicks(s, n).messages| == if s.isRunning && n >= s.timeLeft then 1 else 0
  {
    if !s.isRunning {
      StoppedTimerIsInert(s, n);
    } else if n < s.timeLeft {
      CountsDown(s, n);
    } else {
      RunTicksSplit(s, s.timeLeft, n - s.timeLeft);
      ExpiresAfterTimeLeftTicks(s);
      StoppedTimerIsInert(State(Other(s.mode), Duration(Other(s.mode)), false), n - s.timeLeft);
    }
  }

  /** Started from its initial state, the timer ends a work session after
      1500 ticks: break mode, 300 seconds, stopped, one "break" alert. */
  lemma WorkSessionEndsInBreak()
    ensures RunTicks(ToggleStep(Initial), 1500) == Run(State(Break, 300, false), ["Time for a break!"])
  {
    ExpiresAfterTimeLeftTicks(ToggleStep(Initial));
  }

  /** Reads an `m:ss`-style display back into seconds. */
  function ParseTime(t: string): Option<nat> {
    var i := IndexOf(t, ':');
    if i == |t| then None else ParseParts(t[..i], t[i + 1..])
  }

  /** Minutes and seconds from the digit runs either side of the colon. */
  function ParseParts(mm: string, ss: string): Option<nat> {
    if mm != [] && ss != [] && AllDigits(mm) && AllDigits(ss)
    then Some(ParseDecimal(mm) * 60 + ParseDecimal(ss))
    else None
  }

  /** The colon after a run of digits is the first one. */
  lemma ColonAfterDigits(mm: string, ss: string)
    requires AllDigits(mm)
    ensures IndexOf(mm + ":" + ss, ':') == |mm|
  {
    assert forall j :: 0 <= j < |mm| ==> mm[j] != ':' by {
      forall j | 0 <= j < |mm| ensures mm[j] != ':' {
        assert IsDigit(mm[j]);
      }
    }
    IndexOfAfter(mm, ':', ss);
    assert mm + [':'] + ss == mm + ":" + ss;
  }

  /** Reading a display splits it at its first colon. */
  lemma ParseTimeAtColon(mm: string, ss: string)
    requires AllDigits(mm)
    ensures ParseTime(mm + ":" + ss) == ParseParts(mm, ss)
  {
    ColonAfterDigits(mm, ss);
    var t := mm + ":" + ss;
    assert t[..|mm|] == mm;
    assert t[|mm| + 1..] == ss;
  }

  lemma ParsePartsOfDigits(mm: string, ss: string)
    requires mm != [] && ss != [] && AllDigits(mm) && AllDigits(ss)
    ensures ParseParts(mm, ss) == Some(ParseDecimal(mm) * 60 + ParseDecimal(ss))
  {
  }

  /** A display made of two non-empty digit runs around a colon reads back
      as minutes and seconds. */
  lemma ParseTimeSplit(mm: string, ss: string)
    requires mm != [] && ss != [] && AllDigits(mm) && AllDigits(ss)
    ensures ParseTime(mm + ":" + ss) == Some(ParseDecimal(mm) * 60 + ParseDecimal(ss))
  {
    ParsePartsOfDigits(mm, ss);
    ParseTimeAtColon(mm, ss);
  }

  /** Where the two digit runs sit in a display. */
  lemma DisplayParts(mm: string, ss: string, r: string)
    requires |ss| == 2 && r == mm + ":" + ss
    ensures |r| == |mm| + 3 && r[|r| - 3] == ':'
    ensures r[..|r| - 3] == mm && r[|r| - 2..] == ss
  {
  }

  /** `formatTime(seconds)`: minutes and seconds, each padded to two digits.
      The display determines the countdown, and it is five characters
      (`mm:ss`) exactly below 100 minutes. */
  function FormatTime(seconds: nat): (r: string)
    ensures ParseTime(r) == Some(seconds)
    ensures |r| == 5 <==> seconds < 6000
    ensures |r| >= 5 && r[|r| - 3] == ':'
    ensures AllDigits(r[..|r| - 3]) && ParseDecimal(r[..|r| - 3]) == seconds / 60
    ensures AllDigits(r[|r| - 2..]) && ParseDecimal(r[|r| - 2..]) == seconds % 60
  {
    var mm := PadStart2(NatToDecimal(seconds / 60));
    var ss := PadStart2(NatToDecimal(seconds % 60));
    assert ParseDecimal(mm) == seconds / 60 && ParseDecimal(ss) == seconds % 60 by {
      DecimalRoundTrip(seconds / 60);
      DecimalRoundTrip(seconds % 60);
    }
    assert |mm| == 2 <==> seconds < 6000 by {
      DecimalLength(seconds / 60);
    }
    assert |ss| == 2 by {
      DecimalLength(seconds % 60);
    }
    var r := mm + ":" + ss;
    ParseTimeSplit(mm, ss);
    DisplayParts(mm, ss, r);
    r
  }

  /** An alert as `handleTimerEnd` delivers it: an OS notification when
      permission is granted, a blocking `alert` otherwise. */
  function TimerAlert(permission: Permission, message: string): (a: Alert)
    ensures a.SystemNotification? <==> permission == Granted
    ensures a.SystemNotification? ==> a.title == NotificationTitle && a.body == message && a.tag == None
    ensures a.BlockingAlert? ==> a.message == message
  {
    if permission == Granted then SystemNotification(NotificationTitle, message, None)
    else BlockingAlert(message)
  }

  function TimerAlerts(permission: Permission, m: Option<string>): seq<Alert> {
    match m
    case None => []
    case Some(text) => [TimerAlert(permission, text)]
  }

  /** The mounted component: its three state variables and the alerts raised so far. */
  class IntervalTimer {
    var mode: Mode
    var timeLeft: int
    var isRunning: bool
    var alerts: seq<Alert>
    /** Whether the OS notification kept in `notificationRef` is still on
        screen. The cleanup of the `[isRunning]` effect closes it whenever
        `isRunning` changes, not only on unmount. */
    var notificationOpen: bool

    function Current(): State
      reads this
    {
      State(mode, timeLeft, isRunning)
    }

    ghost predicate Valid()
      reads this
    {
      InRange(Current())
    }

    constructor ()
      ensures Valid() && Current() == Initial && alerts == [] && !notificationOpen
    {
      mode, timeLeft, isRunning := Work, WorkDuration, false;
      alerts := [];
      notificationOpen := false;
    }

    /** The cleanup of the `[isRunning]` effect, run after a change of `isRunning`. */
    method CloseNotification()
      modifies this
      ensures !notificationOpen
      ensures Current() == old(Current()) && alerts == old(alerts)
    {
      notificationOpen := false;
    }

    /** One firing of the one-second interval. */
    method Tick(permission: Permission)
      requires Valid()
      modifies this
      ensures Valid()
      ensures Current() == TickStep(old(Current())).next
      ensures alerts == old(alerts) + TimerAlerts(permission, TickStep(old(Current())).message)
      ensures notificationOpen == (old(notificationOpen) && isRunning == old(isRunning))
      ensures TickStep(old(Current())).message.Some? ==> !notificationOpen
    {
      if isRunning {
        if timeLeft <= 1 {
          isRunning := false;
          var message := EndMessage(mode);
          var alert := TimerAlert(permission, message);
          alerts := alerts + [alert];
          if alert.SystemNotification? {
            notificationOpen := true;
          }
          mode := Other(mode);
          timeLeft := Duration(mode);
          CloseNotification();
        } else {
          timeLeft := timeLeft - 1;
        }
      }
    }

    method Toggle()
      requires Valid()
      modifies this
      ensures Valid() && Current() == ToggleStep(old(Current())) && alerts == old(alerts)
      ensures !notificationOpen
    {
      isRunning := !isRunning;
      CloseNotification();
    }

    method Reset()
      requires Valid()
      modifies this
      ensures Valid() && Current() == ResetStep(old(Current())) && alerts == old(alerts)
      ensures notificationOpen == (old(notificationOpen) && !old(isRunning))
    {
      var wasRunning := isRunning;
      isRunning := false;
      timeLeft := Duration(mode);
      if wasRunning {
        CloseNotification();
      }
    }

    method SwitchMode(newMode: Mode)
      requires Valid()
      modifies this
      ensures Valid() && Current() == SwitchStep(old(Current()), newMode) && alerts == old(alerts)
      ensures notificationOpen == (old(notificationOpen) && isRunning == old(isRunning))
    {
      if mode != newMode {
        var wasRunning := isRunning;
        mode := newMode;
        isRunning := false;
        timeLeft := Duration(newMode);
        if wasRunning {
          CloseNotification();
        }
      }
    }

    /** The countdown as the header shows it. */
    method Display() returns (text: string)
      requires Valid()
      ensures text == FormatTime(timeLeft)
      ensures |text| == 5 && ParseTime(text) == Some(timeLeft)
    {
      text := FormatTime(timeLeft);
    }
  }
}
