/** The per-note deadline tracker of a note card: from the note's creation
    time, its reminder time and the current time (integer milliseconds) it
    derives a progress percentage, a days/hours/minutes/seconds countdown and
    whether the reminder is due; the reminder effect checks once at setup and
    then once per interval tick, and the first "due" observation calls
    `onReminderDue` and cancels the interval. */
module NoteCard {
  import opened Wrappers
  import opened Text
  import opened Types

  const MsPerSecond: int := 1000
  const MsPerMinute: int := 1000 * 60
  const MsPerHour: int := 1000 * 60 * 60
  const MsPerDay: int := 1000 * 60 * 60 * 24

  const DueText := "Reminder due!"

  /** A positive remaining time split into whole days, hours, minutes and seconds. */
  datatype Breakdown = Breakdown(days: nat, hours: nat, minutes: nat, seconds: nat)

  function Milliseconds(b: Breakdown): int {
    b.days * MsPerDay + b.hours * MsPerHour + b.minutes * MsPerMinute + b.seconds * MsPerSecond
  }

  /** The facts of successive division of a positive `diff` by 1000, 60, 60 and 24. */
  lemma DivisionChain(diff: int)
    requires diff > 0
    ensures diff / MsPerMinute == (diff / MsPerSecond) / 60
    ensures diff / MsPerHour == (diff / MsPerMinute) / 60
    ensures diff / MsPerDay == (diff / MsPerHour) / 24
  {
    var q1 := diff / 1000;
    var q2 := q1 / 60;
    assert 60000 * q2 <= diff < 60000 * q2 + 60000;
    var q3 := q2 / 60;
    assert 3600000 * q3 <= diff < 3600000 * q3 + 3600000;
    var q4 := q3 / 24;
    assert 86400000 * q4 <= diff < 86400000 * q4 + 86400000;
  }

  /** The countdown of a remaining time `diff > 0`: every unit but days is
      reduced modulo the next, and together they fall short of `diff` by less
      than a second. */
  function BreakdownOf(diff: int): (b: Breakdown)
    requires diff > 0
    ensures b.hours < 24 && b.minutes < 60 && b.seconds < 60
    ensures Milliseconds(b) <= diff < Milliseconds(b) + MsPerSecond
  {
    DivisionChain(diff);
    Breakdown(diff / MsPerDay, (diff / MsPerHour) % 24, (diff / MsPerMinute) % 60, (diff / MsPerSecond) % 60)
  }

  /** The bounds of BreakdownOf determine it: no other split of `diff` has them. */
  lemma BreakdownUnique(diff: int, b: Breakdown)
    requires diff > 0
    requires b.hours < 24 && b.minutes < 60 && b.seconds < 60
    requires Milliseconds(b) <= diff < Milliseconds(b) + MsPerSecond
    ensures b == BreakdownOf(diff)
  {
    DivisionChain(diff);
    var q1 := b.days * 86400 + b.hours * 3600 + b.minutes * 60 + b.seconds;
    assert diff / 1000 == q1;
    var q2 := b.days * 1440 + b.hours * 60 + b.minutes;
    assert q1 / 60 == q2 && q1 % 60 == b.seconds;
    var q3 := b.days * 24 + b.hours;
    assert q2 / 60 == q3 && q2 % 60 == b.minutes;
    assert q3 / 24 == b.days && q3 % 24 == b.hours;
  }

  /** `k` whole copies of `y`. */
  function Multiple(y: real, k: nat): real {
    y * k as real
  }

  /** JavaScript's `%` on non-negative numbers, over exact reals: what is
      left of `x` after taking out whole copies of `y`. */
  function JsRemainder(x: real, y: real): (r: real)
    requires x >= 0.0 && y > 0.0
    ensures 0.0 <= r < y
    ensures exists k: nat :: x == Multiple(y, k) + r
  {
    var k: nat := (x / y).Floor;
    var q := k as real;
    assert y * (x / y) == x;
    assert x / y < q + 1.0;
    var gap := (q + 1.0) - x / y;
    assert gap > 0.0;
    assert y * gap > 0.0;
    assert y * gap == y * q + y - x;
    assert y * q <= x;
    assert x == Multiple(y, k) + (x - y * q);
    x - y * q
  }

  /** The card's countdown formula read over exact reals: real division,
      JavaScript `%` and `Math.floor`. */
  function SourceBreakdown(timeDiff: int): (b: Breakdown)
    requires timeDiff > 0
    ensures b.hours < 24 && b.minutes < 60 && b.seconds < 60
  {
    var t := timeDiff as real;
    Breakdown(
      (t / (1000.0 * 60.0 * 60.0 * 24.0)).Floor,
      JsRemainder(t / (1000.0 * 60.0 * 60.0), 24.0).Floor,
      JsRemainder(t / (1000.0 * 60.0), 60.0).Floor,
      JsRemainder(t / 1000.0, 60.0).Floor)
  }

  /** Real division of integers, floored, is integer division. */
  lemma FloorDiv(n: int, d: int)
    requires n >= 0 && d > 0
    ensures (n as real / d as real).Floor == n / d
  {
    var q, r := n / d, n % d;
    assert n as real == d as real * q as real + r as real;
    assert n as real / d as real == q as real + r as real / d as real;
    ShareBelowOne(r as real, d as real);
  }

  /** A share of a positive whole below the whole lies in [0, 1). */
  lemma ShareBelowOne(a: real, b: real)
    requires 0.0 <= a < b
    ensures 0.0 <= a / b < 1.0
  {
    assert b * (a / b) == a;
  }

  /** `Math.floor((timeDiff / unit) % base)` is integer division followed by
      remainder. */
  lemma FloorOfRemainder(timeDiff: int, unit: int, base: int)
    requires timeDiff > 0 && unit > 0 && base > 0
    ensures JsRemainder(timeDiff as real / unit as real, base as real).Floor == (timeDiff / unit) % base
  {
    var x := timeDiff as real / unit as real;
    var q := timeDiff / unit;
    FloorDiv(timeDiff, unit);
    var f := x - q as real;
    assert 0.0 <= f < 1.0;
    var k, m := q / base, q % base;
    var g := (m as real + f) / base as real;
    assert x == base as real * k as real + (m as real + f);
    assert x / base as real == k as real + g;
    ShareBelowOne(m as real + f, base as real);
    assert (x / base as real).Floor == k;
    assert JsRemainder(x, base as real) == m as real + f;
  }

  /** The card's floating-point formula, read over exact reals, is the integer breakdown. */
  lemma SourceBreakdownAgrees(timeDiff: int)
    requires timeDiff > 0
    ensures SourceBreakdown(timeDiff) == BreakdownOf(timeDiff)
  {
    var t := timeDiff as real;
    assert t / (1000.0 * 60.0 * 60.0 * 24.0) == timeDiff as real / 86400000 as real;
    FloorDiv(timeDiff, 86400000);
    assert t / (1000.0 * 60.0 * 60.0) == timeDiff as real / 3600000 as real;
    FloorOfRemainder(timeDiff, 3600000, 24);
    assert t / (1000.0 * 60.0) == timeDiff as real / 60000 as real;
    FloorOfRemainder(timeDiff, 60000, 60);
    assert t / 1000.0 == timeDiff as real / 1000 as real;
    FloorOfRemainder(timeDiff, 1000, 60);
  }

  /** The digits in front of the first character of `marker` in `t`,
      provided the whole `marker` starts there, and the text after it. */
  function Field(t: string, marker: string): Option<(nat, string)>
    requires marker != []
  {
    var i := IndexOf(t, marker[0]);
    if i == 0 || !(marker <= t[i..]) || !AllDigits(t[..i]) then None
    else Some((ParseDecimal(t[..i]), t[i + |marker|..]))
  }

  lemma FieldRoundTrip(t: string, n: nat, marker: string, rest: string)
    requires marker != [] && !IsDigit(marker[0]) && t == NatToDecimal(n) + marker + rest
    ensures Field(t, marker) == Some((n, rest))
  {
    var d := NatToDecimal(n);
    assert forall j :: 0 <= j < |d| ==> t[j] == d[j] && IsDigit(d[j]);
    assert t[|d|] == marker[0];
    IndexOfFirst(t, marker[0], |d|);
    assert t[..|d|] == d && t[|d|..] == marker + rest;
    assert t[|d| + |marker|..] == rest;
    DecimalRoundTrip(n);
  }

  /** Reads a `{d}d {h}h {m}m {s}s` countdown back into its four parts. */
  function ParseRemaining(t: string): Option<Breakdown> {
    var d := Field(t, "d ");
    if d.None? then None else
    var h := Field(d.value.1, "h ");
    if h.None? then None else
    var m := Field(h.value.1, "m ");
    if m.None? then None else
    var s := Field(m.value.1, "s");
    if s.None? || s.value.1 != "" then None
    else Some(Breakdown(d.value.0, h.value.0, m.value.0, s.value.0))
  }

  /** `${days}d ${hours}h ${minutes}m ${seconds}s`. */
  function RemainingText(b: Breakdown): string {
    NatToDecimal(b.days) + "d " + (NatToDecimal(b.hours) + "h "
      + (NatToDecimal(b.minutes) + "m " + (NatToDecimal(b.seconds) + "s")))
  }

  /** The countdown text determines the breakdown it was made from. */
  lemma RemainingTextRoundTrip(b: Breakdown)
    ensures ParseRemaining(RemainingText(b)) == Some(b)
  {
    var secs := NatToDecimal(b.seconds) + "s";
    var mins := NatToDecimal(b.minutes) + "m " + secs;
    var hours := NatToDecimal(b.hours) + "h " + mins;
    FieldRoundTrip(RemainingText(b), b.days, "d ", hours);
    FieldRoundTrip(hours, b.hours, "h ", mins);
    FieldRoundTrip(mins, b.minutes, "m ", secs);
    FieldRoundTrip(secs, b.seconds, "s", "");
  }

  function Min(a: real, b: real): real {
    if a <= b then a else b
  }

  function Max(a: real, b: real): real {
    if a >= b then a else b
  }

  /** The share of the reminder's span that has elapsed, as a percentage
      clamped to [0, 100]; 0 when the span is not positive. */
  function Progress(createdAt: int, reminderAt: int, now: int): (p: real)
    ensures 0.0 <= p <= 100.0
    ensures reminderAt - createdAt <= 0 ==> p == 0.0
    ensures reminderAt - createdAt > 0 && now <= createdAt ==> p == 0.0
  {
    var totalDuration := reminderAt - createdAt;
    var elapsed := now - createdAt;
    if totalDuration > 0 then
      Min(100.0, Max(0.0, (elapsed as real / totalDuration as real) * 100.0))
    else 0.0
  }

  /** Inside the span, progress is exactly the elapsed share of it. */
  lemma ProgressIsElapsedShare(createdAt: int, reminderAt: int, now: int)
    requires createdAt <= now <= reminderAt && createdAt < reminderAt
    ensures Progress(createdAt, reminderAt, now) * (reminderAt - createdAt) as real
            == (now - createdAt) as real * 100.0
  {
    var total := (reminderAt - createdAt) as real;
    var elapsed := (now - createdAt) as real;
    assert 0.0 <= elapsed / total <= 1.0 by {
      assert elapsed <= total;
    }
    assert (elapsed / total) * total == elapsed;
  }

  /** With a fixed span, progress never decreases as time passes. */
  lemma ProgressMonotone(createdAt: int, reminderAt: int, now1: int, now2: int)
    requires now1 <= now2
    ensures Progress(createdAt, reminderAt, now1) <= Progress(createdAt, reminderAt, now2)
  {
    if reminderAt - createdAt > 0 {
      var total := (reminderAt - createdAt) as real;
      var e1 := (now1 - createdAt) as real;
      var e2 := (now2 - createdAt) as real;
      assert e2 / total - e1 / total == (e2 - e1) / total;
      assert e1 / total <= e2 / total;
    }
  }

  /** What the card shows: the progress bar, the countdown text, the "due" colouring. */
  datatype Reading = Reading(progress: real, timeRemaining: string, isDue: bool)

  /** What the card shows while no reminder is scheduled. */
  const Cleared := Reading(0.0, "", false)

  /** One check of the deadline (the body shared by the setup and the tick). */
  function Observe(createdAt: int, reminderAt: int, now: int): (r: Reading)
    ensures r.isDue <==> reminderAt <= now
    ensures 0.0 <= r.progress <= 100.0
    ensures r.isDue ==> r.progress == 100.0 && r.timeRemaining == DueText
    ensures !r.isDue ==> r.progress == Progress(createdAt, reminderAt, now)
    ensures !r.isDue ==> r.timeRemaining == RemainingText(BreakdownOf(reminderAt - now))
  {
    var timeDiff := reminderAt - now;
    if timeDiff <= 0 then Reading(100.0, DueText, true)
    else Reading(Progress(createdAt, reminderAt, now), RemainingText(BreakdownOf(timeDiff)), false)
  }

  /** The progress bar never moves back, due or not, and is full from the deadline on. */
  lemma ObservedProgressMonotone(createdAt: int, reminderAt: int, now1: int, now2: int)
    requires now1 <= now2
    ensures Observe(createdAt, reminderAt, now1).progress <= Observe(createdAt, reminderAt, now2).progress
    ensures reminderAt <= now2 ==> Observe(createdAt, reminderAt, now2).progress == 100.0
  {
    ProgressMonotone(createdAt, reminderAt, now1, now2);
  }

  /** Whether the effect schedules anything for `note`. */
  predicate Scheduled(note: Note) {
    note.reminderEnabled && note.reminderDateTime != ""
  }

  /** One setup of the reminder effect as far as it has got: what the card
      shows, whether its interval is still registered, and how many times it
      has called `onReminderDue`. */
  datatype TrackerState = TrackerState(reading: Reading, ticking: bool, dueCalls: nat)

  /** At most one call, and none while the interval is still registered. */
  predicate AtMostOnce(t: TrackerState) {
    t.dueCalls <= 1 && (t.ticking ==> t.dueCalls == 0)
  }

  /** One check with the interval registered: on "due", call back once and cancel. */
  function CheckStep(createdAt: int, reminderAt: int, now: int, calls: nat): (t: TrackerState)
    ensures t.reading == Observe(createdAt, reminderAt, now)
    ensures t.ticking <==> now < reminderAt
    ensures t.dueCalls == calls + (if reminderAt <= now then 1 else 0)
    ensures calls == 0 ==> AtMostOnce(t)
  {
    var r := Observe(createdAt, reminderAt, now);
    if r.isDue then TrackerState(r, false, calls + 1) else TrackerState(r, true, calls)
  }

  /** The effect body: nothing scheduled for a disabled or undated reminder;
      otherwise register the interval and check at once, so a deadline that is
      already past fires during setup. */
  function SetupStep(scheduled: bool, createdAt: int, reminderAt: int, now: int): (t: TrackerState)
    ensures AtMostOnce(t)
    ensures t.dueCalls == (if scheduled && reminderAt <= now then 1 else 0)
    ensures t.ticking <==> scheduled && now < reminderAt
    ensures !scheduled ==> t.reading == Cleared
    ensures scheduled ==> t.reading == Observe(createdAt, reminderAt, now)
  {
    if !scheduled then TrackerState(Cleared, false, 0)
    else CheckStep(createdAt, reminderAt, now, 0)
  }

  /** One interval callback; once the interval is cancelled there is none. */
  function TickStep(t: TrackerState, createdAt: int, reminderAt: int, now: int): (r: TrackerState)
    ensures !t.ticking ==> r == t
    ensures t.ticking ==> r.reading == Observe(createdAt, reminderAt, now)
    ensures t.ticking ==> r.dueCalls == t.dueCalls + (if reminderAt <= now then 1 else 0)
    ensures t.ticking ==> (r.ticking <==> now < reminderAt)
    ensures AtMostOnce(t) ==> AtMostOnce(r)
  {
    if !t.ticking then t else CheckStep(createdAt, reminderAt, now, t.dueCalls)
  }

  /** The interval callbacks at the clock readings `times`, in order. */
  function RunTicks(t: TrackerState, createdAt: int, reminderAt: int, times: seq<int>): TrackerState
    decreases |times|
  {
    if times == [] then t
    else RunTicks(TickStep(t, createdAt, reminderAt, times[0]), createdAt, reminderAt, times[1..])
  }

  /** Ticks after a cancellation (deletion, unmount, or having fired) change nothing. */
  lemma {:induction false} CancelledTrackerIsInert(t: TrackerState, createdAt: int, reminderAt: int, times: seq<int>)
    requires !t.ticking
    ensures RunTicks(t, createdAt, reminderAt, times) == t
    decreases |times|
  {
    if times != [] {
      CancelledTrackerIsInert(t, createdAt, reminderAt, times[1..]);
    }
  }

  /** From a state with at most one call, the ticks add a call exactly when
      the interval is registered and some tick sees the deadline reached. */
  lemma {:induction false} RunAddsOneCallAtMost(t: TrackerState, createdAt: int, reminderAt: int, times: seq<int>)
    requires AtMostOnce(t)
    ensures AtMostOnce(RunTicks(t, createdAt, reminderAt, times))
    ensures RunTicks(t, createdAt, reminderAt, times).dueCalls ==
      t.dueCalls + (if t.ticking && exists i :: 0 <= i < |times| && reminderAt <= times[i] then 1 else 0)
    decreases |times|
  {
    if times == [] {
    } else {
      var next := TickStep(t, createdAt, reminderAt, times[0]);
      RunAddsOneCallAtMost(next, createdAt, reminderAt, times[1..]);
      if t.ticking && reminderAt > times[0] {
        assert (exists i :: 0 <= i < |times| && reminderAt <= times[i])
          <==> (exists i :: 0 <= i < |times[1..]| && reminderAt <= times[1..][i]) by {
          forall i | 0 <= i < |times| && reminderAt <= times[i]
            ensures 0 <= i - 1 < |times[1..]| && reminderAt <= times[1..][i - 1] {
          }
        }
      } else if t.ticking {
        assert next.dueCalls == t.dueCalls + 1 && !next.ticking;
      }
    }
  }

  /** Within one setup `onReminderDue` is called at most once, and it is
      called exactly when the reminder is scheduled and the setup or some
      later tick sees the deadline reached. */
  lemma DispatchIffObservedDue(scheduled: bool, createdAt: int, reminderAt: int, setupAt: int, times: seq<int>)
    ensures RunTicks(SetupStep(scheduled, createdAt, reminderAt, setupAt), createdAt, reminderAt, times).dueCalls
      == if scheduled && (reminderAt <= setupAt || exists i :: 0 <= i < |times| && reminderAt <= times[i]) then 1 else 0
  {
    var t := SetupStep(scheduled, createdAt, reminderAt, setupAt);
    RunAddsOneCallAtMost(t, createdAt, reminderAt, times);
  }

  /** A reminder ten seconds after creation, polled at eleven seconds: due,
      full progress, exactly one call. */
  lemma OverduePollExample(t0: int)
    ensures var t := RunTicks(SetupStep(true, t0, t0 + 10000, t0), t0, t0 + 10000, [t0 + 11000]);
      t.reading == Reading(100.0, DueText, true) && t.dueCalls == 1 && !t.ticking
  {
  }

  /** The mounted card's reminder state: the three state variables, whether
      its interval is registered, and the `onReminderDue` calls of the
      current setup. `createdAt` and `reminderAt` are the note's two dates
      already converted to milliseconds. */
  class ReminderTracker {
    const note: Note
    const createdAt: int
    const reminderAt: int
    var progress: real
    var timeRemaining: string
    var isDue: bool
    var ticking: bool
    var dueCalls: seq<Note>

    function Snapshot(): TrackerState
      reads this
    {
      TrackerState(Reading(progress, timeRemaining, isDue), ticking, |dueCalls|)
    }

    ghost predicate Valid()
      reads this
    {
      && (dueCalls == [] || dueCalls == [note])
      && (ticking ==> dueCalls == [])
    }

    constructor (note: Note, createdAt: int, reminderAt: int)
      ensures Valid()
      ensures this.note == note && this.createdAt == createdAt && this.reminderAt == reminderAt
      ensures Snapshot() == TrackerState(Cleared, false, 0)
    {
      this.note := note;
      this.createdAt := createdAt;
      this.reminderAt := reminderAt;
      progress, timeRemaining, isDue := 0.0, "", false;
      ticking := false;
      dueCalls := [];
    }

    /** The check shared by setup and tick, with the interval registered. */
    method Check(now: int)
      requires Valid() && ticking
      modifies this
      ensures Valid()
      ensures Snapshot() == CheckStep(createdAt, reminderAt, now, old(|dueCalls|))
    {
      var timeDiff := reminderAt - now;
      if timeDiff <= 0 {
        progress, timeRemaining, isDue := 100.0, DueText, true;
        dueCalls := dueCalls + [note];
        ticking := false;
      } else {
        progress := Progress(createdAt, reminderAt, now);
        timeRemaining := RemainingText(BreakdownOf(timeDiff));
        isDue := false;
      }
    }

    /** A run of the reminder effect at clock reading `now`, after the
      cleanup of the previous run. */
    method Setup(now: int)
      modifies this
      ensures Valid()
      ensures Snapshot() == SetupStep(Scheduled(note), createdAt, reminderAt, now)
    {
      ticking := false;
      dueCalls := [];
      if !note.reminderEnabled || note.reminderDateTime == "" {
        progress, timeRemaining, isDue := 0.0, "", false;
        return;
      }
      ticking := true;
      Check(now);
    }

    /** One interval callback at clock reading `now`. */
    method Tick(now: int)
      requires Valid()
      modifies this
      ensures Valid()
      ensures Snapshot() == TickStep(old(Snapshot()), createdAt, reminderAt, now)
    {
      if ticking {
        Check(now);
      }
    }

    /** The effect's cleanup: on unmount, or before the effect runs again. */
    method Teardown()
      requires Valid()
      modifies this
      ensures Valid()
      ensures Snapshot() == old(Snapshot()).(ticking := false)
    {
      ticking := false;
    }
  }
}
