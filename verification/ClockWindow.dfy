/** The daily window heavy work waits for (cmd/server/main.go), on a clock without daylight
    saving: instants are nanoseconds from a local midnight, before it as well as after. */
module ClockWindow {
  type Instant = int

  const MINUTE: int := 60_000_000_000
  const DAY: int := 1440 * MINUTE

  /** A window, in minutes since midnight; the same minute twice is refused where it is read. */
  datatype Window = Window(start: nat, end: nat) {
    predicate Valid() { start < 1440 && end < 1440 && start != end }
  }

  /** Hours times sixty and minutes, as the clock on the wall has them. */
  function MinuteOfDay(t: Instant): (m: nat)
    ensures m < 1440
  {
    t % DAY / MINUTE
  }

  predicate Open(w: Window, t: Instant) {
    var m := MinuteOfDay(t);
    if w.start < w.end then m >= w.start && m < w.end else m >= w.start || m < w.end
  }

  function UntilOpen(w: Window, t: Instant): int {
    if Open(w, t) then 0
    else
      var next := t - t % DAY + w.start * MINUTE;
      (if next > t then next else next + DAY) - t
  }

  lemma SameRemainder(k: int, x: int)
    requires 0 <= x < DAY
    ensures (k * DAY + x) % DAY == x
  {
    var d := (k * DAY + x) / DAY;
    var r := (k * DAY + x) % DAY;
    assert k * DAY + x == d * DAY + r;
    assert (k - d) * DAY == r - x;
    assert -DAY < r - x < DAY;
    assert k == d;
  }

  /** `e` after `t`, in the same day or the next. */
  lemma Later(t: Instant, e: int)
    requires 0 <= e < 2 * DAY - t % DAY
    ensures var x := t % DAY + e;
      (t + e) % DAY == if x < DAY then x else x - DAY
  {
    var k := t / DAY;
    assert t == k * DAY + t % DAY;
    var x := t % DAY + e;
    if x < DAY {
      SameRemainder(k, x);
    } else {
      SameRemainder(k + 1, x - DAY);
      assert t + e == (k + 1) * DAY + (x - DAY);
    }
  }

  lemma MinuteFrom(x: int, m: nat)
    requires 0 <= x < DAY
    ensures m * MINUTE <= x <==> m <= x / MINUTE
  {
    var q, r := x / MINUTE, x % MINUTE;
    assert x == q * MINUTE + r && 0 <= r < MINUTE;
  }

  /** While waiting, the window stays shut. */
  lemma ShutBefore(w: Window, t: Instant, e: int)
    requires w.Valid() && !Open(w, t) && 0 <= e < UntilOpen(w, t)
    ensures !Open(w, t + e)
  {
    var o := t % DAY;
    Later(t, e);
    MinuteFrom(o, w.start);
    MinuteFrom(o, w.end);
    MinuteFrom((t + e) % DAY, w.start);
    MinuteFrom((t + e) % DAY, w.end);
  }

  /** The instant is inside the window as it is drawn on the wall of some day, the window ending
      the day after when it ends before it starts. */
  ghost predicate InWindow(w: Window, t: Instant) {
    exists d: int :: OnDay(w, t, d)
  }

  predicate OnDay(w: Window, t: Instant, d: int) {
    d * DAY + w.start * MINUTE <= t < d * DAY + w.end * MINUTE + (if w.end < w.start then DAY else 0)
  }

  /** No window but its own day's and, past midnight, the day before's reaches an instant. */
  lemma OtherDaysAreFar(w: Window, t: Instant, d: int)
    requires w.Valid() && OnDay(w, t, d)
    ensures d == t / DAY || (d == t / DAY - 1 && w.end < w.start)
  {
    var k, o := t / DAY, t % DAY;
    assert t == k * DAY + o && 0 <= o < DAY;
    assert w.start * MINUTE < DAY && w.end * MINUTE < DAY;
    assert d * DAY < (k + 1) * DAY;
    assert k * DAY < (d + 2) * DAY;
  }

  lemma OnThisDay(w: Window, t: Instant)
    requires w.Valid()
    ensures var m := MinuteOfDay(t);
      && (OnDay(w, t, t / DAY) <==> w.start <= m && (w.end < w.start || m < w.end))
      && (w.end < w.start ==> (OnDay(w, t, t / DAY - 1) <==> m < w.end))
  {
    var k, o := t / DAY, t % DAY;
    assert t == k * DAY + o && (k - 1) * DAY == k * DAY - DAY;
    MinuteFrom(o, w.start);
    MinuteFrom(o, w.end);
  }

  /** The hands of the clock say it is open exactly when it is inside the window of some day. */
  lemma OpenExactly(w: Window, t: Instant)
    requires w.Valid()
    ensures Open(w, t) <==> InWindow(w, t)
  {
    OnThisDay(w, t);
    if InWindow(w, t) {
      var d :| OnDay(w, t, d);
      OtherDaysAreFar(w, t, d);
    }
    if Open(w, t) {
      assert OnDay(w, t, t / DAY) || OnDay(w, t, t / DAY - 1);
    }
  }

  lemma LeastOpen(w: Window, t: Instant)
    requires w.Valid()
    ensures var d := UntilOpen(w, t);
      && 0 <= d < DAY && Open(w, t + d)
      && (forall u :: t <= u < t + d ==> !Open(w, u))
  {
    var d := UntilOpen(w, t);
    if !Open(w, t) {
      var o := t % DAY;
      MinuteFrom(o, w.start);
      Later(t, d);
      MinuteFrom((t + d) % DAY, w.start);
      assert (t + d) % DAY == w.start * MINUTE;
      assert w.start * MINUTE / MINUTE == w.start;
      forall u | t <= u < t + d
        ensures !Open(w, u)
      {
        ShutBefore(w, t, u - t);
      }
    }
  }

  /** untilOpen is the least wait after which the instant is inside the window: none when it is, and
      otherwise the time to its next start, always less than a day. */
  lemma LeastWait(w: Window, t: Instant)
    requires w.Valid()
    ensures var d := UntilOpen(w, t);
      && 0 <= d < DAY && InWindow(w, t + d)
      && (forall u :: t <= u < t + d ==> !InWindow(w, u))
  {
    LeastOpen(w, t);
    OpenExactly(w, t + UntilOpen(w, t));
    forall u | t <= u < t + UntilOpen(w, t)
      ensures !InWindow(w, u)
    {
      OpenExactly(w, u);
    }
  }
}
