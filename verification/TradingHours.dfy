/** Exchange trading hours in UTC.

    An instant is a number of microseconds since Monday 1 January of year 1, the
    first instant Python's datetime can hold, so its day count modulo seven is the
    weekday with Monday as zero. */
module TradingHours {

  const DAY := 86_400_000_000

  type TimeOfDay = t: int | 0 <= t < DAY

  datatype Schedule = Schedule(openUtc: TimeOfDay, closeUtc: TimeOfDay, tradingDays: seq<int>) {

    function Weekday(t: int): int {
      t / DAY % 7
    }

    predicate IsOpen(now: int) {
      Weekday(now) in tradingDays && openUtc <= now % DAY < closeUtc
    }

    /** An instant at which a trading day's session begins. */
    predicate IsOpening(t: int) {
      Weekday(t) in tradingDays && t % DAY == openUtc
    }

    /** Some weekday trades. */
    predicate Trades() {
      exists d :: 0 <= d < 7 && d in tradingDays
    }
  }

  /** The market is open exactly during the sessions: from an opening, and until the length
      of a session has passed since. */
  lemma OpenIffInSession(s: Schedule, t: int)
    ensures s.IsOpen(t) <==> exists o :: s.IsOpening(o) && o <= t < o + (s.closeUtc - s.openUtc)
  {
    if s.IsOpen(t) {
      var o := t / DAY * DAY + s.openUtc;
      assert o / DAY == t / DAY && o % DAY == s.openUtc;
      assert s.IsOpening(o);
    }
    if o :| s.IsOpening(o) && o <= t < o + (s.closeUtc - s.openUtc) {
      assert o / DAY == t / DAY;
    }
  }

  /** Once a session's length has passed since an opening the market is closed until the next one. */
  lemma ClosedUntilNextOpening(s: Schedule, opening: int, next: int, t: int)
    requires s.IsOpening(opening) && forall u :: opening < u < next ==> !s.IsOpening(u)
    requires opening + (s.closeUtc - s.openUtc) <= t < next && opening <= t
    ensures !s.IsOpen(t)
  {
    OpenIffInSession(s, t);
  }

  /** Weekdays run from Monday, day 0, in days of 24 hours, and repeat every seven. */
  lemma WeekdaysRepeat(s: Schedule, t: int)
    ensures 0 <= t < 24 * 60 * 60 * 1_000_000 ==> s.Weekday(t) == 0
    ensures s.Weekday(t + 24 * 60 * 60 * 1_000_000) == if s.Weekday(t) == 6 then 0 else s.Weekday(t) + 1
    ensures s.IsOpen(t + 7 * 24 * 60 * 60 * 1_000_000) <==> s.IsOpen(t)
  {
    DayAfter(t);
    var week := t + 7 * DAY;
    assert week % DAY == t % DAY && week / DAY == t / DAY + 7;
  }

  lemma DayAfter(t: int)
    ensures (t + DAY) % DAY == t % DAY && (t + DAY) / DAY == t / DAY + 1
  {
  }

  /** next_open: the earliest opening strictly after now. The search ends because some
      weekday trades; without one the source's loop has no exit. If the session has
      any length the exchange is open at the result, and if it is closed now it stays
      closed until then. */
  method NextOpen(s: Schedule, now: int) returns (candidate: int)
    requires s.Trades()
    ensures candidate > now && s.IsOpening(candidate)
    ensures forall t :: now < t < candidate ==> !s.IsOpening(t)
    ensures s.IsOpen(candidate) <==> s.openUtc < s.closeUtc
    ensures !s.IsOpen(now) ==> forall t :: now <= t < candidate ==> !s.IsOpen(t)
  {
    candidate := now / DAY * DAY + s.openUtc;
    FirstCandidate(s, now);
    if candidate <= now {
      candidate := candidate + DAY;
    }
    ghost var d :| 0 <= d < 7 && d in s.tradingDays;
    while s.Weekday(candidate) !in s.tradingDays
      invariant candidate % DAY == s.openUtc && candidate > now
      invariant forall t :: now < t < candidate ==> !s.IsOpening(t)
      decreases DaysTo(candidate / DAY, d)
    {
      DayAfter(candidate);
      SkippedDayHasNoOpening(s, now, candidate);
      DistanceShrinks(candidate / DAY, d);
      candidate := candidate + DAY;
    }
    StaysClosedUntil(s, now, candidate);
  }

  /** The search has something to find exactly when some weekday trades. */
  lemma OpeningExistsIff(s: Schedule)
    ensures s.Trades() <==> exists t :: s.IsOpening(t)
  {
    if s.Trades() {
      var d :| 0 <= d < 7 && d in s.tradingDays;
      assert s.IsOpening(d * DAY + s.openUtc);
    }
    if t :| s.IsOpening(t) {
      assert 0 <= s.Weekday(t) < 7;
    }
  }

  /** Passing over a non-trading day passes over no opening. */
  lemma SkippedDayHasNoOpening(s: Schedule, now: int, candidate: int)
    requires candidate % DAY == s.openUtc && s.Weekday(candidate) !in s.tradingDays
    requires forall t :: now < t < candidate ==> !s.IsOpening(t)
    ensures forall t :: now < t < candidate + DAY ==> !s.IsOpening(t)
  {
    forall t | now < t < candidate + DAY ensures !s.IsOpening(t) {
      if t > candidate {
        OpeningsADayApart(s, candidate, t);
      }
    }
  }

  lemma StaysClosedUntil(s: Schedule, now: int, next: int)
    requires forall t :: now < t < next ==> !s.IsOpening(t)
    ensures !s.IsOpen(now) ==> forall t :: now <= t < next ==> !s.IsOpen(t)
  {
    forall t | !s.IsOpen(now) && now <= t < next ensures !s.IsOpen(t) {
      if s.IsOpen(t) {
        StaysClosed(s, now, t, next);
      }
    }
  }

  lemma OpeningsADayApart(s: Schedule, candidate: int, t: int)
    requires candidate % DAY == s.openUtc && candidate < t < candidate + DAY
    ensures t % DAY != s.openUtc
  {
  }

  /** The opening time of now's day, or of the next day if that is not after now, with
      no such time of day in between. */
  lemma FirstCandidate(s: Schedule, now: int)
    ensures var today := now / DAY * DAY + s.openUtc;
      var first := if today <= now then today + DAY else today;
      && first % DAY == s.openUtc && first > now
      && forall t :: now < t < first ==> !s.IsOpening(t)
  {
    var today := now / DAY * DAY + s.openUtc;
    DayAfter(today);
    assert today % DAY == s.openUtc && today / DAY == now / DAY;
    if today <= now {
      forall t | now < t < today + DAY ensures !s.IsOpening(t) {
        OpeningsADayApart(s, today, t);
      }
    } else {
      forall t | now < t < today ensures !s.IsOpening(t) {
        assert t / DAY == now / DAY;
      }
    }
  }

  /** Days from this day to the next with the target weekday. */
  function DaysTo(day: int, target: int): nat {
    (target - day % 7) % 7
  }

  /** A weekday that is not the target gets closer to it the next day. */
  lemma DistanceShrinks(day: int, target: int)
    requires 0 <= target < 7 && day % 7 != target
    ensures DaysTo(day + 1, target) < DaysTo(day, target)
  {
  }

  /** An open instant before the next opening lies in the session that is running now. */
  lemma StaysClosed(s: Schedule, now: int, t: int, next: int)
    requires now <= t < next && s.IsOpen(t)
    requires forall u :: now < u < next ==> !s.IsOpening(u)
    ensures s.IsOpen(now)
  {
    var session := t / DAY * DAY + s.openUtc;
    assert session / DAY == t / DAY && session % DAY == s.openUtc;
    assert s.IsOpening(session) && session <= t;
    assert session <= now;
    assert now / DAY == t / DAY;
  }
}
