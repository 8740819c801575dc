/** `_update_gamification_internal` of localJsonStorage.py: ten points for
    each day something is recorded, and a streak of consecutive recording
    days. Dates are day ordinals (days since a fixed epoch), so that the
    difference `(current_date - last_date).days` is a subtraction. */
module Gamification {
  import opened Wrappers

  /** The "user" entry of the data file. */
  datatype UserState = UserState(points: int, streak: int, lastRecordDate: Option<int>)

  /** The user entry a fresh data file starts with. */
  const INITIAL: UserState := UserState(0, 0, None)

  const POINTS_PER_DAY: int := 10

  /** The update run after each saved transaction, with today's date as a
      parameter. */
  function Update(u: UserState, today: int): (r: UserState)
    ensures r.lastRecordDate == Some(today)
    ensures u.lastRecordDate == Some(today) ==> r == u
  {
    match u.lastRecordDate
    case None => UserState(POINTS_PER_DAY, 1, Some(today))
    case Some(last) =>
      if last == today then u
      else
        var gap := today - last;
        var streak := if gap == 1 then u.streak + 1 else if gap > 1 then 1 else u.streak;
        UserState(u.points + POINTS_PER_DAY, streak, Some(today))
  }

  /** The first record sets points and streak outright, whatever they
      held. */
  lemma FirstRecord(u: UserState, today: int)
    requires u.lastRecordDate.None?
    ensures Update(u, today) == UserState(10, 1, Some(today))
  {
  }

  /** Recording twice on the same day changes nothing the second time. */
  lemma UpdateIdempotent(u: UserState, today: int)
    ensures Update(Update(u, today), today) == Update(u, today)
  {
  }

  /** Recording on the day after the last record extends the streak. */
  lemma NextDay(u: UserState, today: int)
    requires u.lastRecordDate == Some(today - 1)
    ensures Update(u, today) == UserState(u.points + 10, u.streak + 1, Some(today))
  {
  }

  /** After a gap of more than a day the streak starts over. */
  lemma AfterGap(u: UserState, today: int)
    requires u.lastRecordDate.Some? && u.lastRecordDate.value < today - 1
    ensures Update(u, today) == UserState(u.points + 10, 1, Some(today))
  {
  }

  /** A date before the last record is not refused: the streak stays, the
      points still rise and the last record date moves back. */
  lemma Backdated(u: UserState, today: int)
    requires u.lastRecordDate.Some? && today < u.lastRecordDate.value
    ensures Update(u, today) == UserState(u.points + 10, u.streak, Some(today))
  {
  }

  /** The shape every reachable user entry has. */
  ghost predicate Inv(u: UserState) {
    && u.points >= 0
    && u.points % POINTS_PER_DAY == 0
    && 0 <= u.streak <= u.points / POINTS_PER_DAY
    && (u.lastRecordDate.Some? ==> u.streak >= 1)
  }

  lemma UpdatePreservesInv(u: UserState, today: int)
    requires Inv(u)
    ensures Inv(Update(u, today))
  {
  }

  /** The user entry after recording on each of the given days in turn,
      starting from a fresh file. */
  function Replay(days: seq<int>): (u: UserState)
    ensures days == [] <==> u.lastRecordDate.None?
    ensures days != [] ==> u.lastRecordDate == Some(days[|days| - 1])
  {
    if days == [] then INITIAL
    else Update(Replay(days[..|days| - 1]), days[|days| - 1])
  }

  /** Every user entry reached from a fresh file keeps the invariant,
      whatever order the days come in. */
  lemma {:induction false} ReplayKeepsInv(days: seq<int>)
    ensures Inv(Replay(days))
  {
    if days != [] {
      ReplayKeepsInv(days[..|days| - 1]);
      UpdatePreservesInv(Replay(days[..|days| - 1]), days[|days| - 1]);
    }
  }

  ghost predicate NonDecreasing(days: seq<int>) {
    forall i, j :: 0 <= i < j < |days| ==> days[i] <= days[j]
  }

  function DaysOf(days: seq<int>): set<int> {
    set d | d in days
  }

  /** What the user entry says about the recorded days when they came in
      calendar order: ten points per distinct day, and a streak that is the
      length of the run of consecutive recorded days ending at the last
      one. */
  ghost predicate MatchesCalendar(u: UserState, recorded: set<int>, last: int) {
    && u.lastRecordDate == Some(last)
    && u.points == 10 * |recorded|
    && u.streak >= 1
    && (forall d :: last - u.streak < d <= last ==> d in recorded)
    && last - u.streak !in recorded
  }

  /** One more recording day, no earlier than every day before it. */
  lemma CalendarStep(u: UserState, recorded: set<int>, last: int, today: int)
    requires MatchesCalendar(u, recorded, last)
    requires forall x :: x in recorded ==> x <= last
    requires last <= today
    ensures MatchesCalendar(Update(u, today), recorded + {today}, today)
  {
    if last == today {
      assert recorded + {today} == recorded;
    } else {
      assert today !in recorded;
      assert |recorded + {today}| == |recorded| + 1;
    }
  }

  /** The last day of a calendar-ordered list is its largest. */
  lemma LastIsLargest(days: seq<int>)
    requires days != [] && NonDecreasing(days)
    ensures forall x :: x in DaysOf(days) ==> x <= days[|days| - 1]
  {
    forall x | x in DaysOf(days) ensures x <= days[|days| - 1] {
      var i :| 0 <= i < |days| && days[i] == x;
    }
  }

  /** The days of a list without its last element, and that element. */
  lemma DaysOfSplit(days: seq<int>)
    requires days != []
    ensures DaysOf(days) == DaysOf(days[..|days| - 1]) + {days[|days| - 1]}
  {
    assert days == days[..|days| - 1] + [days[|days| - 1]];
  }

  lemma {:induction false} ReplayMatchesCalendar(days: seq<int>)
    requires days != [] && NonDecreasing(days)
    ensures MatchesCalendar(Replay(days), DaysOf(days), days[|days| - 1])
  {
    var n := |days|;
    var init, today := days[..n - 1], days[n - 1];
    DaysOfSplit(days);
    if init == [] {
      assert DaysOf(days) == {today};
    } else {
      assert NonDecreasing(init);
      ReplayMatchesCalendar(init);
      LastIsLargest(init);
      assert init[n - 2] == days[n - 2];
      CalendarStep(Replay(init), DaysOf(init), init[n - 2], today);
    }
  }

  /** Recording every day for n days in a row gives a streak of n and
      10 * n points. */
  lemma {:induction false} ConsecutiveDays(start: int, n: nat)
    requires n >= 1
    ensures Replay(seq(n, i => start + i)) == UserState(10 * n, n, Some(start + n - 1))
  {
    var days := seq(n, i => start + i);
    if n > 1 {
      ConsecutiveDays(start, n - 1);
      assert days[..n - 1] == seq(n - 1, i => start + i);
    }
  }
}
