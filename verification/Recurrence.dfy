/** Schedules: once, fixed interval, and daily at a local wall-clock time.

    Instants are microseconds on the UTC line. A naive local date-time is a microsecond
    count too, so day `d` covers the wall times from `d * DAY` up to `(d + 1) * DAY`. */
module Recurrence {
  import opened Arithmetic
  import opened Wrappers

  const DAY := 86_400_000_000
  const DAY_MINUTES := 1440
  /** How far NEXT_VALID looks past a skipped wall time, in minutes. */
  const GAP_SEARCH := 180
  /** The last minute of the day from which that search stays within the day. */
  const LAST_UNCROSSED_MINUTE := 1259
  const CATCH_UP_LIMIT := 10
  const SEARCH_DAYS := 370

  /** A time zone: the wall time shown at an instant, and the instant a wall time with a
      fold flag is converted to. */
  datatype Zone = Zone(local: int -> int, lookup: (int, int) -> int)

  datatype LocalTimePolicy = Skip | NextValid | Earliest | Latest
  datatype Daily = Daily(hour: int, minute: int, zone: Zone, policy: LocalTimePolicy)
  datatype Kind = Once | Interval(seconds: int) | DailyLocal(daily: Daily)
  datatype Misfire = SkipMissed | FireOnce | CatchUp
  datatype Spec = Spec(kind: Kind, first: int, misfire: Misfire)
  datatype Error = NoOccurrenceWithinAYear

  function DayOf(wall: int): int { wall / DAY }

  function MinuteOfDay(d: Daily): int { d.hour * 60 + d.minute }

  function WallTime(d: Daily, day: int): int { day * DAY + MinuteOfDay(d) * MINUTE }

  /** What the constructors of the schedule values check. */
  predicate Constructed(spec: Spec) {
    match spec.kind
    case Once => true
    case Interval(seconds) => seconds >= 1
    case DailyLocal(d) => 0 <= d.hour <= 23 && 0 <= d.minute <= 59
  }

  // ----- What is assumed of a zone -----

  /** PEP 495: fold 0 finds the first and fold 1 the last showing of a wall time, and
      there is no third. */
  ghost predicate FoldsFindShowings(z: Zone) {
    forall u :: FoldsAt(z, u)
  }

  ghost predicate FoldsAt(z: Zone, u: int) {
    var early, late := z.lookup(z.local(u), 0), z.lookup(z.local(u), 1);
    && z.local(early) == z.local(u) && z.local(late) == z.local(u)
    && early <= u <= late && (u == early || u == late)
  }

  ghost predicate DateNeverStepsBack(z: Zone) {
    forall u, v :: DatesInOrder(z, u, v)
  }

  ghost predicate DatesInOrder(z: Zone, u: int, v: int) {
    u <= v ==> DayOf(z.local(u)) <= DayOf(z.local(v))
  }

  /** Offsets are whole minutes and change on whole minutes. */
  ghost predicate WholeMinuteOffsets(z: Zone) {
    forall u :: WholeMinuteAt(z, u)
  }

  ghost predicate WholeMinuteAt(z: Zone, u: int) {
    z.local(u) == z.local(u - u % MINUTE) + u % MINUTE && z.local(u - u % MINUTE) % MINUTE == 0
  }

  /** A clock that is set back repeats wall times it has already shown. */
  ghost predicate SetBackRepeats(z: Zone) {
    forall u, v :: RepeatsAt(z, u, v)
  }

  ghost predicate RepeatsAt(z: Zone, u: int, v: int) {
    u < v && z.local(v) < z.local(u) ==> exists w :: w < u && z.local(w) == z.local(v)
  }

  /** Searching past a gap may leave the local day only in zones with regular clocks. */
  ghost predicate Regular(d: Daily) {
    && FoldsFindShowings(d.zone)
    && DateNeverStepsBack(d.zone)
    && (d.policy.NextValid? && MinuteOfDay(d) > LAST_UNCROSSED_MINUTE
        ==> WholeMinuteOffsets(d.zone) && SetBackRepeats(d.zone))
  }

  ghost predicate Usable(spec: Spec) {
    Constructed(spec) && (spec.kind.DailyLocal? ==> Regular(spec.kind.daily))
  }

  // ----- The meaning of a schedule -----

  ghost predicate Shows(z: Zone, wall: int) {
    exists u :: z.local(u) == wall
  }

  ghost predicate FirstShowing(z: Zone, wall: int, u: int) {
    z.local(u) == wall && forall v :: z.local(v) == wall ==> u <= v
  }

  ghost predicate LastShowing(z: Zone, wall: int, u: int) {
    z.local(u) == wall && forall v :: z.local(v) == wall ==> v <= u
  }

  /** `k` minutes past the skipped wall time is the first one the clock does show. */
  ghost predicate EndsGap(z: Zone, wall: int, k: int) {
    1 <= k <= GAP_SEARCH && Shows(z, wall + k * MINUTE) &&
    forall j :: 1 <= j < k ==> !Shows(z, wall + j * MINUTE)
  }

  /** Local day `day` of the schedule comes due at instant `u`. */
  ghost predicate Resolves(d: Daily, day: int, u: int) {
    var wall := WallTime(d, day);
    if Shows(d.zone, wall) then
      if d.policy.Latest? then LastShowing(d.zone, wall, u) else FirstShowing(d.zone, wall, u)
    else
      d.policy.NextValid? && exists k :: EndsGap(d.zone, wall, k) && FirstShowing(d.zone, wall + k * MINUTE, u)
  }

  function Term(first: int, seconds: int, k: int): int { first + k * (seconds * SECOND) }

  /** The whole, unbounded set of instants at which a schedule is due. */
  ghost predicate Occurrence(spec: Spec, u: int) {
    match spec.kind
    case Once => u == spec.first
    case Interval(seconds) => exists k :: 0 <= k && u == Term(spec.first, seconds, k)
    case DailyLocal(d) => u >= spec.first && exists day :: Resolves(d, day, u)
  }

  // ----- Resolving one local day -----

  /** The two folds decide whether, and when, a wall time is shown. */
  lemma FoldsDecide(z: Zone, wall: int)
    requires FoldsFindShowings(z)
    ensures Shows(z, wall) <==> z.local(z.lookup(wall, 0)) == wall
    ensures Shows(z, wall) ==> FirstShowing(z, wall, z.lookup(wall, 0)) && LastShowing(z, wall, z.lookup(wall, 1))
  {
    forall u | z.local(u) == wall
      ensures z.lookup(wall, 0) <= u <= z.lookup(wall, 1)
      ensures z.local(z.lookup(wall, 0)) == wall && z.local(z.lookup(wall, 1)) == wall
    {
      assert FoldsAt(z, u);
    }
  }

  method ResolveLocal(d: Daily, day: int) returns (r: Option<int>)
    requires FoldsFindShowings(d.zone)
    ensures r.Some? ==> Resolves(d, day, r.value)
    ensures r.None? ==> forall u :: !Resolves(d, day, u)
  {
    var naive := WallTime(d, day);
    var candidates: seq<int> := [];
    for fold := 0 to 2
      invariant forall c :: c in candidates ==> d.zone.local(c) == naive
      invariant fold > 0 && d.zone.local(d.zone.lookup(naive, 0)) == naive ==> d.zone.lookup(naive, 0) in candidates
      invariant fold > 1 && d.zone.local(d.zone.lookup(naive, 1)) == naive ==> d.zone.lookup(naive, 1) in candidates
    {
      var utc := d.zone.lookup(naive, fold);
      if d.zone.local(utc) == naive && utc !in candidates {
        candidates := candidates + [utc];
      }
    }
    FoldsDecide(d.zone, naive);
    if candidates == [] {
      if d.policy.NextValid? {
        for offset := 1 to GAP_SEARCH + 1
          invariant forall j :: 1 <= j < offset ==> !Shows(d.zone, naive + j * MINUTE)
        {
          var shifted := naive + offset * MINUTE;
          var utc := d.zone.lookup(shifted, 0);
          FoldsDecide(d.zone, shifted);
          if d.zone.local(utc) == shifted {
            assert EndsGap(d.zone, naive, offset);
            return Some(utc);
          }
        }
      }
      return None;
    }
    assert candidates[0] in candidates;
    return Some(if d.policy.Latest? then Greatest(candidates) else Least(candidates));
  }

  function Greatest(s: seq<int>): (m: int)
    requires s != []
    ensures m in s && forall x :: x in s ==> x <= m
  {
    if |s| == 1 then s[0] else
      assert s == [s[0]] + s[1..];
      var rest := Greatest(s[1..]);
      if s[0] < rest then rest else s[0]
  }

  function Least(s: seq<int>): (m: int)
    requires s != []
    ensures m in s && forall x :: x in s ==> m <= x
  {
    if |s| == 1 then s[0] else
      assert s == [s[0]] + s[1..];
      var rest := Least(s[1..]);
      if s[0] > rest then rest else s[0]
  }

  // ----- Order of the resolved days -----

  lemma ResolvedOnce(d: Daily, day: int, u: int, v: int)
    requires Resolves(d, day, u) && Resolves(d, day, v)
    ensures u == v
  {
    var wall := WallTime(d, day);
    if !Shows(d.zone, wall) {
      var k :| EndsGap(d.zone, wall, k) && FirstShowing(d.zone, wall + k * MINUTE, u);
      var l :| EndsGap(d.zone, wall, l) && FirstShowing(d.zone, wall + l * MINUTE, v);
      assert k == l;
    }
  }

  /** A day comes due on its own local date, or just after midnight when a late wall
      time was skipped. */
  lemma ResolvedDate(d: Daily, day: int, u: int) returns (k: int)
    requires Resolves(d, day, u) && 0 <= MinuteOfDay(d) < DAY_MINUTES
    ensures 0 <= k <= GAP_SEARCH && d.zone.local(u) == WallTime(d, day) + k * MINUTE
    ensures k > 0 ==>
            d.policy.NextValid? && EndsGap(d.zone, WallTime(d, day), k) && FirstShowing(d.zone, d.zone.local(u), u)
    ensures DayOf(d.zone.local(u)) == if MinuteOfDay(d) + k < DAY_MINUTES then day else day + 1
  {
    var wall := WallTime(d, day);
    k := 0;
    if !Shows(d.zone, wall) {
      k :| EndsGap(d.zone, wall, k) && FirstShowing(d.zone, wall + k * MINUTE, u);
    }
  }

  /** Once the local date is past `day`, the day has already come due. */
  lemma PastDayIsDue(d: Daily, day: int, u: int, after: int)
    requires Regular(d) && 0 <= MinuteOfDay(d) < DAY_MINUTES
    requires Resolves(d, day, u) && DayOf(d.zone.local(after)) > day
    ensures u <= after
  {
    var k := ResolvedDate(d, day, u);
    if after < u {
      assert DatesInOrder(d.zone, after, u);
      PastMidnight(d, day, u, k, after);
    }
  }

  /** The same when the skipped wall time was resolved past midnight: every earlier
      instant of the new date would show a minute that the search passed over. */
  lemma PastMidnight(d: Daily, day: int, u: int, k: int, after: int)
    requires WholeMinuteOffsets(d.zone) && SetBackRepeats(d.zone) && 0 <= MinuteOfDay(d) < DAY_MINUTES
    requires EndsGap(d.zone, WallTime(d, day), k) && FirstShowing(d.zone, WallTime(d, day) + k * MINUTE, u)
    requires DayOf(d.zone.local(after)) == day + 1
    ensures u <= after
  {
    var z := d.zone;
    assert RepeatsAt(z, after, u);
    assert WholeMinuteAt(z, after);
    var shown := z.local(after - after % MINUTE);
    MinuteSteps(d, day, shown, z.local(after));
    assert Shows(z, WallTime(d, day) + (shown - WallTime(d, day)) / MINUTE * MINUTE);
  }

  lemma MinuteSteps(d: Daily, day: int, shown: int, wall: int)
    requires shown % MINUTE == 0 && shown <= wall < shown + MINUTE
    requires 0 <= MinuteOfDay(d) < DAY_MINUTES && DayOf(wall) == day + 1
    ensures var j := (shown - WallTime(d, day)) / MINUTE;
            1 <= j && shown == WallTime(d, day) + j * MINUTE
  {
    assert (day + 1) * DAY <= wall;
    assert DAY == DAY_MINUTES * MINUTE;
    var q := shown / MINUTE;
    assert shown == q * MINUTE;
    assert WallTime(d, day) == (day * DAY_MINUTES + MinuteOfDay(d)) * MINUTE;
    assert shown - WallTime(d, day) == (q - (day * DAY_MINUTES + MinuteOfDay(d))) * MINUTE;
    assert (day + 1) * DAY_MINUTES * MINUTE <= q * MINUTE + (MINUTE - 1);
    assert (day + 1) * DAY_MINUTES <= q;
  }

  lemma DaysInOrder(d: Daily, day: int, u: int, later: int, v: int)
    requires Regular(d) && 0 <= MinuteOfDay(d) < DAY_MINUTES
    requires day < later && Resolves(d, day, u) && Resolves(d, later, v)
    ensures u < v
  {
    var k := ResolvedDate(d, day, u);
    var l := ResolvedDate(d, later, v);
    PastDayIsDue(d, day, u, v);
    assert day * DAY + DAY <= later * DAY;
  }

  // ----- The next occurrence -----

  /** `r` answers "when is the schedule next due strictly after this instant?" */
  ghost predicate IsNext(spec: Spec, after: int, r: Option<int>) {
    match r
    case None => forall u :: Occurrence(spec, u) ==> u <= after
    case Some(n) => Occurrence(spec, n) && after < n && forall u :: Occurrence(spec, u) && after < u ==> n <= u
  }

  method NextOccurrence(spec: Spec, after: int) returns (r: Result<Option<int>, Error>)
    requires Usable(spec)
    ensures r.Ok? ==> IsNext(spec, after, r.value)
    ensures r.Err? <==> spec.kind.DailyLocal? && NoneDueWithinAYear(spec, after)
  {
    var first := spec.first;
    match spec.kind
    case Once =>
      return Ok(if first > after then Some(first) else None);
    case Interval(seconds) =>
      var elapsed := (after - first) / SECOND;
      NextTerm(spec, after);
      return Ok(Some(if after < first then first else Term(first, seconds, elapsed / seconds + 1)));
    case DailyLocal(d) =>
      r := NextDaily(spec, after);
  }

  method NextDaily(spec: Spec, after: int) returns (r: Result<Option<int>, Error>)
    requires Usable(spec) && spec.kind.DailyLocal?
    ensures r.Ok? ==> r.value.Some? && IsNext(spec, after, r.value)
    ensures r.Err? <==> NoneDueWithinAYear(spec, after)
  {
    var d := spec.kind.daily;
    var today := DayOf(d.zone.local(after));
    for offset := 0 to SEARCH_DAYS
      invariant NoneDue(spec, today, offset, after)
    {
      var candidate := ResolveLocal(d, today + offset);
      DayDecided(spec, after, offset, candidate);
      if candidate.Some? && candidate.value >= spec.first && candidate.value > after {
        return Ok(candidate);
      }
    }
    return Err(NoOccurrenceWithinAYear);
  }

  /** None of `days` local days from `today` on comes due late enough. */
  ghost predicate NoneDue(spec: Spec, today: int, days: int, after: int)
    requires spec.kind.DailyLocal?
  {
    forall day, u :: today <= day < today + days && Resolves(spec.kind.daily, day, u) ==> u <= after || u < spec.first
  }

  ghost predicate NoneDueWithinAYear(spec: Spec, after: int)
    requires spec.kind.DailyLocal?
  {
    NoneDue(spec, DayOf(spec.kind.daily.zone.local(after)), SEARCH_DAYS, after)
  }

  /** A schedule that does come due again is reported as having no occurrence exactly when
      its next one belongs to a local day 370 or more days ahead. */
  lemma NotFoundIffAYearAhead(spec: Spec, after: int, day: int, next: int)
    requires Usable(spec) && spec.kind.DailyLocal?
    requires IsNext(spec, after, Some(next)) && Resolves(spec.kind.daily, day, next)
    ensures NoneDueWithinAYear(spec, after) <==> day >= DayOf(spec.kind.daily.zone.local(after)) + 370
  {
    var d := spec.kind.daily;
    var today := DayOf(d.zone.local(after));
    if day < today {
      PastDayIsDue(d, day, next, after);
    }
    if day >= today + SEARCH_DAYS {
      forall earlier, u | today <= earlier < today + SEARCH_DAYS && Resolves(d, earlier, u)
        ensures u <= after || u < spec.first
      {
        DaysInOrder(d, earlier, u, day, next);
        assert u >= spec.first ==> Occurrence(spec, u);
      }
    }
  }

  /** So a first due time more than 370 local days ahead is not found, although it comes. */
  lemma FarFirstIsNotFound(spec: Spec, after: int, day: int)
    requires Usable(spec) && spec.kind.DailyLocal?
    requires var d := spec.kind.daily;
             && DayOf(d.zone.local(spec.first)) > DayOf(d.zone.local(after)) + 370
             && Resolves(d, day, spec.first)
    ensures NoneDueWithinAYear(spec, after) && IsNext(spec, after, Some(spec.first))
  {
    var d := spec.kind.daily;
    assert DatesInOrder(d.zone, spec.first, after);
    var k := ResolvedDate(d, day, spec.first);
    NotFoundIffAYearAhead(spec, after, day, spec.first);
  }

  /** One more day looked at: it either answers the question or can be passed over. */
  lemma DayDecided(spec: Spec, after: int, offset: int, candidate: Option<int>)
    requires Usable(spec) && spec.kind.DailyLocal? && 0 <= offset
    requires NoneDue(spec, DayOf(spec.kind.daily.zone.local(after)), offset, after)
    requires var d := spec.kind.daily;
             var day := DayOf(d.zone.local(after)) + offset;
             match candidate
             case Some(n) => Resolves(d, day, n)
             case None => forall u :: !Resolves(d, day, u)
    ensures if candidate.Some? && candidate.value >= spec.first && candidate.value > after
            then IsNext(spec, after, candidate)
            else NoneDue(spec, DayOf(spec.kind.daily.zone.local(after)), offset + 1, after)
  {
    var d := spec.kind.daily;
    var today := DayOf(d.zone.local(after));
    if candidate.Some? {
      forall day, u | Resolves(d, day, u)
        ensures day == today + offset ==> u == candidate.value
        ensures day < today ==> u <= after
        ensures day > today + offset ==> candidate.value < u
      {
        Around(d, day, u, today, offset, candidate.value, after);
      }
    }
  }

  lemma Around(d: Daily, day: int, u: int, today: int, offset: int, n: int, after: int)
    requires Regular(d) && 0 <= MinuteOfDay(d) < DAY_MINUTES && today == DayOf(d.zone.local(after))
    requires Resolves(d, day, u) && Resolves(d, today + offset, n)
    ensures day == today + offset ==> u == n
    ensures day < today ==> u <= after
    ensures day > today + offset ==> n < u
  {
    if day < today {
      PastDayIsDue(d, day, u, after);
    }
    if day == today + offset {
      ResolvedOnce(d, day, u, n);
    } else if day > today + offset {
      DaysInOrder(d, today + offset, n, day, u);
    }
  }

  lemma TermsAscend(first: int, seconds: int)
    requires seconds >= 1
    ensures forall j, k :: j < k ==> Term(first, seconds, j) + seconds * SECOND <= Term(first, seconds, k)
  {
    var step := seconds * SECOND;
    forall j, k | j < k ensures Term(first, seconds, j) + step <= Term(first, seconds, k) {
      assert (k - j) * step == step + (k - j - 1) * step;
      assert (k - j - 1) * step >= 0;
    }
  }

  /** Dropping the fraction of a second before dividing never moves the term found. */
  lemma TermAtOrBefore(first: int, seconds: int, now: int)
    requires seconds >= 1 && first <= now
    ensures 0 <= (now - first) / SECOND / seconds
    ensures forall j :: j <= (now - first) / SECOND / seconds <==> Term(first, seconds, j) <= now
  {
    var e := (now - first) / SECOND;
    var k := e / seconds;
    assert k * seconds <= e < k * seconds + seconds;
    assert Term(first, seconds, k) == first + (k * seconds) * SECOND;
    assert Term(first, seconds, k + 1) == first + (k * seconds + seconds) * SECOND;
    TermsAscend(first, seconds);
  }

  lemma NextTerm(spec: Spec, after: int)
    requires spec.kind.Interval? && spec.kind.seconds >= 1
    ensures var seconds := spec.kind.seconds;
            IsNext(spec, after, Some(if after < spec.first then spec.first
                                     else Term(spec.first, seconds, (after - spec.first) / SECOND / seconds + 1)))
  {
    var first, seconds := spec.first, spec.kind.seconds;
    TermsAscend(first, seconds);
    if after < first {
      assert first == Term(first, seconds, 0);
    } else {
      TermAtOrBefore(first, seconds, after);
    }
  }

  // ----- The missed occurrences -----

  ghost predicate Ascending(s: seq<int>) {
    forall i, j :: 0 <= i < j < |s| ==> s[i] < s[j]
  }

  /** The first local day looked at: ten days back, but not before the first one due. */
  function WindowStart(spec: Spec, now: int): int
    requires spec.kind.DailyLocal?
  {
    var z := spec.kind.daily.zone;
    Max(DayOf(z.local(spec.first)), DayOf(z.local(now)) - CATCH_UP_LIMIT)
  }

  /** A daily occurrence comes from a day in the window; the other kinds have no window. */
  ghost predicate InWindow(spec: Spec, now: int, u: int) {
    spec.kind.DailyLocal? ==>
      exists day :: WindowStart(spec, now) <= day && Resolves(spec.kind.daily, day, u)
  }

  ghost predicate Missed(spec: Spec, now: int, u: int) {
    Occurrence(spec, u) && u <= now
  }

  /** `due` is the last ten of the missed occurrences in the window, oldest first, and
      every missed occurrence that is left out is older than all of it. */
  ghost predicate IsDue(spec: Spec, now: int, due: seq<int>) {
    && Ascending(due) && |due| <= CATCH_UP_LIMIT
    && (forall u :: u in due ==> Missed(spec, now, u) && InWindow(spec, now, u))
    && (forall u :: Missed(spec, now, u) && u !in due ==>
          (InWindow(spec, now, u) ==> |due| == CATCH_UP_LIMIT) && forall v :: v in due ==> u < v)
  }

  method AllDue(spec: Spec, now: int) returns (due: seq<int>)
    requires Usable(spec)
    ensures IsDue(spec, now, due)
  {
    var first := spec.first;
    if first > now {
      NoneBeforeFirst(spec);
      return [];
    }
    match spec.kind
    case Once =>
      return [first];
    case Interval(seconds) =>
      var elapsed := (now - first) / SECOND;
      var count := elapsed / seconds + 1;
      var start := Max(0, count - CATCH_UP_LIMIT);
      TermAtOrBefore(first, seconds, now);
      due := seq(count - start, i => Term(first, seconds, start + i));
      LastTermsDue(spec, now, count, start, due);
    case DailyLocal(_) =>
      due := DailyDue(spec, now);
  }

  lemma NoneBeforeFirst(spec: Spec)
    requires Constructed(spec)
    ensures forall u :: Occurrence(spec, u) ==> spec.first <= u
  {
    if spec.kind.Interval? {
      TermsAscend(spec.first, spec.kind.seconds);
      assert spec.first == Term(spec.first, spec.kind.seconds, 0);
    }
  }

  lemma LastTermsDue(spec: Spec, now: int, count: int, start: int, due: seq<int>)
    requires spec.kind.Interval? && spec.kind.seconds >= 1 && spec.first <= now
    requires count == (now - spec.first) / SECOND / spec.kind.seconds + 1 && start == Max(0, count - CATCH_UP_LIMIT)
    requires 0 <= start < count && |due| == count - start
    requires forall i :: 0 <= i < |due| ==> due[i] == Term(spec.first, spec.kind.seconds, start + i)
    ensures IsDue(spec, now, due)
  {
    var first, seconds := spec.first, spec.kind.seconds;
    TermsAscend(first, seconds);
    TermAtOrBefore(first, seconds, now);
    forall k | start <= k < count ensures Term(first, seconds, k) in due {
      assert due[k - start] == Term(first, seconds, k);
    }
    forall u | Missed(spec, now, u) && u !in due
      ensures |due| == CATCH_UP_LIMIT && forall v :: v in due ==> u < v
    {
      var k :| 0 <= k && u == Term(first, seconds, k);
    }
  }

  /** What the window's days from `lo` up to `hi` contribute. */
  ghost predicate Collected(spec: Spec, now: int, lo: int, hi: int, values: seq<int>)
    requires spec.kind.DailyLocal?
  {
    var d := spec.kind.daily;
    && Ascending(values)
    && (forall u :: u in values ==> spec.first <= u <= now && exists day :: lo <= day < hi && Resolves(d, day, u))
    && (forall day, u :: lo <= day < hi && Resolves(d, day, u) && spec.first <= u <= now ==> u in values)
  }

  method DailyDue(spec: Spec, now: int) returns (due: seq<int>)
    requires Usable(spec) && spec.kind.DailyLocal? && spec.first <= now
    ensures IsDue(spec, now, due)
  {
    var d, first := spec.kind.daily, spec.first;
    var firstDay := DayOf(d.zone.local(first));
    var lastDay := DayOf(d.zone.local(now));
    assert DatesInOrder(d.zone, first, now);
    var days := lastDay - firstDay;
    var start := Max(0, days - CATCH_UP_LIMIT);
    var values: seq<int> := [];
    for offset := start to days + 1
      invariant Collected(spec, now, firstDay + start, firstDay + offset, values)
    {
      var occurrence := ResolveLocal(d, firstDay + offset);
      var more := if occurrence.Some? && first <= occurrence.value <= now then values + [occurrence.value] else values;
      CollectDay(spec, now, firstDay + start, firstDay + offset, values, occurrence, more);
      values := more;
    }
    due := LastTen(values);
    WindowIsDue(spec, now, values, due);
  }

  function LastTen(s: seq<int>): seq<int> {
    if |s| <= CATCH_UP_LIMIT then s else s[|s| - CATCH_UP_LIMIT..]
  }

  lemma LastTenIsSuffix(s: seq<int>)
    requires Ascending(s)
    ensures Ascending(LastTen(s)) && forall u :: u in LastTen(s) ==> u in s
    ensures forall u :: u in s && u !in LastTen(s) ==>
            |LastTen(s)| == CATCH_UP_LIMIT && forall v :: v in LastTen(s) ==> u < v
  {
    var kept := |s| - |LastTen(s)|;
    forall i | kept <= i < |s| ensures s[i] in LastTen(s) {
      assert LastTen(s)[i - kept] == s[i];
    }
    forall u | u in s && u !in LastTen(s)
      ensures |LastTen(s)| == CATCH_UP_LIMIT && forall v :: v in LastTen(s) ==> u < v
    {
      var i :| 0 <= i < |s| && s[i] == u;
    }
  }

  lemma CollectDay(spec: Spec, now: int, lo: int, day: int, values: seq<int>, r: Option<int>, more: seq<int>)
    requires Usable(spec) && spec.kind.DailyLocal? && lo <= day && Collected(spec, now, lo, day, values)
    requires match r
             case Some(n) => Resolves(spec.kind.daily, day, n)
             case None => forall u :: !Resolves(spec.kind.daily, day, u)
    requires more == if r.Some? && spec.first <= r.value <= now then values + [r.value] else values
    ensures Collected(spec, now, lo, day + 1, more)
  {
    var d := spec.kind.daily;
    if r.Some? {
      forall u | Resolves(d, day, u) ensures u == r.value {
        ResolvedOnce(d, day, u, r.value);
      }
      forall i | 0 <= i < |values| ensures values[i] < r.value {
        assert values[i] in values;
        var earlier :| lo <= earlier < day && Resolves(d, earlier, values[i]);
        DaysInOrder(d, earlier, values[i], day, r.value);
      }
    }
    forall u | u in more ensures exists e :: lo <= e < day + 1 && Resolves(d, e, u) {
      if u in values {
        var e :| lo <= e < day && Resolves(d, e, u);
      }
    }
  }

  lemma WindowIsDue(spec: Spec, now: int, values: seq<int>, due: seq<int>)
    requires Usable(spec) && spec.kind.DailyLocal? && spec.first <= now && due == LastTen(values)
    requires Collected(spec, now, WindowStart(spec, now), DayOf(spec.kind.daily.zone.local(now)) + 1, values)
    ensures IsDue(spec, now, due)
  {
    var d := spec.kind.daily;
    var lo, today := WindowStart(spec, now), DayOf(d.zone.local(now));
    forall day, u | Resolves(d, day, u) && spec.first <= u <= now && u !in values
      ensures day < lo && forall v :: v in values ==> u < v
    {
      var k := ResolvedDate(d, day, u);
      assert DatesInOrder(d.zone, u, now);
      forall v | v in values ensures u < v {
        var e :| lo <= e < today + 1 && Resolves(d, e, v);
        DaysInOrder(d, day, u, e, v);
      }
    }
    LastTenIsSuffix(values);
    forall u | u in due ensures Missed(spec, now, u) && InWindow(spec, now, u) {
      assert u in values;
    }
  }

  method DueOccurrences(spec: Spec, now: int) returns (r: seq<int>)
    requires Usable(spec)
    ensures spec.misfire.SkipMissed? ==> r == []
    ensures spec.misfire.FireOnce? ==> r == if NothingDue(spec, now) then [] else [now]
    ensures spec.misfire.CatchUp? ==> IsDue(spec, now, r)
  {
    var due := AllDue(spec, now);
    if due == [] || spec.misfire.SkipMissed? {
      return [];
    }
    assert Missed(spec, now, due[0]) && InWindow(spec, now, due[0]);
    if spec.misfire.FireOnce? {
      return [now];
    }
    return LastTen(due);
  }

  ghost predicate NothingDue(spec: Spec, now: int) {
    forall u :: Missed(spec, now, u) ==> !InWindow(spec, now, u)
  }

  // ----- Catching up and looking ahead fit together -----

  /** Nothing comes due between the last missed occurrence and the next one. */
  lemma NothingInBetween(spec: Spec, now: int, due: seq<int>, next: Option<int>)
    requires IsDue(spec, now, due) && IsNext(spec, now, next) && due != []
    ensures next.Some? ==> Ascending(due + [next.value])
    ensures forall u :: Occurrence(spec, u) && due[|due| - 1] < u ==> next.Some? && next.value <= u
  {
    assert due[|due| - 1] in due;
    forall u | Occurrence(spec, u) && due[|due| - 1] < u ensures next.Some? && next.value <= u {
      assert u !in due;
      assert !Missed(spec, now, u);
    }
  }

  // ----- Asking again and again -----

  /** Each instant is the next occurrence after the one before it, the first after `after`. */
  ghost predicate Iterated(spec: Spec, after: int, s: seq<int>)
    decreases |s|
  {
    s != [] ==>
      var before := s[..|s| - 1];
      Iterated(spec, after, before) && IsNext(spec, Last(after, before), Some(s[|s| - 1]))
  }

  function Last(after: int, s: seq<int>): int {
    if s == [] then after else s[|s| - 1]
  }

  /** Every occurrence after `after` and up to `upto`, once and in order. */
  ghost predicate Enumerates(spec: Spec, after: int, upto: int, s: seq<int>) {
    after <= upto && Ascending(s) && forall u :: u in s <==> Occurrence(spec, u) && after < u <= upto
  }

  /** Iterating `NextOccurrence` lists every occurrence once, in order, whatever the kind. */
  lemma {:induction false} IterationEnumerates(spec: Spec, after: int, s: seq<int>)
    requires Iterated(spec, after, s)
    ensures Enumerates(spec, after, Last(after, s), s)
    decreases |s|
  {
    if s != [] {
      var before := s[..|s| - 1];
      IterationEnumerates(spec, after, before);
      OneMoreEnumerated(spec, after, Last(after, before), before, s[|s| - 1]);
      assert s == before + [s[|s| - 1]];
    }
  }

  lemma OneMoreEnumerated(spec: Spec, after: int, upto: int, s: seq<int>, next: int)
    requires Enumerates(spec, after, upto, s) && IsNext(spec, upto, Some(next))
    ensures Enumerates(spec, after, next, s + [next])
  {
    forall i | 0 <= i < |s| ensures s[i] < next {
      assert s[i] in s;
    }
  }

  /** For an interval schedule these are its terms, one by one. */
  lemma {:induction false} IterationGivesTheTerms(spec: Spec, after: int, s: seq<int>)
    requires spec.kind.Interval? && spec.kind.seconds >= 1 && Iterated(spec, after, s)
    ensures var k := TermIndex(spec.first, spec.kind.seconds, after);
            && (after < spec.first ==> k == -1)
            && forall i :: 0 <= i < |s| ==> s[i] == Term(spec.first, spec.kind.seconds, k + 1 + i)
    decreases |s|
  {
    if s != [] {
      var before := s[..|s| - 1];
      IterationGivesTheTerms(spec, after, before);
      NextIsTheNextTerm(spec, Last(after, before), s[|s| - 1]);
      IndexCounts(spec, after);
      TermHasItsIndex(spec, TermIndex(spec.first, spec.kind.seconds, after) + |before|);
      assert forall i :: 0 <= i < |before| ==> s[i] == before[i];
    }
  }

  lemma NextIsTheNextTerm(spec: Spec, after: int, next: int)
    requires spec.kind.Interval? && spec.kind.seconds >= 1 && IsNext(spec, after, Some(next))
    ensures next == Term(spec.first, spec.kind.seconds, TermIndex(spec.first, spec.kind.seconds, after) + 1)
  {
    NextTerm(spec, after);
    assert spec.first == Term(spec.first, spec.kind.seconds, 0);
  }

  lemma TermHasItsIndex(spec: Spec, k: int)
    requires spec.kind.Interval? && spec.kind.seconds >= 1
    ensures k >= 0 ==> TermIndex(spec.first, spec.kind.seconds, Term(spec.first, spec.kind.seconds, k)) == k
  {
    var t := Term(spec.first, spec.kind.seconds, k);
    TermsAscend(spec.first, spec.kind.seconds);
    IndexCounts(spec, t);
  }

  /** The window of a daily schedule is today and the ten local days before it, from the
      first day on. */
  lemma WindowIsElevenDays(spec: Spec, now: int, u: int)
    requires spec.kind.DailyLocal?
    ensures var z := spec.kind.daily.zone;
            InWindow(spec, now, u) <==>
              exists day :: && z.local(spec.first) / 86_400_000_000 <= day && z.local(now) / 86_400_000_000 - 10 <= day
                            && Resolves(spec.kind.daily, day, u)
  {
  }

  function TermIndex(first: int, seconds: int, now: int): int
    requires seconds >= 1
  {
    if now < first then -1 else (now - first) / SECOND / seconds
  }

  /** For an interval schedule: exactly the last min(10, n) terms of the progression, the
      last of which is one interval before the next occurrence. */
  lemma {:induction false} DueAreLastTerms(spec: Spec, now: int, due: seq<int>)
    requires spec.kind.Interval? && spec.kind.seconds >= 1 && IsDue(spec, now, due)
    ensures var n := TermIndex(spec.first, spec.kind.seconds, now) + 1;
            && |due| == (if n < 10 then n else 10)
            && (forall i :: 0 <= i < |due| ==> due[i] == Term(spec.first, spec.kind.seconds, n - |due| + i))
            && IsNext(spec, now, Some(Term(spec.first, spec.kind.seconds, n)))
  {
    NextTerm(spec, now);
    assert spec.first == Term(spec.first, spec.kind.seconds, 0);
    DueCount(spec, now, due);
    forall i | 0 <= i < |due|
      ensures due[i]
              == Term(spec.first, spec.kind.seconds, TermIndex(spec.first, spec.kind.seconds, now) + 1 - |due| + i)
    {
      FromTheEnd(spec, now, due, |due| - 1 - i);
    }
  }

  lemma DueCount(spec: Spec, now: int, due: seq<int>)
    requires spec.kind.Interval? && spec.kind.seconds >= 1 && IsDue(spec, now, due)
    ensures var n := TermIndex(spec.first, spec.kind.seconds, now) + 1;
            |due| == if n < CATCH_UP_LIMIT then n else CATCH_UP_LIMIT
  {
    var first, seconds := spec.first, spec.kind.seconds;
    var n := TermIndex(first, seconds, now) + 1;
    IndexCounts(spec, now);
    if due != [] {
      FromTheEnd(spec, now, due, |due| - 1);
    }
    if |due| < n {
      TermsAscend(first, seconds);
      var t := Term(first, seconds, n - 1 - |due|);
      assert Missed(spec, now, t);
      assert forall v :: v in due ==> due[0] <= v;
    }
  }

  /** Counted from the end, the due instants are the terms counted from the last one. */
  lemma {:induction false} FromTheEnd(spec: Spec, now: int, due: seq<int>, i: nat)
    requires spec.kind.Interval? && spec.kind.seconds >= 1 && IsDue(spec, now, due) && i < |due|
    ensures var n := TermIndex(spec.first, spec.kind.seconds, now) + 1;
            i < n && due[|due| - 1 - i] == Term(spec.first, spec.kind.seconds, n - 1 - i)
  {
    var first, seconds := spec.first, spec.kind.seconds;
    var n := TermIndex(first, seconds, now) + 1;
    if i > 0 {
      FromTheEnd(spec, now, due, i - 1);
    }
    OneFurther(spec, now, due, n, i);
  }

  lemma OneFurther(spec: Spec, now: int, due: seq<int>, n: int, i: nat)
    requires spec.kind.Interval? && spec.kind.seconds >= 1 && IsDue(spec, now, due)
    requires n == TermIndex(spec.first, spec.kind.seconds, now) + 1 && i < |due|
    requires i > 0 ==> i <= n && due[|due| - i] == Term(spec.first, spec.kind.seconds, n - i)
    ensures i < n && due[|due| - 1 - i] == Term(spec.first, spec.kind.seconds, n - 1 - i)
  {
    var first, seconds := spec.first, spec.kind.seconds;
    var v := due[|due| - 1 - i];
    IndexCounts(spec, now);
    TermsAscend(first, seconds);
    assert v in due && Missed(spec, now, v);
    var k :| 0 <= k && v == Term(first, seconds, k);
    assert k <= n - 1 - i;
    var t := Term(first, seconds, n - 1 - i);
    assert t <= now && Missed(spec, now, t);
    var at :| 0 <= at < |due| && due[at] == t;
  }

  /** An interval schedule polled at `last` and again at `now` catches up on everything in
      between exactly when at most ten terms came due. */
  lemma CatchUpIsCompleteIffAtMostTen(spec: Spec, last: int, now: int, due: seq<int>)
    requires spec.kind.Interval? && spec.kind.seconds >= 1 && last <= now && IsDue(spec, now, due)
    ensures (forall u :: Occurrence(spec, u) && last < u <= now ==> u in due)
            <==> TermIndex(spec.first, spec.kind.seconds, now)
                 <= TermIndex(spec.first, spec.kind.seconds, last) + 10
  {
    var first, seconds := spec.first, spec.kind.seconds;
    var k, n := TermIndex(first, seconds, last), TermIndex(first, seconds, now);
    DueAreLastTerms(spec, now, due);
    TermsAscend(first, seconds);
    IndexCounts(spec, last);
    IndexCounts(spec, now);
    if n - k > CATCH_UP_LIMIT {
      var u := Term(first, seconds, k + 1);
      assert Occurrence(spec, u) && last < u <= now && u !in due;
    } else {
      forall u | Occurrence(spec, u) && last < u <= now ensures u in due {
        var j :| 0 <= j && u == Term(first, seconds, j);
        assert due[j - (n + 1 - |due|)] == u;
      }
    }
  }

  lemma IndexCounts(spec: Spec, now: int)
    requires spec.kind.Interval? && spec.kind.seconds >= 1
    ensures TermIndex(spec.first, spec.kind.seconds, now) >= -1
    ensures forall j :: 0 <= j ==>
            (j <= TermIndex(spec.first, spec.kind.seconds, now) <==> Term(spec.first, spec.kind.seconds, j) <= now)
  {
    if now < spec.first {
      TermsAscend(spec.first, spec.kind.seconds);
      assert Term(spec.first, spec.kind.seconds, 0) == spec.first;
    } else {
      TermAtOrBefore(spec.first, spec.kind.seconds, now);
    }
  }

  // ----- A zone whose clock springs forward -----

  /** UTC, except that the clock jumps ahead by `minutes` at the instant `at`. A skipped
      wall time is looked up as zoneinfo does, with the offset before the jump. */
  function SpringForward(at: int, minutes: int): Zone {
    Zone(u => if u < at then u else u + minutes * MINUTE,
         (wall, fold) => if wall < at + minutes * MINUTE then wall else wall - minutes * MINUTE)
  }

  lemma SpringForwardIsRegular(d: Daily, at: int, minutes: int)
    requires at % MINUTE == 0 && 0 < minutes && d.zone == SpringForward(at, minutes)
    ensures Regular(d)
  {
    var z := d.zone;
    forall u ensures FoldsAt(z, u) && WholeMinuteAt(z, u) {
      MinuteMultiple(minutes, u);
      assert u < at <==> u - u % MINUTE < at;
    }
    forall u, v ensures DatesInOrder(z, u, v) && RepeatsAt(z, u, v) {
    }
  }

  lemma MinuteMultiple(minutes: int, u: int)
    ensures (u - u % MINUTE + minutes * MINUTE) % MINUTE == 0
  {
    assert u - u % MINUTE + minutes * MINUTE == (u / MINUTE + minutes) * MINUTE;
  }

  /** Every schedule its constructors let through is usable in such a zone. */
  lemma EveryScheduleIsUsable(spec: Spec, at: int, minutes: int)
    requires spec.kind.Interval? ==> spec.kind.seconds > 0
    requires spec.kind.DailyLocal? ==>
               var d := spec.kind.daily;
               && 0 <= d.hour < 24 && 0 <= d.minute < 60
               && at % MINUTE == 0 && 0 < minutes && d.zone == SpringForward(at, minutes)
    ensures Usable(spec)
  {
    if spec.kind.DailyLocal? {
      SpringForwardIsRegular(spec.kind.daily, at, minutes);
    }
  }

  /** A daily time inside the gap comes due at the jump itself under NEXT_VALID, provided the
      gap ends within 180 minutes, and not at all otherwise. */
  lemma SkippedTimeResolution(d: Daily, day: int, wall: int, at: int, minutes: int, u: int)
    requires at % MINUTE == 0 && 0 < minutes && d.zone == SpringForward(at, minutes)
    requires wall == ((day * 24 + d.hour) * 60 + d.minute) * 60_000_000 && at <= wall < at + minutes * 60_000_000
    ensures Resolves(d, day, u) <==>
              d.policy.NextValid? && at + minutes * 60_000_000 - wall <= 180 * 60_000_000 && u == at
  {
    var z, over := d.zone, at + minutes * MINUTE;
    assert wall == WallTime(d, day);
    var k := (over - wall) / MINUTE;
    assert over == wall + k * MINUTE && k >= 1 by {
      assert wall == (day * DAY_MINUTES + MinuteOfDay(d)) * MINUTE;
      assert at == at / MINUTE * MINUTE;
      assert over - wall == (at / MINUTE + minutes - (day * DAY_MINUTES + MinuteOfDay(d))) * MINUTE;
    }
    GapEnds(z, at, minutes, wall, k, u);
    assert k <= 180 <==> over - wall <= 180 * 60_000_000;
    assert k <= 180 ==> EndsGap(z, wall, k);
  }

  lemma GapEnds(z: Zone, at: int, minutes: int, wall: int, k: int, u: int)
    requires 0 < minutes && z == SpringForward(at, minutes) && at <= wall < at + minutes * MINUTE
    requires k >= 1 && at + minutes * MINUTE == wall + k * MINUTE
    ensures !Shows(z, wall)
    ensures forall j :: EndsGap(z, wall, j) <==> j == k <= 180
    ensures FirstShowing(z, wall + k * MINUTE, u) <==> u == at
  {
    var over := at + minutes * MINUTE;
    assert z.local(at) == over;
    assert Shows(z, wall + k * MINUTE);
    assert forall w :: at <= w < over ==> !Shows(z, w);
    forall j | 1 <= j < k ensures !Shows(z, wall + j * MINUTE) {
      assert wall + j * MINUTE < over;
    }
  }
}
