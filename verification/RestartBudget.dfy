/**
 How many restarts a supervisor grants (src/Supervision.ts, `RestartBudget`): a list of grant
 times that every request prunes, against counting over the whole history of grants.
 */
module RestartBudgets {

  /** The two fields of a strategy the budget reads. */
  datatype Allowance = Allowance(maxRetries: int, withinTimeRangeMs: int)

  function Snoc(times: seq<int>, t: int, keep: bool): seq<int> {
    if keep then times + [t] else times
  }

  /** The times not below `threshold`, in order. */
  function Recent(times: seq<int>, threshold: int): (r: seq<int>)
  {
    if times == [] then []
    else
      var n := |times| - 1;
      Snoc(Recent(times[..n], threshold), times[n], times[n] >= threshold)
  }

  /** What a request at `now` looks at. */
  function Kept(a: Allowance, times: seq<int>, now: int): (r: seq<int>)
  {
    if a.withinTimeRangeMs > 0 then Recent(times, now - a.withinTimeRangeMs) else times
  }

  predicate Grants(a: Allowance, times: seq<int>, now: int) {
    a.maxRetries < 0 || |Kept(a, times, now)| < a.maxRetries
  }

  /** The list after a request at `now`. */
  function Registered(a: Allowance, times: seq<int>, now: int): seq<int> {
    if a.maxRetries < 0 then times
    else if Grants(a, times, now) then Kept(a, times, now) + [now]
    else Kept(a, times, now)
  }

  /** The list after requests at the readings of `clock`. */
  function Stored(a: Allowance, clock: seq<int>): seq<int> {
    if clock == [] then [] else Registered(a, Stored(a, clock[..|clock| - 1]), clock[|clock| - 1])
  }

  /** When the budget granted, over the same requests. */
  function Granted(a: Allowance, clock: seq<int>): seq<int> {
    if clock == [] then []
    else
      var init, now := clock[..|clock| - 1], clock[|clock| - 1];
      Snoc(Granted(a, init), now, Grants(a, Stored(a, init), now))
  }

  /** When a budget that forgets nothing would grant. */
  function Ideal(a: Allowance, clock: seq<int>): seq<int> {
    if clock == [] then []
    else
      var init, now := clock[..|clock| - 1], clock[|clock| - 1];
      Snoc(Ideal(a, init), now, Grants(a, Ideal(a, init), now))
  }

  predicate Nondecreasing(clock: seq<int>) {
    forall i, j :: 0 <= i < j < |clock| ==> clock[i] <= clock[j]
  }

  /** Does a grant at `early`, pruned by a request at `late`, belong to the window of a request at `now`? */
  predicate Returns(window: int, early: int, late: int, now: int) {
    now - window <= early < late - window
  }

  /** Once a reading has left a grant's window behind, no later reading comes back into it. */
  predicate NoReturn(window: int, clock: seq<int>) {
    forall g, i, j :: 0 <= g < i < j < |clock| ==> !Returns(window, clock[g], clock[i], clock[j])
  }

  lemma NondecreasingNeverReturns(window: int, clock: seq<int>)
    requires Nondecreasing(clock)
    ensures NoReturn(window, clock)
  {
  }

  // ---- Filtering ----

  function Max(x: int, y: int): int { if x < y then y else x }

  lemma RecentSnoc(times: seq<int>, t: int, threshold: int)
    ensures Recent(times + [t], threshold) == Snoc(Recent(times, threshold), t, t >= threshold)
  {
    assert (times + [t])[..|times|] == times;
  }

  lemma {:induction false} RecentTwice(times: seq<int>, x: int, y: int)
    ensures Recent(Recent(times, x), y) == Recent(times, Max(x, y))
  {
    if times == [] {
    } else {
      var n := |times| - 1;
      RecentTwice(times[..n], x, y);
      RecentSnoc(Recent(times[..n], x), times[n], y);
    }
  }

  /** A higher threshold keeps no more, and fewer when it drops one of the times. */
  lemma {:induction false} RecentFewer(times: seq<int>, low: int, high: int)
    requires low <= high
    ensures |Recent(times, high)| <= |Recent(times, low)|
    ensures (exists t :: t in times && low <= t < high) ==> |Recent(times, high)| < |Recent(times, low)|
  {
    if times == [] {
    } else {
      var n := |times| - 1;
      RecentFewer(times[..n], low, high);
      assert times == times[..n] + [times[n]];
    }
  }

  lemma {:induction false} RecentSame(times: seq<int>, low: int, high: int)
    requires low <= high && forall k :: 0 <= k < |times| ==> times[k] < low || high <= times[k]
    ensures Recent(times, high) == Recent(times, low)
  {
    if times == [] {
    } else {
      var n := |times| - 1;
      RecentSame(times[..n], low, high);
    }
  }

  lemma {:induction false} GrantedAmong(a: Allowance, clock: seq<int>)
    ensures forall t :: t in Granted(a, clock) ==> t in clock
    ensures |Granted(a, clock)| <= |clock|
  {
    if clock == [] {
    } else {
      GrantedAmong(a, clock[..|clock| - 1]);
    }
  }

  // ---- The pruned list against the history ----

  /** Two lists show the same from a threshold on. */
  ghost predicate Same(x: seq<int>, y: seq<int>, threshold: int) { Recent(x, threshold) == Recent(y, threshold) }

  /** One more request, on the list and on the history. */
  lemma OneMore(a: Allowance, clock: seq<int>, now: int)
    requires a.maxRetries >= 0
    ensures var stored := Stored(a, clock);
      && Stored(a, clock + [now]) == Snoc(Kept(a, stored, now), now, Grants(a, stored, now))
      && Granted(a, clock + [now]) == Snoc(Granted(a, clock), now, Grants(a, stored, now))
  {
    assert (clock + [now])[..|clock|] == clock;
  }

  /** A list pruned for `last` still shows what the history shows at `now`, where no grant returns. */
  lemma WindowStep(w: int, stored: seq<int>, granted: seq<int>, last: int, now: int, grants: bool)
    requires Recent(stored, now - w) == Recent(granted, now - w)
    requires Recent(stored, last - w) == Recent(granted, last - w)
    requires forall t :: t in granted ==> !Returns(w, t, last, now)
    ensures Recent(Snoc(Recent(stored, last - w), last, grants), now - w) == Recent(Snoc(granted, last, grants), now - w)
  {
    PrunedSame(w, stored, granted, last, now);
    SnocSame(Recent(stored, last - w), granted, last, grants, now - w);
  }

  lemma PrunedSame(w: int, stored: seq<int>, granted: seq<int>, last: int, now: int)
    requires Recent(stored, now - w) == Recent(granted, now - w)
    requires Recent(stored, last - w) == Recent(granted, last - w)
    requires forall t :: t in granted ==> !Returns(w, t, last, now)
    ensures Recent(Recent(stored, last - w), now - w) == Recent(granted, now - w)
  {
    RecentTwice(stored, last - w, now - w);
    WiderWindow(w, granted, last, now);
    assert Max(last - w, now - w) == Max(last, now) - w;
    if now < last {
      assert Max(last, now) == last;
    } else {
      assert Max(last, now) == now;
    }
  }

  lemma SnocSame(x: seq<int>, y: seq<int>, t: int, keep: bool, threshold: int)
    requires Recent(x, threshold) == Recent(y, threshold)
    ensures Recent(Snoc(x, t, keep), threshold) == Recent(Snoc(y, t, keep), threshold)
  {
    RecentSnoc(x, t, threshold);
    RecentSnoc(y, t, threshold);
  }

  lemma NoReturnFewer(window: int, clock: seq<int>, last: int, now: int)
    requires NoReturn(window, clock + [last] + [now])
    ensures NoReturn(window, clock + [now]) && NoReturn(window, clock + [last])
    ensures forall t :: t in clock ==> !Returns(window, t, last, now)
  {
    var all := clock + [last] + [now];
    forall g, i, j | 0 <= g < i < j < |clock| + 1
      ensures !Returns(window, (clock + [now])[g], (clock + [now])[i], (clock + [now])[j])
    {
      assert !Returns(window, all[g], all[i], all[if j == |clock| then j + 1 else j]);
    }
    forall g, i, j | 0 <= g < i < j < |clock| + 1
      ensures !Returns(window, (clock + [last])[g], (clock + [last])[i], (clock + [last])[j])
    {
      assert !Returns(window, all[g], all[i], all[j]);
    }
    forall t | t in clock ensures !Returns(window, t, last, now) {
      var g :| 0 <= g < |clock| && clock[g] == t;
      assert !Returns(window, all[g], all[|clock|], all[|clock| + 1]);
    }
  }

  /** With no grant in between, the later of two thresholds shows what the earlier one does. */
  lemma WiderWindow(w: int, granted: seq<int>, last: int, now: int)
    requires forall t :: t in granted ==> !Returns(w, t, last, now)
    ensures Recent(granted, Max(last, now) - w) == Recent(granted, now - w)
  {
    if now < last {
      forall k | 0 <= k < |granted| ensures granted[k] < now - w || last - w <= granted[k] {
        assert !Returns(w, granted[k], last, now);
      }
      RecentSame(granted, now - w, last - w);
    }
  }

  lemma ExactStep(a: Allowance, clock: seq<int>, last: int, now: int, w: int, stored: seq<int>, granted: seq<int>)
    requires a.maxRetries >= 0 && w == a.withinTimeRangeMs > 0
    requires stored == Stored(a, clock) && granted == Granted(a, clock)
    requires Same(stored, granted, now - w) && Same(stored, granted, last - w)
    requires forall t :: t in granted ==> !Returns(w, t, last, now)
    ensures Same(Stored(a, clock + [last]), Granted(a, clock + [last]), now - w)
  {
    var grants := Grants(a, stored, last);
    WindowStep(w, stored, granted, last, now, grants);
    assert Stored(a, clock + [last]) == Snoc(Recent(stored, last - w), last, grants) by { OneMore(a, clock, last); }
    assert Granted(a, clock + [last]) == Snoc(granted, last, grants) by { OneMore(a, clock, last); }
  }

  /** Where no reading returns, a request finds in the list exactly the grants of its window. */
  lemma {:induction false} ExactWithoutReturns(a: Allowance, clock: seq<int>, now: int)
    requires a.maxRetries >= 0 && a.withinTimeRangeMs > 0 && NoReturn(a.withinTimeRangeMs, clock + [now])
    ensures Same(Stored(a, clock), Granted(a, clock), now - a.withinTimeRangeMs)
    decreases |clock|
  {
    if clock == [] {
    } else {
      var init, last := clock[..|clock| - 1], clock[|clock| - 1];
      assert clock == init + [last];
      NoReturnFewer(a.withinTimeRangeMs, init, last, now);
      ExactWithoutReturns(a, init, now);
      ExactWithoutReturns(a, init, last);
      GrantedAmong(a, init);
      ExactStep(a, init, last, now, a.withinTimeRangeMs, Stored(a, init), Granted(a, init));
    }
  }

  lemma {:induction false} UnprunedIsHistory(a: Allowance, clock: seq<int>)
    requires a.maxRetries >= 0 && a.withinTimeRangeMs <= 0
    ensures Stored(a, clock) == Granted(a, clock)
  {
    if clock == [] {
    } else {
      UnprunedIsHistory(a, clock[..|clock| - 1]);
    }
  }

  /** The same answer from the list and from the history. */
  lemma SameAnswer(a: Allowance, clock: seq<int>, now: int)
    requires NoReturn(a.withinTimeRangeMs, clock + [now])
    ensures Grants(a, Stored(a, clock), now) == Grants(a, Granted(a, clock), now)
  {
    if a.maxRetries >= 0 {
      if a.withinTimeRangeMs > 0 {
        ExactWithoutReturns(a, clock, now);
        assert Same(Stored(a, clock), Granted(a, clock), now - a.withinTimeRangeMs);
      } else {
        UnprunedIsHistory(a, clock);
      }
    }
  }

  /** Where no reading returns, every request is answered as counting over the full history would answer it. */
  lemma {:induction false} AnswersAsTheFullHistory(a: Allowance, clock: seq<int>)
    requires NoReturn(a.withinTimeRangeMs, clock)
    ensures Granted(a, clock) == Ideal(a, clock)
    decreases |clock|
  {
    if clock == [] {
    } else {
      var init, now := clock[..|clock| - 1], clock[|clock| - 1];
      assert clock == init + [now];
      AnswersAsTheFullHistory(a, init);
      SameAnswer(a, init, now);
    }
  }

  // ---- How many restarts ----

  lemma {:induction false} RecentShorter(times: seq<int>, threshold: int)
    ensures |Recent(times, threshold)| <= |times|
  {
    if times == [] {
    } else {
      RecentShorter(times[..|times| - 1], threshold);
    }
  }

  /** The list never outgrows the budget, whatever the clock does. */
  lemma {:induction false} StoredIsBounded(a: Allowance, clock: seq<int>)
    requires a.maxRetries >= 0
    ensures |Stored(a, clock)| <= a.maxRetries
  {
    if clock == [] {
    } else {
      var init, now := clock[..|clock| - 1], clock[|clock| - 1];
      StoredIsBounded(a, init);
      RecentShorter(Stored(a, init), now - a.withinTimeRangeMs);
    }
  }

  /** Without a window the budget is for good: at most `maxRetries` restarts in all, whatever the clock does. */
  lemma AtMostMaxRetriesInAll(a: Allowance, clock: seq<int>)
    requires a.maxRetries >= 0 && a.withinTimeRangeMs <= 0
    ensures |Granted(a, clock)| <= a.maxRetries
  {
    UnprunedIsHistory(a, clock);
    StoredIsBounded(a, clock);
  }

  /** How many of the times lie in the closed interval. */
  function CountIn(times: seq<int>, low: int, high: int): nat {
    if times == [] then 0
    else
      var n := |times| - 1;
      CountIn(times[..n], low, high) + (if low <= times[n] <= high then 1 else 0)
  }

  lemma {:induction false} CountInRecent(times: seq<int>, low: int, high: int, threshold: int)
    requires threshold <= low
    ensures CountIn(times, low, high) <= |Recent(times, threshold)|
  {
    if times == [] {
    } else {
      CountInRecent(times[..|times| - 1], low, high, threshold);
    }
  }

  lemma CountInSnoc(times: seq<int>, t: int, low: int, high: int)
    ensures CountIn(times + [t], low, high) == CountIn(times, low, high) + (if low <= t <= high then 1 else 0)
  {
    assert (times + [t])[..|times|] == times;
  }

  /** A grant that a count over its window allows keeps every window that holds it within the budget. */
  lemma OneMoreInWindow(a: Allowance, granted: seq<int>, now: int, start: int)
    requires a.maxRetries >= 0 && a.withinTimeRangeMs > 0 && Grants(a, granted, now)
    requires CountIn(granted, start, start + a.withinTimeRangeMs) <= a.maxRetries
    ensures CountIn(granted + [now], start, start + a.withinTimeRangeMs) <= a.maxRetries
  {
    var w := a.withinTimeRangeMs;
    CountInSnoc(granted, now, start, start + w);
    if start <= now <= start + w {
      CountInRecent(granted, start, start + w, now - w);
    }
  }

  /** Where no reading returns, no closed window of the configured length holds more than `maxRetries` restarts. */
  lemma {:induction false} AtMostMaxRetriesInAnyWindow(a: Allowance, clock: seq<int>, start: int)
    requires a.maxRetries >= 0 && a.withinTimeRangeMs > 0 && NoReturn(a.withinTimeRangeMs, clock)
    ensures CountIn(Granted(a, clock), start, start + a.withinTimeRangeMs) <= a.maxRetries
    decreases |clock|
  {
    if clock == [] {
    } else {
      var init, now := clock[..|clock| - 1], clock[|clock| - 1];
      assert clock == init + [now];
      AtMostMaxRetriesInAnyWindow(a, init, start);
      OneMore(a, init, now);
      SameAnswer(a, init, now);
      if Grants(a, Stored(a, init), now) {
        OneMoreInWindow(a, Granted(a, init), now, start);
      }
    }
  }

  /** A budget without a limit grants every request and stores nothing. */
  lemma {:induction false} UnlimitedGrantsEverything(a: Allowance, clock: seq<int>)
    requires a.maxRetries < 0
    ensures Granted(a, clock) == clock && Stored(a, clock) == []
  {
    if clock == [] {
    } else {
      UnlimitedGrantsEverything(a, clock[..|clock| - 1]);
      assert clock == clock[..|clock| - 1] + [clock[|clock| - 1]];
    }
  }

  predicate NoLater(times: seq<int>, high: int) {
    forall k :: 0 <= k < |times| ==> times[k] <= high
  }

  lemma {:induction false} CountInIsRecent(times: seq<int>, low: int, high: int)
    requires NoLater(times, high)
    ensures CountIn(times, low, high) == |Recent(times, low)|
  {
    if times == [] {
    } else {
      CountInIsRecent(times[..|times| - 1], low, high);
    }
  }

  lemma {:induction false} GrantedNoLater(a: Allowance, clock: seq<int>, high: int)
    requires NoLater(clock, high)
    ensures NoLater(Granted(a, clock), high)
  {
    if clock == [] {
    } else {
      GrantedNoLater(a, clock[..|clock| - 1], high);
    }
  }

  lemma WindowGrantsExactlyWhen(a: Allowance, clock: seq<int>, now: int, high: int)
    requires a.maxRetries >= 0 && a.withinTimeRangeMs > 0
    requires NoReturn(a.withinTimeRangeMs, clock + [now]) && NoLater(clock, high)
    ensures Grants(a, Stored(a, clock), now) <==>
      CountIn(Granted(a, clock), now - a.withinTimeRangeMs, high) < a.maxRetries
  {
    assert Grants(a, Stored(a, clock), now) == Grants(a, Granted(a, clock), now) by {
      SameAnswer(a, clock, now);
    }
    GrantedNoLater(a, clock, high);
    CountInIsRecent(Granted(a, clock), now - a.withinTimeRangeMs, high);
  }

  /**
   After whatever requests, one at `now` is granted exactly when the budget has no limit, or the grants
   of the window before `now`, or all grants where there is no window, are fewer than `maxRetries`.
   `high` is no earlier than any reading: `now` itself for a clock that never goes back.
   */
  lemma GrantedExactlyWhen(a: Allowance, clock: seq<int>, now: int, high: int)
    requires a.withinTimeRangeMs > 0 ==> NoReturn(a.withinTimeRangeMs, clock + [now])
    requires NoLater(clock, high)
    ensures var before := Granted(a, clock);
      var granted :=
        || a.maxRetries < 0
        || (a.withinTimeRangeMs > 0 && CountIn(before, now - a.withinTimeRangeMs, high) < a.maxRetries)
        || (a.withinTimeRangeMs <= 0 && |before| < a.maxRetries);
      Granted(a, clock + [now]) == if granted then before + [now] else before
  {
    assert (clock + [now])[..|clock|] == clock;
    if a.maxRetries >= 0 {
      if a.withinTimeRangeMs > 0 {
        WindowGrantsExactlyWhen(a, clock, now, high);
      } else {
        UnprunedIsHistory(a, clock);
      }
    }
  }

  /** One request of a concrete run. */
  lemma Next(a: Allowance, clock: seq<int>, now: int, stored: seq<int>, granted: seq<int>, kept: seq<int>)
    requires a.maxRetries >= 0 && Stored(a, clock) == stored && Granted(a, clock) == granted
    requires Kept(a, stored, now) == kept && |kept| < a.maxRetries
    ensures Stored(a, clock + [now]) == kept + [now] && Granted(a, clock + [now]) == granted + [now]
  {
    OneMore(a, clock, now);
  }

  /** A clock that goes back can make the budget grant a third restart in a window for two. */
  lemma ClockThatGoesBack()
    ensures Granted(Allowance(2, 10), [0, 1, 100, 5]) == [0, 1, 100, 5] && CountIn([0, 1, 100, 5], 0, 10) == 3
  {
    var a := Allowance(2, 10);
    assert Recent([0], -9) == [0] && Recent([0], 90) == [];
    assert [0, 1][..1] == [0] && Recent([0, 1], 90) == [];
    Next(a, [], 0, [], [], []);
    Next(a, [0], 1, [0], [0], [0]);
    Next(a, [0, 1], 100, [0, 1], [0, 1], []);
    GoneBack(a);
  }

  lemma GoneBack(a: Allowance)
    requires a == Allowance(2, 10) && Stored(a, [0, 1] + [100]) == [100] && Granted(a, [0, 1] + [100]) == [0, 1] + [100]
    ensures Granted(a, [0, 1, 100, 5]) == [0, 1, 100, 5] && CountIn([0, 1, 100, 5], 0, 10) == 3
  {
    assert Recent([100], -5) == [100];
    Next(a, [0, 1] + [100], 5, [100], [0, 1] + [100], [100]);
    assert [0, 1] + [100] + [5] == [0, 1, 100, 5];
    CountInSnoc([], 0, 0, 10);
    CountInSnoc([0], 1, 0, 10);
    CountInSnoc([0, 1], 100, 0, 10);
    CountInSnoc([0, 1] + [100], 5, 0, 10);
  }

  // ---- When the list is exact ----

  lemma KeptShorter(a: Allowance, times: seq<int>, now: int)
    ensures |Kept(a, times, now)| <= |times|
  {
    RecentShorter(times, now - a.withinTimeRangeMs);
  }

  /** With room for every request, everything is granted. */
  lemma {:induction false} RoomForAll(a: Allowance, clock: seq<int>)
    requires a.maxRetries >= |clock|
    ensures Granted(a, clock) == clock && |Stored(a, clock)| <= |clock|
    decreases |clock|
  {
    if clock == [] {
    } else {
      var init, now := clock[..|clock| - 1], clock[|clock| - 1];
      var stored := Stored(a, init);
      assert clock == init + [now];
      RoomForAll(a, init);
      KeptShorter(a, stored, now);
      assert Grants(a, stored, now);
      assert Granted(a, clock) == Snoc(init, now, true) && |Stored(a, clock)| == |Kept(a, stored, now)| + 1 by {
        OneMore(a, init, now);
      }
    }
  }

  /** From every threshold on, `x` shows no more than `y`. */
  ghost predicate NoMore(x: seq<int>, y: seq<int>) {
    forall threshold :: |Recent(x, threshold)| <= |Recent(y, threshold)|
  }

  /** From the threshold on, `x` shows fewer than `y`. */
  ghost predicate Missing(x: seq<int>, y: seq<int>, threshold: int) {
    |Recent(x, threshold)| < |Recent(y, threshold)|
  }

  lemma RecentOfSnoc(times: seq<int>, t: int, keep: bool, threshold: int)
    ensures |Recent(Snoc(times, t, keep), threshold)| == |Recent(times, threshold)| + (if keep && t >= threshold then 1 else 0)
  {
    if keep {
      RecentSnoc(times, t, threshold);
    }
  }

  /** How much a pruned list shows after one more request. */
  lemma ShownAfter(stored: seq<int>, pruned: seq<int>, low: int, now: int, threshold: int, grants: bool)
    requires pruned == Recent(stored, low)
    ensures |Recent(Snoc(pruned, now, grants), threshold)|
         == |Recent(stored, Max(low, threshold))| + (if grants && now >= threshold then 1 else 0)
  {
    RecentOfSnoc(pruned, now, grants, threshold);
    assert Recent(pruned, threshold) == Recent(stored, Max(low, threshold)) by { RecentTwice(stored, low, threshold); }
  }

  lemma NoMoreStep(stored: seq<int>, granted: seq<int>, low: int, now: int, grants: bool)
    requires NoMore(stored, granted)
    ensures NoMore(Snoc(Recent(stored, low), now, grants), Snoc(granted, now, grants))
  {
    var pruned := Recent(stored, low);
    forall t ensures |Recent(Snoc(pruned, now, grants), t)| <= |Recent(Snoc(granted, now, grants), t)| {
      ShownAfter(stored, pruned, low, now, t, grants);
      RecentOfSnoc(granted, now, grants, t);
      RecentFewer(granted, t, Max(low, t));
    }
  }

  lemma MissingStays(stored: seq<int>, granted: seq<int>, low: int, now: int, threshold: int, grants: bool)
    requires Missing(stored, granted, threshold)
    ensures Missing(Snoc(Recent(stored, low), now, grants), Snoc(granted, now, grants), threshold)
  {
    ShownAfter(stored, Recent(stored, low), low, now, threshold, grants);
    RecentOfSnoc(granted, now, grants, threshold);
    RecentFewer(stored, threshold, Max(low, threshold));
  }

  lemma PrunedGoesMissing(stored: seq<int>, granted: seq<int>, t: int, low: int, now: int, threshold: int, grants: bool)
    requires |Recent(stored, low)| <= |Recent(granted, low)| && t in granted && threshold <= t < low
    ensures Missing(Snoc(Recent(stored, low), now, grants), Snoc(granted, now, grants), threshold)
  {
    ShownAfter(stored, Recent(stored, low), low, now, threshold, grants);
    RecentOfSnoc(granted, now, grants, threshold);
    RecentFewer(granted, threshold, low);
  }

  lemma {:induction false} StoredShowsNoMore(a: Allowance, clock: seq<int>)
    requires a.maxRetries >= 0 && a.withinTimeRangeMs > 0
    ensures NoMore(Stored(a, clock), Granted(a, clock))
    decreases |clock|
  {
    if clock == [] {
    } else {
      var init, now := clock[..|clock| - 1], clock[|clock| - 1];
      assert clock == init + [now];
      StoredShowsNoMore(a, init);
      OneMore(a, init, now);
      NoMoreStep(Stored(a, init), Granted(a, init), now - a.withinTimeRangeMs, now, Grants(a, Stored(a, init), now));
    }
  }

  /** A grant pruned by a request is missing wherever a threshold would show it. */
  lemma {:induction false} PrunedIsMissing(a: Allowance, clock: seq<int>, g: nat, i: nat, threshold: int)
    requires a.maxRetries >= |clock| && a.withinTimeRangeMs > 0 && g < i < |clock|
    requires threshold <= clock[g] < clock[i] - a.withinTimeRangeMs
    ensures Missing(Stored(a, clock), Granted(a, clock), threshold)
    decreases |clock|
  {
    var init, now := clock[..|clock| - 1], clock[|clock| - 1];
    assert clock == init + [now];
    var stored, granted, low := Stored(a, init), Granted(a, init), now - a.withinTimeRangeMs;
    if i < |init| {
      PrunedIsMissing(a, init, g, i, threshold);
      MissingStays(stored, granted, low, now, threshold, Grants(a, stored, now));
    } else {
      RoomForAll(a, init);
      StoredShowsNoMore(a, init);
      PrunedGoesMissing(stored, granted, init[g], low, now, threshold, Grants(a, stored, now));
    }
    assert Stored(a, clock) == Snoc(Recent(stored, low), now, Grants(a, stored, now)) by { OneMore(a, init, now); }
    assert Granted(a, clock) == Snoc(granted, now, Grants(a, stored, now)) by { OneMore(a, init, now); }
  }

  /** The request at index `j` finds in the list exactly the grants of its window. */
  ghost predicate ExactAt(a: Allowance, clock: seq<int>, j: nat)
    requires j < |clock|
  {
    Same(Stored(a, clock[..j]), Granted(a, clock[..j]), clock[j] - a.withinTimeRangeMs)
  }

  ghost predicate AlwaysExact(a: Allowance, clock: seq<int>) {
    forall j :: 0 <= j < |clock| ==> ExactAt(a, clock, j)
  }

  lemma AlwaysExactWithoutReturns(a: Allowance, clock: seq<int>)
    requires a.maxRetries >= 0 && a.withinTimeRangeMs > 0 && NoReturn(a.withinTimeRangeMs, clock)
    ensures AlwaysExact(a, clock)
  {
    forall j | 0 <= j < |clock| ensures ExactAt(a, clock, j) {
      NoReturnPrefix(a.withinTimeRangeMs, clock, j);
      ExactWithoutReturns(a, clock[..j], clock[j]);
    }
  }

  lemma NoReturnPrefix(window: int, clock: seq<int>, j: nat)
    requires NoReturn(window, clock) && j < |clock|
    ensures NoReturn(window, clock[..j] + [clock[j]])
  {
    var prefix := clock[..j] + [clock[j]];
    assert forall k :: 0 <= k < |prefix| ==> prefix[k] == clock[k];
  }

  lemma ReturnIsNotExact(a: Allowance, clock: seq<int>, g: nat, i: nat, now: int)
    requires a.maxRetries >= |clock| && a.withinTimeRangeMs > 0 && g < i < |clock|
    requires Returns(a.withinTimeRangeMs, clock[g], clock[i], now)
    ensures !Same(Stored(a, clock), Granted(a, clock), now - a.withinTimeRangeMs)
  {
    PrunedIsMissing(a, clock, g, i, now - a.withinTimeRangeMs);
    MissingIsNotSame(Stored(a, clock), Granted(a, clock), now - a.withinTimeRangeMs);
  }

  lemma NotExactWithReturns(a: Allowance, clock: seq<int>)
    requires a.maxRetries >= |clock| && a.withinTimeRangeMs > 0 && !NoReturn(a.withinTimeRangeMs, clock)
    ensures !AlwaysExact(a, clock)
  {
    var g, i, j :| 0 <= g < i < j < |clock| && Returns(a.withinTimeRangeMs, clock[g], clock[i], clock[j]);
    ReturnIsNotExact(a, clock[..j], g, i, clock[j]);
    assert !ExactAt(a, clock, j);
  }

  lemma MissingIsNotSame(x: seq<int>, y: seq<int>, threshold: int)
    requires Missing(x, y, threshold)
    ensures !Same(x, y, threshold)
  {
  }

  /** The pruned list stands for the history, under every budget, exactly when no reading returns into a window left behind. */
  lemma PrunedListIsExactExactlyWhen(window: int, clock: seq<int>)
    requires window > 0
    ensures (forall max: nat :: AlwaysExact(Allowance(max, window), clock)) <==> NoReturn(window, clock)
  {
    if NoReturn(window, clock) {
      forall max: nat ensures AlwaysExact(Allowance(max, window), clock) {
        AlwaysExactWithoutReturns(Allowance(max, window), clock);
      }
    } else {
      NotExactWithReturns(Allowance(|clock|, window), clock);
    }
  }

  // ---- The object ----

  class RestartBudget {
    const strategy: Allowance
    var failureTimes: seq<int>
    ghost var readings: seq<int>        // of the clock, one per request

    ghost predicate Valid()
      reads this
    {
      failureTimes == Stored(strategy, readings)
    }

    constructor (strategy: Allowance)
      ensures Valid() && this.strategy == strategy && readings == []
    {
      this.strategy := strategy;
      failureTimes, readings := [], [];
    }

    method RegisterRestart(now: int) returns (granted: bool)
      requires Valid()
      modifies this
      ensures Valid() && readings == old(readings) + [now]
      ensures Granted(strategy, readings) == Snoc(Granted(strategy, old(readings)), now, granted)
    {
      ghost var before := readings;
      readings := readings + [now];
      assert readings[..|before|] == before;
      if strategy.maxRetries < 0 {
        return true;
      }
      if strategy.withinTimeRangeMs > 0 {
        failureTimes := Recent(failureTimes, now - strategy.withinTimeRangeMs);
      }
      if |failureTimes| >= strategy.maxRetries {
        return false;
      }
      failureTimes := failureTimes + [now];
      return true;
    }
  }
}
