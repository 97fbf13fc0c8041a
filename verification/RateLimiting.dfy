// The sliding-window limiter: hits per key, compacted in place, with an occasional
// sweep of stale keys. It answers as a limiter that forgets nothing would.

module RateLimiting {

  // ---- the limiter as a function ----

  datatype Limiter = Limiter(hits: map<string, seq<int>>, calls: nat)

  const SWEEP_EVERY: nat := 256

  // The hits after the cutoff, in order.
  function Fresh(list: seq<int>, cutoff: int): seq<int> {
    if list == [] then []
    else
      var kept := Fresh(list[..|list| - 1], cutoff);
      if list[|list| - 1] > cutoff then kept + [list[|list| - 1]] else kept
  }

  function Of(hits: map<string, seq<int>>, key: string): seq<int> {
    if key in hits then hits[key] else []
  }

  // Keys without a fresh hit are dropped.
  function Swept(hits: map<string, seq<int>>, cutoff: int): map<string, seq<int>> {
    map k | k in hits && Fresh(hits[k], cutoff) != [] :: hits[k]
  }

  function Counted(l: Limiter, cutoff: int): Limiter {
    if l.calls + 1 >= SWEEP_EVERY then Limiter(Swept(l.hits, cutoff), 0) else l.(calls := l.calls + 1)
  }

  function Allow(l: Limiter, key: string, now: int, window: int, max: int): (Limiter, bool) {
    var c := Counted(l, now - window);
    var kept := Fresh(Of(c.hits, key), now - window);
    if |kept| >= max then (c.(hits := c.hits[key := kept]), false)
    else (c.(hits := c.hits[key := kept + [now]]), true)
  }

  function Forget(l: Limiter, key: string): Limiter {
    l.(hits := l.hits - {key})
  }

  // ---- the limiter that remembers every accepted hit ----

  function Remember(log: map<string, seq<int>>, key: string, now: int, window: int, max: int): (map<string, seq<int>>, bool) {
    if |Fresh(Of(log, key), now - window)| >= max then (log, false)
    else (log[key := Of(log, key) + [now]], true)
  }

  datatype Call = Hit(key: string, now: int) | Clear(key: string)

  datatype Both = Both(l: Limiter, log: map<string, seq<int>>, answers: seq<bool>, remembered: seq<bool>)

  const NEW := Both(Limiter(map[], 0), map[], [], [])

  function Step(b: Both, call: Call, window: int, max: int): Both {
    match call
    case Hit(key, now) =>
      var (l, yes) := Allow(b.l, key, now, window, max);
      var (log, remembered) := Remember(b.log, key, now, window, max);
      Both(l, log, b.answers + [yes], b.remembered + [remembered])
    case Clear(key) => b.(l := Forget(b.l, key), log := b.log - {key})
  }

  function Run(calls: seq<Call>, window: int, max: int): Both {
    if calls == [] then NEW else Step(Run(calls[..|calls| - 1], window, max), calls[|calls| - 1], window, max)
  }

  // The clock never runs backwards; last is a time no hit is later than.
  function Clock(calls: seq<Call>): seq<int> {
    if calls == [] then []
    else
      var times := Clock(calls[..|calls| - 1]);
      match calls[|calls| - 1]
      case Hit(_, now) => times + [now]
      case Clear(_) => times
  }

  predicate Ascending(times: seq<int>) {
    forall i, j :: 0 <= i < j < |times| ==> times[i] <= times[j]
  }

  // ---- fresh hits ----

  lemma {:induction false} FreshTwice(list: seq<int>, early: int, late: int)
    requires early <= late
    ensures Fresh(Fresh(list, early), late) == Fresh(list, late)
  {
    if list != [] {
      var n := |list| - 1;
      FreshTwice(list[..n], early, late);
      if list[n] > early {
        FreshAppended(Fresh(list[..n], early), list[n], late);
      }
    }
  }

  lemma FreshAppended(list: seq<int>, t: int, cutoff: int)
    ensures Fresh(list + [t], cutoff) == if t > cutoff then Fresh(list, cutoff) + [t] else Fresh(list, cutoff)
  {
  }

  // ---- the two agree ----

  // From this cutoff on, both hold the same fresh hits of a key.
  ghost predicate AgreeOn(hits: map<string, seq<int>>, log: map<string, seq<int>>, key: string, cutoff: int) {
    forall c :: c >= cutoff ==> Fresh(Of(hits, key), c) == Fresh(Of(log, key), c)
  }

  ghost predicate Agree(hits: map<string, seq<int>>, log: map<string, seq<int>>, cutoff: int) {
    forall key :: AgreeOn(hits, log, key, cutoff)
  }

  lemma SweepAgrees(hits: map<string, seq<int>>, log: map<string, seq<int>>, cutoff: int)
    requires Agree(hits, log, cutoff)
    ensures Agree(Swept(hits, cutoff), log, cutoff)
  {
    forall key
      ensures AgreeOn(Swept(hits, cutoff), log, key, cutoff)
    {
      assert AgreeOn(hits, log, key, cutoff);
      forall c | c >= cutoff
        ensures Fresh(Of(Swept(hits, cutoff), key), c) == Fresh(Of(log, key), c)
      {
        FreshTwice(Of(hits, key), cutoff, c);
      }
    }
  }

  lemma HitAgrees(l: Limiter, log: map<string, seq<int>>, key: string, now: int, window: int, max: int)
    requires Agree(l.hits, log, now - window)
    ensures var (t, yes) := Allow(l, key, now, window, max);
            var (next, remembered) := Remember(log, key, now, window, max);
            yes == remembered && Agree(t.hits, next, now - window)
  {
    var cutoff := now - window;
    var c := Counted(l, cutoff);
    SweepAgrees(l.hits, log, cutoff);
    assert Agree(c.hits, log, cutoff);
    assert AgreeOn(c.hits, log, key, cutoff);
    var kept := Fresh(Of(c.hits, key), cutoff);
    var (t, yes) := Allow(l, key, now, window, max);
    var (next, remembered) := Remember(log, key, now, window, max);
    forall k
      ensures AgreeOn(t.hits, next, k, cutoff)
    {
      assert AgreeOn(c.hits, log, k, cutoff);
      if k != key {
        assert Of(t.hits, k) == Of(c.hits, k) && Of(next, k) == Of(log, k);
      } else {
        forall x | x >= cutoff
          ensures Fresh(Of(t.hits, k), x) == Fresh(Of(next, k), x)
        {
          FreshTwice(Of(c.hits, key), cutoff, x);
          FreshAppended(kept, now, x);
          FreshAppended(Of(log, key), now, x);
        }
      }
    }
  }

  lemma ClearAgrees(l: Limiter, log: map<string, seq<int>>, key: string, cutoff: int)
    requires Agree(l.hits, log, cutoff)
    ensures Agree(Forget(l, key).hits, log - {key}, cutoff)
  {
    forall k
      ensures AgreeOn(Forget(l, key).hits, log - {key}, k, cutoff)
    {
      assert AgreeOn(l.hits, log, k, cutoff);
      assert k != key ==> Of(Forget(l, key).hits, k) == Of(l.hits, k) && Of(log - {key}, k) == Of(log, k);
    }
  }

  lemma LaterAgrees(hits: map<string, seq<int>>, log: map<string, seq<int>>, early: int, late: int)
    requires Agree(hits, log, early) && early <= late
    ensures Agree(hits, log, late)
  {
    forall key
      ensures AgreeOn(hits, log, key, late)
    {
      assert AgreeOn(hits, log, key, early);
    }
  }

  // With a clock that does not run backwards, compaction and sweeping never change
  // an answer.
  lemma {:induction false} SameAnswers(calls: seq<Call>, window: int, max: int)
    requires Ascending(Clock(calls))
    ensures var b := Run(calls, window, max); var times := Clock(calls);
            && b.answers == b.remembered
            && forall cutoff: int :: (times == [] || times[|times| - 1] - window <= cutoff) ==> Agree(b.l.hits, b.log, cutoff)
  {
    if calls != [] {
      var n := |calls| - 1;
      var b := Run(calls[..n], window, max);
      var before := Clock(calls[..n]);
      ClockPrefix(calls);
      SameAnswers(calls[..n], window, max);
      match calls[n]
      case Hit(key, now) =>
        HitAgrees(b.l, b.log, key, now, window, max);
        var t := Run(calls, window, max);
        forall cutoff: int | now - window <= cutoff
          ensures Agree(t.l.hits, t.log, cutoff)
        {
          LaterAgrees(t.l.hits, t.log, now - window, cutoff);
        }
      case Clear(key) =>
        forall cutoff: int | before == [] || before[|before| - 1] - window <= cutoff
          ensures Agree(Forget(b.l, key).hits, b.log - {key}, cutoff)
        {
          ClearAgrees(b.l, b.log, key, cutoff);
        }
    }
  }

  // ---- the budget ----

  // Hits later than x and no later than y.
  function Between(list: seq<int>, x: int, y: int): nat {
    if list == [] then 0
    else Between(list[..|list| - 1], x, y) + if x < list[|list| - 1] <= y then 1 else 0
  }

  // Hit n was accepted within budget.
  predicate InBudget(list: seq<int>, n: nat, window: int, max: int)
    requires n < |list|
  {
    |Fresh(list[..n], list[n] - window)| < max
  }

  predicate Budgeted(list: seq<int>, window: int, max: int) {
    Ascending(list) && forall n :: 0 <= n < |list| ==> InBudget(list, n, window, max)
  }

  lemma {:induction false} BetweenIsFresh(list: seq<int>, x: int, y: int)
    requires Ascending(list) && (list == [] || list[|list| - 1] <= y)
    ensures Between(list, x, y) == |Fresh(list, x)|
  {
    if list != [] {
      assert |list| > 1 ==> list[|list| - 2] <= list[|list| - 1];
      BetweenIsFresh(list[..|list| - 1], x, y);
    }
  }

  lemma {:induction false} FreshShrinks(list: seq<int>, early: int, late: int)
    requires early <= late
    ensures |Fresh(list, late)| <= |Fresh(list, early)|
  {
    if list != [] {
      FreshShrinks(list[..|list| - 1], early, late);
    }
  }

  lemma BudgetedPrefix(list: seq<int>, n: nat, window: int, max: int)
    requires Budgeted(list, window, max) && n <= |list|
    ensures Budgeted(list[..n], window, max)
  {
    forall k | 0 <= k < n
      ensures InBudget(list[..n], k, window, max)
    {
      assert InBudget(list, k, window, max);
      assert list[..n][..k] == list[..k];
    }
  }

  // No window holds more than max accepted hits.
  lemma {:induction false} WindowHolds(list: seq<int>, window: int, max: nat, x: int)
    requires Budgeted(list, window, max) && window >= 0
    ensures Between(list, x, x + window) <= max
  {
    if list != [] {
      var n := |list| - 1;
      BudgetedPrefix(list, n, window, max);
      WindowHolds(list[..n], window, max, x);
      if x < list[n] <= x + window {
        LastFits(list, window, max, x);
      }
    }
  }

  // The last hit and everything in the window before it were within budget together.
  lemma LastFits(list: seq<int>, window: int, max: nat, x: int)
    requires Budgeted(list, window, max) && list != [] && x < list[|list| - 1] <= x + window
    ensures Between(list, x, x + window) <= max
  {
    var n := |list| - 1;
    BudgetedPrefix(list, n, window, max);
    assert InBudget(list, n, window, max);
    if n > 0 {
      assert list[n - 1] <= list[n];
    }
    BetweenIsFresh(list[..n], x, x + window);
    FreshShrinks(list[..n], list[n] - window, x);
  }

  lemma AscendingAppended(list: seq<int>, now: int)
    requires Ascending(list) && (list != [] ==> list[|list| - 1] <= now)
    ensures Ascending(list + [now])
  {
  }

  lemma AppendBudgeted(list: seq<int>, now: int, window: int, max: nat)
    requires Budgeted(list, window, max) && |Fresh(list, now - window)| < max
    requires list != [] ==> list[|list| - 1] <= now
    ensures Budgeted(list + [now], window, max)
  {
    AscendingAppended(list, now);
    forall n | 0 <= n < |list| + 1
      ensures InBudget(list + [now], n, window, max)
    {
      if n < |list| {
        assert InBudget(list, n, window, max);
        assert (list + [now])[..n] == list[..n];
      } else {
        assert (list + [now])[..n] == list;
      }
    }
  }

  // A call at a time the clock allows.
  lemma {:induction false} ClockPrefix(calls: seq<Call>)
    requires calls != [] && Ascending(Clock(calls))
    ensures var before := Clock(calls[..|calls| - 1]);
            Ascending(before) && before <= Clock(calls) && (calls[|calls| - 1].Hit? && before != [] ==> before[|before| - 1] <= calls[|calls| - 1].now)
  {
    var before, after := Clock(calls[..|calls| - 1]), Clock(calls);
    forall i, j | 0 <= i < j < |before|
      ensures before[i] <= before[j]
    {
      assert after[i] == before[i] && after[j] == before[j];
    }
    if calls[|calls| - 1].Hit? && before != [] {
      assert after[|before| - 1] <= after[|before|];
    }
  }

  predicate LoggedInTime(list: seq<int>, times: seq<int>) {
    list != [] ==> times != [] && list[|list| - 1] <= times[|times| - 1]
  }

  // Everything the memory of the limiter holds was accepted within budget.
  lemma {:induction false} LogsBudgeted(calls: seq<Call>, window: int, max: nat, key: string)
    requires Ascending(Clock(calls))
    ensures Budgeted(Of(Run(calls, window, max).log, key), window, max)
    ensures LoggedInTime(Of(Run(calls, window, max).log, key), Clock(calls))
  {
    if calls != [] {
      var n := |calls| - 1;
      ClockPrefix(calls);
      LogsBudgeted(calls[..n], window, max, key);
      StepBudgeted(Run(calls[..n], window, max), calls[n], window, max, key, Clock(calls[..n]));
    }
  }

  lemma StepBudgeted(b: Both, call: Call, window: int, max: nat, key: string, times: seq<int>)
    requires Budgeted(Of(b.log, key), window, max) && LoggedInTime(Of(b.log, key), times)
    requires call.Hit? && times != [] ==> times[|times| - 1] <= call.now
    ensures var list := Of(Step(b, call, window, max).log, key);
            Budgeted(list, window, max) && LoggedInTime(list, if call.Hit? then times + [call.now] else times)
  {
    var was := Of(b.log, key);
    if call.Hit? && call.key == key && |Fresh(was, call.now - window)| < max {
      AppendBudgeted(was, call.now, window, max);
    }
  }

  // The times at which a key was let through.
  function Accepted(calls: seq<Call>, window: int, max: int, key: string): seq<int> {
    if calls == [] then []
    else
      var n := |calls| - 1;
      var times := Accepted(calls[..n], window, max, key);
      match calls[n]
      case Hit(k, now) =>
        var answers := Run(calls, window, max).answers;
        if k == key && answers != [] && answers[|answers| - 1] then times + [now] else times
      case Clear(_) => times
  }

  lemma {:induction false} AcceptedAreLogged(calls: seq<Call>, window: int, max: nat, key: string)
    requires Ascending(Clock(calls)) && Clear(key) !in calls
    ensures Accepted(calls, window, max, key) == Of(Run(calls, window, max).log, key)
  {
    if calls != [] {
      var n := |calls| - 1;
      ClockPrefix(calls);
      AcceptedAreLogged(calls[..n], window, max, key);
      SameAnswers(calls, window, max);
      assert calls[n] in calls;
    }
  }

  // Unless a key is forgotten, no window of the clock lets it through more than max times.
  lemma NeverOverBudget(calls: seq<Call>, window: int, max: nat, key: string, x: int)
    requires Ascending(Clock(calls)) && window >= 0 && Clear(key) !in calls
    ensures Between(Accepted(calls, window, max, key), x, x + window) <= max
  {
    AcceptedAreLogged(calls, window, max, key);
    LogsBudgeted(calls, window, max, key);
    WindowHolds(Of(Run(calls, window, max).log, key), window, max, x);
  }

  lemma RunOneMore(calls: seq<Call>, call: Call, window: int, max: int)
    ensures Run(calls + [call], window, max) == Step(Run(calls, window, max), call, window, max)
  {
    assert (calls + [call])[..|calls|] == calls;
  }

  lemma LastRemembered(b: Both, key: string, now: int, window: int, max: int)
    ensures var r := Step(b, Hit(key, now), window, max).remembered;
            r != [] && (r[|r| - 1] <==> |Fresh(Of(b.log, key), now - window)| < max)
  {
  }

  lemma ClockOneMore(calls: seq<Call>, key: string, now: int)
    requires Ascending(Clock(calls + [Hit(key, now)]))
    ensures Ascending(Clock(calls)) && (Clock(calls) != [] ==> Clock(calls)[|Clock(calls)| - 1] <= now)
  {
    var all := calls + [Hit(key, now)];
    assert all[..|calls|] == calls && all[|calls|] == Hit(key, now);
    assert Clock(all) == Clock(calls) + [now];
    ClockPrefix(all);
    if Clock(calls) != [] {
      var n := |Clock(calls)|;
      assert Clock(all)[n - 1] == Clock(calls)[n - 1] && Clock(all)[n] == now;
    }
  }

  lemma AnswerByLog(calls: seq<Call>, window: int, max: nat, key: string, now: int)
    requires Ascending(Clock(calls + [Hit(key, now)]))
    ensures var answers := Run(calls + [Hit(key, now)], window, max).answers;
            answers != []
            && (answers[|answers| - 1] <==> |Fresh(Of(Run(calls, window, max).log, key), now - window)| < max)
  {
    SameAnswers(calls + [Hit(key, now)], window, max);
    RunOneMore(calls, Hit(key, now), window, max);
    LastRemembered(Run(calls, window, max), key, now, window, max);
  }

  lemma LogCounts(calls: seq<Call>, window: int, max: nat, key: string, now: int)
    requires Ascending(Clock(calls)) && (Clock(calls) != [] ==> Clock(calls)[|Clock(calls)| - 1] <= now)
    requires Clear(key) !in calls
    ensures Between(Accepted(calls, window, max, key), now - window, now)
            == |Fresh(Of(Run(calls, window, max).log, key), now - window)|
  {
    AcceptedAreLogged(calls, window, max, key);
    LogsBudgeted(calls, window, max, key);
    BetweenIsFresh(Of(Run(calls, window, max).log, key), now - window, now);
  }

  // And it is let through whenever fewer than max hits were accepted in the window that
  // ends now.
  lemma AllowedIff(calls: seq<Call>, window: int, max: nat, key: string, now: int)
    requires Ascending(Clock(calls + [Hit(key, now)])) && Clear(key) !in calls
    ensures var answers := Run(calls + [Hit(key, now)], window, max).answers;
            answers != []
            && (answers[|answers| - 1] <==> Between(Accepted(calls, window, max, key), now - window, now) < max)
  {
    ClockOneMore(calls, key, now);
    AnswerByLog(calls, window, max, key, now);
    LogCounts(calls, window, max, key, now);
  }
}
