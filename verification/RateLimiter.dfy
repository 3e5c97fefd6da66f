/** The fixed-window rate limiter, and what it guarantees over whole call histories. */
module RateLimiter {
  import opened Options
  import opened Sorting

  datatype Tier = Free | Pro

  datatype Limits = Limits(free: int, pro: int)

  datatype Window = Window(count: nat, resetAt: int)

  datatype Decision = Decision(allowed: bool, limit: int, remaining: int, resetAt: int)

  datatype Call = Call(key: string, tier: Tier, now: int)

  const WINDOW_MS := 60_000

  function LimitOf(limits: Limits, tier: Tier): int {
    match tier
    case Free => limits.free
    case Pro => limits.pro
  }

  function Lookup(windows: map<string, Window>, key: string): Option<Window> {
    if key in windows then Some(windows[key]) else None
  }

  /** One key's window after a call, and the answer given. */
  function Step(w: Option<Window>, limit: int, now: int): (Window, Decision) {
    if w.None? || now >= w.value.resetAt then
      (Window(1, now + WINDOW_MS), Decision(true, limit, limit - 1, now + WINDOW_MS))
    else if w.value.count >= limit then
      (w.value, Decision(false, limit, 0, w.value.resetAt))
    else
      (w.value.(count := w.value.count + 1), Decision(true, limit, limit - w.value.count - 1, w.value.resetAt))
  }

  function StepCall(windows: map<string, Window>, limits: Limits, c: Call): (Window, Decision) {
    Step(Lookup(windows, c.key), LimitOf(limits, c.tier), c.now)
  }

  function After(windows: map<string, Window>, limits: Limits, c: Call): map<string, Window> {
    windows[c.key := StepCall(windows, limits, c).0]
  }

  /** The answers to a history of calls. */
  function Answers(windows: map<string, Window>, limits: Limits, calls: seq<Call>): (r: seq<Decision>)
    ensures |r| == |calls|
    decreases |calls|
  {
    if calls == [] then []
    else [StepCall(windows, limits, calls[0]).1] + Answers(After(windows, limits, calls[0]), limits, calls[1..])
  }

  // ---------- counting allowed calls ----------

  /** Allowed calls of one key at times in [t, t + WINDOW_MS). */
  ghost function AllowedIn(calls: seq<Call>, answers: seq<Decision>, key: string, t: int): nat
    requires |answers| == |calls|
  {
    if calls == [] then 0
    else
      (if calls[0].key == key && answers[0].allowed && t <= calls[0].now < t + WINDOW_MS then 1 else 0)
      + AllowedIn(calls[1..], answers[1..], key, t)
  }

  /** Allowed calls of one key answered from the window that ends at `resetAt`. */
  ghost function AllowedFrom(calls: seq<Call>, answers: seq<Decision>, key: string, resetAt: int): nat
    requires |answers| == |calls|
  {
    if calls == [] then 0
    else
      (if calls[0].key == key && answers[0].allowed && answers[0].resetAt == resetAt then 1 else 0)
      + AllowedFrom(calls[1..], answers[1..], key, resetAt)
  }

  /** The key's calls come with a clock that does not run backwards, from `start` on. */
  ghost predicate Forward(calls: seq<Call>, key: string, start: int) {
    && (forall i | 0 <= i < |calls| && calls[i].key == key :: start <= calls[i].now)
    && (forall i, j | 0 <= i < j < |calls| && calls[i].key == key && calls[j].key == key ::
      calls[i].now <= calls[j].now)
  }

  lemma ForwardTail(calls: seq<Call>, key: string, start: int)
    requires calls != [] && Forward(calls, key, start)
    ensures Forward(calls[1..], key, if calls[0].key == key then calls[0].now else start)
  {
  }

  /** The key calls under tiers whose limits do not exceed `most`; for one tier, `most` is max(1, its limit). */
  ghost predicate Within(limits: Limits, calls: seq<Call>, key: string, most: int) {
    1 <= most && forall i | 0 <= i < |calls| && calls[i].key == key :: LimitOf(limits, calls[i].tier) <= most
  }

  ghost predicate WindowOk(w: Option<Window>, most: int, start: int) {
    w.Some? ==> 1 <= w.value.count <= most && w.value.resetAt - WINDOW_MS <= start
  }

  lemma {:induction false} NoneLater(
    windows: map<string, Window>, limits: Limits, calls: seq<Call>, key: string, t: int, start: int)
    requires Forward(calls, key, start) && t + WINDOW_MS <= start
    ensures AllowedIn(calls, Answers(windows, limits, calls), key, t) == 0
    decreases |calls|
  {
    if calls != [] {
      ForwardTail(calls, key, start);
      NoneLater(After(windows, limits, calls[0]), limits, calls[1..], key, t,
                if calls[0].key == key then calls[0].now else start);
    }
  }

  /** What can still be allowed in [t, t + WINDOW_MS), given the key's present window: its remainder when it
      reaches past the interval, its remainder and one more window when it ends inside. A window still to be
      opened spends its opening call either before the interval or as the one window the interval meets. */
  ghost function Budget(w: Option<Window>, t: int, most: int): int {
    if w.None? || w.value.resetAt <= t then 2 * most - 1
    else if w.value.resetAt < t + WINDOW_MS then 2 * most - w.value.count
    else most - w.value.count
  }

  lemma {:induction false} AllowedWithinBudget(
    windows: map<string, Window>, limits: Limits, calls: seq<Call>, key: string, t: int, most: int, start: int)
    requires Within(limits, calls, key, most) && Forward(calls, key, start)
      && WindowOk(Lookup(windows, key), most, start)
    ensures AllowedIn(calls, Answers(windows, limits, calls), key, t) <= Budget(Lookup(windows, key), t, most)
    decreases |calls|
  {
    if calls != [] {
      var c := calls[0];
      var next := After(windows, limits, c);
      var start' := if c.key == key then c.now else start;
      ForwardTail(calls, key, start);
      AllowedWithinBudget(next, limits, calls[1..], key, t, most, start');
      if c.key == key && c.now >= t + WINDOW_MS {
        NoneLater(next, limits, calls[1..], key, t, start');
      }
    }
  }

  /** In any history of calls with a forward clock for the key, mixed with other keys' calls in any way: fewer
      than twice the key's limit are allowed in any half-open interval of one window's length. */
  lemma SlidingWindowBound(limits: Limits, calls: seq<Call>, key: string, t: int, most: int, start: int)
    requires Within(limits, calls, key, most) && Forward(calls, key, start)
    ensures AllowedIn(calls, Answers(map[], limits, calls), key, t) <= 2 * most - 1
  {
    AllowedWithinBudget(map[], limits, calls, key, t, most, start);
  }

  function Burst(c: Call, n: nat): seq<Call> {
    seq(n, _ => c)
  }

  lemma {:induction false} BurstAllowed(
    windows: map<string, Window>, limits: Limits, c: Call, n: nat, rest: seq<Call>, t: int)
    requires c.key in windows && c.now < windows[c.key].resetAt && t <= c.now < t + WINDOW_MS
    requires windows[c.key].count + n <= LimitOf(limits, c.tier)
    ensures var w := windows[c.key];
      AllowedIn(Burst(c, n) + rest, Answers(windows, limits, Burst(c, n) + rest), c.key, t)
      == n + AllowedIn(rest, Answers(windows[c.key := w.(count := w.count + n)], limits, rest), c.key, t)
    decreases n
  {
    var w := windows[c.key];
    if n == 0 {
      assert Burst(c, n) + rest == rest && windows[c.key := w] == windows;
    } else {
      var next := After(windows, limits, c);
      assert (Burst(c, n) + rest)[1..] == Burst(c, n - 1) + rest && (Burst(c, n) + rest)[0] == c;
      BurstAllowed(next, limits, c, n - 1, rest, t);
      assert next[c.key := next[c.key].(count := next[c.key].count + (n - 1))]
        == windows[c.key := w.(count := w.count + n)];
    }
  }

  /** A window opened early and spent just before its end, then a new one spent at once. */
  function TightHistory(key: string, most: nat): seq<Call>
    requires most >= 1
  {
    [Call(key, Free, 0)] + (Burst(Call(key, Free, WINDOW_MS - 1), most - 1) + SecondBurst(key, most))
  }

  function SecondBurst(key: string, most: nat): seq<Call>
    requires most >= 1
  {
    [Call(key, Free, WINDOW_MS)] + Burst(Call(key, Free, WINDOW_MS), most - 1)
  }

  lemma SecondBurstAllowed(limits: Limits, key: string)
    requires limits.free >= 1
    ensures var spent := map[key := Window(limits.free, WINDOW_MS)];
      AllowedIn(SecondBurst(key, limits.free), Answers(spent, limits, SecondBurst(key, limits.free)), key,
        WINDOW_MS - 1)
      == limits.free
  {
    var c := Call(key, Free, WINDOW_MS);
    var spent := map[key := Window(limits.free, WINDOW_MS)];
    var calls := SecondBurst(key, limits.free);
    assert calls[1..] == Burst(c, limits.free - 1) + [];
    BurstAllowed(After(spent, limits, c), limits, c, limits.free - 1, [], WINDOW_MS - 1);
  }

  lemma TightHistoryForward(key: string, most: nat)
    requires most >= 1
    ensures Forward(TightHistory(key, most), key, 0)
  {
    forall i | 0 <= i < 2 * most
      ensures |TightHistory(key, most)| == 2 * most
      ensures TightHistory(key, most)[i].now == if i == 0 then 0 else if i < most then WINDOW_MS - 1 else WINDOW_MS
    {
    }
  }

  /** The bound is reached, by a history with a forward clock. */
  lemma SlidingWindowBoundIsTight(limits: Limits, key: string)
    requires limits.free >= 1
    ensures Forward(TightHistory(key, limits.free), key, 0)
    ensures var calls := TightHistory(key, limits.free);
      AllowedIn(calls, Answers(map[], limits, calls), key, WINDOW_MS - 1) == 2 * limits.free - 1
  {
    TightHistoryForward(key, limits.free);
    TightHistoryCount(limits, key);
  }

  lemma TightHistoryCount(limits: Limits, key: string)
    requires limits.free >= 1
    ensures var calls := TightHistory(key, limits.free);
      AllowedIn(calls, Answers(map[], limits, calls), key, WINDOW_MS - 1) == 2 * limits.free - 1
  {
    var late := Call(key, Free, WINDOW_MS - 1);
    var calls := TightHistory(key, limits.free);
    var first := map[key := Window(1, WINDOW_MS)];
    assert calls[1..] == Burst(late, limits.free - 1) + SecondBurst(key, limits.free);
    assert After(map[], limits, calls[0]) == first;
    BurstAllowed(first, limits, late, limits.free - 1, SecondBurst(key, limits.free), WINDOW_MS - 1);
    assert first[key := Window(limits.free, WINDOW_MS)] == map[key := Window(limits.free, WINDOW_MS)];
    SecondBurstAllowed(limits, key);
  }

  ghost function Remainder(w: Option<Window>, resetAt: int, most: int): int {
    if w.None? || w.value.resetAt < resetAt then most
    else if w.value.resetAt == resetAt then most - w.value.count
    else 0
  }

  lemma {:induction false} AllowedWithinRemainder(
    windows: map<string, Window>, limits: Limits, calls: seq<Call>, key: string, resetAt: int, most: int, start: int)
    requires Within(limits, calls, key, most) && Forward(calls, key, start)
      && WindowOk(Lookup(windows, key), most, start)
    ensures AllowedFrom(calls, Answers(windows, limits, calls), key, resetAt)
      <= Remainder(Lookup(windows, key), resetAt, most)
    decreases |calls|
  {
    if calls != [] {
      ForwardTail(calls, key, start);
      AllowedWithinRemainder(After(windows, limits, calls[0]), limits, calls[1..], key, resetAt, most,
                             if calls[0].key == key then calls[0].now else start);
    }
  }

  /** At most one limit's worth of calls is allowed from one fixed window. */
  lemma FixedWindowBound(limits: Limits, calls: seq<Call>, key: string, resetAt: int, most: int, start: int)
    requires Within(limits, calls, key, most) && Forward(calls, key, start)
    ensures AllowedFrom(calls, Answers(map[], limits, calls), key, resetAt) <= most
  {
    AllowedWithinRemainder(map[], limits, calls, key, resetAt, most, start);
  }

  lemma {:induction false} DeniedAfterLimit(windows: map<string, Window>, limits: Limits, calls: seq<Call>, i: nat)
    requires i < |calls|
    requires !Answers(windows, limits, calls)[i].allowed
    ensures var answers := Answers(windows, limits, calls);
      var w := Lookup(windows, calls[i].key);
      AllowedFrom(calls[..i], answers[..i], calls[i].key, answers[i].resetAt)
      + (if w.Some? && w.value.resetAt == answers[i].resetAt then w.value.count else 0)
      >= LimitOf(limits, calls[i].tier)
    decreases i
  {
    if i > 0 {
      var answers := Answers(windows, limits, calls);
      var next := After(windows, limits, calls[0]);
      DeniedAfterLimit(next, limits, calls[1..], i - 1);
      assert calls[..i][1..] == calls[1..][..i - 1] && answers[..i][1..] == answers[1..][..i - 1];
    }
  }

  /** A call is turned down only when its window has already allowed as many calls as its tier permits. */
  lemma DeniedOnlyWhenSpent(limits: Limits, calls: seq<Call>, i: nat)
    requires i < |calls|
    requires !Answers(map[], limits, calls)[i].allowed
    ensures var answers := Answers(map[], limits, calls);
      && calls[i].now < answers[i].resetAt
      && AllowedFrom(calls[..i], answers[..i], calls[i].key, answers[i].resetAt) >= LimitOf(limits, calls[i].tier)
  {
    DeniedAfterLimit(map[], limits, calls, i);
    DeniedInWindow(map[], limits, calls, i);
  }

  lemma {:induction false} DeniedInWindow(windows: map<string, Window>, limits: Limits, calls: seq<Call>, i: nat)
    requires i < |calls| && !Answers(windows, limits, calls)[i].allowed
    ensures calls[i].now < Answers(windows, limits, calls)[i].resetAt
    decreases i
  {
    if i > 0 {
      DeniedInWindow(After(windows, limits, calls[0]), limits, calls[1..], i - 1);
    }
  }

  // ---------- every answer, told by the ones before ----------

  /** When the key's window, as the last of some answers to it left it, ends; `open` without any. */
  ghost function LastReset(open: Option<int>, calls: seq<Call>, answers: seq<Decision>, key: string): Option<int>
    requires |answers| == |calls|
    decreases |calls|
  {
    if calls == [] then open
    else LastReset(if calls[0].key == key then Some(answers[0].resetAt) else open, calls[1..], answers[1..], key)
  }

  /** An answer under a limit, given when the key's window ends, if it has one, and how many calls that has allowed. */
  ghost predicate Tells(d: Decision, limit: int, now: int, open: Option<int>, spent: int) {
    && d.limit == limit
    && if open.None? || open.value <= now
       then d.allowed && d.resetAt == now + 60_000 && d.remaining == limit - 1
       else
         && d.resetAt == open.value && (d.allowed <==> spent < limit)
         && d.remaining == (if spent < limit then limit - spent - 1 else 0)
  }

  ghost function ResetOf(w: Option<Window>): Option<int> {
    if w.Some? then Some(w.value.resetAt) else None
  }

  /** What a window has allowed already, if it is the one that ends then. */
  ghost function CountOf(w: Option<Window>, resetAt: int): int {
    if w.Some? && w.value.resetAt == resetAt then w.value.count else 0
  }

  lemma {:induction false} ResetGrows(
    windows: map<string, Window>, limits: Limits, calls: seq<Call>, n: nat, key: string)
    requires n <= |calls| && key in windows
    ensures var answers := Answers(windows, limits, calls);
      var last := LastReset(ResetOf(Lookup(windows, key)), calls[..n], answers[..n], key);
      last.Some? && windows[key].resetAt <= last.value
    decreases n
  {
    if n > 0 {
      var answers := Answers(windows, limits, calls);
      var next := After(windows, limits, calls[0]);
      assert calls[..n][1..] == calls[1..][..n - 1] && answers[..n][1..] == answers[1..][..n - 1];
      ResetGrows(next, limits, calls[1..], n - 1, key);
    }
  }

  lemma {:induction false} AnswerFrom(windows: map<string, Window>, limits: Limits, calls: seq<Call>, i: nat)
    requires i < |calls|
    ensures var answers := Answers(windows, limits, calls);
      var key := calls[i].key;
      var open := LastReset(ResetOf(Lookup(windows, key)), calls[..i], answers[..i], key);
      var spent := if open.None? then 0
        else AllowedFrom(calls[..i], answers[..i], key, open.value) + CountOf(Lookup(windows, key), open.value);
      Tells(answers[i], if calls[i].tier.Pro? then limits.pro else limits.free, calls[i].now, open, spent)
    decreases i
  {
    if i > 0 {
      var answers := Answers(windows, limits, calls);
      var next := After(windows, limits, calls[0]);
      assert calls[..i][1..] == calls[1..][..i - 1] && answers[..i][1..] == answers[1..][..i - 1];
      AnswerFrom(next, limits, calls[1..], i - 1);
      if calls[0].key == calls[i].key {
        ResetGrows(next, limits, calls[1..], i - 1, calls[i].key);
      }
    }
  }

  /** Every answer in every history, whatever the clock does: a call finds its key's window ended or missing and opens
      one, which allows it, or it is allowed exactly while that window has allowed fewer calls than its own tier's
      limit. */
  lemma AnswerTells(limits: Limits, calls: seq<Call>, i: nat)
    requires i < |calls|
    ensures var answers := Answers(map[], limits, calls);
      var open := LastReset(None, calls[..i], answers[..i], calls[i].key);
      var spent := if open.None? then 0 else AllowedFrom(calls[..i], answers[..i], calls[i].key, open.value);
      Tells(answers[i], if calls[i].tier.Pro? then limits.pro else limits.free, calls[i].now, open, spent)
  {
    AnswerFrom(map[], limits, calls, i);
  }

  // ---------- keys do not interfere ----------

  ghost function OfKey(calls: seq<Call>, key: string): seq<Call> {
    if calls == [] then [] else (if calls[0].key == key then [calls[0]] else []) + OfKey(calls[1..], key)
  }

  ghost function AnswersOf(calls: seq<Call>, answers: seq<Decision>, key: string): seq<Decision>
    requires |answers| == |calls|
  {
    if calls == [] then []
    else (if calls[0].key == key then [answers[0]] else []) + AnswersOf(calls[1..], answers[1..], key)
  }

  /** A key is answered in a shared history just as if its calls had been the only ones. */
  lemma {:induction false} KeysAreIndependent(
    shared: map<string, Window>, alone: map<string, Window>, limits: Limits, calls: seq<Call>, key: string)
    requires Lookup(shared, key) == Lookup(alone, key)
    ensures AnswersOf(calls, Answers(shared, limits, calls), key) == Answers(alone, limits, OfKey(calls, key))
    decreases |calls|
  {
    if calls != [] {
      var c := calls[0];
      var shared' := After(shared, limits, c);
      if c.key == key {
        KeysAreIndependent(shared', After(alone, limits, c), limits, calls[1..], key);
        assert OfKey(calls, key)[1..] == OfKey(calls[1..], key);
      } else {
        KeysAreIndependent(shared', alone, limits, calls[1..], key);
        assert OfKey(calls, key) == OfKey(calls[1..], key);
        assert Answers(shared, limits, calls)[1..] == Answers(shared', limits, calls[1..]);
      }
    }
  }

  // ---------- the limiter ----------

  class InMemoryRateLimiter {
    var windows: map<string, Window>
    const limits: Limits

    constructor (free: Option<int>, pro: Option<int>)
      ensures windows == map[]
      ensures limits == Limits(if free.Some? then free.value else 100, if pro.Some? then pro.value else 1000)
    {
      windows := map[];
      limits := Limits(if free.Some? then free.value else 100, if pro.Some? then pro.value else 1000);
    }

    method Check(apiKey: string, tier: Tier, nowMs: int) returns (d: Decision)
      modifies this`windows
      ensures windows == After(old(windows), limits, Call(apiKey, tier, nowMs))
      ensures [d] == Answers(old(windows), limits, [Call(apiKey, tier, nowMs)])
    {
      var limit := LimitOf(limits, tier);
      if apiKey !in windows || nowMs >= windows[apiKey].resetAt {
        var resetAt := nowMs + WINDOW_MS;
        windows := windows[apiKey := Window(1, resetAt)];
        return Decision(true, limit, limit - 1, resetAt);
      }
      var current := windows[apiKey];
      if current.count >= limit {
        assert windows == windows[apiKey := current];
        return Decision(false, limit, 0, current.resetAt);
      }
      current := current.(count := current.count + 1);
      windows := windows[apiKey := current];
      d := Decision(true, limit, limit - current.count, current.resetAt);
    }
  }
}
