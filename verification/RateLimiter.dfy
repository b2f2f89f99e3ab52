/** The sliding-window limit on alerts to one chat (pokerapp/alert_bridge.py, `TelegramRateLimiter`). */
module RateLimiter {
  import opened Basics

  datatype Limits = Limits(maxPerChat: int, window: real)

  type Timestamps = map<string, seq<real>>

  datatype Call = Call(chat: string, now: real)

  function Of(s: Timestamps, chat: string): seq<real> {
    if chat in s then s[chat] else []
  }

  /** The timestamps that are younger than the window. */
  function Young(times: seq<real>, now: real, window: real): seq<real> {
    if times == [] then []
    else if now - times[0] < window then [times[0]] + Young(times[1..], now, window)
    else Young(times[1..], now, window)
  }

  /** `check_limit` */
  function Check(h: Limits, s: Timestamps, chat: string, now: real): (Timestamps, bool) {
    var young := Young(Of(s, chat), now, h.window);
    if |young| >= h.maxPerChat then (s[chat := young], false) else (s[chat := young + [now]], true)
  }

  class Limiter {
    const limits: Limits
    var timestamps: Timestamps

    constructor (limits: Limits)
      ensures this.limits == limits && timestamps == map[]
    {
      this.limits, timestamps := limits, map[];
    }

    method CheckLimit(chat: string, now: real) returns (allowed: bool)
      modifies this
      ensures timestamps == Check(limits, old(timestamps), chat, now).0
      ensures allowed == Check(limits, old(timestamps), chat, now).1
    {
      var times := Of(timestamps, chat);
      var young := [];
      for i := 0 to |times|
        invariant young + Young(times[i..], now, limits.window) == Young(times, now, limits.window)
      {
        assert times[i..][1..] == times[i + 1..];
        if now - times[i] < limits.window {
          young := young + [times[i]];
        }
      }
      assert young + [] == young;
      timestamps := timestamps[chat := young];
      if |young| >= limits.maxPerChat {
        return false;
      }
      timestamps := timestamps[chat := young + [now]];
      return true;
    }
  }

  // ---------------------------------------------------------------------------------------------
  // Runs
  // ---------------------------------------------------------------------------------------------

  function After(h: Limits, calls: seq<Call>): Timestamps {
    if calls == [] then map[]
    else
      var last := calls[|calls| - 1];
      Check(h, After(h, calls[..|calls| - 1]), last.chat, last.now).0
  }

  /** The times of all calls for `chat` that were allowed. */
  function Allowed(h: Limits, calls: seq<Call>, chat: string): seq<real> {
    if calls == [] then []
    else
      var before, last := calls[..|calls| - 1], calls[|calls| - 1];
      if last.chat == chat && Check(h, After(h, before), chat, last.now).1
      then Allowed(h, before, chat) + [last.now]
      else Allowed(h, before, chat)
  }

  /** The clock never goes back. */
  ghost predicate Monotone(calls: seq<Call>) {
    forall i, j :: 0 <= i < j < |calls| ==> calls[i].now <= calls[j].now
  }

  /** How many of `times` lie in the half-open interval from `start` of length `window`. */
  function CountIn(times: seq<real>, start: real, window: real): nat {
    if times == [] then 0
    else
      CountIn(times[..|times| - 1], start, window)
      + (if start <= times[|times| - 1] < start + window then 1 else 0)
  }

  /** The young timestamps are exactly those less than a window ago, each as often as it was noted. */
  lemma {:induction false} YoungAreWithinTheWindow(times: seq<real>, now: real, window: real, t: real)
    ensures multiset(Young(times, now, window))[t] == if now - t < window then multiset(times)[t] else 0
  {
    if times != [] {
      YoungAreWithinTheWindow(times[1..], now, window, t);
      assert times == [times[0]] + times[1..];
    }
  }

  lemma {:induction false} YoungAppend(a: seq<real>, b: seq<real>, now: real, window: real)
    ensures Young(a + b, now, window) == Young(a, now, window) + Young(b, now, window)
  {
    if a == [] {
      assert a + b == b;
    } else {
      YoungAppend(a[1..], b, now, window);
      var rest, more := Young(a[1..], now, window), Young(b, now, window);
      assert (a + b)[0] == a[0] && (a + b)[1..] == a[1..] + b;
      assert ([a[0]] + rest) + more == [a[0]] + (rest + more);
    }
  }

  lemma YoungAndOneMore(a: seq<real>, t: real, now: real, window: real)
    ensures Young(a + [t], now, window) ==
              if now - t < window then Young(a, now, window) + [t] else Young(a, now, window)
  {
    YoungAppend(a, [t], now, window);
  }

  /** What was dropped earlier would be dropped later. */
  lemma {:induction false} YoungTwice(times: seq<real>, earlier: real, now: real, window: real)
    requires earlier <= now
    ensures Young(Young(times, earlier, window), now, window) == Young(times, now, window)
  {
    if times != [] {
      YoungTwice(times[1..], earlier, now, window);
      if earlier - times[0] < window {
        assert Young(times, earlier, window)[1..] == Young(times[1..], earlier, window);
      }
    }
  }

  /** With a clock that never goes back, the pruned list is as good as the whole history. */
  lemma {:induction false} PrunedListSuffices(h: Limits, calls: seq<Call>, chat: string, now: real)
    requires Monotone(calls + [Call(chat, now)])
    ensures Young(Of(After(h, calls), chat), now, h.window) == Young(Allowed(h, calls, chat), now, h.window)
  {
    if calls != [] {
      var before, last := calls[..|calls| - 1], calls[|calls| - 1];
      var all := calls + [Call(chat, now)];
      assert last == all[|calls| - 1] && all[|calls|] == Call(chat, now);
      forall i, j | 0 <= i < j < |calls|
        ensures (before + [Call(chat, now)])[i].now <= (before + [Call(chat, now)])[j].now
      {
        assert (before + [Call(chat, now)])[i] == all[i];
        assert (before + [Call(chat, now)])[j] == all[if j < |before| then j else |calls|];
      }
      PrunedListSuffices(h, before, chat, now);
      if last.chat == chat {
        var kept := Of(After(h, before), chat);
        YoungTwice(kept, last.now, now, h.window);
        YoungAppend(Young(kept, last.now, h.window), [last.now], now, h.window);
        YoungAppend(Allowed(h, before, chat), [last.now], now, h.window);
      }
    }
  }

  /** A call is allowed exactly when fewer than the maximum were allowed within the last window. */
  lemma {:induction false} AllowedExactlyWhen(h: Limits, calls: seq<Call>, chat: string, now: real)
    requires Monotone(calls + [Call(chat, now)])
    ensures Check(h, After(h, calls), chat, now).1 <==> |Young(Allowed(h, calls, chat), now, h.window)| < h.maxPerChat
  {
    PrunedListSuffices(h, calls, chat, now);
  }

  /** What lies in an interval that `now` has not left is still young. */
  lemma {:induction false} CountedAreYoung(times: seq<real>, start: real, now: real, window: real)
    requires now < start + window
    ensures CountIn(times, start, window) <= |Young(times, now, window)|
  {
    if times != [] {
      var n := |times| - 1;
      CountedAreYoung(times[..n], start, now, window);
      YoungAppend(times[..n], [times[n]], now, window);
      assert times[..n] + [times[n]] == times;
    }
  }

  // ---------------------------------------------------------------------------------------------
  // Any clock
  // ---------------------------------------------------------------------------------------------

  /** The time of call `i` is still young at every later call for the same chat. */
  ghost predicate StaysYoung(h: Limits, calls: seq<Call>, i: nat)
    requires i < |calls|
  {
    forall j :: i < j < |calls| && calls[j].chat == calls[i].chat ==> calls[j].now - calls[i].now < h.window
  }

  /** Call `i` is one for `chat` and is allowed. */
  predicate IsAllowed(h: Limits, calls: seq<Call>, chat: string, i: nat)
    requires i < |calls|
  {
    calls[i].chat == chat && Check(h, After(h, calls[..i]), chat, calls[i].now).1
  }

  /** The allowed times for `chat` among the first `n` calls, and those of them that stay young throughout `calls`. */
  ghost function AllowedTo(h: Limits, calls: seq<Call>, chat: string, n: nat, lasting: bool): seq<real>
    requires n <= |calls|
  {
    if n == 0 then []
    else if IsAllowed(h, calls, chat, n - 1) && (lasting ==> StaysYoung(h, calls, n - 1))
    then AllowedTo(h, calls, chat, n - 1, lasting) + [calls[n - 1].now]
    else AllowedTo(h, calls, chat, n - 1, lasting)
  }

  /** How many allowed times are young at `now` although an intermediate reading made the limiter drop them. */
  ghost function Forgotten(h: Limits, calls: seq<Call>, chat: string, now: real, n: nat): nat
    requires n <= |calls|
  {
    if n == 0 then 0
    else
      Forgotten(h, calls, chat, now, n - 1)
      + (if IsAllowed(h, calls, chat, n - 1) && !StaysYoung(h, calls, n - 1) && now - calls[n - 1].now < h.window
         then 1 else 0)
  }

  lemma {:induction false} AllowedIsAllowedTo(h: Limits, calls: seq<Call>, chat: string, n: nat)
    requires n <= |calls|
    ensures AllowedTo(h, calls, chat, n, false) == Allowed(h, calls[..n], chat)
  {
    if n > 0 {
      AllowedIsAllowedTo(h, calls, chat, n - 1);
      assert calls[..n][..n - 1] == calls[..n - 1];
    }
  }

  lemma StaysYoungForOneMore(h: Limits, calls: seq<Call>, c: Call, i: nat)
    requires i < |calls|
    ensures StaysYoung(h, calls + [c], i) <==>
              StaysYoung(h, calls, i) && (c.chat == calls[i].chat ==> c.now - calls[i].now < h.window)
  {
    var all := calls + [c];
    if StaysYoung(h, all, i) {
      assert all[|calls|] == c;
      forall j | i < j < |calls| && calls[j].chat == calls[i].chat ensures calls[j].now - calls[i].now < h.window {
        assert all[j] == calls[j];
      }
    }
  }

  lemma SameDecision(h: Limits, calls: seq<Call>, c: Call, chat: string, i: nat)
    requires i < |calls|
    ensures (calls + [c])[i] == calls[i]
    ensures IsAllowed(h, calls + [c], chat, i) == IsAllowed(h, calls, chat, i)
  {
    assert (calls + [c])[..i] == calls[..i];
  }

  /** One more call for the chat leaves of the lasting times those that are young at it; one for another chat, all. */
  lemma {:induction false} LastingAfterOneMore(h: Limits, calls: seq<Call>, c: Call, chat: string, n: nat)
    requires n <= |calls|
    ensures AllowedTo(h, calls + [c], chat, n, true) ==
              if c.chat == chat then Young(AllowedTo(h, calls, chat, n, true), c.now, h.window)
              else AllowedTo(h, calls, chat, n, true)
  {
    if n > 0 {
      LastingAfterOneMore(h, calls, c, chat, n - 1);
      StaysYoungForOneMore(h, calls, c, n - 1);
      SameDecision(h, calls, c, chat, n - 1);
      YoungAndOneMore(AllowedTo(h, calls, chat, n - 1, true), calls[n - 1].now, c.now, h.window);
    }
  }

  /** Whatever the clock does, the stored list is the allowed times that were young at every later call of the chat. */
  lemma {:induction false} StoredAreTheLasting(h: Limits, calls: seq<Call>, chat: string)
    ensures Of(After(h, calls), chat) == AllowedTo(h, calls, chat, |calls|, true)
  {
    if calls != [] {
      var n := |calls| - 1;
      var before, last := calls[..n], calls[n];
      assert before + [last] == calls;
      StoredAreTheLasting(h, before, chat);
      LastingAfterOneMore(h, before, last, chat, n);
      assert StaysYoung(h, calls, n);
    }
  }

  lemma {:induction false} YoungAreStoredOrForgotten(h: Limits, calls: seq<Call>, chat: string, now: real, n: nat)
    requires n <= |calls|
    ensures |Young(AllowedTo(h, calls, chat, n, false), now, h.window)| ==
              |Young(AllowedTo(h, calls, chat, n, true), now, h.window)| + Forgotten(h, calls, chat, now, n)
    ensures Forgotten(h, calls, chat, now, n) == 0 ==>
              Young(AllowedTo(h, calls, chat, n, false), now, h.window) ==
              Young(AllowedTo(h, calls, chat, n, true), now, h.window)
  {
    if n > 0 {
      YoungAreStoredOrForgotten(h, calls, chat, now, n - 1);
      YoungAppend(AllowedTo(h, calls, chat, n - 1, false), [calls[n - 1].now], now, h.window);
      YoungAppend(AllowedTo(h, calls, chat, n - 1, true), [calls[n - 1].now], now, h.window);
    }
  }

  /** Whatever the clock does: the pruned list shows the limiter exactly the young part of the whole history if and only
      if no young time was dropped, and the decision differs from the one on the whole history exactly when the times
      dropped make the difference. */
  lemma PruningIsExactExactlyWhen(h: Limits, calls: seq<Call>, chat: string, now: real)
    ensures var kept := Young(Of(After(h, calls), chat), now, h.window);
            var all := Young(Allowed(h, calls, chat), now, h.window);
            var forgotten := Forgotten(h, calls, chat, now, |calls|);
            && (kept == all <==> forgotten == 0)
            && (Check(h, After(h, calls), chat, now).1 != (|all| < h.maxPerChat) <==>
                  |kept| < h.maxPerChat <= |kept| + forgotten)
  {
    StoredAreTheLasting(h, calls, chat);
    assert calls[..|calls|] == calls;
    AllowedIsAllowedTo(h, calls, chat, |calls|);
    YoungAreStoredOrForgotten(h, calls, chat, now, |calls|);
  }

  /** Call `n` is allowed although the whole history would refuse it. */
  ghost predicate Misjudged(h: Limits, calls: seq<Call>, chat: string, n: nat)
    requires n < |calls|
  {
    IsAllowed(h, calls, chat, n) && |Young(Allowed(h, calls[..n], chat), calls[n].now, h.window)| >= h.maxPerChat
  }

  /** Whatever the clock does: unless a call is misjudged, no half-open interval as long as the window contains more
      allowed calls for one chat than the limit. */
  lemma {:induction false} WindowBoundUnlessMisjudged(h: Limits, calls: seq<Call>, chat: string, start: real)
    requires forall n :: 0 <= n < |calls| ==> !Misjudged(h, calls, chat, n)
    ensures CountIn(Allowed(h, calls, chat), start, h.window) <= Max0(h.maxPerChat)
  {
    if calls != [] {
      var last := |calls| - 1;
      forall n | 0 <= n < last ensures !Misjudged(h, calls[..last], chat, n) {
        assert calls[..last][..n] == calls[..n] && !Misjudged(h, calls, chat, n);
      }
      WindowBoundUnlessMisjudged(h, calls[..last], chat, start);
      if IsAllowed(h, calls, chat, last) {
        var times := Allowed(h, calls[..last], chat);
        assert (times + [calls[last].now])[..|times|] == times;
        if start <= calls[last].now < start + h.window {
          assert !Misjudged(h, calls, chat, last);
          CountedAreYoung(times, start, calls[last].now, h.window);
        }
      }
    }
  }

  /** With a clock that never goes back no call is misjudged: no half-open interval as long as the window ever contains
      more allowed calls for one chat than the limit. */
  lemma WindowBound(h: Limits, calls: seq<Call>, chat: string, start: real)
    requires Monotone(calls)
    ensures CountIn(Allowed(h, calls, chat), start, h.window) <= Max0(h.maxPerChat)
  {
    forall n | 0 <= n < |calls| ensures !Misjudged(h, calls, chat, n) {
      if IsAllowed(h, calls, chat, n) {
        assert calls[..n] + [Call(chat, calls[n].now)] == calls[..n + 1];
        AllowedExactlyWhen(h, calls[..n], chat, calls[n].now);
      }
    }
    WindowBoundUnlessMisjudged(h, calls, chat, start);
  }

  lemma OneMore(h: Limits, calls: seq<Call>, c: Call)
    ensures var (s, ok) := Check(h, After(h, calls), c.chat, c.now);
            && After(h, calls + [c]) == s
            && Allowed(h, calls + [c], c.chat) == Allowed(h, calls, c.chat) + (if ok then [c.now] else [])
  {
    assert (calls + [c])[..|calls|] == calls;
    assert Allowed(h, calls, c.chat) + [] == Allowed(h, calls, c.chat);
  }

  lemma CountOneMore(times: seq<real>, t: real, start: real, window: real)
    ensures CountIn(times + [t], start, window) ==
              CountIn(times, start, window) + (if start <= t < start + window then 1 else 0)
  {
    assert (times + [t])[..|times|] == times;
  }

  /** A clock that goes back can break the bound: after one reading from the future two times that are needed again are
      forgotten. */
  lemma ClockGoingBackBreaksTheBound()
    ensures var calls := [Call("c", 0.0), Call("c", 1.0)] + [Call("c", 20.0)] + [Call("c", 2.0)];
            CountIn(Allowed(Limits(2, 10.0), calls, "c"), 0.0, 10.0) == 3
  {
    var h := Limits(2, 10.0);
    var c0, c1, c2, c3 := Call("c", 0.0), Call("c", 1.0), Call("c", 20.0), Call("c", 2.0);
    OneMore(h, [], c0);
    OneMore(h, [c0], c1);
    OneMore(h, [c0, c1], c2);
    OneMore(h, [c0, c1] + [c2], c3);
    assert [] + [c0] == [c0] && [c0] + [c1] == [c0, c1];
    assert Of(After(h, [c0]), "c") == [0.0];
    assert Young([0.0], 1.0, 10.0) == [0.0];
    assert Of(After(h, [c0, c1]), "c") == [0.0, 1.0] == Allowed(h, [c0, c1], "c");
    assert Young([0.0, 1.0], 20.0, 10.0) == [];
    assert Of(After(h, [c0, c1] + [c2]), "c") == [20.0];
    assert Young([20.0], 2.0, 10.0) == [20.0];
    CountOneMore([], 0.0, 0.0, 10.0);
    CountOneMore([0.0], 1.0, 0.0, 10.0);
    CountOneMore([0.0, 1.0], 20.0, 0.0, 10.0);
    CountOneMore([0.0, 1.0] + [20.0], 2.0, 0.0, 10.0);
    assert [] + [0.0] == [0.0] && [0.0] + [1.0] == [0.0, 1.0];
  }
}
