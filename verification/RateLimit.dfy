/**
 The login rate limiter (`check_rate_limit`, backend/app/core/security.py): a map from
 keys to the times of the accepted attempts, pruned at each call.
 */
module RateLimit {
  /** The list comprehension: the entries after `cutoff`, in order. */
  function Recent(times: seq<real>, cutoff: real): seq<real> {
    if times == [] then []
    else Recent(times[..|times| - 1], cutoff) + (if times[|times| - 1] > cutoff then [times[|times| - 1]] else [])
  }

  type Table = map<string, seq<real>>

  function Times(t: Table, key: string): seq<real> {
    if key in t then t[key] else []
  }

  datatype Call = Call(key: string, now: real)

  /** The table after one call, and the answer. */
  function Next(t: Table, c: Call, limit: int, window: real): (Table, bool) {
    var kept := Recent(Times(t, c.key), c.now - window);
    if |kept| >= limit then (t[c.key := kept], false) else (t[c.key := kept + [c.now]], true)
  }

  /** A list of the table; the table and the caller share it. */
  class Attempts {
    var times: seq<real>

    constructor (times: seq<real>)
      ensures this.times == times
    {
      this.times := times;
    }
  }

  class Limiter {
    var attempts: map<string, Attempts>

    constructor ()
      ensures View() == map[]
    {
      attempts := map[];
    }

    ghost function View(): Table
      reads this, attempts.Values
    {
      map key | key in attempts :: attempts[key].times
    }

    method CheckRateLimit(key: string, now: real, limit: int, window: real) returns (ok: bool)
      modifies this
      ensures (View(), ok) == Next(old(View()), Call(key, now), limit, window)
    {
      var kept := Pruned(key, now - window);
      var list := new Attempts(kept);
      attempts := attempts[key := list];
      assert forall k :: k in old(attempts) && k != key ==> attempts[k] == old(attempts[k]) && attempts[k] != list;
      if |list.times| >= limit {
        assert View() == old(View())[key := kept];
        return false;
      }
      list.times := list.times + [now];
      assert View() == old(View())[key := kept + [now]];
      return true;
    }

    method Pruned(key: string, cutoff: real) returns (kept: seq<real>)
      ensures kept == Recent(Times(View(), key), cutoff)
    {
      kept := [];
      if key in attempts {
        var times := attempts[key].times;
        for i := 0 to |times|
          invariant kept == Recent(times[..i], cutoff)
        {
          assert times[..i + 1][..i] == times[..i];
          if times[i] > cutoff {
            kept := kept + [times[i]];
          }
        }
        assert times[..|times|] == times;
      }
    }
  }

  // ---------- runs ----------

  function Run(calls: seq<Call>, limit: int, window: real): Table {
    if calls == [] then map[] else Next(Run(calls[..|calls| - 1], limit, window), calls[|calls| - 1], limit, window).0
  }

  /** One key of a run: the times of its accepted calls, and its list in the table. */
  datatype KeyState = KeyState(accepted: seq<real>, list: seq<real>)

  predicate Admits(s: KeyState, now: real, limit: int, window: real) {
    |Recent(s.list, now - window)| < limit
  }

  function OnKey(s: KeyState, now: real, limit: int, window: real): KeyState {
    var kept := Recent(s.list, now - window);
    if Admits(s, now, limit, window) then KeyState(s.accepted + [now], kept + [now]) else s.(list := kept)
  }

  function Follow(calls: seq<Call>, key: string, limit: int, window: real): KeyState {
    if calls == [] then KeyState([], [])
    else
      var last := calls[|calls| - 1];
      var before := Follow(calls[..|calls| - 1], key, limit, window);
      if last.key == key then OnKey(before, last.now, limit, window) else before
  }

  lemma NextIsOnKey(t: Table, s: KeyState, c: Call, limit: int, window: real)
    requires Times(t, c.key) == s.list
    ensures Next(t, c, limit, window).1 == Admits(s, c.now, limit, window)
    ensures Times(Next(t, c, limit, window).0, c.key) == OnKey(s, c.now, limit, window).list
    ensures forall key :: key != c.key ==> Times(Next(t, c, limit, window).0, key) == Times(t, key)
  {
  }

  /** `Follow` keeps the list of the table, whatever calls on other keys lie between. */
  lemma {:induction false} FollowIsRun(calls: seq<Call>, key: string, limit: int, window: real)
    ensures Times(Run(calls, limit, window), key) == Follow(calls, key, limit, window).list
  {
    if calls != [] {
      var earlier, last := calls[..|calls| - 1], calls[|calls| - 1];
      FollowIsRun(earlier, key, limit, window);
      FollowIsRun(earlier, last.key, limit, window);
      NextIsOnKey(Run(earlier, limit, window), Follow(earlier, last.key, limit, window), last, limit, window);
    }
  }

  /** The answer of the limiter after a run is the admission by the state of the key. */
  lemma AnswerIsAdmission(calls: seq<Call>, c: Call, limit: int, window: real)
    ensures Next(Run(calls, limit, window), c, limit, window).1 ==
            Admits(Follow(calls, c.key, limit, window), c.now, limit, window)
  {
    FollowIsRun(calls, c.key, limit, window);
    NextIsOnKey(Run(calls, limit, window), Follow(calls, c.key, limit, window), c, limit, window);
  }

  /** The clock does not go back. */
  predicate Monotone(calls: seq<Call>) {
    forall i, j :: 0 <= i <= j < |calls| ==> calls[i].now <= calls[j].now
  }

  predicate Sorted(times: seq<real>) {
    forall i, j :: 0 <= i <= j < |times| ==> times[i] <= times[j]
  }

  /** How many times lie in `(from, to]`. */
  function CountIn(times: seq<real>, from: real, to: real): nat {
    if times == [] then 0
    else CountIn(times[..|times| - 1], from, to) + (if from < times[|times| - 1] <= to then 1 else 0)
  }

  // ---------- sorted lists ----------

  lemma {:induction false} NoneRecent(times: seq<real>, cutoff: real)
    requires forall j :: 0 <= j < |times| ==> times[j] <= cutoff
    ensures Recent(times, cutoff) == []
  {
    if times != [] {
      NoneRecent(times[..|times| - 1], cutoff);
    }
  }

  /** Pruning a sorted list keeps a suffix. */
  lemma {:induction false} RecentIsSuffix(times: seq<real>, cutoff: real) returns (k: nat)
    requires Sorted(times)
    ensures k <= |times| && Recent(times, cutoff) == times[k..]
    ensures (forall j :: 0 <= j < k ==> times[j] <= cutoff) && (forall j :: k <= j < |times| ==> times[j] > cutoff)
  {
    if times == [] || times[|times| - 1] <= cutoff {
      NoneRecent(times, cutoff);
      k := |times|;
    } else {
      var front := times[..|times| - 1];
      k := RecentIsSuffix(front, cutoff);
      assert times[k..] == front[k..] + [times[|times| - 1]];
    }
  }

  lemma {:induction false} CountUpTo(times: seq<real>, from: real, to: real, k: nat)
    requires k <= |times|
    requires (forall j :: 0 <= j < k ==> times[j] <= from) && (forall j :: k <= j < |times| ==> from < times[j] <= to)
    ensures CountIn(times, from, to) == |times| - k
  {
    if times != [] {
      if k == |times| {
        CountUpTo(times[..|times| - 1], from, to, k - 1);
      } else {
        CountUpTo(times[..|times| - 1], from, to, k);
      }
    }
  }

  // ---------- what every run keeps ----------

  /** Any two accepted times with `limit - 1` or more between them are a window apart. */
  ghost predicate Spaced(accepted: seq<real>, limit: int, window: real) {
    && (limit <= 0 ==> accepted == [])
    && (limit > 0 ==> forall i, j :: 0 <= i && i + limit <= j < |accepted| ==> accepted[i] <= accepted[j] - window)
  }

  /** The list is the accepted times without the first `n`, which are out of the window; at most `limit` are left. */
  ghost predicate Keeps(s: KeyState, n: nat, now: real, limit: int, window: real) {
    && Sorted(s.accepted) && (forall j :: 0 <= j < |s.accepted| ==> s.accepted[j] <= now)
    && n <= |s.accepted| && s.list == s.accepted[n..] && (forall j :: 0 <= j < n ==> s.accepted[j] <= now - window)
    && (limit > 0 ==> |s.list| <= limit) && Spaced(s.accepted, limit, window)
  }

  /** Pruning what is left of a sorted list. */
  lemma RecentOfRest(accepted: seq<real>, n: nat, cutoff: real) returns (m: nat)
    requires Sorted(accepted) && n <= |accepted|
    ensures n <= m <= |accepted| && Recent(accepted[n..], cutoff) == accepted[m..]
    ensures (forall j :: n <= j < m ==> accepted[j] <= cutoff)
            && (forall j :: m <= j < |accepted| ==> accepted[j] > cutoff)
  {
    var rest := accepted[n..];
    var k := RecentIsSuffix(rest, cutoff);
    m := n + k;
    assert rest[k..] == accepted[m..];
    assert forall j :: n <= j < |accepted| ==> accepted[j] == rest[j - n];
  }

  lemma AdmitKeeps(s: KeyState, m: nat, now: real, limit: int, window: real)
    requires Keeps(s, m, now, limit, window) && |s.list| < limit
    ensures Keeps(KeyState(s.accepted + [now], s.list + [now]), m, now, limit, window)
  {
    assert forall i :: 0 <= i && i + limit <= |s.accepted| ==> s.accepted[i] <= now - window;
    assert (s.accepted + [now])[m..] == s.list + [now];
  }

  /** One call on the key: `m` accepted times are now out of the window. */
  lemma CallKeeps(s: KeyState, n: nat, now: real, limit: int, window: real) returns (m: nat)
    requires Keeps(s, n, now, limit, window)
    ensures Keeps(OnKey(s, now, limit, window), m, now, limit, window)
    ensures m <= |s.accepted| && Recent(s.list, now - window) == s.accepted[m..]
    ensures (forall j :: 0 <= j < m ==> s.accepted[j] <= now - window)
            && (forall j :: m <= j < |s.accepted| ==> s.accepted[j] > now - window)
  {
    m := RecentOfRest(s.accepted, n, now - window);
    var pruned := s.(list := s.accepted[m..]);
    assert Keeps(pruned, m, now, limit, window);
    if |pruned.list| < limit {
      AdmitKeeps(pruned, m, now, limit, window);
    }
  }

  lemma LaterKeeps(s: KeyState, n: nat, now: real, later: real, limit: int, window: real)
    requires Keeps(s, n, now, limit, window) && now <= later
    ensures Keeps(s, n, later, limit, window)
  {
  }

  lemma {:induction false} RunKeeps(calls: seq<Call>, key: string, now: real, limit: int, window: real) returns (n: nat)
    requires Monotone(calls) && (calls != [] ==> calls[|calls| - 1].now <= now)
    ensures Keeps(Follow(calls, key, limit, window), n, now, limit, window)
  {
    n := 0;
    if calls != [] {
      var earlier, last := calls[..|calls| - 1], calls[|calls| - 1];
      n := RunKeeps(earlier, key, last.now, limit, window);
      if last.key == key {
        n := CallKeeps(Follow(earlier, key, limit, window), n, last.now, limit, window);
      }
      LaterKeeps(Follow(calls, key, limit, window), n, last.now, now, limit, window);
    }
  }

  // ---------- the guarantees ----------

  lemma {:induction false} SameSplit(times: seq<real>, k: nat, m: nat, cutoff: real)
    requires k <= |times| && (forall j :: 0 <= j < k ==> times[j] <= cutoff)
             && (forall j :: k <= j < |times| ==> times[j] > cutoff)
    requires m <= |times| && (forall j :: 0 <= j < m ==> times[j] <= cutoff)
             && (forall j :: m <= j < |times| ==> times[j] > cutoff)
    ensures k == m
  {
    if times != [] {
      var front := times[..|times| - 1];
      if times[|times| - 1] > cutoff {
        assert k <= |front| && m <= |front|;
        SameSplit(front, k, m, cutoff);
      }
    }
  }

  lemma SplitIsRecent(times: seq<real>, m: nat, cutoff: real)
    requires Sorted(times) && m <= |times|
    requires (forall j :: 0 <= j < m ==> times[j] <= cutoff) && (forall j :: m <= j < |times| ==> times[j] > cutoff)
    ensures Recent(times, cutoff) == times[m..]
  {
    var k := RecentIsSuffix(times, cutoff);
    SameSplit(times, k, m, cutoff);
  }

  lemma KeptIsRecent(t: KeyState, m: nat, now: real, limit: int, window: real)
    requires Keeps(t, m, now, limit, window) && forall j :: m <= j < |t.accepted| ==> t.accepted[j] > now - window
    ensures t.list == Recent(t.accepted, now - window)
  {
    SplitIsRecent(t.accepted, m, now - window);
  }

  lemma OnKeyIsRecent(s: KeyState, m: nat, now: real, limit: int, window: real)
    requires window > 0.0 && m <= |s.accepted| && forall j :: m <= j < |s.accepted| ==> s.accepted[j] > now - window
    ensures forall j :: m <= j < |OnKey(s, now, limit, window).accepted| ==>
            OnKey(s, now, limit, window).accepted[j] > now - window
  {
  }

  lemma CallWindow(s: KeyState, n: nat, now: real, limit: int, window: real)
    requires Keeps(s, n, now, limit, window) && window > 0.0
    ensures OnKey(s, now, limit, window).list == Recent(OnKey(s, now, limit, window).accepted, now - window)
  {
    var m := CallKeeps(s, n, now, limit, window);
    OnKeyIsRecent(s, m, now, limit, window);
    KeptIsRecent(OnKey(s, now, limit, window), m, now, limit, window);
  }

  lemma CallCount(s: KeyState, n: nat, now: real, limit: int, window: real)
    requires Keeps(s, n, now, limit, window)
    ensures Admits(s, now, limit, window) <==> CountIn(s.accepted, now - window, now) < limit
    ensures !Admits(s, now, limit, window) && limit >= 0 ==> |OnKey(s, now, limit, window).list| == limit
  {
    var m := CallKeeps(s, n, now, limit, window);
    CountUpTo(s.accepted, now - window, now, m);
  }

  /**
   A call at `now` after any run leaves in the list of its key exactly the accepted
   attempts of the current window.
   */
  lemma ListIsCurrentWindow(calls: seq<Call>, key: string, now: real, limit: int, window: real)
    requires Monotone(calls) && (calls != [] ==> calls[|calls| - 1].now <= now) && window > 0.0
    ensures var after := OnKey(Follow(calls, key, limit, window), now, limit, window);
            after.list == Recent(after.accepted, now - window)
  {
    var n := RunKeeps(calls, key, now, limit, window);
    CallWindow(Follow(calls, key, limit, window), n, now, limit, window);
  }

  /**
   It is accepted exactly when fewer than `limit` accepted attempts lie in the window that
   ends now; refused, it leaves a list of exactly `limit`.
   */
  lemma AcceptedExactlyWhen(calls: seq<Call>, key: string, now: real, limit: int, window: real)
    requires Monotone(calls) && (calls != [] ==> calls[|calls| - 1].now <= now)
    ensures var s := Follow(calls, key, limit, window);
            && (Admits(s, now, limit, window) <==> CountIn(s.accepted, now - window, now) < limit)
            && (!Admits(s, now, limit, window) && limit >= 0 ==> |OnKey(s, now, limit, window).list| == limit)
  {
    var n := RunKeeps(calls, key, now, limit, window);
    CallCount(Follow(calls, key, limit, window), n, now, limit, window);
  }

  lemma {:induction false} SpacedCount(times: seq<real>, from: real, to: real, limit: int)
    requires Sorted(times) && limit > 0 && Spaced(times, limit, to - from)
    ensures CountIn(times, from, to) <= limit
  {
    if times != [] {
      var front, last := times[..|times| - 1], times[|times| - 1];
      SpacedCount(front, from, to, limit);
      if from < last <= to {
        assert times[0..] == times;
        var k := RecentOfRest(times, 0, from);
        CountUpTo(times, from, to, k);
        assert |times| > limit ==> times[|times| - 1 - limit] <= from;
      }
    }
  }

  lemma KeptCount(s: KeyState, n: nat, now: real, limit: int, window: real, to: real)
    requires Keeps(s, n, now, limit, window)
    ensures CountIn(s.accepted, to - window, to) <= if limit > 0 then limit else 0
  {
    if limit > 0 {
      SpacedCount(s.accepted, to - window, to, limit);
    }
  }

  /** Over every run, in any window of the given length, at most `limit` attempts on a key are accepted. */
  lemma AtMostLimitInAnyWindow(calls: seq<Call>, key: string, limit: int, window: real, to: real)
    requires Monotone(calls)
    ensures CountIn(Follow(calls, key, limit, window).accepted, to - window, to) <= if limit > 0 then limit else 0
  {
    var now := if calls == [] then to else calls[|calls| - 1].now;
    var n := RunKeeps(calls, key, now, limit, window);
    KeptCount(Follow(calls, key, limit, window), n, now, limit, window, to);
  }
}
