/**
 The `check` command of scripts/backend-watchdog.sh: one bounded health check that reads
 and rewrites the fail count and the time of the last completed restart.
 */
module Watchdog {
  import opened Wrappers

  /** FAIL_THRESHOLD and COOLDOWN_SECONDS. */
  datatype Settings = Settings(threshold: int, cooldown: int)

  /** One invocation: whether curl saw a 200, the clock, and whether the restart command would succeed. */
  datatype Check = Check(healthy: bool, now: int, restartWorks: bool)

  /** The two state files; a missing one counts as zero. */
  datatype State = State(fails: int, last: int)

  predicate Issues(s: State, c: Check, p: Settings) {
    !c.healthy && s.fails + 1 >= p.threshold && c.now - s.last >= p.cooldown
  }

  /** A restart command that fails ends the script (`set -e`) before the state files are written. */
  function After(s: State, c: Check, p: Settings): State {
    if c.healthy then s.(fails := 0)
    else if Issues(s, c, p) && c.restartWorks then State(0, c.now)
    else s.(fails := s.fails + 1)
  }

  class Files {
    var failCount: Option<int>
    var lastRestart: Option<int>

    ghost function View(): State
      reads this
    {
      State(failCount.GetOr(0), lastRestart.GetOr(0))
    }

    constructor ()
      ensures View() == State(0, 0)
    {
      failCount, lastRestart := None, None;
    }

    method RunCheck(c: Check, p: Settings) returns (issued: bool)
      modifies this
      ensures View() == After(old(View()), c, p)
      ensures issued == Issues(old(View()), c, p)
    {
      issued := false;
      if c.healthy {
        failCount := Some(0);
        return;
      }
      var current := failCount.GetOr(0) + 1;
      failCount := Some(current);
      if current < p.threshold {
        return;
      }
      var last := lastRestart.GetOr(0);
      if c.now - last < p.cooldown {
        return;
      }
      issued := true;
      if !c.restartWorks {
        return;
      }
      lastRestart := Some(c.now);
      failCount := Some(0);
    }
  }

  // ---------- runs ----------

  /** The state before check `i` of a run that begins without state files. */
  function Before(checks: seq<Check>, i: nat, p: Settings): State
    requires i <= |checks|
  {
    if i == 0 then State(0, 0) else After(Before(checks, i - 1, p), checks[i - 1], p)
  }

  predicate IssuedAt(checks: seq<Check>, i: nat, p: Settings)
    requires i < |checks|
  {
    Issues(Before(checks, i, p), checks[i], p)
  }

  predicate CompletedAt(checks: seq<Check>, i: nat, p: Settings)
    requires i < |checks|
  {
    IssuedAt(checks, i, p) && checks[i].restartWorks
  }

  /** Check `j` is unhealthy, and no restart completes at it. */
  predicate Fails(checks: seq<Check>, j: nat, p: Settings)
    requires j < |checks|
  {
    !checks[j].healthy && !CompletedAt(checks, j, p)
  }

  /** Check `i` ends at least `n` unhealthy checks in a row, none of the earlier ones with a completed restart. */
  ghost predicate EndsStreak(checks: seq<Check>, i: nat, n: int, p: Settings)
    requires i < |checks|
  {
    n <= i + 1 && !checks[i].healthy && forall j :: 0 <= j < i && i + 1 - n <= j ==> Fails(checks, j, p)
  }

  /** The time of the last completed restart before check `i`: zero when there is none. */
  ghost predicate IsLastCompleted(checks: seq<Check>, i: nat, t: int, p: Settings)
    requires i <= |checks|
  {
    || (t == 0 && forall k :: 0 <= k < i ==> !CompletedAt(checks, k, p))
    || exists k :: 0 <= k < i && CompletedAt(checks, k, p) && t == checks[k].now && forall j :: k < j < i ==>
       !CompletedAt(checks, j, p)
  }

  // ---------- what the state files mean ----------

  /** The fail count is the length of the streak of failing checks, not longer and not shorter. */
  lemma {:induction false} FailCountIsStreak(checks: seq<Check>, i: nat, p: Settings)
    requires i <= |checks|
    ensures var f := Before(checks, i, p).fails;
            && 0 <= f <= i && (forall j :: i - f <= j < i ==> Fails(checks, j, p))
            && (f < i ==> !Fails(checks, i - f - 1, p))
  {
    if i > 0 {
      FailCountIsStreak(checks, i - 1, p);
    }
  }

  lemma {:induction false} LastRestartIsCompleted(checks: seq<Check>, i: nat, p: Settings)
    requires i <= |checks|
    ensures IsLastCompleted(checks, i, Before(checks, i, p).last, p)
  {
    if i > 0 {
      LastRestartIsCompleted(checks, i - 1, p);
      var t := Before(checks, i - 1, p).last;
      if !CompletedAt(checks, i - 1, p) && !(forall k :: 0 <= k < i - 1 ==> !CompletedAt(checks, k, p)) {
        var k :| 0 <= k < i - 1 && CompletedAt(checks, k, p) && t == checks[k].now && forall j :: k < j < i - 1 ==>
            !CompletedAt(checks, j, p);
        assert forall j :: k < j < i ==> !CompletedAt(checks, j, p);
      }
    }
  }

  // ---------- the guarantees ----------

  /**
   Over every run, a restart is issued exactly at a check that ends a streak of at least
   the threshold and finds the last completed restart a cooldown ago.
   */
  lemma IssuedExactlyWhen(checks: seq<Check>, i: nat, last: int, p: Settings)
    requires i < |checks| && IsLastCompleted(checks, i, last, p)
    ensures IssuedAt(checks, i, p) <==> EndsStreak(checks, i, p.threshold, p) && checks[i].now - last >= p.cooldown
  {
    FailCountIsStreak(checks, i, p);
    LastRestartIsCompleted(checks, i, p);
    LastIsUnique(checks, i, last, Before(checks, i, p).last, p);
    var f := Before(checks, i, p).fails;
    if f + 1 < p.threshold && f < i {
      assert !Fails(checks, i - f - 1, p);
    }
  }

  lemma LastIsUnique(checks: seq<Check>, i: nat, a: int, b: int, p: Settings)
    requires i <= |checks| && IsLastCompleted(checks, i, a, p) && IsLastCompleted(checks, i, b, p)
    ensures a == b
  {
    if exists k :: 0 <= k < i && CompletedAt(checks, k, p) {
      var k :| 0 <= k < i && CompletedAt(checks, k, p) && a == checks[k].now && forall j :: k < j < i ==>
          !CompletedAt(checks, j, p);
      var m :| 0 <= m < i && CompletedAt(checks, m, p) && b == checks[m].now && forall j :: m < j < i ==>
          !CompletedAt(checks, j, p);
      assert k == m;
    }
  }

  /** Any two completed restarts of a run are a cooldown apart. */
  lemma {:induction false} CompletedRestartsApart(checks: seq<Check>, i: nat, j: nat, p: Settings)
    requires i < j < |checks| && CompletedAt(checks, i, p) && CompletedAt(checks, j, p) && p.cooldown >= 0
    ensures checks[j].now - checks[i].now >= p.cooldown
    decreases j
  {
    LastRestartIsCompleted(checks, j, p);
    var last := Before(checks, j, p).last;
    var k :| 0 <= k < j && CompletedAt(checks, k, p) && last == checks[k].now && forall m :: k < m < j ==>
        !CompletedAt(checks, m, p);
    if i < k {
      CompletedRestartsApart(checks, i, k, p);
    }
  }

  /**
   Under permanent failure: when the checks from `start` on are all unhealthy, a restart
   is issued among them no later than the first that ends a streak of the threshold
   with the cooldown over.
   */
  lemma PermanentFailureRestarts(checks: seq<Check>, start: nat, i: nat, last: int, p: Settings) returns (k: nat)
    requires start <= i < |checks| && (forall j :: start <= j <= i ==> !checks[j].healthy)
    requires i + 1 - start >= p.threshold && IsLastCompleted(checks, start, last, p)
             && checks[i].now - last >= p.cooldown
    ensures start <= k <= i && IssuedAt(checks, k, p)
  {
    if j :| start <= j < i && IssuedAt(checks, j, p) {
      k := j;
    } else {
      k := i;
      assert forall j :: start <= j < i ==> !CompletedAt(checks, j, p) && Fails(checks, j, p);
      LastStays(checks, start, i, last, p);
      IssuedExactlyWhen(checks, i, last, p);
    }
  }

  lemma LastStays(checks: seq<Check>, start: nat, i: nat, last: int, p: Settings)
    requires start <= i <= |checks| && IsLastCompleted(checks, start, last, p) && forall j :: start <= j < i ==>
             !CompletedAt(checks, j, p)
    ensures IsLastCompleted(checks, i, last, p)
  {
    if k :| 0 <= k < start && CompletedAt(checks, k, p) && last == checks[k].now && forall j :: k < j < start ==>
        !CompletedAt(checks, j, p) {
      assert forall j :: k < j < i ==> !CompletedAt(checks, j, p);
    }
  }

  /** After a restart command that failed, the next unhealthy check issues another at once: no cooldown applies. */
  lemma FailedRestartIsRetried(checks: seq<Check>, i: nat, p: Settings)
    requires i + 1 < |checks| && IssuedAt(checks, i, p) && !checks[i].restartWorks && checks[i].now <= checks[i + 1].now
    ensures IssuedAt(checks, i + 1, p) <==> !checks[i + 1].healthy
  {
  }

  /** One healthy check puts off the next restart by a whole threshold of checks. */
  lemma HealthyCheckPutsOff(checks: seq<Check>, h: nat, i: nat, p: Settings)
    requires h <= i < |checks| && checks[h].healthy && i - h < p.threshold
    ensures !IssuedAt(checks, i, p)
  {
    LastRestartIsCompleted(checks, i, p);
    IssuedExactlyWhen(checks, i, Before(checks, i, p).last, p);
    if h < i {
      assert !Fails(checks, h, p);
    }
  }
}
