/**
  The sliding-window restart budget of one instance
  (crates/agend-daemon/src/supervisor.rs, RestartBudget).
*/
module RestartBudget {
  import opened Common

  const MAX_RESTARTS: nat := 3
  const RESTART_WINDOW_MS: nat := 10 * 60 * 1000

  function SaturatingSub(a: nat, b: nat): nat { if a < b then 0 else a - b }

  predicate Recent(now: nat, at: nat) { SaturatingSub(now, at) < RESTART_WINDOW_MS }

  /** What `retain` keeps of the recorded restarts. */
  function Retained(restarts: seq<nat>, now: nat): (r: seq<nat>)
    ensures |r| <= |restarts|
  {
    if restarts == [] then []
    else
      var n := |restarts| - 1;
      Retained(restarts[..n], now) + (if Recent(now, restarts[n]) then [restarts[n]] else [])
  }

  /** How many of `times` fall in `lo <= t < hi`. */
  ghost function Count(times: seq<nat>, lo: int, hi: int): nat
  {
    if times == [] then 0
    else
      var n := |times| - 1;
      Count(times[..n], lo, hi) + (if lo <= times[n] < hi then 1 else 0)
  }

  ghost predicate Sorted(times: seq<nat>)
  {
    forall i, j :: 0 <= i < j < |times| ==> times[i] <= times[j]
  }

  ghost predicate UpTo(times: seq<nat>, now: nat) { forall i :: 0 <= i < |times| ==> times[i] <= now }

  /** Any grant and the third one after it are at least a window apart. */
  ghost predicate Spaced(times: seq<nat>)
  {
    forall i :: 0 <= i && i + MAX_RESTARTS < |times| ==> times[i] + RESTART_WINDOW_MS <= times[i + MAX_RESTARTS]
  }

  lemma {:induction false} RetainedCounts(times: seq<nat>, now: nat)
    requires UpTo(times, now)
    ensures |Retained(times, now)| == Count(times, now - RESTART_WINDOW_MS + 1, now + 1)
  {
    if times != [] {
      assert times[|times| - 1] <= now;
      RetainedCounts(times[..|times| - 1], now);
    }
  }

  /** Forgetting at an earlier time first loses nothing a later time would keep. */
  lemma {:induction false} RetainTwice(times: seq<nat>, earlier: nat, now: nat)
    requires earlier <= now
    ensures Retained(Retained(times, earlier), now) == Retained(times, now)
  {
    if times != [] {
      var n := |times| - 1;
      var kept := Retained(times[..n], earlier);
      RetainTwice(times[..n], earlier, now);
      if Recent(earlier, times[n]) {
        assert (kept + [times[n]])[..|kept|] == kept;
      } else {
        assert kept + [] == kept;
      }
    }
  }

  lemma {:induction false} CountsOnlyTheTail(times: seq<nat>, lo: int, hi: int, k: nat)
    requires Sorted(times) && (k < |times| ==> times[|times| - 1 - k] < lo)
    ensures Count(times, lo, hi) <= k
    decreases |times|
  {
    if times != [] {
      var front := times[..|times| - 1];
      if k == 0 {
        CountsOnlyTheTail(front, lo, hi, 0);
      } else {
        CountsOnlyTheTail(front, lo, hi, k - 1);
      }
    }
  }

  /** Any ten-minute window, wherever it starts, holds at most three grants. */
  lemma {:induction false} EveryWindowHoldsAtMostThree(grants: seq<nat>, start: int)
    requires Sorted(grants) && Spaced(grants)
    ensures Count(grants, start, start + RESTART_WINDOW_MS) <= MAX_RESTARTS
    decreases |grants|
  {
    if |grants| > MAX_RESTARTS {
      var n := |grants| - 1;
      if start <= grants[n - MAX_RESTARTS] {
        assert grants[n - MAX_RESTARTS] + RESTART_WINDOW_MS <= grants[n - MAX_RESTARTS + MAX_RESTARTS];
        EveryWindowHoldsAtMostThree(grants[..n], start);
      } else {
        CountsOnlyTheTail(grants, start, start + RESTART_WINDOW_MS, MAX_RESTARTS);
      }
    } else {
      CountsOnlyTheTail(grants, start, start + RESTART_WINDOW_MS, MAX_RESTARTS);
    }
  }

  /** Fewer than three kept restarts: the third-last grant is a full window old. */
  lemma {:induction false} RoomMeansOld(grants: seq<nat>, now: nat, k: nat)
    requires Sorted(grants) && UpTo(grants, now)
    requires |Retained(grants, now)| <= k < |grants|
    ensures grants[|grants| - 1 - k] + RESTART_WINDOW_MS <= now
    decreases |grants|
  {
    var n := |grants| - 1;
    assert grants[n] <= now;
    if Recent(now, grants[n]) {
      RoomMeansOld(grants[..n], now, k - 1);
    } else {
      assert grants[n - k] <= grants[n];
    }
  }

  /** Granting when fewer than three are in the window keeps the spacing. */
  lemma GrantKeepsSpacing(grants: seq<nat>, now: nat)
    requires Sorted(grants) && Spaced(grants) && UpTo(grants, now)
    requires |Retained(grants, now)| < MAX_RESTARTS
    ensures Sorted(grants + [now]) && Spaced(grants + [now]) && UpTo(grants + [now], now)
  {
    hide Retained;
    var next := grants + [now];
    if |grants| >= MAX_RESTARTS {
      RoomMeansOld(grants, now, MAX_RESTARTS - 1);
    }
    assert forall i :: 0 <= i < |grants| ==> next[i] == grants[i];
    assert next[|grants|] == now;
  }

  lemma GrantIsCounted(grants: seq<nat>, now: nat)
    ensures Retained(grants + [now], now) == Retained(grants, now) + [now]
    ensures Count(grants + [now], now - RESTART_WINDOW_MS + 1, now + 1)
         == Count(grants, now - RESTART_WINDOW_MS + 1, now + 1) + 1
  {
    assert (grants + [now])[..|grants|] == grants;
  }

  method Retain(restarts: seq<nat>, now: nat) returns (kept: seq<nat>)
    ensures kept == Retained(restarts, now)
  {
    kept := [];
    for i := 0 to |restarts|
      invariant kept == Retained(restarts[..i], now)
    {
      assert restarts[..i + 1][..i] == restarts[..i];
      if Recent(now, restarts[i]) {
        kept := kept + [restarts[i]];
      }
    }
    assert restarts[..|restarts|] == restarts;
  }

  class Budget {
    var restarts: seq<nat>
    ghost var grants: seq<nat>      // every restart ever granted
    ghost var clock: nat            // the time of the last call

    ghost predicate Valid()
      reads this
    {
      && Sorted(grants) && Spaced(grants)
      && UpTo(grants, clock)
      && restarts == Retained(grants, clock)
    }

    constructor ()
      ensures Valid() && grants == [] && clock == 0
    {
      restarts, grants, clock := [], [], 0;
    }

    /** `RestartBudget::next` after a death at `now`, the clock not going back: a grant
        returns how many grants the last ten minutes now hold, a refusal means they
        already held exactly three. */
    method Next(now: nat) returns (r: Option<nat>)
      requires Valid() && clock <= now
      modifies this
      ensures Valid() && clock == now
      ensures r.Some? <==> Count(old(grants), now - RESTART_WINDOW_MS + 1, now + 1) < MAX_RESTARTS
      ensures r.Some? ==> grants == old(grants) + [now]
      ensures r.Some? ==> r.value == Count(grants, now - RESTART_WINDOW_MS + 1, now + 1)
      ensures r.None? ==> grants == old(grants)
      ensures r.None? ==> Count(grants, now - RESTART_WINDOW_MS + 1, now + 1) == MAX_RESTARTS
    {
      RetainTwice(grants, clock, now);
      RetainedCounts(grants, now);
      restarts := Retain(restarts, now);
      clock := now;
      EveryWindowHoldsAtMostThree(grants, now - RESTART_WINDOW_MS + 1);
      if |restarts| >= MAX_RESTARTS {
        return None;
      }
      GrantKeepsSpacing(grants, now);
      GrantIsCounted(grants, now);
      restarts, grants := restarts + [now], grants + [now];
      return Some(|restarts|);
    }
  }
}
