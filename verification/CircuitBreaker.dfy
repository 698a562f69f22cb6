/**
  When a pooled configuration is reported unhealthy, in closed form: by positions in the
  complete log of failures, successes and health probes.
 */
module CircuitBreaker {
  import opened Text
  import opened UsageWindow

  ghost predicate FailedAt(log: seq<Event>, k: int, c: ConfigId)
  {
    0 <= k < |log| && log[k].Failed? && log[k].config == c
  }

  /** Event `i` ends the run of failures of `c`: a success, or a probe made when at least one trip
      was pending and every pending cooldown was over. */
  ghost predicate ResetAt(st: Settings, log: seq<Event>, i: nat, c: ConfigId)
    requires i < |log|
    decreases i, 3
  {
    || log[i] == Succeeded(c)
    || (&& log[i].Probed? && log[i].config == c
        && (exists j: nat :: j < i && PendingTrip(st, log, j, i, c))
        && (forall j: nat :: j < i && PendingTrip(st, log, j, i, c) ==> log[j].at + st.cooldown <= log[i].at))
  }

  ghost predicate NoReset(st: Settings, log: seq<Event>, first: nat, n: nat, c: ConfigId)
    requires n <= |log|
    decreases n, 0
  {
    forall k: nat :: first <= k < n ==> !ResetAt(st, log, k, c)
  }

  /** Failures of `c` before position `n`, not yet reset there, and within the window seen from `now`. */
  ghost function FreshFailures(st: Settings, log: seq<Event>, n: nat, c: ConfigId, now: Time): set<nat>
    requires n <= |log|
    decreases n, 1
  {
    set k: nat | k < n && FailedAt(log, k, c) && NoReset(st, log, k + 1, n, c) && now - log[k].at <= st.failureWindow
  }

  /** Failure `j` is at least the threshold-th fresh failure, and nothing has reset `c` since. */
  ghost predicate PendingTrip(st: Settings, log: seq<Event>, j: nat, n: nat, c: ConfigId)
    requires j < n <= |log|
    decreases n, 2
  {
    && FailedAt(log, j, c)
    && |FreshFailures(st, log, j, c, log[j].at)| + 1 >= st.threshold
    && NoReset(st, log, j + 1, n, c)
  }

  // ----- the incremental definitions agree with the positions -----

  ghost predicate ResetsAgree(st: Settings, log: seq<Event>, n: nat, c: ConfigId)
    requires n < |log|
  {
    Resets(st, log[..n], log[n], c) <==> ResetAt(st, log, n, c)
  }

  ghost predicate TripsAgree(st: Settings, log: seq<Event>, n: nat, c: ConfigId)
    requires n <= |log|
  {
    forall f :: f in Trips(st, log[..n], c) <==>
        exists j: nat :: j < n && PendingTrip(st, log, j, n, c) && log[j].at == f
  }

  lemma SomeTripPending(st: Settings, trips: seq<Time>, now: Time)
    ensures (exists i :: 0 <= i < |trips| && now < trips[i] + st.cooldown) <==>
        (exists f :: f in trips && now < f + st.cooldown)
    ensures trips != [] <==> exists f :: f in trips
  {
    if i :| 0 <= i < |trips| && now < trips[i] + st.cooldown {
      assert trips[i] in trips;
    }
    if trips != [] {
      assert trips[0] in trips;
    }
  }

  lemma TripsAgreeImpliesResets(st: Settings, log: seq<Event>, n: nat, c: ConfigId)
    requires n < |log| && TripsAgree(st, log, n, c)
    ensures ResetsAgree(st, log, n, c)
  {
    var trips := Trips(st, log[..n], c);
    if log[n].Probed? && log[n].config == c {
      SomeTripPending(st, trips, log[n].at);
      hide Trips;
      var pending := exists j: nat :: j < n && PendingTrip(st, log, j, n, c);
      var over := forall j: nat :: j < n && PendingTrip(st, log, j, n, c) ==> log[j].at + st.cooldown <= log[n].at;
      assert pending <==> trips != [] by {
        if j: nat :| j < n && PendingTrip(st, log, j, n, c) {
          assert log[j].at in trips;
        }
      }
      assert ResetAt(st, log, n, c) <==> pending && over;
      assert over <==> !Unhealthy(st, log[..n], c, log[n].at) by {
        if !over {
          var j: nat :| j < n && PendingTrip(st, log, j, n, c) && !(log[j].at + st.cooldown <= log[n].at);
          assert log[j].at in trips && log[n].at < log[j].at + st.cooldown;
        }
      }
    }
  }

  lemma {:induction false} FailuresCounted(st: Settings, log: seq<Event>, n: nat, c: ConfigId, now: Time)
    requires n <= |log|
    requires forall i: nat :: i < n ==> ResetsAgree(st, log, i, c)
    ensures |Recent(st, Failures(st, log[..n], c), now)| == |FreshFailures(st, log, n, c, now)|
  {
    if n == 0 {
      assert FreshFailures(st, log, 0, c, now) == {};
    } else {
      var m := n - 1;
      FailuresCounted(st, log, m, c, now);
      assert log[..n][..m] == log[..m] && log[..n][m] == log[m];
      FreshStep(st, log, m, c, now);
      assert ResetsAgree(st, log, m, c);
      hide ResetAt, FreshFailures, Resets;
      var head := Failures(st, log[..m], c);
      var more := if FailedAt(log, m, c) then [log[m].at] else [];
      assert Failures(st, log[..n], c) == if ResetAt(st, log, m, c) then [] else head + more;
      RecentAppend(st, head, more, now);
    }
  }

  lemma NotReset(st: Settings, log: seq<Event>, first: nat, n: nat, c: ConfigId, i: nat)
    requires n <= |log| && NoReset(st, log, first, n, c) && first <= i < n
    ensures !ResetAt(st, log, i, c)
  {
  }

  lemma NoResetStep(st: Settings, log: seq<Event>, a: nat, m: nat, c: ConfigId)
    requires a <= m < |log|
    ensures NoReset(st, log, a, m + 1, c) <==> NoReset(st, log, a, m, c) && !ResetAt(st, log, m, c)
  {
  }

  lemma FreshStep(st: Settings, log: seq<Event>, m: nat, c: ConfigId, now: Time)
    requires m < |log|
    ensures FreshFailures(st, log, m + 1, c, now) ==
      if ResetAt(st, log, m, c) then {}
      else FreshFailures(st, log, m, c, now) +
           if FailedAt(log, m, c) && now - log[m].at <= st.failureWindow then {m} else {}
  {
    forall k: nat | k <= m && FailedAt(log, k, c)
      ensures NoReset(st, log, k + 1, m + 1, c) <==>
          k == m || (NoReset(st, log, k + 1, m, c) && !ResetAt(st, log, m, c))
      ensures k == m ==> !ResetAt(st, log, m, c)
    {
      if k < m {
        NoResetStep(st, log, k + 1, m, c);
      }
    }
    hide NoReset, ResetAt;
  }

  lemma PendingStep(st: Settings, log: seq<Event>, j: nat, m: nat, c: ConfigId)
    requires j <= m < |log|
    ensures PendingTrip(st, log, j, m + 1, c) <==>
      if j == m then FailedAt(log, m, c) && |FreshFailures(st, log, m, c, log[m].at)| + 1 >= st.threshold
      else PendingTrip(st, log, j, m, c) && !ResetAt(st, log, m, c)
  {
    if j < m {
      NoResetStep(st, log, j + 1, m, c);
    }
  }

  lemma {:induction false} Agreement(st: Settings, log: seq<Event>, n: nat, c: ConfigId)
    requires n <= |log|
    ensures forall i: nat :: i < n ==> ResetsAgree(st, log, i, c)
    ensures TripsAgree(st, log, n, c)
  {
    if n == 0 {
      assert log[..0] == [];
    } else {
      var m := n - 1;
      Agreement(st, log, m, c);
      TripsAgreeImpliesResets(st, log, m, c);
      assert log[..n][..m] == log[..m] && log[..n][m] == log[m];
      var trips, trips' := Trips(st, log[..m], c), Trips(st, log[..n], c);
      var tripped := FailedAt(log, m, c) && |FreshFailures(st, log, m, c, log[m].at)| + 1 >= st.threshold;
      if FailedAt(log, m, c) {
        FailuresCounted(st, log, m, c, log[m].at);
      }
      assert ResetsAgree(st, log, m, c);
      assert trips' == if ResetAt(st, log, m, c) then [] else trips + if tripped then [log[m].at] else [];
      forall j: nat | j <= m && FailedAt(log, j, c)
        ensures PendingTrip(st, log, j, n, c) <==>
                if j == m then tripped else PendingTrip(st, log, j, m, c) && !ResetAt(st, log, m, c)
      {
        PendingStep(st, log, j, m, c);
      }
      assert forall j: nat :: j < n && PendingTrip(st, log, j, n, c) ==> FailedAt(log, j, c);
      assert forall j: nat :: j < m && PendingTrip(st, log, j, m, c) ==> FailedAt(log, j, c);
      assert FailedAt(log, m, c) ==> !ResetAt(st, log, m, c);
      hide Trips, PendingTrip, FreshFailures, ResetAt, FailedAt;
      forall f ensures f in trips' <==> exists j: nat :: j < n && PendingTrip(st, log, j, n, c) && log[j].at == f
      {
        if f in trips' && f in trips {
          var j: nat :| j < m && PendingTrip(st, log, j, m, c) && log[j].at == f;
          assert PendingTrip(st, log, j, n, c);
        }
      }
    }
  }

  /** A configuration is unhealthy at `now` exactly when some failure whose cooldown has not run out
      was at least the threshold-th fresh failure in its window, with no reset since. */
  lemma UnhealthyCharacterised(st: Settings, log: seq<Event>, c: ConfigId, now: Time)
    ensures Unhealthy(st, log, c, now) <==>
      exists j: nat :: j < |log| && PendingTrip(st, log, j, |log|, c) && now < log[j].at + st.cooldown
  {
    Agreement(st, log, |log|, c);
    assert log[..|log|] == log;
    var trips := Trips(st, log, c);
    hide Trips, PendingTrip;
    if j: nat :| j < |log| && PendingTrip(st, log, j, |log|, c) && now < log[j].at + st.cooldown {
      assert log[j].at in trips;
      var i :| 0 <= i < |trips| && trips[i] == log[j].at;
    }
    if Unhealthy(st, log, c, now) {
      var i :| 0 <= i < |trips| && now < trips[i] + st.cooldown;
      assert trips[i] in trips;
    }
  }

  /** After any reset, being unhealthy again takes a full threshold of failures made since. */
  lemma RecoveryNeedsFreshFailures(st: Settings, log: seq<Event>, c: ConfigId, i: nat, now: Time)
    requires i < |log| && ResetAt(st, log, i, c) && Unhealthy(st, log, c, now)
    ensures |set k: nat | i < k < |log| && FailedAt(log, k, c)| >= st.threshold
  {
    UnhealthyCharacterised(st, log, c, now);
    var j: nat :| j < |log| && PendingTrip(st, log, j, |log|, c) && now < log[j].at + st.cooldown;
    var earlier := FreshFailures(st, log, j, c, log[j].at);
    var since := set k: nat | i < k < |log| && FailedAt(log, k, c);
    assert i != j;
    if j < i {
      NotReset(st, log, j + 1, |log|, c, i);
    }
    forall k | k in earlier ensures k in since
    {
      assert NoReset(st, log, k + 1, j, c);
      assert i != k;
    }
    SubsetSize(earlier + {j}, since);
  }
}
