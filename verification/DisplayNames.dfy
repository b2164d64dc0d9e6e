/** Counting recent display-name changes from a log trimmed to its last 20 entries
    (`identity.repository.ts`, recordDisplayNameChange).  Times are in milliseconds. */
module DisplayNames {

  type Id = nat

  const KEPT: nat := 20
  const HOUR: int := 60 * 60 * 1000

  /** The last `n` elements. */
  function LastOf(s: seq<int>, n: nat): (r: seq<int>)
    ensures |r| == if |s| <= n then |s| else n
  {
    if |s| <= n then s else s[|s| - n..]
  }

  function CountSince(times: seq<int>, start: int): (n: nat)
    ensures n <= |times|
  {
    if times == [] then 0
    else CountSince(times[..|times| - 1], start) + if times[|times| - 1] >= start then 1 else 0
  }

  /** The count is the number of entries at or after `start`. */
  lemma {:induction false} CountSinceCounts(times: seq<int>, start: int)
    ensures CountSince(times, start) == |set i | 0 <= i < |times| && times[i] >= start|
    decreases |times|
  {
    var counted := set i | 0 <= i < |times| && times[i] >= start;
    if times != [] {
      var n := |times| - 1;
      CountSinceCounts(times[..n], start);
      var before := set i | 0 <= i < n && times[..n][i] >= start;
      assert counted == before + if times[n] >= start then {n} else {};
    } else {
      assert counted == {};
    }
  }

  predicate NonDecreasing(times: seq<int>) {
    forall i, j | 0 <= i < j < |times| :: times[i] <= times[j]
  }

  /** Trimming the log to its last entries caps the count and does nothing else to it. */
  lemma {:induction false} TrimmedCount(times: seq<int>, n: nat, start: int)
    requires NonDecreasing(times)
    ensures CountSince(LastOf(times, n), start) == if CountSince(times, start) <= n then CountSince(times, start) else n
    decreases |times|
  {
    if |times| > n {
      var init, last := times[..|times| - 1], times[|times| - 1];
      if n == 0 {
      } else if last < start {
        AllBefore(times, start);
        AllBefore(LastOf(times, n), start);
      } else {
        TrimmedCount(init, n - 1, start);
        assert LastOf(times, n) == LastOf(init, n - 1) + [last];
        assert LastOf(times, n)[..n - 1] == LastOf(init, n - 1);
      }
    }
  }

  lemma {:induction false} AllBefore(times: seq<int>, start: int)
    requires forall i | 0 <= i < |times| :: times[i] < start
    ensures CountSince(times, start) == 0
  {
    if times != [] { AllBefore(times[..|times| - 1], start); }
  }

  // ---------------------------------------------------------------- runs

  /** One stored change: the pushed log and the count reported. */
  function Recorded(log: seq<int>, now: int): (seq<int>, nat) {
    var kept := LastOf(log + [now], KEPT);
    (kept, CountSince(kept, now - HOUR))
  }

  /** The trimmed log and the reports after a whole history of changes. */
  function Reports(times: seq<int>): (seq<int>, seq<nat>)
    decreases |times|
  {
    if times == [] then ([], [])
    else
      var (log, reports) := Reports(times[..|times| - 1]);
      var (kept, n) := Recorded(log, times[|times| - 1]);
      (kept, reports + [n])
  }

  /** The report made at change `k` is the true count for the hour before it, capped. */
  predicate TrueReport(times: seq<int>, k: nat, report: nat)
    requires k < |times|
  {
    var n := CountSince(times[..k + 1], times[k] - HOUR);
    report == if n <= KEPT then n else KEPT
  }

  lemma TrimTwice(init: seq<int>, last: int)
    ensures LastOf(LastOf(init, KEPT) + [last], KEPT) == LastOf(init + [last], KEPT)
  {
  }

  /** Over any history on a clock that never goes back, the trimmed log holds the last 20 changes and
      every report is the true number of changes in the last hour, capped at 20. */
  lemma {:induction false} ReportsAreTrueCounts(times: seq<int>)
    requires NonDecreasing(times)
    ensures var (log, reports) := Reports(times);
            && log == LastOf(times, KEPT) && |reports| == |times|
            && forall k | 0 <= k < |times| :: TrueReport(times, k, reports[k])
    decreases |times|
  {
    if times != [] {
      var init, last := times[..|times| - 1], times[|times| - 1];
      ReportsAreTrueCounts(init);
      assert times == init + [last];
      TrimTwice(init, last);
      TrimmedCount(times, KEPT, last - HOUR);
      var (log, reports) := Reports(times);
      forall k | 0 <= k < |times| ensures TrueReport(times, k, reports[k]) {
        if k < |init| {
          assert TrueReport(init, k, Reports(init).1[k]);
          TrueInPrefix(init, last, k, reports[k]);
        } else {
          assert times[..k + 1] == times;
        }
      }
    }
  }

  lemma TrueInPrefix(init: seq<int>, last: int, k: nat, report: nat)
    requires k < |init|
    ensures TrueReport(init + [last], k, report) <==> TrueReport(init, k, report)
  {
    assert (init + [last])[..k + 1] == init[..k + 1];
  }

  // ---------------------------------------------------------------- the repository

  class IdentityRepository {
    var displayNameChanges: map<Id, seq<int>>

    constructor ()
      ensures displayNameChanges == map[]
    {
      displayNameChanges := map[];
    }

    /** Pushes and trims, then re-reads and counts; an unknown identity counts nothing. */
    method RecordDisplayNameChange(id: Id, now: int) returns (n: nat)
      modifies this
      ensures id !in old(displayNameChanges) ==> n == 0 && displayNameChanges == old(displayNameChanges)
      ensures id in old(displayNameChanges) ==>
        var (kept, count) := Recorded(old(displayNameChanges)[id], now);
        n == count && displayNameChanges == old(displayNameChanges)[id := kept]
    {
      if id in displayNameChanges {
        var pushed := displayNameChanges[id] + [now];
        if |pushed| > KEPT { pushed := pushed[|pushed| - KEPT..]; }
        displayNameChanges := displayNameChanges[id := pushed];
      }
      if id !in displayNameChanges { return 0; }
      var times := displayNameChanges[id];
      n := 0;
      for i := 0 to |times|
        invariant n == CountSince(times[..i], now - HOUR)
      {
        assert times[..i + 1][..i] == times[..i];
        if times[i] >= now - HOUR { n := n + 1; }
      }
      assert times[..|times|] == times;
    }
  }
}
