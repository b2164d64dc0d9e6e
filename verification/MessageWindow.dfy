/** The window of messages around a target (`space-message.repository.ts`, findAround): three reads,
    between which newer messages may arrive.  Message ids grow with time. */
module MessageWindow {

  type Id = nat

  /** A limit as the database reads it: 0 means no limit. */
  function Limited(n: nat, limit: nat): nat { if limit == 0 || n <= limit then n else limit }

  predicate Ascending(ids: seq<Id>) { forall i, j | 0 <= i < j < |ids| :: ids[i] < ids[j] }

  lemma AscendingConcat(a: seq<Id>, b: seq<Id>)
    requires Ascending(a) && Ascending(b) && forall x, y | x in a && y in b :: x < y
    ensures Ascending(a + b)
  {
    forall i, j | 0 <= i < j < |a + b| ensures (a + b)[i] < (a + b)[j] {
      assert i < |a| <= j ==> a[i] in a && b[j - |a|] in b;
    }
  }

  function Older(ids: set<Id>, target: Id): set<Id> { set m | m in ids && m < target }

  function Newer(ids: set<Id>, target: Id): set<Id> { set m | m in ids && m > target }

  /** The greatest `limit` of `ids`, ascending: a descending page, reversed. */
  ghost predicate IsTop(page: seq<Id>, ids: set<Id>, limit: nat) {
    && Ascending(page) && (forall m | m in page :: m in ids) && |page| == Limited(|ids|, limit)
    && forall m, k | m in page && k in ids && k !in page :: k < m
  }

  /** The least `limit` of `ids`, ascending. */
  ghost predicate IsBottom(page: seq<Id>, ids: set<Id>, limit: nat) {
    && Ascending(page) && (forall m | m in page :: m in ids) && |page| == Limited(|ids|, limit)
    && forall m, k | m in page && k in ids && k !in page :: k > m
  }

  /** What findAround returns when its three reads see `first`, `second` and `third`. */
  ghost predicate IsAround(window: seq<Id>, first: set<Id>, second: set<Id>, third: set<Id>, target: Id, before: nat, after: nat) {
    exists older: seq<Id>, newer: seq<Id> :: IsTop(older, Older(first, target), before) && IsBottom(newer, Newer(third, target), after)
      && window == older + (if target in second then [target] else []) + newer
  }

  /** As long as nothing up to the target changes between the reads, the window is a gap-free slice of
      the channel's messages as last read: ascending, with every stored message between its ends, the
      target itself if it is stored, and as many on either side as the limits allow. */
  lemma WindowIsGapFree(window: seq<Id>, first: set<Id>, second: set<Id>, third: set<Id>, target: Id, before: nat, after: nat)
    requires IsAround(window, first, second, third, target, before, after)
    requires forall m | m <= target :: (m in first <==> m in third) && (m in second <==> m in third)
    ensures Ascending(window)
    ensures forall m | m in window :: m in third
    ensures target in third ==> target in window
    ensures forall m | m in third && window != [] && window[0] <= m <= window[|window| - 1] :: m in window
    ensures |window| == Limited(|Older(third, target)|, before) + (if target in third then 1 else 0)
                        + Limited(|Newer(third, target)|, after)
  {
    var older, mid, newer := PartsOf(window, first, second, third, target, before, after);
    PartsAscend(older, mid, newer, third, target, before, after);
    PartsAreStored(older, mid, newer, third, target, before, after);
    PartsLeaveNoGap(older, mid, newer, third, target, before, after);
  }

  /** The three parts of a window, in terms of the last read alone. */
  lemma PartsOf(window: seq<Id>, first: set<Id>, second: set<Id>, third: set<Id>, target: Id, before: nat, after: nat)
    returns (older: seq<Id>, mid: seq<Id>, newer: seq<Id>)
    requires IsAround(window, first, second, third, target, before, after)
    requires forall m | m <= target :: (m in first <==> m in third) && (m in second <==> m in third)
    ensures IsTop(older, Older(third, target), before) && IsBottom(newer, Newer(third, target), after)
    ensures mid == (if target in third then [target] else []) && window == older + mid + newer
    ensures |older| == Limited(|Older(third, target)|, before) && |newer| == Limited(|Newer(third, target)|, after)
  {
    assert Older(first, target) == Older(third, target);
    older, newer :| IsTop(older, Older(first, target), before) && IsBottom(newer, Newer(third, target), after)
      && window == older + (if target in second then [target] else []) + newer;
    mid := if target in third then [target] else [];
  }

  lemma PartsLeaveNoGap(older: seq<Id>, mid: seq<Id>, newer: seq<Id>, ids: set<Id>, target: Id, before: nat, after: nat)
    requires IsTop(older, Older(ids, target), before) && IsBottom(newer, Newer(ids, target), after)
    requires mid == if target in ids then [target] else []
    ensures var window := older + mid + newer;
            forall m | m in ids && window != [] && window[0] <= m <= window[|window| - 1] :: m in window
  {
    var window := older + mid + newer;
    forall m | m in ids && window != [] && window[0] <= m <= window[|window| - 1] ensures m in window {
      NothingMissing(older, mid, newer, ids, target, before, after, m);
    }
  }

  lemma PartsAscend(older: seq<Id>, mid: seq<Id>, newer: seq<Id>, ids: set<Id>, target: Id, before: nat, after: nat)
    requires IsTop(older, Older(ids, target), before) && IsBottom(newer, Newer(ids, target), after)
    requires mid == if target in ids then [target] else []
    ensures Ascending(older + mid + newer)
  {
    AscendingConcat(older, mid);
    assert forall x | x in older + mid :: x <= target;
    AscendingConcat(older + mid, newer);
  }

  lemma PartsAreStored(older: seq<Id>, mid: seq<Id>, newer: seq<Id>, ids: set<Id>, target: Id, before: nat, after: nat)
    requires IsTop(older, Older(ids, target), before) && IsBottom(newer, Newer(ids, target), after)
    requires mid == if target in ids then [target] else []
    ensures forall m | m in older + mid + newer :: m in ids
    ensures target in ids ==> target in older + mid + newer
  {
    assert forall m :: m in older + mid + newer <==> m in older || m in mid || m in newer;
    assert target in ids ==> target in mid;
  }

  lemma NothingMissing(older: seq<Id>, mid: seq<Id>, newer: seq<Id>, ids: set<Id>, target: Id, before: nat, after: nat, m: Id)
    requires IsTop(older, Older(ids, target), before) && IsBottom(newer, Newer(ids, target), after)
    requires mid == if target in ids then [target] else []
    requires var window := older + mid + newer; m in ids && window != [] && window[0] <= m <= window[|window| - 1]
    ensures m in older + mid + newer
  {
    assert older + mid + newer == older + (mid + newer);
    assert m == target ==> m in mid;
    if m < target && m !in older { NothingBelowTop(older, mid + newer, m, target); }
    if m > target && m !in newer { NothingAboveBottom(older + mid, newer, m, target); }
  }

  /** A message left out of the older part lies before the whole window. */
  lemma NothingBelowTop(older: seq<Id>, tail: seq<Id>, m: Id, target: Id)
    requires m < target && (forall k | k in older :: m < k) && forall k | k in tail :: k >= target
    ensures older + tail != [] ==> m < (older + tail)[0]
  {
    assert older != [] ==> older[0] in older;
    assert tail != [] ==> tail[0] in tail;
  }

  /** A message left out of the newer part lies behind the whole window. */
  lemma NothingAboveBottom(head: seq<Id>, newer: seq<Id>, m: Id, target: Id)
    requires m > target && (forall k | k in newer :: m > k) && forall k | k in head :: k <= target
    ensures head + newer != [] ==> m > (head + newer)[|head + newer| - 1]
  {
    assert newer != [] ==> newer[|newer| - 1] in newer;
    assert head != [] ==> head[|head| - 1] in head;
  }

  // ---------------------------------------------------------------- the repository

  class SpaceMessageRepository {
    /** The message ids of each channel. */
    var ids: map<Id, set<Id>>

    constructor ()
      ensures ids == map[]
    {
      ids := map[];
    }

    function InChannel(channelId: Id): set<Id>
      reads this
    {
      if channelId in ids then ids[channelId] else {}
    }

    method Least(s: set<Id>) returns (m: Id)
      requires s != {}
      ensures m in s && forall k | k in s :: m <= k
    {
      m :| m in s;
      var todo := s - {m};
      while todo != {}
        invariant m in s && todo <= s
        invariant forall k | k in s && k !in todo :: m <= k
        decreases todo
      {
        var k :| k in todo;
        if k < m { m := k; }
        todo := todo - {k};
      }
    }

    method Greatest(s: set<Id>) returns (m: Id)
      requires s != {}
      ensures m in s && forall k | k in s :: k <= m
    {
      m :| m in s;
      var todo := s - {m};
      while todo != {}
        invariant m in s && todo <= s
        invariant forall k | k in s && k !in todo :: k <= m
        decreases todo
      {
        var k :| k in todo;
        if k > m { m := k; }
        todo := todo - {k};
      }
    }

    /** The newest messages before the target, oldest first. */
    method FindOlder(channelId: Id, target: Id, limit: nat) returns (page: seq<Id>)
      ensures IsTop(page, Older(InChannel(channelId), target), limit)
    {
      ghost var all := Older(InChannel(channelId), target);
      var rest := Older(InChannel(channelId), target);
      page := [];
      while rest != {} && (limit == 0 || |page| < limit)
        invariant rest <= all && |page| + |rest| == |all| && (limit == 0 || |page| <= limit)
        invariant forall m :: m in all <==> m in page || m in rest
        invariant Ascending(page)
        invariant forall m, k | m in page && k in rest :: k < m
        decreases rest
      {
        var m := Greatest(rest);
        AscendingConcat([m], page);
        page, rest := [m] + page, rest - {m};
      }
    }

    /** The first messages after the target, oldest first. */
    method FindNewer(channelId: Id, target: Id, limit: nat) returns (page: seq<Id>)
      ensures IsBottom(page, Newer(InChannel(channelId), target), limit)
    {
      ghost var all := Newer(InChannel(channelId), target);
      var rest := Newer(InChannel(channelId), target);
      page := [];
      while rest != {} && (limit == 0 || |page| < limit)
        invariant rest <= all && |page| + |rest| == |all| && (limit == 0 || |page| <= limit)
        invariant forall m :: m in all <==> m in page || m in rest
        invariant Ascending(page)
        invariant forall m, k | m in page && k in rest :: k > m
        decreases rest
      {
        var m := Least(rest);
        AscendingConcat(page, [m]);
        page, rest := page + [m], rest - {m};
      }
    }

    method FindAround(channelId: Id, target: Id, before: nat, after: nat) returns (window: seq<Id>)
      ensures IsAround(window, InChannel(channelId), InChannel(channelId), InChannel(channelId), target, before, after)
      ensures var all := if channelId in ids then ids[channelId] else {};
              && (forall i, j | 0 <= i < j < |window| :: window[i] < window[j])
              && (forall m | m in window :: m in all) && (target in all ==> target in window)
              && (forall m | m in all && window != [] && window[0] <= m <= window[|window| - 1] :: m in window)
              && var older, newer := set m | m in all && m < target, set m | m in all && m > target;
                 |window| == (if before == 0 || |older| <= before then |older| else before)
                             + (if target in all then 1 else 0)
                             + (if after == 0 || |newer| <= after then |newer| else after)
    {
      var older := FindOlder(channelId, target, before);
      window := older;
      if target in InChannel(channelId) { window := window + [target]; }
      var newer := FindNewer(channelId, target, after);
      ghost var mid := if target in InChannel(channelId) then [target] else [];
      window := window + newer;
      assert window == older + mid + newer;
      WindowIsGapFree(window, InChannel(channelId), InChannel(channelId), InChannel(channelId), target, before, after);
      assert Older(InChannel(channelId), target) == set m | m in InChannel(channelId) && m < target;
      assert Newer(InChannel(channelId), target) == set m | m in InChannel(channelId) && m > target;
    }
  }
}
