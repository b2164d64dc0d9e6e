/** Achievement records and the per-identity counter kept beside them (`achievement.repository.ts`,
    `identity.repository.ts`), in serial runs of awards and revocations. */
module Achievements {

  type Id = nat
  type AchievementId = nat

  /** `records` is the collection under its unique index; `counters` holds each stored identity's count. */
  datatype Store = Store(records: set<(Id, AchievementId)>, counters: map<Id, int>)

  datatype Op =
    | Award(identity: Id, achievement: AchievementId)
    | Revoke(identity: Id, achievement: AchievementId)
    | AddIdentity(identity: Id)

  // ---------------------------------------------------------------- the operations

  /** An update of the counter changes nothing when the identity has no document. */
  function Incremented(counters: map<Id, int>, i: Id): map<Id, int> {
    if i in counters then counters[i := counters[i] + 1] else counters
  }

  /** Guarded so that a counter never goes below zero. */
  function Decremented(counters: map<Id, int>, i: Id): map<Id, int> {
    if i in counters && counters[i] > 0 then counters[i := counters[i] - 1] else counters
  }

  function Step(st: Store, op: Op): Store {
    match op
    case Award(i, a) =>
      if (i, a) in st.records then st else Store(st.records + {(i, a)}, Incremented(st.counters, i))
    case Revoke(i, a) =>
      if (i, a) in st.records then Store(st.records - {(i, a)}, Decremented(st.counters, i)) else st
    case AddIdentity(i) =>
      // Identity ids are fresh: nothing refers to one before its document exists.
      if i in st.counters || OfIdentity(st.records, i) != {} then st else st.(counters := st.counters[i := 0])
  }

  function Run(st: Store, ops: seq<Op>): Store
    decreases |ops|
  {
    if ops == [] then st else Run(Step(st, ops[0]), ops[1..])
  }

  function OfIdentity(records: set<(Id, AchievementId)>, i: Id): set<(Id, AchievementId)> {
    set r | r in records && r.0 == i
  }

  function Holders(records: set<(Id, AchievementId)>, a: AchievementId): set<(Id, AchievementId)> {
    set r | r in records && r.1 == a
  }

  /** The grouped count of holders, one entry per achievement held by anyone. */
  function Stats(records: set<(Id, AchievementId)>): map<AchievementId, int> {
    var held := set r | r in records :: r.1;
    map a | a in held :: |Holders(records, a)|
  }

  // ---------------------------------------------------------------- what every operation keeps

  /** Each identity's counter is its number of records. */
  ghost predicate Counted(st: Store) {
    forall i | i in st.counters :: st.counters[i] == |OfIdentity(st.records, i)|
  }

  lemma AwardKeepsCounted(st: Store, k: Id, a: AchievementId)
    requires Counted(st)
    ensures Counted(Step(st, Award(k, a)))
  {
    var st' := Step(st, Award(k, a));
    forall i | i in st'.counters ensures st'.counters[i] == |OfIdentity(st'.records, i)| {
      if (k, a) !in st.records {
        AddedRecord(st.records, k, a, i);
      }
    }
  }

  lemma AddedRecord(records: set<(Id, AchievementId)>, k: Id, a: AchievementId, i: Id)
    requires (k, a) !in records
    ensures |OfIdentity(records + {(k, a)}, i)| == |OfIdentity(records, i)| + (if i == k then 1 else 0)
  {
    assert OfIdentity(records + {(k, a)}, i) == OfIdentity(records, i) + (if i == k then {(k, a)} else {});
  }

  lemma RevokeKeepsCounted(st: Store, k: Id, a: AchievementId)
    requires Counted(st)
    ensures Counted(Step(st, Revoke(k, a)))
  {
    var st' := Step(st, Revoke(k, a));
    forall i | i in st'.counters ensures st'.counters[i] == |OfIdentity(st'.records, i)| {
      if (k, a) in st.records {
        assert OfIdentity(st'.records, i) == OfIdentity(st.records, i) - (if i == k then {(k, a)} else {});
        assert i == k ==> (k, a) in OfIdentity(st.records, i);
      }
    }
  }

  lemma StepKeepsCounted(st: Store, op: Op)
    requires Counted(st)
    ensures Counted(Step(st, op))
    ensures op.AddIdentity? && op.identity !in st.counters && (forall r | r in st.records :: r.0 != op.identity) ==>
              Step(st, op).counters == st.counters[op.identity := 0]
  {
    match op
    case Award(k, a) => AwardKeepsCounted(st, k, a);
    case Revoke(k, a) => RevokeKeepsCounted(st, k, a);
    case AddIdentity(k) =>
  }

  lemma {:induction false} RunKeepsCounted(st: Store, ops: seq<Op>)
    requires Counted(st)
    ensures Counted(Run(st, ops))
    decreases |ops|
  {
    if ops != [] {
      StepKeepsCounted(st, ops[0]);
      RunKeepsCounted(Step(st, ops[0]), ops[1..]);
    }
  }

  // ---------------------------------------------------------------- totals

  /** The sum of a map's values. */
  ghost function Total<K(!new)>(m: map<K, int>): int
    decreases |m|
  {
    if m == map[] then 0 else var k :| k in m; m[k] + Total(m - {k})
  }

  /** The sum does not depend on the order of the keys. */
  lemma {:induction false} TotalRemove<K(!new)>(m: map<K, int>, k: K)
    requires k in m
    ensures Total(m) == m[k] + Total(m - {k})
    decreases |m|
  {
    var first :| first in m && Total(m) == m[first] + Total(m - {first});
    if first != k {
      TotalRemove(m - {first}, k);
      TotalRemove(m - {k}, first);
      assert m - {first} - {k} == m - {k} - {first};
    }
  }

  /** Without one achievement's records the statistics lose that entry and nothing else. */
  lemma StatsOfOthers(records: set<(Id, AchievementId)>, a: AchievementId)
    ensures Stats(records) - {a} == Stats(records - Holders(records, a))
  {
    var rest := records - Holders(records, a);
    forall b | b in Stats(records) && b != a ensures b in Stats(rest) && Holders(rest, b) == Holders(records, b) {
      var x :| x in records && x.1 == b;
      assert x in rest;
    }
  }

  lemma {:induction false} StatsTotal(records: set<(Id, AchievementId)>)
    ensures Total(Stats(records)) == |records|
    decreases |records|
  {
    if records != {} {
      var r :| r in records;
      var group := Holders(records, r.1);
      var rest := records - group;
      assert r.1 in Stats(records);
      TotalRemove(Stats(records), r.1);
      StatsOfOthers(records, r.1);
      assert r in group && records == rest + group;
      StatsTotal(rest);
    }
  }

  /** The records whose identity is in `ids`. */
  function Among(records: set<(Id, AchievementId)>, ids: set<Id>): set<(Id, AchievementId)> {
    set r | r in records && r.0 in ids
  }

  lemma {:induction false} CountersTotal(st: Store)
    requires Counted(st)
    ensures Total(st.counters) == |Among(st.records, st.counters.Keys)|
    decreases |st.counters|
  {
    if st.counters != map[] {
      var i :| i in st.counters;
      TotalRemove(st.counters, i);
      var rest := st.(counters := st.counters - {i});
      CountersTotal(rest);
      assert Among(st.records, st.counters.Keys) == Among(st.records, rest.counters.Keys) + OfIdentity(st.records, i);
      assert Among(st.records, rest.counters.Keys) !! OfIdentity(st.records, i);
    }
  }

  /** After any serial run, each counter is the identity's number of records, the global statistics
      count the holders of every held achievement, and the two totals agree exactly when every record
      belongs to a stored identity. */
  lemma TotalsAgreeIff(st: Store, ops: seq<Op>)
    requires Counted(st)
    ensures var st' := Run(st, ops);
            && Counted(st')
            && (forall a :: a in Stats(st'.records) <==> Holders(st'.records, a) != {})
            && (forall a | a in Stats(st'.records) :: Stats(st'.records)[a] == |Holders(st'.records, a)|)
            && (Total(Stats(st'.records)) == Total(st'.counters) <==> forall r | r in st'.records :: r.0 in st'.counters)
  {
    RunKeepsCounted(st, ops);
    var st' := Run(st, ops);
    StatsTotal(st'.records);
    CountersTotal(st');
    var among := Among(st'.records, st'.counters.Keys);
    assert st'.records == among + (st'.records - among);
    forall a ensures a in Stats(st'.records) <==> Holders(st'.records, a) != {} {
      if a in Stats(st'.records) {
        var r :| r in st'.records && r.1 == a;
        assert r in Holders(st'.records, a);
      }
      if Holders(st'.records, a) != {} {
        var r :| r in Holders(st'.records, a);
        assert r in st'.records && r.1 == a;
      }
    }
    if |st'.records - among| == 0 {
      assert st'.records - among == {};
      forall r | r in st'.records ensures r.0 in st'.counters { assert r in among; }
    }
    if forall r | r in st'.records :: r.0 in st'.counters { assert among == st'.records; }
  }

  /** The condition is needed: one award to an identity that is not stored makes the totals differ. */
  lemma UnknownIdentityIsNotCounted(i: Id, a: AchievementId)
    ensures var st := Run(Store({}, map[]), [Award(i, a)]);
            st.records == {(i, a)} && Total(Stats(st.records)) == 1 && Total(st.counters) == 0
  {
    var st := Step(Store({}, map[]), Award(i, a));
    assert [Award(i, a)][1..] == [];
    assert Run(Store({}, map[]), [Award(i, a)]) == Run(st, []) == st;
    assert st.records == {(i, a)} && st.counters == map[];
    StatsTotal(st.records);
  }

  /** One more record adds one to its own achievement's count. */
  lemma StatsOfOneMore(records: set<(Id, AchievementId)>, r: (Id, AchievementId))
    requires r !in records
    ensures var before, a := Stats(records), r.1;
            Stats(records + {r}) == before[a := (if a in before then before[a] else 0) + 1]
  {
    var after := Stats(records + {r});
    forall a | a in after ensures |Holders(records + {r}, a)| == |Holders(records, a)| + (if a == r.1 then 1 else 0) {
      assert Holders(records + {r}, a) == Holders(records, a) + (if a == r.1 then {r} else {});
    }
    assert forall a :: a in after <==> a in Stats(records) || a == r.1 by {
      assert r in records + {r};
      forall x | x in records ensures x.1 in after { assert x in records + {r}; }
    }
    if r.1 !in Stats(records) { assert Holders(records, r.1) == {}; }
  }

  // ---------------------------------------------------------------- the repository

  class AchievementRepository {
    var records: set<(Id, AchievementId)>
    var counters: map<Id, int>

    ghost function View(): Store
      reads this
    {
      Store(records, counters)
    }

    constructor ()
      ensures View() == Store({}, map[]) && Counted(View())
    {
      records, counters := {}, map[];
    }

    method IncrementAchievementsEarnedCount(i: Id)
      modifies this`counters
      ensures counters == Incremented(old(counters), i)
    {
      if i in counters { counters := counters[i := counters[i] + 1]; }
    }

    method DecrementAchievementsEarnedCount(i: Id)
      modifies this`counters
      ensures counters == Decremented(old(counters), i)
    {
      if i in counters && counters[i] > 0 { counters := counters[i := counters[i] - 1]; }
    }

    /** False when the identity already has the achievement (unique index). */
    method Award(i: Id, a: AchievementId) returns (created: bool)
      modifies this
      ensures created <==> (i, a) !in old(records)
      ensures records == old(records) + {(i, a)}
      ensures counters == if created && i in old(counters) then old(counters)[i := old(counters)[i] + 1] else old(counters)
      ensures View() == Step(old(View()), Op.Award(i, a))
      ensures old(Counted(View())) ==> Counted(View())
    {
      ghost var before := View();
      if Counted(before) { StepKeepsCounted(before, Op.Award(i, a)); }
      if (i, a) in records { return false; }
      records := records + {(i, a)};
      IncrementAchievementsEarnedCount(i);
      created := true;
    }

    method Revoke(i: Id, a: AchievementId) returns (removed: bool)
      modifies this
      ensures removed <==> (i, a) in old(records)
      ensures records == old(records) - {(i, a)}
      ensures counters.Keys == old(counters).Keys
              && forall k | k in counters :: counters[k] == old(counters)[k] - (if removed && k == i && old(counters)[k] > 0 then 1 else 0)
      ensures View() == Step(old(View()), Op.Revoke(i, a))
      ensures old(Counted(View())) ==> Counted(View())
    {
      ghost var before := View();
      if Counted(before) { StepKeepsCounted(before, Op.Revoke(i, a)); }
      if (i, a) !in records { return false; }
      records := records - {(i, a)};
      DecrementAchievementsEarnedCount(i);
      removed := true;
    }

    method CountHolders(a: AchievementId) returns (n: nat)
      ensures n == |Holders(records, a)|
    {
      var holders := set r | r in records && r.1 == a;
      assert holders == Holders(records, a);
      n := |holders|;
    }

    /** Groups the records by achievement, adding one for each record, whatever their order. */
    method CountByAchievement() returns (groups: map<AchievementId, int>)
      ensures groups == Stats(records)
    {
      groups := map[];
      var rest, done := records, {};
      while rest != {}
        invariant done !! rest && done + rest == records
        invariant groups == Stats(done)
        decreases rest
      {
        var r :| r in rest;
        StatsOfOneMore(done, r);
        groups := groups[r.1 := (if r.1 in groups then groups[r.1] else 0) + 1];
        rest, done := rest - {r}, done + {r};
      }
      assert done == records;
    }

    /** Fills the answer from the groups, in any order. */
    method GetGlobalStats() returns (stats: map<AchievementId, int>)
      ensures stats == Stats(records)
    {
      var groups := CountByAchievement();
      stats := map[];
      var rest := groups.Keys;
      while rest != {}
        invariant rest <= groups.Keys && stats.Keys == groups.Keys - rest
        invariant forall a | a in stats :: stats[a] == groups[a]
        decreases rest
      {
        var a :| a in rest;
        stats := stats[a := groups[a]];
        rest := rest - {a};
      }
    }
  }
}
