/** The lease that guards the submission of a report to the authorities (`report.repository.ts`): claims
    and outcomes interleaved with the moderators' own status changes.  Times are in milliseconds. */
module Reports {
  import opened Optional

  type Id = nat

  /** Claims older than this may be taken over. */
  const NCMEC_CLAIM_STALE_MS: int := 15 * 60 * 1000

  datatype Status = Open | Escalated | Resolved | Closed

  datatype Ncmec = NotStarted | Claiming | Submitted | Failed

  datatype Report = Report(
    status: Status, assignedTo: Option<Id>, escalatedBy: Option<Id>, resolution: Option<string>,
    closedBy: Option<Id>, closureReason: Option<string>, category: string,
    ncmec: Ncmec, ncmecReportId: Option<string>, ncmecError: Option<string>,
    filedAt: Option<int>, filedBy: Option<Id>, tags: set<string>, updatedAt: int)

  datatype Outcome = Filed(reportId: string, actorId: Id, filedAt: int) | Rejected(error: string)

  // ---------------------------------------------------------------- the atomic database calls

  predicate Claimable(r: Report, now: int) {
    && r.status != Closed
    && (r.ncmec == NotStarted || r.ncmec == Failed || (r.ncmec == Claiming && r.updatedAt < now - NCMEC_CLAIM_STALE_MS))
  }

  function ClaimedReport(r: Report, now: int): Report { r.(ncmec := Claiming, updatedAt := now) }

  function Finalized(r: Report, outcome: Outcome, now: int): Report {
    match outcome
    case Filed(id, actor, filedAt) =>
      r.(ncmec := Submitted, filedAt := Some(filedAt), filedBy := Some(actor), ncmecReportId := Some(id),
         updatedAt := now, tags := r.tags + {"le_report_filed"}, ncmecError := None)
    case Rejected(error) => r.(ncmec := Failed, ncmecError := Some(error), updatedAt := now, ncmecReportId := None)
  }

  /** The moderators' changes: each writes its own fields and the update time. */
  datatype Change =
    | Assign(assignee: Id) | Unassign | Escalate(actor: Id) | Resolve(resolution: string)
    | Close(actor: Id, reason: string) | Reopen | Recategorize(category: string)

  function Changed(r: Report, change: Change, now: int): Report {
    var r' := r.(updatedAt := now);
    match change
    case Assign(assignee) => r'.(assignedTo := Some(assignee))
    case Unassign => r'.(assignedTo := None)
    case Escalate(actor) => r'.(status := Escalated, escalatedBy := Some(actor))
    case Resolve(resolution) => r'.(status := Resolved, resolution := Some(resolution))
    case Close(actor, reason) => r'.(status := Closed, closedBy := Some(actor), closureReason := Some(reason))
    case Reopen => r'.(status := Open, resolution := None, closureReason := None, closedBy := None)
    case Recategorize(category) => r'.(category := category)
  }

  function NewReport(category: string, now: int): Report {
    Report(Open, None, None, None, None, None, category, NotStarted, None, None, None, None, {}, now)
  }

  // ---------------------------------------------------------------- runs

  /** What happened to the lease, in order. */
  datatype Entry = DidClaim(at: int) | DidFail(at: int) | DidSubmit(at: int, reportId: string)

  datatype World = World(report: Report, log: seq<Entry>)

  datatype Action = Claim | Finalize(outcome: Outcome) | Moderate(change: Change)

  datatype Event = Event(action: Action, now: int)

  function Step(w: World, e: Event): World {
    match e.action
    case Claim =>
      if Claimable(w.report, e.now) then World(ClaimedReport(w.report, e.now), w.log + [DidClaim(e.now)]) else w
    case Finalize(outcome) =>
      if w.report.ncmec == Claiming then
        World(Finalized(w.report, outcome, e.now),
              w.log + [if outcome.Filed? then DidSubmit(e.now, outcome.reportId) else DidFail(e.now)])
      else w
    case Moderate(change) => w.(report := Changed(w.report, change, e.now))
  }

  /** A claim is granted exactly when the report is not closed and was never claimed, or has failed, or is
      held by a claim whose last update is more than 15 minutes old; then nothing but the lease's status
      and the update time changes. */
  lemma ClaimGrantedIff(w: World, now: int)
    ensures var w', r := Step(w, Event(Claim, now)), w.report;
            && (w'.log == w.log + [DidClaim(now)] <==>
                  && r.status != Closed
                  && (r.ncmec == NotStarted || r.ncmec == Failed || (r.ncmec == Claiming && now - r.updatedAt > 15 * 60 * 1000)))
            && (w'.log != w.log + [DidClaim(now)] ==> w' == w)
            && (w'.log == w.log + [DidClaim(now)] ==> w'.report == r.(ncmec := Claiming, updatedAt := now))
  {
    assert w.log + [DidClaim(now)] != w.log;
  }

  /** An outcome is taken exactly while the report is being claimed, and then decides what is logged. */
  lemma OutcomeTakenIff(w: World, outcome: Outcome, now: int)
    ensures var w', r := Step(w, Event(Finalize(outcome), now)), w.report;
            && (r.ncmec != Claiming ==> w' == w)
            && (r.ncmec == Claiming && outcome.Filed? ==>
                  && w'.log == w.log + [DidSubmit(now, outcome.reportId)]
                  && w'.report == r.(ncmec := Submitted, ncmecReportId := Some(outcome.reportId), ncmecError := None,
                                     filedAt := Some(outcome.filedAt), filedBy := Some(outcome.actorId),
                                     tags := r.tags + {"le_report_filed"}, updatedAt := now))
            && (r.ncmec == Claiming && outcome.Rejected? ==>
                  && w'.log == w.log + [DidFail(now)]
                  && w'.report == r.(ncmec := Failed, ncmecError := Some(outcome.error), ncmecReportId := None, updatedAt := now))
  {
  }

  function Run(w: World, events: seq<Event>): World
    decreases |events|
  {
    if events == [] then w else Run(Step(w, events[0]), events[1..])
  }

  /** A run takes its events one after the other. */
  lemma {:induction false} RunAppends(w: World, events: seq<Event>, last: Event)
    ensures Run(w, []) == w && Run(w, events + [last]) == Step(Run(w, events), last)
    decreases |events|
  {
    if events == [] {
      assert Run(w, [last]) == Run(Step(w, last), [last][1..]);
    } else {
      assert (events + [last])[1..] == events[1..] + [last];
      RunAppends(Step(w, events[0]), events[1..], last);
    }
  }

  ghost predicate ClockRuns(events: seq<Event>, from: int)
    decreases |events|
  {
    events == [] || (from <= events[0].now && ClockRuns(events[1..], events[0].now))
  }

  // ---------------------------------------------------------------- what every step keeps

  /** What may follow what: nothing follows a submission, only a claim follows a failure or the start,
      and a claim that follows a claim is more than the stale time later. */
  predicate Follows(a: Entry, b: Entry) {
    && a.at <= b.at && !a.DidSubmit?
    && (a.DidFail? ==> b.DidClaim?)
    && (a.DidClaim? && b.DidClaim? ==> b.at - a.at > NCMEC_CLAIM_STALE_MS)
  }

  ghost predicate GoodLog(log: seq<Entry>) {
    && (log != [] ==> log[0].DidClaim?)
    && forall i | 0 <= i < |log| - 1 :: Follows(log[i], log[i + 1])
  }

  ghost predicate Inv(w: World, now: int) {
    && GoodLog(w.log) && w.report.updatedAt <= now
    && (w.report.ncmecReportId.Some? <==> w.report.ncmec == Submitted)
    && match w.report.ncmec
       case NotStarted => w.log == []
       case Claiming => w.log != [] && w.log[|w.log| - 1].DidClaim? && w.log[|w.log| - 1].at <= w.report.updatedAt
       case Failed => w.log != [] && w.log[|w.log| - 1].DidFail? && w.log[|w.log| - 1].at <= w.report.updatedAt
       case Submitted => w.log != [] && w.log[|w.log| - 1].DidSubmit?
                         && Some(w.log[|w.log| - 1].reportId) == w.report.ncmecReportId
  }

  lemma StepKeepsInv(w: World, e: Event, from: int)
    requires Inv(w, from) && from <= e.now
    ensures Inv(Step(w, e), e.now)
    ensures w.log <= Step(w, e).log
  {
    var w' := Step(w, e);
    if w'.log != w.log {
      var n := |w.log|;
      assert forall i | 0 <= i < n :: w'.log[i] == w.log[i];
      assert n > 0 ==> Follows(w'.log[n - 1], w'.log[n]);
      assert GoodLog(w'.log);
    }
  }

  lemma {:induction false} RunKeepsInv(w: World, events: seq<Event>, from: int) returns (now: int)
    requires Inv(w, from) && ClockRuns(events, from)
    ensures from <= now && Inv(Run(w, events), now)
    ensures w.log <= Run(w, events).log
    decreases |events|
  {
    now := from;
    if events != [] {
      StepKeepsInv(w, events[0], from);
      now := RunKeepsInv(Step(w, events[0]), events[1..], events[0].now);
    }
  }

  /** Claims with no failure between them are more than the stale time apart. */
  lemma {:induction false} ClaimsFarApart(log: seq<Entry>, i: nat, j: nat)
    requires GoodLog(log) && i < j < |log| && log[i].DidClaim? && log[j].DidClaim?
    requires forall k | i < k < j :: !log[k].DidFail?
    ensures log[j].at - log[i].at > NCMEC_CLAIM_STALE_MS
    decreases j - i
  {
    assert Follows(log[i], log[i + 1]);
    if i + 1 < j {
      assert Follows(log[i + 1], log[i + 2]);
      ClaimsFarApart(log, i + 1, j);
    }
  }

  /** In every run of claims, outcomes and moderators' changes on a new report: the submission happens
      at most once and is the last thing to happen to the lease; the authority's report id is present
      exactly when submitted; and two claims with no failed outcome between them are more than 15
      minutes apart. */
  lemma LeaseTheorem(category: string, created: int, events: seq<Event>)
    requires ClockRuns(events, created)
    ensures var w := Run(World(NewReport(category, created), []), events);
            && (w.report.ncmecReportId.Some? <==> w.report.ncmec == Submitted)
            && (forall i | 0 <= i < |w.log| && w.log[i].DidSubmit? ::
                  i == |w.log| - 1 && w.report.ncmec == Submitted && w.report.ncmecReportId == Some(w.log[i].reportId))
            && (forall i, j | 0 <= i < j < |w.log| && w.log[i].DidClaim? && w.log[j].DidClaim?
                              && (forall k | i < k < j :: !w.log[k].DidFail?) ::
                  w.log[j].at - w.log[i].at > NCMEC_CLAIM_STALE_MS)
  {
    var w0 := World(NewReport(category, created), []);
    var w := Run(w0, events);
    var now := RunKeepsInv(w0, events, created);
    forall i | 0 <= i < |w.log| && w.log[i].DidSubmit? ensures i == |w.log| - 1 {
      assert i < |w.log| - 1 ==> Follows(w.log[i], w.log[i + 1]);
    }
    forall i, j | 0 <= i < j < |w.log| && w.log[i].DidClaim? && w.log[j].DidClaim?
                  && (forall k | i < k < j :: !w.log[k].DidFail?)
      ensures w.log[j].at - w.log[i].at > NCMEC_CLAIM_STALE_MS
    {
      ClaimsFarApart(w.log, i, j);
    }
  }

  /** Once submitted, a report stays submitted under the same id, whatever follows. */
  lemma {:induction false} SubmittedIsFinal(w: World, events: seq<Event>)
    requires w.report.ncmec == Submitted
    ensures var w' := Run(w, events);
            w'.report.ncmec == Submitted && w'.report.ncmecReportId == w.report.ncmecReportId && w'.log == w.log
    decreases |events|
  {
    if events != [] { SubmittedIsFinal(Step(w, events[0]), events[1..]); }
  }

  // ---------------------------------------------------------------- the repository

  class ReportRepository {
    var docs: map<Id, Report>

    constructor ()
      ensures docs == map[]
    {
      docs := map[];
    }

    method CreateReport(id: Id, category: string, now: int)
      requires id !in docs
      modifies this
      ensures docs == old(docs)[id := NewReport(category, now)]
      ensures var r := docs[id];
              && r.status == Open && r.category == category && r.ncmec == NotStarted && r.updatedAt == now
              && r.ncmecReportId == None && r.ncmecError == None && r.filedAt == None && r.filedBy == None && r.tags == {}
              && r.assignedTo == None && r.escalatedBy == None && r.resolution == None
              && r.closedBy == None && r.closureReason == None
    {
      docs := docs[id := Report(Open, None, None, None, None, None, category, NotStarted, None, None, None, None, {}, now)];
    }

    /** Only one concurrent request proceeds past this point. */
    method ClaimNcmecSubmission(id: Id, now: int) returns (claimed: Option<Report>)
      modifies this
      ensures claimed.Some? <==> id in old(docs) && Claimable(old(docs)[id], now)
      ensures docs == if claimed.Some? then old(docs)[id := ClaimedReport(old(docs)[id], now)] else old(docs)
      ensures claimed.Some? ==> claimed.value == docs[id]
      ensures claimed.Some? <==>
        && id in old(docs) && old(docs)[id].status != Closed
        && (old(docs)[id].ncmec == NotStarted || old(docs)[id].ncmec == Failed
            || (old(docs)[id].ncmec == Claiming && now - old(docs)[id].updatedAt > 15 * 60 * 1000))
      ensures claimed.Some? ==> docs == old(docs)[id := old(docs)[id].(ncmec := Claiming, updatedAt := now)]
    {
      if id !in docs { return None; }
      var r := docs[id];
      var staleBefore := now - NCMEC_CLAIM_STALE_MS;
      if r.status == Closed || r.ncmec == Submitted || (r.ncmec == Claiming && r.updatedAt >= staleBefore) { return None; }
      r := r.(ncmec := Claiming, updatedAt := now);
      docs := docs[id := r];
      claimed := Some(r);
    }

    /** Commits the outcome; only a report still being claimed is changed. */
    method FinalizeNcmecSubmission(id: Id, outcome: Outcome, now: int) returns (updated: Option<Report>)
      modifies this
      ensures updated.Some? <==> id in old(docs) && old(docs)[id].ncmec == Claiming
      ensures docs == if updated.Some? then old(docs)[id := Finalized(old(docs)[id], outcome, now)] else old(docs)
      ensures updated.Some? ==> updated.value == docs[id]
      ensures updated.Some? ==>
        var was, r := old(docs)[id], docs[id];
        match outcome
        case Filed(reportId, actor, filedAt) =>
          r == was.(ncmec := Submitted, ncmecReportId := Some(reportId), ncmecError := None, filedAt := Some(filedAt),
                    filedBy := Some(actor), tags := was.tags + {"le_report_filed"}, updatedAt := now)
        case Rejected(error) =>
          r == was.(ncmec := Failed, ncmecError := Some(error), ncmecReportId := None, updatedAt := now)
    {
      if id !in docs || docs[id].ncmec != Claiming { return None; }
      var r := docs[id].(updatedAt := now);
      if outcome.Filed? {
        r := r.(ncmec := Submitted, filedAt := Some(outcome.filedAt), filedBy := Some(outcome.actorId));
        r := r.(ncmecReportId := Some(outcome.reportId), tags := r.tags + {"le_report_filed"}, ncmecError := None);
      } else {
        r := r.(ncmec := Failed, ncmecError := Some(outcome.error), ncmecReportId := None);
      }
      docs := docs[id := r];
      updated := Some(r);
    }

    /** Assign, unassign, escalate, resolve, close, reopen and recategorize: never the lease's own fields. */
    method Moderate(id: Id, change: Change, now: int) returns (updated: Option<Report>)
      modifies this
      ensures updated.Some? <==> id in old(docs)
      ensures docs == if updated.Some? then old(docs)[id := Changed(old(docs)[id], change, now)] else old(docs)
      ensures updated.Some? ==>
        docs[id].ncmec == old(docs)[id].ncmec && docs[id].ncmecReportId == old(docs)[id].ncmecReportId
      ensures updated.Some? ==>
        var was, r := old(docs)[id], docs[id];
        && r.updatedAt == now && r.ncmecError == was.ncmecError && r.filedAt == was.filedAt && r.filedBy == was.filedBy && r.tags == was.tags
        && r.assignedTo == (match change case Assign(a) => Some(a) case Unassign => None case _ => was.assignedTo)
        && r.status == (match change case Escalate(_) => Escalated case Resolve(_) => Resolved case Close(_, _) => Closed
                                     case Reopen => Open case _ => was.status)
        && r.escalatedBy == (match change case Escalate(a) => Some(a) case _ => was.escalatedBy)
        && r.resolution == (match change case Resolve(x) => Some(x) case Reopen => None case _ => was.resolution)
        && r.closedBy == (match change case Close(a, _) => Some(a) case Reopen => None case _ => was.closedBy)
        && r.closureReason == (match change case Close(_, x) => Some(x) case Reopen => None case _ => was.closureReason)
        && r.category == (match change case Recategorize(x) => x case _ => was.category)
    {
      if id !in docs { return None; }
      var r := docs[id];
      match change {
        case Assign(assignee) => r := r.(assignedTo := Some(assignee));
        case Unassign => r := r.(assignedTo := None);
        case Escalate(actor) => r := r.(status := Escalated, escalatedBy := Some(actor));
        case Resolve(resolution) => r := r.(status := Resolved, resolution := Some(resolution));
        case Close(actor, reason) => r := r.(status := Closed, closedBy := Some(actor), closureReason := Some(reason));
        case Reopen => r := r.(status := Open, resolution := None, closureReason := None, closedBy := None);
        case Recategorize(category) => r := r.(category := category);
      }
      r := r.(updatedAt := now);
      docs := docs[id := r];
      updated := Some(r);
    }
  }
}
