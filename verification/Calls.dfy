/** The life of a live call (`call.repository.ts`).  A join reads the call's status and then updates the
    call in a second, guarded step; leaves, media updates and ends are single steps.  Everything
    interleaves; the clock never goes back. */
module Calls {
  import opened Optional

  type Id = nat

  datatype Status = Ringing | Active | Ended

  datatype Media = Media(audio: bool, video: bool, screenshare: bool)

  /** One participation; it is open until it has a leaving time. */
  datatype Participant = Participant(identity: Id, joinedAt: int, leftAt: Option<int>, media: Media)

  datatype Call = Call(
    conversationId: Id, initiator: Id, status: Status, allowedMedia: Media, participants: seq<Participant>,
    startedAt: Option<int>, endedAt: Option<int>, updatedAt: int)

  type Calls = map<Id, Call>

  /** A joining participant, stamped by the caller before the repository is reached. */
  datatype Joiner = Joiner(identity: Id, joinedAt: int, media: Media)

  // ---------------------------------------------------------------- the atomic database calls

  predicate IsOpen(p: Participant, identity: Id) { p.identity == identity && p.leftAt == None }

  predicate HasOpen(ps: seq<Participant>, identity: Id) {
    exists i :: 0 <= i < |ps| && IsOpen(ps[i], identity)
  }

  /** The entry a positional update addresses: the first that matches. */
  function FirstOpen(ps: seq<Participant>, identity: Id): (i: nat)
    requires HasOpen(ps, identity)
    ensures i < |ps| && IsOpen(ps[i], identity)
    ensures forall k | 0 <= k < i :: !IsOpen(ps[k], identity)
  {
    if IsOpen(ps[0], identity) then 0
    else
      assert HasOpen(ps[1..], identity) by {
        var i :| 0 <= i < |ps| && IsOpen(ps[i], identity);
        assert ps[1..][i - 1] == ps[i];
      }
      FirstOpen(ps[1..], identity) + 1
  }

  predicate CanJoin(docs: Calls, c: Id, identity: Id) {
    c in docs && docs[c].status != Ended && !HasOpen(docs[c].participants, identity)
  }

  predicate CanUpdate(docs: Calls, c: Id, identity: Id) {
    c in docs && docs[c].status != Ended && HasOpen(docs[c].participants, identity)
  }

  function Joined(call: Call, j: Joiner, sawRinging: bool, begunAt: int, now: int): Call {
    var pushed := call.(participants := call.participants + [Participant(j.identity, j.joinedAt, None, j.media)],
                        updatedAt := begunAt);
    if sawRinging then pushed.(status := Active, startedAt := Some(now)) else pushed
  }

  function Left(call: Call, identity: Id, now: int): Call
    requires HasOpen(call.participants, identity)
  {
    var i := FirstOpen(call.participants, identity);
    call.(participants := call.participants[i := call.participants[i].(leftAt := Some(now))], updatedAt := now)
  }

  function MediaChanged(call: Call, identity: Id, media: Media, now: int): Call
    requires HasOpen(call.participants, identity)
  {
    var i := FirstOpen(call.participants, identity);
    call.(participants := call.participants[i := call.participants[i].(media := media)], updatedAt := now)
  }

  function EndedCall(call: Call, now: int): Call {
    call.(status := Ended, endedAt := Some(now), updatedAt := now)
  }

  /** The unique partial index: one ringing or active call per conversation. */
  predicate Busy(docs: Calls, conversationId: Id) {
    exists c :: c in docs && docs[c].conversationId == conversationId && docs[c].status != Ended
  }

  function NewCall(conversationId: Id, initiator: Id, media: Media, now: int): Call {
    Call(conversationId, initiator, Ringing, media, [], None, None, now)
  }

  // ---------------------------------------------------------------- runs

  /** A join between its two steps. */
  datatype Phase = Start | Ready(sawRinging: bool) | Done(result: Option<Call>)

  datatype Join = Join(callId: Id, joiner: Joiner, begunAt: int, phase: Phase)

  datatype World = World(docs: Calls, joins: map<nat, Join>)

  datatype Action =
    | Create(callId: Id, conversationId: Id, initiator: Id, media: Media)
    | BeginJoin(j: nat, callId: Id, joiner: Joiner)
    | AdvanceJoin(j: nat)
    | Leave(callId: Id, identity: Id)
    | SetMedia(callId: Id, identity: Id, media: Media)
    | End(callId: Id)

  datatype Event = Event(action: Action, now: int)

  predicate Commits(w: World, e: Event) {
    && e.action.AdvanceJoin? && e.action.j in w.joins
    && w.joins[e.action.j].phase.Ready?
    && CanJoin(w.docs, w.joins[e.action.j].callId, w.joins[e.action.j].joiner.identity)
  }

  function Advanced(w: World, j: nat, now: int): World
    requires j in w.joins
  {
    var join := w.joins[j];
    var c := join.callId;
    match join.phase
    case Start =>
      w.(joins := w.joins[j := join.(phase := Ready(c in w.docs && w.docs[c].status == Ringing))])
    case Ready(saw) =>
      if CanJoin(w.docs, c, join.joiner.identity) then
        var call := Joined(w.docs[c], join.joiner, saw, join.begunAt, now);
        World(w.docs[c := call], w.joins[j := join.(phase := Done(Some(call)))])
      else w.(joins := w.joins[j := join.(phase := Done(None))])
    case Done(_) => w
  }

  function Step(w: World, e: Event): World {
    match e.action
    case Create(c, conversationId, initiator, media) =>
      if c in w.docs || Busy(w.docs, conversationId) then w
      else w.(docs := w.docs[c := NewCall(conversationId, initiator, media, e.now)])
    case BeginJoin(j, c, joiner) =>
      // A caller knows a call id only from a stored call, and stamps the joiner no later than now.
      if j in w.joins || c !in w.docs || joiner.joinedAt > e.now then w
      else w.(joins := w.joins[j := Join(c, joiner, e.now, Start)])
    case AdvanceJoin(j) => if j in w.joins then Advanced(w, j, e.now) else w
    case Leave(c, i) => if CanUpdate(w.docs, c, i) then w.(docs := w.docs[c := Left(w.docs[c], i, e.now)]) else w
    case SetMedia(c, i, media) =>
      if CanUpdate(w.docs, c, i) then w.(docs := w.docs[c := MediaChanged(w.docs[c], i, media, e.now)]) else w
    case End(c) => if c in w.docs then w.(docs := w.docs[c := EndedCall(w.docs[c], e.now)]) else w
  }

  /** What ending a call and changing media do to the stored calls, in their own fields, and how a join is
      answered once it has looked. */
  lemma StepByFields(w: World, e: Event)
    ensures var docs, w' := w.docs, Step(w, e);
            match e.action
            case End(c) =>
              w'.docs == map k | k in docs ::
                if k == c then docs[k].(status := Ended, endedAt := Some(e.now), updatedAt := e.now) else docs[k]
            case SetMedia(c, i, media) =>
              && w'.docs.Keys == docs.Keys && (forall k | k in docs && k != c :: w'.docs[k] == docs[k])
              && (c in docs && docs[c].status != Ended
                  && (exists n :: 0 <= n < |docs[c].participants| && IsOpen(docs[c].participants[n], i)) ==>
                    exists n :: 0 <= n < |docs[c].participants| && IsOpen(docs[c].participants[n], i)
                      && w'.docs[c].participants == docs[c].participants[n := docs[c].participants[n].(media := media)])
            case AdvanceJoin(j) =>
              j in w.joins && w.joins[j].phase.Ready? ==>
                var c := w.joins[j].callId;
                w'.joins[j].phase == Done(if c in docs && CanJoin(docs, c, w.joins[j].joiner.identity) then Some(w'.docs[c]) else None)
            case _ => true
  {
    if e.action.SetMedia? && CanUpdate(w.docs, e.action.callId, e.action.identity) {
      var ps := w.docs[e.action.callId].participants;
      var n := FirstOpen(ps, e.action.identity);
      assert IsOpen(ps[n], e.action.identity);
    }
  }

  function Run(w: World, events: seq<Event>): World
    decreases |events|
  {
    if events == [] then w else Run(Step(w, events[0]), events[1..])
  }

  // ---------------------------------------------------------------- what every step keeps

  /** Of one identity's entries only the last can be open. */
  ghost predicate OneOpen(ps: seq<Participant>) {
    forall i, j | 0 <= i < j < |ps| && ps[i].identity == ps[j].identity :: ps[i].leftAt.Some?
  }

  /** A live call rings exactly while nobody has joined it. */
  ghost predicate Sound(call: Call) {
    OneOpen(call.participants) && (call.status != Ended ==> (call.status == Ringing <==> call.participants == []))
  }

  ghost predicate OneLivePerConversation(docs: Calls) {
    forall a, b | a in docs && b in docs && docs[a].conversationId == docs[b].conversationId ::
      docs[a].status != Ended && docs[b].status != Ended ==> a == b
  }

  ghost predicate JoinSound(w: World, join: Join) {
    && join.callId in w.docs && join.joiner.joinedAt <= join.begunAt
    && (join.phase == Ready(false) ==> w.docs[join.callId].status != Ringing)
  }

  ghost predicate Inv(w: World) {
    && (forall c | c in w.docs :: Sound(w.docs[c]))
    && OneLivePerConversation(w.docs)
    && (forall j | j in w.joins :: JoinSound(w, w.joins[j]))
  }

  function Rank(s: Status): nat {
    match s case Ringing => 0 case Active => 1 case Ended => 2
  }

  /** The positional update addresses the one open entry of the identity. */
  lemma PositionalHitsTheOpenEntry(ps: seq<Participant>, identity: Id, i: nat)
    requires OneOpen(ps) && i < |ps| && IsOpen(ps[i], identity)
    ensures FirstOpen(ps, identity) == i
  {
    assert FirstOpen(ps, identity) <= i;
  }

  lemma UpdateKeepsOneOpen(ps: seq<Participant>, i: nat, p: Participant)
    requires OneOpen(ps) && i < |ps| && p.identity == ps[i].identity && (ps[i].leftAt.Some? ==> p.leftAt.Some?)
    ensures OneOpen(ps[i := p])
  {
  }

  lemma JoinKeepsSound(call: Call, j: Joiner, saw: bool, begunAt: int, now: int)
    requires Sound(call) && call.status != Ended && !HasOpen(call.participants, j.identity)
    requires saw || call.status != Ringing
    ensures Sound(Joined(call, j, saw, begunAt, now))
  {
    var ps := call.participants;
    forall i | 0 <= i < |ps| && ps[i].identity == j.identity ensures ps[i].leftAt.Some? {
      assert !IsOpen(ps[i], j.identity);
    }
  }

  lemma AdvanceKeepsSound(w: World, e: Event, c: Id)
    requires Inv(w) && e.action.AdvanceJoin? && c in w.docs
    ensures c in Step(w, e).docs && Sound(Step(w, e).docs[c])
    ensures Rank(w.docs[c].status) <= Rank(Step(w, e).docs[c].status)
    ensures Step(w, e).docs.Keys == w.docs.Keys && Step(w, e).docs[c].conversationId == w.docs[c].conversationId
  {
    assert Sound(w.docs[c]);
    if Commits(w, e) && w.joins[e.action.j].callId == c {
      var join := w.joins[e.action.j];
      assert JoinSound(w, join);
      JoinKeepsSound(w.docs[c], join.joiner, join.phase.sawRinging, join.begunAt, e.now);
    }
  }

  lemma StepKeepsSound(w: World, e: Event, c: Id)
    requires Inv(w) && c in Step(w, e).docs
    ensures Sound(Step(w, e).docs[c])
    ensures c in w.docs ==> Rank(w.docs[c].status) <= Rank(Step(w, e).docs[c].status)
  {
    if c in w.docs { assert Sound(w.docs[c]); }
    match e.action
    case AdvanceJoin(j) => AdvanceKeepsSound(w, e, c);
    case Leave(d, i) =>
      if CanUpdate(w.docs, c, i) {
        var ps := w.docs[c].participants;
        var k := FirstOpen(ps, i);
        UpdateKeepsOneOpen(ps, k, ps[k].(leftAt := Some(e.now)));
      }
    case SetMedia(d, i, media) =>
      if CanUpdate(w.docs, c, i) {
        var ps := w.docs[c].participants;
        var k := FirstOpen(ps, i);
        UpdateKeepsOneOpen(ps, k, ps[k].(media := media));
      }
    case _ =>
  }

  /** An ended call never blocks its conversation, and no step brings one back. */
  lemma StepKeepsOneLive(w: World, e: Event)
    requires Inv(w)
    ensures OneLivePerConversation(Step(w, e).docs)
  {
    var docs := Step(w, e).docs;
    forall c | c in docs && c in w.docs
      ensures docs[c].conversationId == w.docs[c].conversationId && (docs[c].status != Ended ==> w.docs[c].status != Ended)
    {
      StepKeepsSound(w, e, c);
    }
    assert forall c | c in docs && c !in w.docs :: e.action.Create? && c == e.action.callId && !Busy(w.docs, docs[c].conversationId);
  }

  /** Every step keeps the invariant, and no call's status moves backwards. */
  lemma StepKeepsInv(w: World, e: Event)
    requires Inv(w)
    ensures Inv(Step(w, e))
    ensures forall c | c in w.docs :: c in Step(w, e).docs && Rank(w.docs[c].status) <= Rank(Step(w, e).docs[c].status)
  {
    forall c | c in Step(w, e).docs
      ensures Sound(Step(w, e).docs[c])
      ensures c in w.docs ==> Rank(w.docs[c].status) <= Rank(Step(w, e).docs[c].status)
    {
      StepKeepsSound(w, e, c);
    }
    StepKeepsOneLive(w, e);
    OthersStaySound(w, e);
  }

  /** Joins in flight stay sound: a call that stopped ringing never rings again. */
  lemma OthersStaySound(w: World, e: Event)
    requires Inv(w)
    ensures forall j | j in Step(w, e).joins :: JoinSound(Step(w, e), Step(w, e).joins[j])
  {
    forall j | j in Step(w, e).joins ensures JoinSound(Step(w, e), Step(w, e).joins[j]) {
      if j in w.joins { assert JoinSound(w, w.joins[j]); }
    }
  }

  /** In every interleaving of creations, joins, leaves, media updates and ends: each identity has at
      most one open participation, its last; a live call rings exactly while it has no participants;
      a conversation has at most one live call; and status never moves backwards. */
  lemma CallTheorem(events: seq<Event>, more: seq<Event>)
    ensures var w := Run(World(map[], map[]), events);
            && (forall c | c in w.docs ::
                  var call := w.docs[c];
                  && (forall i, j | 0 <= i < j < |call.participants| && call.participants[i].identity == call.participants[j].identity ::
                        call.participants[i].leftAt.Some?)
                  && (call.status != Ended ==> (call.status == Ringing <==> call.participants == []))
                  && c in Run(w, more).docs && Rank(call.status) <= Rank(Run(w, more).docs[c].status))
            && (forall a, b | a in w.docs && b in w.docs && w.docs[a].conversationId == w.docs[b].conversationId
                              && w.docs[a].status != Ended && w.docs[b].status != Ended :: a == b)
  {
    RunKeepsInv(World(map[], map[]), events);
    var w := Run(World(map[], map[]), events);
    RunKeepsInv(w, more);
    forall c | c in w.docs ensures Sound(w.docs[c]) {}
  }

  lemma {:induction false} RunKeepsInv(w: World, events: seq<Event>)
    requires Inv(w)
    ensures Inv(Run(w, events))
    ensures forall c | c in w.docs :: c in Run(w, events).docs && Rank(w.docs[c].status) <= Rank(Run(w, events).docs[c].status)
    decreases |events|
  {
    if events != [] {
      StepKeepsInv(w, events[0]);
      RunKeepsInv(Step(w, events[0]), events[1..]);
    }
  }

  // ---------------------------------------------------------------- disjoint in time

  /** One identity's participations follow each other in time, as they do in the list. */
  ghost predicate InOrder(ps: seq<Participant>) {
    && (forall i | 0 <= i < |ps| && ps[i].leftAt.Some? :: ps[i].joinedAt <= ps[i].leftAt.value)
    && (forall i, j | 0 <= i < j < |ps| && ps[i].identity == ps[j].identity ::
          ps[i].leftAt.Some? && ps[i].leftAt.value <= ps[j].joinedAt)
  }

  /** A leave of the same identity was stored after this joiner was stamped. */
  predicate Overtaken(ps: seq<Participant>, j: Joiner) {
    exists i :: 0 <= i < |ps| && ps[i].identity == j.identity && ps[i].leftAt.Some? && ps[i].leftAt.value > j.joinedAt
  }

  /** No join of call `c` is committed in the run after being overtaken. */
  ghost predicate Prompt(w: World, events: seq<Event>, c: Id)
    decreases |events|
  {
    events == [] ||
    (&& (Commits(w, events[0]) && w.joins[events[0].action.j].callId == c && c in w.docs ==>
           !Overtaken(w.docs[c].participants, w.joins[events[0].action.j].joiner))
     && Prompt(Step(w, events[0]), events[1..], c))
  }

  ghost predicate ClockRuns(events: seq<Event>, from: int)
    decreases |events|
  {
    events == [] || (from <= events[0].now && ClockRuns(events[1..], events[0].now))
  }

  /** Nothing stored or in flight is from the future. */
  ghost predicate Past(w: World, now: int) {
    && (forall c, i | c in w.docs && 0 <= i < |w.docs[c].participants| :: w.docs[c].participants[i].joinedAt <= now)
    && (forall j | j in w.joins :: w.joins[j].begunAt <= now && w.joins[j].joiner.joinedAt <= now)
  }

  lemma StepStaysPast(w: World, e: Event, from: int)
    requires Past(w, from) && from <= e.now
    ensures Past(Step(w, e), e.now)
  {
  }

  /** One step keeps a call's participations in order exactly when it does not commit an overtaken join. */
  lemma StepInOrderIff(w: World, e: Event, from: int, c: Id)
    requires Inv(w) && Past(w, from) && from <= e.now && c in w.docs
    ensures c in Step(w, e).docs
    ensures InOrder(Step(w, e).docs[c].participants) <==>
              InOrder(w.docs[c].participants) &&
              !(Commits(w, e) && w.joins[e.action.j].callId == c
                && Overtaken(w.docs[c].participants, w.joins[e.action.j].joiner))
  {
    var ps, ps' := w.docs[c].participants, Step(w, e).docs[c].participants;
    assert Sound(w.docs[c]);
    if Commits(w, e) && w.joins[e.action.j].callId == c {
      AppendInOrderIff(ps, w.joins[e.action.j].joiner);
    } else if e.action.Leave? && e.action.callId == c && CanUpdate(w.docs, c, e.action.identity) {
      var k := FirstOpen(ps, e.action.identity);
      LeaveKeepsOrder(ps, k, e.now);
    } else if e.action.SetMedia? && e.action.callId == c && CanUpdate(w.docs, c, e.action.identity) {
      var k := FirstOpen(ps, e.action.identity);
      MediaKeepsOrder(ps, k, e.action.media);
    } else {
      assert ps' == ps;
    }
  }

  lemma AppendInOrderIff(ps: seq<Participant>, j: Joiner)
    requires !HasOpen(ps, j.identity)
    ensures InOrder(ps + [Participant(j.identity, j.joinedAt, None, j.media)]) <==> InOrder(ps) && !Overtaken(ps, j)
  {
    var longer := ps + [Participant(j.identity, j.joinedAt, None, j.media)];
    assert forall i | 0 <= i < |ps| :: longer[i] == ps[i];
    forall i | 0 <= i < |ps| && ps[i].identity == j.identity ensures ps[i].leftAt.Some? {
      assert !IsOpen(ps[i], j.identity);
    }
    if InOrder(longer) {
      forall i | 0 <= i < |ps| && ps[i].identity == j.identity ensures ps[i].leftAt.value <= j.joinedAt {
        assert longer[i].identity == longer[|ps|].identity;
      }
      assert forall i, k | 0 <= i < k < |ps| && ps[i].identity == ps[k].identity ::
          longer[i].leftAt.Some? && longer[i].leftAt.value <= longer[k].joinedAt;
    }
  }

  lemma LeaveKeepsOrder(ps: seq<Participant>, k: nat, now: int)
    requires OneOpen(ps) && k < |ps| && ps[k].leftAt == None && ps[k].joinedAt <= now
    ensures InOrder(ps[k := ps[k].(leftAt := Some(now))]) <==> InOrder(ps)
  {
    var after := ps[k := ps[k].(leftAt := Some(now))];
    assert forall i | 0 <= i < |ps| && i != k :: after[i] == ps[i];
    assert forall j | k < j < |ps| :: ps[j].identity != ps[k].identity;
    if InOrder(after) {
      forall i, j | 0 <= i < j < |ps| && ps[i].identity == ps[j].identity
        ensures ps[i].leftAt.Some? && ps[i].leftAt.value <= ps[j].joinedAt
      {
        assert after[i].identity == after[j].identity;
      }
      forall i | 0 <= i < |ps| && ps[i].leftAt.Some? ensures ps[i].joinedAt <= ps[i].leftAt.value {
        assert after[i] == ps[i];
      }
    }
  }

  lemma MediaKeepsOrder(ps: seq<Participant>, k: nat, media: Media)
    requires k < |ps|
    ensures InOrder(ps[k := ps[k].(media := media)]) <==> InOrder(ps)
  {
    var after := ps[k := ps[k].(media := media)];
    assert forall i | 0 <= i < |ps| ::
      after[i].identity == ps[i].identity && after[i].leftAt == ps[i].leftAt && after[i].joinedAt == ps[i].joinedAt;
    assert forall i, j | 0 <= i < j < |ps| && after[i].identity == after[j].identity :: ps[i].identity == ps[j].identity;
    assert forall i, j | 0 <= i < j < |ps| && ps[i].identity == ps[j].identity :: after[i].identity == after[j].identity;
  }

  /** A call's participations end up disjoint in time and ordered exactly when no join was committed
      after a leave of the same identity had overtaken it. */
  lemma {:induction false} InOrderIffPrompt(w: World, events: seq<Event>, from: int, c: Id)
    requires Inv(w) && Past(w, from) && ClockRuns(events, from) && c in w.docs
    ensures c in Run(w, events).docs
    ensures InOrder(Run(w, events).docs[c].participants) <==> InOrder(w.docs[c].participants) && Prompt(w, events, c)
    decreases |events|
  {
    if events != [] {
      StepKeepsInv(w, events[0]);
      StepStaysPast(w, events[0], from);
      StepInOrderIff(w, events[0], from, c);
      InOrderIffPrompt(Step(w, events[0]), events[1..], events[0].now, c);
    }
  }

  /** The overlap is reachable: a second join stamped at 1 is overtaken by the leave at 2. */
  lemma OvertakenJoinOverlaps(m: Media)
    ensures var first := Joiner(7, 0, m);
            var second := Joiner(7, 1, m);
            var w := Run(World(map[], map[]),
                         [Event(Create(1, 5, 7, m), 0), Event(BeginJoin(0, 1, first), 0), Event(AdvanceJoin(0), 0),
                          Event(AdvanceJoin(0), 0), Event(BeginJoin(1, 1, second), 1), Event(AdvanceJoin(1), 1),
                          Event(Leave(1, 7), 2), Event(AdvanceJoin(1), 3)]);
            && 1 in w.docs
            && w.docs[1].participants == [Participant(7, 0, Some(2), m), Participant(7, 1, None, m)]
            && !InOrder(w.docs[1].participants)
  {
    var a := [Event(Create(1, 5, 7, m), 0), Event(BeginJoin(0, 1, Joiner(7, 0, m)), 0), Event(AdvanceJoin(0), 0),
              Event(AdvanceJoin(0), 0)];
    var b := [Event(BeginJoin(1, 1, Joiner(7, 1, m)), 1), Event(AdvanceJoin(1), 1), Event(Leave(1, 7), 2),
              Event(AdvanceJoin(1), 3)];
    FirstJoin(m);
    SecondJoin(m, Run(World(map[], map[]), a));
    RunConcat(World(map[], map[]), a, b);
    assert a + b == [a[0], a[1], a[2], a[3], b[0], b[1], b[2], b[3]];
  }

  predicate JoinedOnce(w: World, m: Media) {
    w.joins.Keys == {0} && 1 in w.docs && w.docs[1].status == Active && w.docs[1].participants == [Participant(7, 0, None, m)]
  }

  lemma FirstJoin(m: Media)
    ensures JoinedOnce(Run(World(map[], map[]),
                           [Event(Create(1, 5, 7, m), 0), Event(BeginJoin(0, 1, Joiner(7, 0, m)), 0), Event(AdvanceJoin(0), 0),
                            Event(AdvanceJoin(0), 0)]), m)
  {
    var e := [Event(Create(1, 5, 7, m), 0), Event(BeginJoin(0, 1, Joiner(7, 0, m)), 0), Event(AdvanceJoin(0), 0),
              Event(AdvanceJoin(0), 0)];
    var w0 := World(map[], map[]);
    var w2 := Step(Step(w0, e[0]), e[1]);
    var w4 := Step(Step(w2, e[2]), e[3]);
    RunTwo(w0, e);
    RunTwo(w2, e[2..]);
    assert Run(w0, e) == w4;
  }

  lemma SecondJoin(m: Media, w4: World)
    requires JoinedOnce(w4, m)
    ensures var w := Run(w4, [Event(BeginJoin(1, 1, Joiner(7, 1, m)), 1), Event(AdvanceJoin(1), 1), Event(Leave(1, 7), 2),
                              Event(AdvanceJoin(1), 3)]);
            && 1 in w.docs
            && w.docs[1].participants == [Participant(7, 0, Some(2), m), Participant(7, 1, None, m)]
            && !InOrder(w.docs[1].participants)
  {
    var e := [Event(BeginJoin(1, 1, Joiner(7, 1, m)), 1), Event(AdvanceJoin(1), 1), Event(Leave(1, 7), 2),
              Event(AdvanceJoin(1), 3)];
    var w6 := Step(Step(w4, e[0]), e[1]);
    assert IsOpen(w6.docs[1].participants[0], 7);
    var w7 := Step(w6, e[2]);
    assert w7.docs[1].participants == [Participant(7, 0, Some(2), m)];
    var w8 := Step(w7, e[3]);
    RunTwo(w4, e);
    RunTwo(w6, e[2..]);
    assert Run(w4, e) == w8;
    var ps := w8.docs[1].participants;
    assert ps[0].identity == ps[1].identity && ps[0].leftAt.value > ps[1].joinedAt;
  }

  lemma {:induction false} RunConcat(w: World, a: seq<Event>, b: seq<Event>)
    ensures Run(w, a + b) == Run(Run(w, a), b)
    decreases |a|
  {
    if a == [] {
      assert a + b == b;
    } else {
      assert (a + b)[1..] == a[1..] + b;
      RunConcat(Step(w, a[0]), a[1..], b);
    }
  }

  /** A run, two events at a time from the front. */
  lemma RunTwo(w: World, e: seq<Event>)
    requires |e| >= 2
    ensures Run(w, e) == Run(Step(Step(w, e[0]), e[1]), e[2..])
  {
    assert e[1..][1..] == e[2..];
  }

  // ---------------------------------------------------------------- the repository

  class CallRepository {
    var docs: Calls

    constructor ()
      ensures docs == map[]
    {
      docs := map[];
    }

    /** Fails when the conversation already has a live call. */
    method CreateCall(id: Id, conversationId: Id, initiator: Id, media: Media, now: int) returns (ok: bool)
      requires id !in docs
      modifies this
      ensures ok <==> !Busy(old(docs), conversationId)
      ensures ok <==> forall c | c in old(docs) :: old(docs)[c].conversationId != conversationId || old(docs)[c].status == Ended
      ensures docs == if ok then old(docs)[id := NewCall(conversationId, initiator, media, now)] else old(docs)
      ensures ok ==>
        var call := docs[id];
        && call.conversationId == conversationId && call.status == Ringing && call.participants == []
        && call.allowedMedia == media && call.updatedAt == now
    {
      ok := !Busy(docs, conversationId);
      if ok { docs := docs[id := Call(conversationId, initiator, Ringing, media, [], None, None, now)]; }
    }

    /** Adds a participant, and makes a ringing call active, when nothing runs in between. */
    method AddParticipant(callId: Id, joiner: Joiner, now: int) returns (result: Option<Call>)
      modifies this
      ensures result.Some? <==> CanJoin(old(docs), callId, joiner.identity)
      ensures docs == if result.Some?
                      then old(docs)[callId := Joined(old(docs)[callId], joiner, old(docs)[callId].status == Ringing, now, now)]
                      else old(docs)
      ensures result.Some? ==> result.value == docs[callId]
      ensures (forall c | c in old(docs) :: Sound(old(docs)[c])) ==> forall c | c in docs :: Sound(docs[c])
      ensures result.Some? ==>
        var was, call := old(docs)[callId], docs[callId];
        && was.status != Ended && (forall i | 0 <= i < |was.participants| :: was.participants[i].identity != joiner.identity
                                                                             || was.participants[i].leftAt.Some?)
        && call.participants == was.participants + [Participant(joiner.identity, joiner.joinedAt, None, joiner.media)]
        && call.status == (if was.status == Ringing then Active else was.status)
        && call.conversationId == was.conversationId && call.updatedAt == now
      ensures result == None ==>
        callId !in docs || docs[callId].status == Ended
        || exists i :: 0 <= i < |docs[callId].participants| && docs[callId].participants[i].identity == joiner.identity
                       && docs[callId].participants[i].leftAt == None
    {
      var ringing := callId in docs && docs[callId].status == Ringing;
      if !CanJoin(docs, callId, joiner.identity) { return None; }
      ghost var before := docs[callId];
      var call := docs[callId];
      call := call.(participants := call.participants + [Participant(joiner.identity, joiner.joinedAt, None, joiner.media)], updatedAt := now);
      if ringing { call := call.(status := Active, startedAt := Some(now)); }
      if Sound(before) { JoinKeepsSound(before, joiner, ringing, now, now); }
      docs := docs[callId := call];
      result := Some(call);
    }

    /** The position of the identity's first open entry, if any. */
    method FindOpen(ps: seq<Participant>, identity: Id) returns (i: Option<nat>)
      ensures i == if HasOpen(ps, identity) then Some(FirstOpen(ps, identity)) else None
    {
      var k := 0;
      while k < |ps|
        invariant 0 <= k <= |ps|
        invariant forall n | 0 <= n < k :: !IsOpen(ps[n], identity)
      {
        if IsOpen(ps[k], identity) { return Some(k); }
        k := k + 1;
      }
      i := None;
    }

    method UpdateParticipantLeft(callId: Id, identity: Id, now: int) returns (result: Option<Call>)
      modifies this
      ensures result.Some? <==> CanUpdate(old(docs), callId, identity)
      ensures docs == if result.Some? then old(docs)[callId := Left(old(docs)[callId], identity, now)] else old(docs)
      ensures result.Some? ==> result.value == docs[callId]
      ensures result.Some? ==>
        var was, ps := old(docs)[callId].participants, docs[callId].participants;
        && old(docs)[callId].status != Ended && docs[callId].status == old(docs)[callId].status && |ps| == |was|
        && exists i :: 0 <= i < |was| && was[i].identity == identity && was[i].leftAt == None
                       && (forall k | 0 <= k < i :: was[k].identity != identity || was[k].leftAt.Some?)
                       && ps == was[i := Participant(identity, was[i].joinedAt, Some(now), was[i].media)]
      ensures result == None ==>
        callId !in docs || docs[callId].status == Ended
        || forall i | 0 <= i < |docs[callId].participants| ::
             docs[callId].participants[i].identity != identity || docs[callId].participants[i].leftAt.Some?
    {
      if callId !in docs || docs[callId].status == Ended { return None; }
      var call := docs[callId];
      var i := FindOpen(call.participants, identity);
      if i == None { return None; }
      var p := call.participants[i.value].(leftAt := Some(now));
      call := call.(participants := call.participants[i.value := p], updatedAt := now);
      docs := docs[callId := call];
      result := Some(call);
    }

    method UpdateParticipantMediaState(callId: Id, identity: Id, media: Media, now: int) returns (result: Option<Call>)
      modifies this
      ensures result.Some? <==> CanUpdate(old(docs), callId, identity)
      ensures docs == if result.Some? then old(docs)[callId := MediaChanged(old(docs)[callId], identity, media, now)] else old(docs)
      ensures result.Some? ==> result.value == docs[callId]
      ensures result.Some? ==>
        var was, ps := old(docs)[callId].participants, docs[callId].participants;
        && old(docs)[callId].status != Ended && docs[callId].status == old(docs)[callId].status && |ps| == |was|
        && exists i :: 0 <= i < |was| && was[i].identity == identity && was[i].leftAt == None
                       && (forall k | 0 <= k < i :: was[k].identity != identity || was[k].leftAt.Some?)
                       && ps == was[i := Participant(identity, was[i].joinedAt, None, media)]
      ensures result == None ==>
        callId !in docs || docs[callId].status == Ended
        || forall i | 0 <= i < |docs[callId].participants| ::
             docs[callId].participants[i].identity != identity || docs[callId].participants[i].leftAt.Some?
    {
      if callId !in docs || docs[callId].status == Ended { return None; }
      var call := docs[callId];
      var i := FindOpen(call.participants, identity);
      if i == None { return None; }
      var p := call.participants[i.value].(media := media);
      call := call.(participants := call.participants[i.value := p], updatedAt := now);
      docs := docs[callId := call];
      result := Some(call);
    }

    /** The only use of the status update: ending a call. */
    method EndCall(callId: Id, now: int) returns (result: Option<Call>)
      modifies this
      ensures result.Some? <==> callId in old(docs)
      ensures docs == if result.Some? then old(docs)[callId := EndedCall(old(docs)[callId], now)] else old(docs)
      ensures result.Some? ==> result.value == docs[callId]
      ensures result.Some? ==>
        docs[callId] == old(docs)[callId].(status := Ended, endedAt := Some(now), updatedAt := now)
    {
      if callId !in docs { return None; }
      var call := docs[callId].(status := Ended, updatedAt := now, endedAt := Some(now));
      docs := docs[callId := call];
      result := Some(call);
    }
  }
}
