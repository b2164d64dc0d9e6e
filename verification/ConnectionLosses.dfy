/**
 * What overlapping handlers of the chat service can break, and exactly when: a socket can be dropped from its
 * identity, a space with listeners can go untracked, and a closed socket can be left in a space.
 */
module ConnectionLosses {
  import opened Optional
  import opened ChatChannels
  import opened ConnectionRegistry
  import opened ConnectionRaces
  import opened ConnectionSafety
  import ChatRegistry

  type Socket = ChatRegistry.Socket

  // ----- sockets dropped from their identity -----

  /**
   * A closing reaches its end holding an empty set while the identity has a newer, non-empty one: it deletes the
   * identity all the same.
   */
  ghost predicate Loses(st: State, e: Event, id: Id)
    requires WellFormed(st) && Possible(st, e)
  {
    e.Resume? && Continues(st.tasks[e.t]) &&
    var task := st.tasks[e.t];
    TaskFormed(st, task) && task.held.id == id && st.sets[task.held] == {} && Group(st, id) != {} &&
    Advance(st.spaces, st.tracked, st.lists[task.list], task.next, task.ws, e.up).done
  }

  lemma CloseFromGroup(st: State, t: nat, ws: Socket, held: SetRef, list: ListRef, next: nat, up: bool, id: Id)
    requires held in st.sets && list in st.lists
    ensures var w := CloseFrom(st, t, ws, held, list, next, up);
            var ends := Advance(st.spaces, st.tracked, st.lists[list], next, ws, up).done;
            Group(w, id) == if id == held.id && ends && st.sets[held] == {} then {} else Group(st, id)
  {}

  /** A socket of the identity stays registered through a step exactly when the step does not lose the identity. */
  lemma StaysRegisteredIff(st: State, e: Event, s: Socket)
    requires WellFormed(st) && Possible(st, e) && s in st.users && !(e.Close? && e.ws == s)
    ensures var w := Step(st, e);
            && s in w.users && w.users[s].identity == st.users[s].identity
            && (Registered(w, s) <==> Registered(st, s) && !Loses(st, e, st.users[s].identity))
  {
    match e
    case Open(t, ws, id, ids) => OpenOfAnotherKeeps(st, t, ws, id, ids, s);
    case Close(t, ws, up) => CloseOfAnotherKeeps(st, t, ws, up, s);
    case Resume(t, ok, up) =>
      ResumeShrinks(st, t, ok, up);
      ResumeKeepsIff(st, t, ok, up, s);
    case MemberJoined(x, id) =>
    case MemberLeft(t, x, id, up) =>
      RevokeShrinks(st, t, x, id, up);
      RevokeFrame(st, t, x, id, up);
  }

  lemma OpenOfAnotherKeeps(st: State, t: nat, ws: Socket, id: Id, ids: seq<Id>, s: Socket)
    requires WellFormed(st) && ws !in st.users && s in st.users
    ensures var w := Opened(st, t, ws, id, ids);
            && s in w.users && w.users[s] == st.users[s]
            && (Registered(w, s) <==> Registered(st, s))
  {}

  lemma RemovedKeeps(st: State, ws: Socket, s: Socket)
    requires WellFormed(st) && ws in st.users && s in st.users && s != ws
    ensures Removed(st, ws).users == st.users && (Registered(Removed(st, ws), s) <==> Registered(st, s))
  {
    var w := Removed(st, ws);
    var id := st.users[s].identity;
    assert w.conns == st.conns && w.sets.Keys == st.sets.Keys;
    if id in st.conns {
      var r := st.conns[id];
      assert r in st.sets;
      assert s in w.sets[r] <==> s in st.sets[r];
    }
  }

  lemma CloseOfAnotherKeeps(st: State, t: nat, ws: Socket, up: bool, s: Socket)
    requires WellFormed(st) && t !in st.tasks && ws in st.users && s in st.users && s != ws
    ensures var w := CloseBegun(st, t, ws, up);
            && s in w.users && w.users[s].identity == st.users[s].identity
            && (Registered(w, s) <==> Registered(st, s))
  {
    CloseIsRemoval(st, t, ws, up);
    RemovedKeeps(st, ws, s);
    if Registered(st, ws) {
      var held := st.conns[st.users[ws].identity];
      CloseFromShrinks(Removed(st, ws), t, ws, held, st.users[ws].list, 0, up);
      CloseFromGroup(Removed(st, ws), t, ws, held, st.users[ws].list, 0, up, st.users[s].identity);
    }
  }

  lemma ResumeKeepsIff(st: State, t: nat, ok: bool, up: bool, s: Socket)
    requires WellFormed(st) && t in st.tasks && s in st.users
    ensures var id := st.users[s].identity;
            s in Group(Resumed(st, t, ok, up), id) <==> s in Group(st, id) && !Loses(st, Resume(t, ok, up), id)
  {
    var task := st.tasks[t];
    assert TaskFormed(st, task);
    if Continues(task) {
      CloseFromGroup(st, t, task.ws, task.held, task.list, task.next, up, st.users[s].identity);
    } else {
      OtherResumeFrame(st, t, ok, up);
    }
  }

  ghost predicate NeverLost(st: State, events: seq<Event>, id: Id)
    requires WellFormed(st) && Legal(st, events)
    decreases |events|
  {
    if events == [] then true
    else !Loses(st, events[0], id) && (StepFormed(st, events[0]); NeverLost(Step(st, events[0]), events[1..], id))
  }

  /**
   * Over a whole run a registered socket that does not close is still registered exactly when no step lost its
   * identity: a loss is never repaired.
   */
  lemma {:induction false} RegisteredThroughoutIff(st: State, events: seq<Event>, s: Socket)
    requires WellFormed(st) && Legal(st, events) && s in st.users
    requires forall e <- events :: !(e.Close? && e.ws == s)
    ensures var w := Run(st, events);
            && s in w.users && w.users[s].identity == st.users[s].identity
            && (Registered(w, s) <==> Registered(st, s) && NeverLost(st, events, st.users[s].identity))
    decreases |events|
  {
    if events != [] {
      assert events[0] in events && forall e <- events[1..] :: e in events;
      StepFormed(st, events[0]);
      StaysRegisteredIff(st, events[0], s);
      RegisteredThroughoutIff(Step(st, events[0]), events[1..], s);
    }
  }

  // ----- spaces gone untracked -----

  ghost predicate Covered(st: State) { forall x <- st.spaces :: SpaceChannel(x) in st.tracked }

  function PendingOf(task: Task): Option<Channel> {
    match task
    case Opening(_, _, _, _) => None
    case Closing(_, _, _, _, pending) => pending
    case Forgetting(c) => Some(c)
  }

  /** An unsubscribe of a space is answered while the space has listeners here again. */
  ghost predicate Untracks(st: State, e: Event)
    requires WellFormed(st) && Possible(st, e)
  {
    e.Resume? && e.ok && PendingOf(st.tasks[e.t]).Some? && PendingOf(st.tasks[e.t]).value.SpaceChannel?
    && PendingOf(st.tasks[e.t]).value.space in st.spaces
  }

  /** Whatever a closing stops tracking on its way has no listeners left, and nothing else changes hands. */
  lemma {:induction false} AdvanceCovers(spaces: Index, tracked: set<Channel>, ids: seq<Id>, next: nat, ws: Socket, up: bool)
    ensures var p := Advance(spaces, tracked, ids, next, ws, up);
            && p.spaces.Keys <= spaces.Keys && p.tracked <= tracked
            && (forall x :: x in p.spaces && SpaceChannel(x) in tracked ==> SpaceChannel(x) in p.tracked)
            && (forall c :: c in p.tracked ==> c in tracked)
    decreases |ids| - next
  {
    if next < |ids| && !(ids[next] in spaces && spaces[ids[next]] - {ws} == {}) {
      AdvanceCovers(Drop(spaces, ids[next], ws), tracked, ids, next + 1, ws, up);
    }
  }

  /** A step keeps all spaces with listeners tracked exactly when it does not answer such an unsubscribe. */
  lemma StaysCoveredIff(st: State, e: Event)
    requires WellFormed(st) && Possible(st, e) && Covered(st)
    ensures Covered(Step(st, e)) <==> !Untracks(st, e)
  {
    match e
    case Open(t, ws, id, ids) =>
    case Close(t, ws, up) => CloseStaysCovered(st, t, ws, up);
    case Resume(t, ok, up) => ResumeStaysCoveredIff(st, t, ok, up);
    case MemberJoined(x, id) =>
    case MemberLeft(t, x, id, up) => RevokeStaysCovered(st, t, x, id, up);
  }

  lemma CloseFromCovers(st: State, t: nat, ws: Socket, held: SetRef, list: ListRef, next: nat, up: bool)
    requires held in st.sets && list in st.lists
    ensures var w := CloseFrom(st, t, ws, held, list, next, up);
            && w.spaces.Keys <= st.spaces.Keys && w.tracked <= st.tracked
            && (forall x :: x in w.spaces && SpaceChannel(x) in st.tracked ==> SpaceChannel(x) in w.tracked)
  {
    AdvanceCovers(st.spaces, st.tracked, st.lists[list], next, ws, up);
  }

  lemma CloseStaysCovered(st: State, t: nat, ws: Socket, up: bool)
    requires WellFormed(st) && t !in st.tasks && ws in st.users && Covered(st)
    ensures Covered(CloseBegun(st, t, ws, up))
  {
    CloseIsRemoval(st, t, ws, up);
    if Registered(st, ws) {
      CloseFromCovers(Removed(st, ws), t, ws, st.conns[st.users[ws].identity], st.users[ws].list, 0, up);
    }
  }

  lemma ResumeStaysCoveredIff(st: State, t: nat, ok: bool, up: bool)
    requires WellFormed(st) && t in st.tasks && Covered(st)
    ensures Covered(Resumed(st, t, ok, up)) <==> !Untracks(st, Resume(t, ok, up))
  {
    var task := st.tasks[t];
    assert TaskFormed(st, task);
    if Continues(task) {
      CloseFromCovers(st, t, task.ws, task.held, task.list, task.next, up);
    }
  }

  lemma RevokeStaysCovered(st: State, t: nat, x: Id, id: Id, up: bool)
    requires WellFormed(st) && Covered(st)
    ensures Covered(Revoked(st, t, x, id, up))
  {}

  ghost predicate NeverUntracked(st: State, events: seq<Event>)
    requires WellFormed(st) && Legal(st, events)
    decreases |events|
  {
    if events == [] then true
    else !Untracks(st, events[0]) && (StepFormed(st, events[0]); NeverUntracked(Step(st, events[0]), events[1..]))
  }

  ghost predicate AlwaysCovered(st: State, events: seq<Event>)
    requires WellFormed(st) && Legal(st, events)
    decreases |events|
  {
    Covered(st) && (events == [] || (StepFormed(st, events[0]); AlwaysCovered(Step(st, events[0]), events[1..])))
  }

  /** All live spaces are tracked at every await of a run exactly when the run has no such answer. */
  lemma {:induction false} AlwaysCoveredIff(st: State, events: seq<Event>)
    requires WellFormed(st) && Legal(st, events) && Covered(st)
    ensures AlwaysCovered(st, events) <==> NeverUntracked(st, events)
    decreases |events|
  {
    if events != [] {
      StepFormed(st, events[0]);
      StaysCoveredIff(st, events[0]);
      if Covered(Step(st, events[0])) {
        AlwaysCoveredIff(Step(st, events[0]), events[1..]);
      }
    }
  }

  // ----- sockets left in a space -----

  /** The socket is live and lists the space. */
  predicate Listens(st: State, s: Socket, x: Id) {
    s in st.live && s in st.users && st.users[s].list in st.lists && x in st.lists[st.users[s].list]
  }

  /** A closing of the socket has the space still ahead of it. */
  predicate Ahead(st: State, t: nat, s: Socket, x: Id) {
    t in st.tasks && st.tasks[t].Closing? && st.tasks[t].ws == s && st.tasks[t].list in st.lists
    && InTail(st.lists[st.tasks[t].list], st.tasks[t].next, x)
  }

  predicate InTail(ids: seq<Id>, next: nat, x: Id) { next <= |ids| && x in ids[next..] }

  ghost predicate Accounted(st: State, s: Socket, x: Id) {
    Listens(st, s, x) || exists t :: Ahead(st, t, s, x)
  }

  /** Every socket in a space's set listens to the space or is on its way out. */
  ghost predicate Honest(st: State) {
    forall x, s :: s in At(st.spaces, x) ==> Accounted(st, s, x)
  }

  /**
   * An opening goes on adding its socket although the socket has closed or has left that space meanwhile; or a
   * socket that has lost its registration closes, and is skipped, while spaces still hold it.
   */
  ghost predicate Leaks(st: State, e: Event)
    requires WellFormed(st) && Possible(st, e)
  {
    match e
    case Resume(t, _, _) =>
      TaskFormed(st, st.tasks[t]) && st.tasks[t].Opening? && !st.tasks[t].asking &&
      var task := st.tasks[t];
      task.next < |st.lists[task.list]| && !Accounted(st, task.ws, st.lists[task.list][task.next])
    case Close(_, ws, _) =>
      !Registered(st, ws) && exists x :: ws in At(st.spaces, x) && forall t :: !Ahead(st, t, ws, x)
    case _ => false
  }

  lemma {:induction false} AdvanceDrops(spaces: Index, tracked: set<Channel>, ids: seq<Id>, next: nat, ws: Socket, up: bool, s: Socket, x: Id)
    requires var p := Advance(spaces, tracked, ids, next, ws, up); s in At(p.spaces, x)
    ensures var p := Advance(spaces, tracked, ids, next, ws, up);
            && s in At(spaces, x)
            && (s == ws && InTail(ids, next, x) ==> !p.done && InTail(ids, p.next, x))
    decreases |ids| - next
  {
    if next < |ids| {
      var y := ids[next];
      var dropped := Drop(spaces, y, ws);
      assert ids[next..] == [y] + ids[next + 1..];
      assert s in At(dropped, x) ==> s in At(spaces, x) && !(x == y && s == ws);
      if !(y in spaces && spaces[y] - {ws} == {}) {
        AdvanceDrops(dropped, tracked, ids, next + 1, ws, up, s, x);
      }
    }
  }

  lemma CloseFromDrops(on: State, t: nat, ws: Socket, held: SetRef, list: ListRef, next: nat, up: bool, s: Socket, x: Id)
    requires held in on.sets && list in on.lists
    requires s in At(CloseFrom(on, t, ws, held, list, next, up).spaces, x)
    ensures s in At(on.spaces, x)
    ensures s == ws && InTail(on.lists[list], next, x) ==> Ahead(CloseFrom(on, t, ws, held, list, next, up), t, ws, x)
  {
    AdvanceDrops(on.spaces, on.tracked, on.lists[list], next, ws, up, s, x);
  }

  /** What is still accounted for when only task `t` and possibly the socket `ws` have changed. */
  lemma AccountStays(st: State, w: State, t: nat, s: Socket, x: Id)
    requires w.users == st.users && w.lists == st.lists && w.tasks - {t} == st.tasks - {t}
    requires exists k :: k != t && Ahead(st, k, s, x)
    ensures Accounted(w, s, x)
  {
    var k :| k != t && Ahead(st, k, s, x);
    assert k in st.tasks - {t} && (w.tasks - {t})[k] == (st.tasks - {t})[k];
    assert Ahead(w, k, s, x);
  }

  lemma StaysHonestIff(st: State, e: Event)
    requires Inv(st) && Possible(st, e) && Honest(st)
    ensures Honest(Step(st, e)) <==> !Leaks(st, e)
  {
    match e
    case Open(t, ws, id, ids) => OpenStaysHonest(st, t, ws, id, ids);
    case Close(t, ws, up) =>
      if Registered(st, ws) { CloseStaysHonest(st, t, ws, up); } else { SkippedCloseStaysHonestIff(st, t, ws, up); }
    case Resume(t, ok, up) =>
      match st.tasks[t] {
        case Opening(_, _, _, _) => OpeningStaysHonestIff(st, t, ok, up);
        case Closing(_, _, _, _, None) => ClosingStaysHonest(st, t, ok, up);
        case _ => AnswerStaysHonest(st, t, ok, up);
      }
    case MemberJoined(x, id) => GrantStaysHonest(st, x, id);
    case MemberLeft(t, x, id, up) => RevokeStaysHonest(st, t, x, id, up);
  }

  lemma OpenStaysHonest(st: State, t: nat, ws: Socket, id: Id, ids: seq<Id>)
    requires WellFormed(st) && t !in st.tasks && ws !in st.users && Honest(st)
    ensures Honest(Opened(st, t, ws, id, ids))
  {
    var w := Opened(st, t, ws, id, ids);
    forall x, s | s in At(w.spaces, x) ensures Accounted(w, s, x) {
      assert s in At(st.spaces, x);
      if Listens(st, s, x) {
        assert Listens(w, s, x);
      } else {
        var k :| Ahead(st, k, s, x);
        assert TaskFormed(st, st.tasks[k]);
        assert Ahead(w, k, s, x);
      }
    }
  }

  lemma CloseStaysHonest(st: State, t: nat, ws: Socket, up: bool)
    requires WellFormed(st) && t !in st.tasks && ws in st.users && Honest(st) && Registered(st, ws)
    ensures Honest(CloseBegun(st, t, ws, up))
  {
    var w := CloseBegun(st, t, ws, up);
    var on := Removed(st, ws);
    var held, list := st.conns[st.users[ws].identity], st.users[ws].list;
    CloseIsRemoval(st, t, ws, up);
    CloseFromFrame(on, t, ws, held, list, 0, up);
    forall x, s | s in At(w.spaces, x) ensures Accounted(w, s, x) {
      CloseFromDrops(on, t, ws, held, list, 0, up, s, x);
      if Listens(st, s, x) {
        if s == ws {
          assert st.lists[list][0..] == st.lists[list];
          assert Ahead(w, t, ws, x);
        } else {
          assert Listens(w, s, x);
        }
      } else {
        AccountStays(st, w, t, s, x);
      }
    }
  }

  lemma SkippedCloseStaysHonestIff(st: State, t: nat, ws: Socket, up: bool)
    requires WellFormed(st) && t !in st.tasks && ws in st.users && Honest(st) && !Registered(st, ws)
    ensures Honest(CloseBegun(st, t, ws, up)) <==> !Leaks(st, Close(t, ws, up))
  {
    var w := CloseBegun(st, t, ws, up);
    CloseIsRemoval(st, t, ws, up);
    forall k, s, x ensures Ahead(w, k, s, x) <==> Ahead(st, k, s, x) {}
    forall x, s | s in At(w.spaces, x) && s != ws ensures Accounted(w, s, x) {
      assert Accounted(st, s, x);
      if Listens(st, s, x) {
        assert Listens(w, s, x);
      } else {
        var k :| Ahead(st, k, s, x);
        assert Ahead(w, k, s, x);
      }
    }
    forall x ensures Accounted(w, ws, x) <==> exists k :: Ahead(st, k, ws, x) {
      if k :| Ahead(st, k, ws, x) { assert Ahead(w, k, ws, x); }
    }
  }

  lemma OpeningStaysHonestIff(st: State, t: nat, ok: bool, up: bool)
    requires WellFormed(st) && t in st.tasks && st.tasks[t].Opening? && Honest(st)
    ensures Honest(Resumed(st, t, ok, up)) <==> !Leaks(st, Resume(t, ok, up))
  {
    var w := Resumed(st, t, ok, up);
    var task := st.tasks[t];
    assert TaskFormed(st, task);
    forall k, s, x ensures Ahead(w, k, s, x) <==> Ahead(st, k, s, x) {}
    forall s, x ensures Accounted(w, s, x) <==> Accounted(st, s, x) {
      if k :| Ahead(st, k, s, x) { assert Ahead(w, k, s, x); }
      if k :| Ahead(w, k, s, x) { assert Ahead(st, k, s, x); }
    }
    if !task.asking && task.next < |st.lists[task.list]| {
      var y := st.lists[task.list][task.next];
      assert task.ws in At(w.spaces, y);
      forall x, s ensures s in At(w.spaces, x) <==> s in At(st.spaces, x) || (x == y && s == task.ws) {}
    }
  }

  lemma ClosingStaysHonest(st: State, t: nat, ok: bool, up: bool)
    requires WellFormed(st) && t in st.tasks && Continues(st.tasks[t]) && Honest(st)
    ensures Honest(Resumed(st, t, ok, up))
  {
    var w := Resumed(st, t, ok, up);
    var task := st.tasks[t];
    assert TaskFormed(st, task);
    CloseFromFrame(st, t, task.ws, task.held, task.list, task.next, up);
    forall x, s | s in At(w.spaces, x) ensures Accounted(w, s, x) {
      CloseFromDrops(st, t, task.ws, task.held, task.list, task.next, up, s, x);
      if Listens(st, s, x) {
        assert Listens(w, s, x);
      } else if Ahead(st, t, s, x) {
        assert Ahead(w, t, s, x);
      } else {
        AccountStays(st, w, t, s, x);
      }
    }
  }

  lemma AnswerStaysHonest(st: State, t: nat, ok: bool, up: bool)
    requires WellFormed(st) && t in st.tasks && PendingOf(st.tasks[t]).Some? && Honest(st)
    ensures Honest(Resumed(st, t, ok, up))
  {
    var w := Resumed(st, t, ok, up);
    OtherResumeFrame(st, t, ok, up);
    forall x, s | s in At(w.spaces, x) ensures Accounted(w, s, x) {
      assert Accounted(st, s, x);
      if Listens(st, s, x) {
        assert Listens(w, s, x);
      } else if Ahead(st, t, s, x) {
        assert Ahead(w, t, s, x);
      } else {
        AccountStays(st, w, t, s, x);
      }
    }
  }

  lemma GrantStaysHonest(st: State, x: Id, id: Id)
    requires WellFormed(st) && OwnSets(st) && Honest(st)
    ensures Honest(Granted(st, x, id))
  {
    var w := Granted(st, x, id);
    forall y, s | s in At(w.spaces, y) ensures Accounted(w, s, y) {
      if s in At(st.spaces, y) {
        if Listens(st, s, y) {
          assert Listens(w, s, y);
        } else {
          var k :| Ahead(st, k, s, y);
          assert Ahead(w, k, s, y);
        }
      } else {
        assert y == x && s in Group(st, id) && s in st.live;
        assert Listens(w, s, x);
      }
    }
  }

  lemma RevokeStaysHonest(st: State, t: nat, x: Id, id: Id, up: bool)
    requires WellFormed(st) && t !in st.tasks && Honest(st)
    ensures Honest(Revoked(st, t, x, id, up))
  {
    var w := Revoked(st, t, x, id, up);
    RevokeFrame(st, t, x, id, up);
    if At(st.spaces, x) != {} && id in st.conns {
      RevokeLists(st, t, x, id, up);
      assert w.spaces == Pruned(st.spaces, x, Group(st, id));
      forall y, s | s in At(w.spaces, y) ensures Accounted(w, s, y) {
        assert s in At(st.spaces, y) && !(y == x && s in Group(st, id));
        RevokeAccounts(st, t, x, id, up, s, y);
      }
    }
  }

  lemma RevokeAccounts(st: State, t: nat, x: Id, id: Id, up: bool, s: Socket, y: Id)
    requires WellFormed(st) && t !in st.tasks && At(st.spaces, x) != {} && id in st.conns
    requires Accounted(st, s, y) && !(y == x && s in Group(st, id))
    ensures Accounted(Revoked(st, t, x, id, up), s, y)
  {
    var w := Revoked(st, t, x, id, up);
    RevokeFrame(st, t, x, id, up);
    RevokeLists(st, t, x, id, up);
    if Listens(st, s, y) {
      assert Listens(w, s, y);
    } else {
      var k :| Ahead(st, k, s, y);
      assert k in st.tasks - {t} && (w.tasks - {t})[k] == (st.tasks - {t})[k];
      assert Ahead(w, k, s, y);
    }
  }

  ghost predicate NeverLeaks(st: State, events: seq<Event>)
    requires WellFormed(st) && Legal(st, events)
    decreases |events|
  {
    if events == [] then true
    else !Leaks(st, events[0]) && (StepFormed(st, events[0]); NeverLeaks(Step(st, events[0]), events[1..]))
  }

  ghost predicate AlwaysHonest(st: State, events: seq<Event>)
    requires WellFormed(st) && Legal(st, events)
    decreases |events|
  {
    Honest(st) && (events == [] || (StepFormed(st, events[0]); AlwaysHonest(Step(st, events[0]), events[1..])))
  }

  /** No space ever holds a socket that neither listens to it nor is leaving exactly when no step of the run leaks. */
  lemma {:induction false} AlwaysHonestIff(st: State, events: seq<Event>)
    requires Inv(st) && Legal(st, events) && Honest(st)
    ensures AlwaysHonest(st, events) <==> NeverLeaks(st, events)
    decreases |events|
  {
    if events != [] {
      StepKeepsNoEmpty(st, events[0]);
      StepKeepsOwnSets(st, events[0]);
      StepKeepsEmptyIsClosing(st, events[0]);
      StaysHonestIff(st, events[0]);
      if Honest(Step(st, events[0])) {
        AlwaysHonestIff(Step(st, events[0]), events[1..]);
      }
    }
  }
}
