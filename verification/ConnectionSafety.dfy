/** What overlapping chat handlers keep true, at every await of every interleaving. */
module ConnectionSafety {
  import opened Optional
  import opened ChatChannels
  import opened ConnectionRegistry
  import opened ConnectionRaces

  type Socket = ConnectionRaces.Socket

  // ----- runs -----

  ghost predicate Legal(st: State, events: seq<Event>)
    requires WellFormed(st)
    decreases |events|
  {
    if events == [] then true
    else Possible(st, events[0]) && (StepFormed(st, events[0]); Legal(Step(st, events[0]), events[1..]))
  }

  ghost function Run(st: State, events: seq<Event>): (w: State)
    requires WellFormed(st) && Legal(st, events)
    ensures WellFormed(w)
    decreases |events|
  {
    if events == [] then st else (StepFormed(st, events[0]); Run(Step(st, events[0]), events[1..]))
  }

  // ----- what survives every interleaving -----

  ghost predicate NoEmptySpace(spaces: Index) { forall x <- spaces :: spaces[x] != {} }

  /** Every set holds sockets of its own identity only, and one still in use only live ones. */
  ghost predicate OwnSets(st: State)
    requires WellFormed(st)
  {
    && (forall r <- st.sets, s <- st.sets[r] :: st.users[s].identity == r.id)
    && (forall id <- st.conns :: st.sets[st.conns[id]] <= st.live)
  }

  ghost predicate Closer(st: State, t: nat, r: SetRef) {
    t in st.tasks && st.tasks[t].Closing? && st.tasks[t].held == r
  }

  ghost predicate HasCloser(st: State, id: Id) {
    id in st.conns && st.conns[id] in st.sets && st.sets[st.conns[id]] == {} ==> exists t :: Closer(st, t, st.conns[id])
  }

  /** An identity whose set is empty has a closing under way that holds this very set and will remove it. */
  ghost predicate EmptyIsClosing(st: State)
    requires WellFormed(st)
  {
    forall id <- st.conns :: HasCloser(st, id)
  }

  ghost predicate Inv(st: State) {
    WellFormed(st) && NoEmptySpace(st.spaces) && OwnSets(st) && EmptyIsClosing(st)
  }

  lemma {:induction false} AdvanceKeepsNoEmpty(spaces: Index, tracked: set<Channel>, ids: seq<Id>, next: nat, ws: Socket, up: bool)
    requires NoEmptySpace(spaces)
    ensures NoEmptySpace(Advance(spaces, tracked, ids, next, ws, up).spaces)
    decreases |ids| - next
  {
    if next < |ids| {
      assert NoEmptySpace(Drop(spaces, ids[next], ws));
      if !(ids[next] in spaces && spaces[ids[next]] - {ws} == {}) {
        AdvanceKeepsNoEmpty(Drop(spaces, ids[next], ws), tracked, ids, next + 1, ws, up);
      }
    }
  }

  /** `spaceConnections` never holds an empty set, at any await of any interleaving. */
  lemma StepKeepsNoEmpty(st: State, e: Event)
    requires WellFormed(st) && Possible(st, e) && NoEmptySpace(st.spaces)
    ensures NoEmptySpace(Step(st, e).spaces)
  {
    match e
    case Open(_, _, _, _) =>
    case Close(t, ws, up) =>
      AdvanceKeepsNoEmpty(st.spaces, st.tracked, st.lists[st.users[ws].list], 0, ws, up);
    case Resume(t, ok, up) => ResumeKeepsNoEmpty(st, t, ok, up);
    case MemberJoined(x, id) => GrantKeepsNoEmpty(st, x, id);
    case MemberLeft(t, x, id, up) => RevokeKeepsNoEmpty(st, t, x, id, up);
  }

  lemma ResumeKeepsNoEmpty(st: State, t: nat, ok: bool, up: bool)
    requires WellFormed(st) && t in st.tasks && NoEmptySpace(st.spaces)
    ensures NoEmptySpace(Resumed(st, t, ok, up).spaces)
  {
    assert TaskFormed(st, st.tasks[t]);
    match st.tasks[t]
    case Opening(ws, list, next, asking) =>
      var ids := st.lists[list];
      if !asking && next < |ids| {
        assert ws in Put(st.spaces, ids[next], ws)[ids[next]];
      }
    case Closing(ws, held, list, next, pending) =>
      AdvanceKeepsNoEmpty(st.spaces, st.tracked, st.lists[list], next, ws, up);
    case Forgetting(_) =>
  }

  lemma GrantKeepsNoEmpty(st: State, x: Id, id: Id)
    requires WellFormed(st) && NoEmptySpace(st.spaces)
    ensures NoEmptySpace(Granted(st, x, id).spaces)
  {
    if s :| s in Group(st, id) {
      assert s in Granted(st, x, id).spaces[x];
    }
  }

  lemma RevokeKeepsNoEmpty(st: State, t: nat, x: Id, id: Id, up: bool)
    requires WellFormed(st) && NoEmptySpace(st.spaces)
    ensures NoEmptySpace(Revoked(st, t, x, id, up).spaces)
  {
    if At(st.spaces, x) != {} && id in st.conns {
      assert Revoked(st, t, x, id, up).spaces == Pruned(st.spaces, x, Group(st, id));
    }
  }

  /** Neither the sets in use nor their holders change, except that sets and their keys may go. */
  ghost predicate SetsShrink(st: State, w: State) {
    && w.sets == st.sets && w.live == st.live && w.users.Keys == st.users.Keys
    && (forall s <- st.users :: w.users[s].identity == st.users[s].identity)
    && (forall id <- w.conns :: id in st.conns && w.conns[id] == st.conns[id])
  }

  lemma ShrinkKeepsOwnSets(st: State, w: State)
    requires WellFormed(st) && WellFormed(w) && OwnSets(st) && SetsShrink(st, w)
    ensures OwnSets(w)
  {}

  /** The state with a socket taken out of its identity's set, as a close handler leaves it before the spaces. */
  function Removed(st: State, ws: Socket): State
    requires WellFormed(st) && ws in st.users
  {
    var id := st.users[ws].identity;
    var gone := st.(live := st.live - {ws});
    if id !in st.conns then gone else gone.(sets := st.sets[st.conns[id] := st.sets[st.conns[id]] - {ws}])
  }

  predicate Registered(st: State, ws: Socket) {
    ws in st.users && ws in Group(st, st.users[ws].identity)
  }

  lemma RemovedFormed(st: State, ws: Socket)
    requires WellFormed(st) && ws in st.users
    ensures WellFormed(Removed(st, ws))
  {
    assert forall k <- st.tasks :: TaskFormed(st, st.tasks[k]) ==> TaskFormed(Removed(st, ws), st.tasks[k]);
  }

  lemma RemovedKeepsOwnSets(st: State, ws: Socket)
    requires WellFormed(st) && ws in st.users && OwnSets(st)
    ensures WellFormed(Removed(st, ws)) && OwnSets(Removed(st, ws))
  {
    RemovedFormed(st, ws);
    var w := Removed(st, ws);
    forall id | id in w.conns ensures w.sets[w.conns[id]] <= w.live {
      assert ws in st.sets[st.conns[id]] ==> st.users[ws].identity == st.conns[id].id;
    }
  }

  /** A close handler of a registered socket is that, and then its way through the spaces. */
  lemma CloseIsRemoval(st: State, t: nat, ws: Socket, up: bool)
    requires WellFormed(st) && ws in st.users
    ensures var w := CloseBegun(st, t, ws, up);
            if Registered(st, ws) then
              w == CloseFrom(Removed(st, ws), t, ws, st.conns[st.users[ws].identity], st.users[ws].list, 0, up)
            else w == st.(live := st.live - {ws})
  {}

  lemma CloseFromShrinks(st: State, t: nat, ws: Socket, held: SetRef, list: ListRef, next: nat, up: bool)
    requires held in st.sets && list in st.lists
    ensures SetsShrink(st, CloseFrom(st, t, ws, held, list, next, up))
  {
    CloseFromFrame(st, t, ws, held, list, next, up);
  }

  lemma CloseKeepsOwnSets(st: State, t: nat, ws: Socket, up: bool)
    requires WellFormed(st) && t !in st.tasks && ws in st.users && OwnSets(st)
    ensures WellFormed(CloseBegun(st, t, ws, up)) && OwnSets(CloseBegun(st, t, ws, up))
  {
    CloseFormed(st, t, ws, up);
    CloseIsRemoval(st, t, ws, up);
    if Registered(st, ws) {
      var held := st.conns[st.users[ws].identity];
      RemovedKeepsOwnSets(st, ws);
      CloseFromShrinks(Removed(st, ws), t, ws, held, st.users[ws].list, 0, up);
      ShrinkKeepsOwnSets(Removed(st, ws), CloseBegun(st, t, ws, up));
    } else {
      SkippedKeepsOwnSets(st, ws);
    }
  }

  lemma SkippedKeepsOwnSets(st: State, ws: Socket)
    requires WellFormed(st) && ws in st.users && OwnSets(st) && !Registered(st, ws)
    ensures var w := st.(live := st.live - {ws}); WellFormed(w) ==> OwnSets(w)
  {
    assert forall id <- st.conns :: ws in st.sets[st.conns[id]] ==> st.users[ws].identity == st.conns[id].id;
  }

  lemma ResumeShrinks(st: State, t: nat, ok: bool, up: bool)
    requires WellFormed(st) && t in st.tasks
    ensures SetsShrink(st, Resumed(st, t, ok, up))
  {
    assert TaskFormed(st, st.tasks[t]);
    match st.tasks[t]
    case Closing(ws, held, list, next, None) => CloseFromShrinks(st, t, ws, held, list, next, up);
    case _ =>
  }

  lemma RevokeShrinks(st: State, t: nat, x: Id, id: Id, up: bool)
    requires WellFormed(st)
    ensures SetsShrink(st, Revoked(st, t, x, id, up))
  {
    RevokeFrame(st, t, x, id, up);
    if At(st.spaces, x) != {} && id in st.conns { RevokeLists(st, t, x, id, up); }
  }

  lemma OpenKeepsOwnSets(st: State, t: nat, ws: Socket, id: Id, ids: seq<Id>)
    requires WellFormed(st) && t !in st.tasks && ws !in st.users && OwnSets(st)
    ensures WellFormed(Opened(st, t, ws, id, ids)) && OwnSets(Opened(st, t, ws, id, ids))
  {
    OpenFormed(st, t, ws, id, ids);
    var w := Opened(st, t, ws, id, ids);
    forall q, s | q in w.sets && s in w.sets[q] ensures w.users[s].identity == q.id {
      OpenOwns(st, t, ws, id, ids, q, s);
    }
    forall i | i in w.conns ensures w.sets[w.conns[i]] <= w.live {
      OpenUses(st, t, ws, id, ids, i);
    }
  }

  lemma OpenOwns(st: State, t: nat, ws: Socket, id: Id, ids: seq<Id>, q: SetRef, s: Socket)
    requires WellFormed(st) && ws !in st.users && OwnSets(st)
    requires var w := Opened(st, t, ws, id, ids); q in w.sets && s in w.sets[q]
    ensures var w := Opened(st, t, ws, id, ids); s in w.users && w.users[s].identity == q.id
  {
    if q in st.sets && s in st.sets[q] {
      assert s in st.users;
    } else {
      assert s == ws && q == Opened(st, t, ws, id, ids).conns[id];
    }
  }

  lemma OpenUses(st: State, t: nat, ws: Socket, id: Id, ids: seq<Id>, i: Id)
    requires WellFormed(st) && ws !in st.users && OwnSets(st)
    requires var w := Opened(st, t, ws, id, ids); i in w.conns && w.conns[i] in w.sets
    ensures var w := Opened(st, t, ws, id, ids); w.sets[w.conns[i]] <= w.live
  {
    if i in st.conns {
      assert st.sets[st.conns[i]] <= st.live;
    }
  }

  lemma StepKeepsOwnSets(st: State, e: Event)
    requires WellFormed(st) && Possible(st, e) && OwnSets(st)
    ensures WellFormed(Step(st, e)) && OwnSets(Step(st, e))
  {
    StepFormed(st, e);
    match e
    case Open(t, ws, id, ids) => OpenKeepsOwnSets(st, t, ws, id, ids);
    case Close(t, ws, up) => CloseKeepsOwnSets(st, t, ws, up);
    case Resume(t, ok, up) =>
      ResumeShrinks(st, t, ok, up);
      ShrinkKeepsOwnSets(st, Step(st, e));
    case MemberJoined(x, id) =>
      ShrinkKeepsOwnSets(st, Step(st, e));
    case MemberLeft(t, x, id, up) =>
      RevokeShrinks(st, t, x, id, up);
      ShrinkKeepsOwnSets(st, Step(st, e));
  }

  lemma StepKeepsEmptyIsClosing(st: State, e: Event)
    requires WellFormed(st) && Possible(st, e) && EmptyIsClosing(st)
    ensures WellFormed(Step(st, e)) && EmptyIsClosing(Step(st, e))
  {
    StepFormed(st, e);
    var w := Step(st, e);
    forall id | id in w.conns ensures HasCloser(w, id) { EmptyHasCloser(st, e, id); }
  }

  lemma CloserStays(st: State, w: State, t: nat, r: SetRef)
    requires w.tasks - {t} == st.tasks - {t} && exists k :: k != t && Closer(st, k, r)
    ensures exists k :: Closer(w, k, r)
  {
    var k :| k != t && Closer(st, k, r);
    assert k in st.tasks - {t} && (w.tasks - {t})[k] == (st.tasks - {t})[k];
    assert Closer(w, k, r);
  }

  lemma EmptyHasCloser(st: State, e: Event, id: Id)
    requires WellFormed(st) && Possible(st, e) && EmptyIsClosing(st)
    ensures HasCloser(Step(st, e), id)
  {
    match e
    case Open(t, ws, i, ids) => OpenHasCloser(st, t, ws, i, ids, id);
    case Close(t, ws, up) => CloseHasCloser(st, t, ws, up, id);
    case Resume(t, ok, up) => ResumeHasCloser(st, t, ok, up, id);
    case MemberJoined(x, i) =>
      assert HasCloser(st, id);
      SameTasksHaveCloser(st, Granted(st, x, i), id);
    case MemberLeft(t, x, i, up) =>
      RevokeFrame(st, t, x, i, up);
      OtherTasksHaveCloser(st, Revoked(st, t, x, i, up), t, id);
  }

  lemma SameTasksHaveCloser(st: State, w: State, id: Id)
    requires HasCloser(st, id) && w.conns == st.conns && w.sets == st.sets && w.tasks == st.tasks
    ensures HasCloser(w, id)
  {
    forall k, r ensures Closer(w, k, r) <==> Closer(st, k, r) {}
  }

  /** A task that is no closing may come, change or go. */
  lemma OtherTasksHaveCloser(st: State, w: State, t: nat, id: Id)
    requires HasCloser(st, id) && w.conns == st.conns && w.sets == st.sets && w.tasks - {t} == st.tasks - {t}
    requires t in st.tasks ==> !st.tasks[t].Closing?
    ensures HasCloser(w, id)
  {
    if id in w.conns && w.conns[id] in w.sets && w.sets[w.conns[id]] == {} {
      CloserStays(st, w, t, w.conns[id]);
    }
  }

  lemma OpenHasCloser(st: State, t: nat, ws: Socket, i: Id, ids: seq<Id>, id: Id)
    requires WellFormed(st) && t !in st.tasks && EmptyIsClosing(st)
    ensures HasCloser(Opened(st, t, ws, i, ids), id)
  {
    var w := Opened(st, t, ws, i, ids);
    if id != i && id in st.conns && st.sets[st.conns[id]] == {} {
      assert HasCloser(st, id);
      assert w.tasks - {t} == st.tasks - {t};
      CloserStays(st, w, t, st.conns[id]);
    }
  }

  lemma CloseHasCloser(st: State, t: nat, ws: Socket, up: bool, id: Id)
    requires WellFormed(st) && t !in st.tasks && ws in st.users && EmptyIsClosing(st)
    ensures HasCloser(CloseBegun(st, t, ws, up), id)
  {
    CloseIsRemoval(st, t, ws, up);
    assert id in st.conns ==> HasCloser(st, id);
    if Registered(st, ws) {
      var held := st.conns[st.users[ws].identity];
      CloseFromHasCloser(st, Removed(st, ws), t, ws, held, st.users[ws].list, 0, up, id);
    } else {
      SameTasksHaveCloser(st, CloseBegun(st, t, ws, up), id);
    }
  }

  lemma ResumeHasCloser(st: State, t: nat, ok: bool, up: bool, id: Id)
    requires WellFormed(st) && t in st.tasks && EmptyIsClosing(st)
    ensures HasCloser(Resumed(st, t, ok, up), id)
  {
    var task := st.tasks[t];
    assert TaskFormed(st, task);
    assert id in st.conns ==> HasCloser(st, id);
    if Continues(task) {
      CloseFromHasCloser(st, st, t, task.ws, task.held, task.list, task.next, up, id);
    } else {
      OtherResumeFrame(st, t, ok, up);
      if task.Closing? {
        AnswerHasCloser(st, Resumed(st, t, ok, up), t, id);
      } else {
        OtherTasksHaveCloser(st, Resumed(st, t, ok, up), t, id);
      }
    }
  }

  /** A closing that has got its answer still holds its set. */
  lemma AnswerHasCloser(st: State, w: State, t: nat, id: Id)
    requires HasCloser(st, id) && w.conns == st.conns && w.sets == st.sets && w.tasks - {t} == st.tasks - {t}
    requires t in st.tasks && st.tasks[t].Closing? && t in w.tasks && w.tasks[t] == st.tasks[t].(pending := None)
    ensures HasCloser(w, id)
  {
    if id in w.conns && w.conns[id] in w.sets && w.sets[w.conns[id]] == {} {
      var k :| Closer(st, k, st.conns[id]);
      if k == t {
        assert Closer(w, t, w.conns[id]);
      } else {
        CloserStays(st, w, t, st.conns[id]);
      }
    }
  }

  /** `on` is the state in which the segment of a closing goes through the spaces. */
  lemma CloseFromHasCloser(st: State, on: State, t: nat, ws: Socket, held: SetRef, list: ListRef, next: nat, up: bool, id: Id)
    requires id in st.conns ==> HasCloser(st, id)
    requires held in on.sets && list in on.lists && on.tasks == st.tasks && on.conns == st.conns
    requires forall i <- st.conns :: st.conns[i] in st.sets && st.conns[i].id == i
    requires forall r <- st.sets :: r in on.sets && (r != held ==> on.sets[r] == st.sets[r])
    requires t in st.tasks ==> st.tasks[t].Closing? && st.tasks[t].held == held
    ensures HasCloser(CloseFrom(on, t, ws, held, list, next, up), id)
  {
    var w := CloseFrom(on, t, ws, held, list, next, up);
    CloseFromFrame(on, t, ws, held, list, next, up);
    if id in w.conns && w.conns[id] in w.sets && w.sets[w.conns[id]] == {} {
      var r := w.conns[id];
      assert id in on.conns && on.conns[id] == r;
      if r == held {
        CloseFromWaits(on, t, ws, held, list, next, up, id);
      } else {
        assert st.sets[r] == {};
        var k :| Closer(st, k, r);
        CloserStays(st, w, t, r);
      }
    }
  }

  /** A closing that leaves its own empty set in use still waits. */
  lemma CloseFromWaits(on: State, t: nat, ws: Socket, held: SetRef, list: ListRef, next: nat, up: bool, id: Id)
    requires held in on.sets && list in on.lists && held.id == id && on.sets[held] == {}
    ensures var w := CloseFrom(on, t, ws, held, list, next, up); id in w.conns ==> Closer(w, t, held)
  {}

  lemma {:induction false} RunKeepsInv(st: State, events: seq<Event>)
    requires Inv(st) && Legal(st, events)
    ensures Inv(Run(st, events))
    decreases |events|
  {
    if events != [] {
      StepKeepsNoEmpty(st, events[0]);
      StepKeepsOwnSets(st, events[0]);
      StepKeepsEmptyIsClosing(st, events[0]);
      RunKeepsInv(Step(st, events[0]), events[1..]);
    }
  }

  /**
   * From the start, under every interleaving: no space set is ever empty, every socket sits under its own identity
   * only, and no identity set is empty once no closing is under way.
   */
  lemma SafetyTheorem(events: seq<Event>)
    requires Legal(Start, events)
    ensures var w := Run(Start, events);
            && NoEmptySpace(w.spaces)
            && (forall id <- w.conns, s <- w.sets[w.conns[id]] :: w.users[s].identity == id)
            && ((forall t <- w.tasks :: !w.tasks[t].Closing?) ==> forall id <- w.conns :: w.sets[w.conns[id]] != {})
  {
    RunKeepsInv(Start, events);
    var w := Run(Start, events);
    if forall t <- w.tasks :: !w.tasks[t].Closing? {
      forall id | id in w.conns ensures w.sets[w.conns[id]] != {} {
        assert HasCloser(w, id) && forall t :: !Closer(w, t, w.conns[id]);
      }
    }
  }
}
