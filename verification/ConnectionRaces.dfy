/**
 * The chat service's handlers when they do overlap: every `await` is a point where other handlers run.
 *
 * The per-identity socket sets and the `spaceIds` arrays are objects that a suspended handler may still hold
 * after the maps have moved on, so both are named by references here. The space sets are looked up afresh after
 * every `await` and need none.
 */
module ConnectionRaces {
  import opened Optional
  import opened ChatChannels
  import opened ConnectionRegistry
  import ChatRegistry

  type Socket = ChatRegistry.Socket

  /** A socket set made for an identity; a `spaceIds` array made for a socket. */
  datatype SetRef = SetRef(id: Id, n: nat)
  datatype ListRef = ListRef(ws: Socket, n: nat)

  datatype Owner = Owner(identity: Id, list: ListRef)

  /**
   * A handler suspended at an `await`: an opening that has gone through the first `next` entries of its array, a
   * closing that holds the set it took its socket from, or the last unsubscribe of a handler. While it is `asking`,
   * or a channel is `pending`, it waits inside the subscribe or unsubscribe call for Redis; after the answer it
   * waits once more for its own turn.
   */
  datatype Task =
    | Opening(ws: Socket, list: ListRef, next: nat, asking: bool)
    | Closing(ws: Socket, held: SetRef, list: ListRef, next: nat, pending: Option<Channel>)
    | Forgetting(c: Channel)

  /** `live` are the sockets whose open handler has begun and whose close handler has not. */
  datatype State = State(
    conns: map<Id, SetRef>, sets: map<SetRef, set<Socket>>, spaces: Index, tracked: set<Channel>,
    users: map<Socket, Owner>, lists: map<ListRef, seq<Id>>, tasks: map<nat, Task>, live: set<Socket>, made: nat)

  const Start := State(map[], map[], map[], {}, map[], map[], map[], {}, 0)

  // ----- the segments between two awaits -----

  /** The first half of an unsubscribe: nothing to do, done at once when Redis is down, or waiting for Redis. */
  function TrackedAtOnce(tracked: set<Channel>, c: Channel, up: bool): set<Channel> {
    if up then tracked else tracked - {c}
  }

  function WaitsFor(tracked: set<Channel>, c: Channel, up: bool): Option<Channel> {
    if up && c in tracked then Some(c) else None
  }

  /** The second half, when Redis has answered. */
  function Answered(tracked: set<Channel>, c: Channel, ok: bool): set<Channel> {
    if ok then tracked - {c} else tracked
  }

  datatype Progress = Progress(spaces: Index, tracked: set<Channel>, next: nat, pending: Option<Channel>, done: bool)

  /** A closing goes through its array until it has emptied a space, where it waits, or to the end. */
  function Advance(spaces: Index, tracked: set<Channel>, ids: seq<Id>, next: nat, ws: Socket, up: bool): Progress
    decreases |ids| - next
  {
    if next >= |ids| then Progress(spaces, tracked, next, None, true)
    else
      var x := ids[next];
      if x in spaces && spaces[x] - {ws} == {} then
        var c := SpaceChannel(x);
        Progress(Drop(spaces, x, ws), TrackedAtOnce(tracked, c, up), next + 1, WaitsFor(tracked, c, up), false)
      else Advance(Drop(spaces, x, ws), tracked, ids, next + 1, ws, up)
  }

  /** Every reference leads somewhere. */
  ghost predicate WellFormed(st: State) {
    && SetsFormed(st)
    && ListsFormed(st.users, st.lists)
    && (forall t <- st.tasks :: TaskFormed(st, st.tasks[t]))
    && st.live <= st.users.Keys
  }

  ghost predicate SetsFormed(st: State) {
    && (forall id <- st.conns :: st.conns[id] in st.sets && st.conns[id].id == id)
    && (forall r <- st.sets :: st.sets[r] <= st.users.Keys && r.n < st.made)
  }

  ghost predicate ListsFormed(users: map<Socket, Owner>, lists: map<ListRef, seq<Id>>) {
    && (forall s <- users :: users[s].list in lists && users[s].list.ws == s)
    && (forall r <- lists :: r.ws in users && r.n <= users[r.ws].list.n)
  }

  ghost predicate TaskFormed(st: State, task: Task) {
    match task
    case Opening(ws, list, _, _) => ws in st.users && list in st.lists && list.ws == ws
    case Closing(ws, held, list, _, _) => ws in st.users && list in st.lists && list.ws == ws && held in st.sets
    case Forgetting(_) => true
  }

  datatype Event =
    | Open(t: nat, ws: Socket, id: Id, ids: seq<Id>)
    | Close(t: nat, ws: Socket, up: bool)
    | Resume(t: nat, ok: bool, up: bool)
    | MemberJoined(x: Id, id: Id)
    | MemberLeft(t: nat, x: Id, id: Id, up: bool)

  ghost predicate Possible(st: State, e: Event) {
    match e
    case Open(t, ws, _, _) => t !in st.tasks && ws !in st.users
    case Close(t, ws, _) => t !in st.tasks && ws in st.users
    case Resume(t, _, _) => t in st.tasks
    case MemberJoined(_, _) => true
    case MemberLeft(t, _, _, _) => t !in st.tasks
  }

  /** `registerConnection` up to its first await. */
  function Opened(st: State, t: nat, ws: Socket, id: Id, ids: seq<Id>): State
    requires WellFormed(st)
  {
    var list := ListRef(ws, 0);
    var r := if id in st.conns then st.conns[id] else SetRef(id, st.made);
    st.(conns := st.conns[id := r],
        sets := st.sets[r := (if id in st.conns then st.sets[r] else {}) + {ws}],
        made := st.made + 1,
        users := st.users[ws := Owner(id, list)],
        lists := st.lists[list := ids],
        tasks := st.tasks[t := Opening(ws, list, 0, true)],
        live := st.live + {ws})
  }

  /** A closing from the entry `next` of its array to its next await or its end. */
  function CloseFrom(st: State, t: nat, ws: Socket, held: SetRef, list: ListRef, next: nat, up: bool): State
    requires list in st.lists && held in st.sets
  {
    var p := Advance(st.spaces, st.tracked, st.lists[list], next, ws, up);
    var on := st.(spaces := p.spaces, tracked := p.tracked);
    if !p.done then on.(tasks := st.tasks[t := Closing(ws, held, list, p.next, p.pending)])
    else if st.sets[held] == {} then
      var c := IdentityChannel(held.id);
      var pending := WaitsFor(p.tracked, c, up);
      on.(conns := st.conns - {held.id},
          tracked := TrackedAtOnce(p.tracked, c, up),
          tasks := if pending.Some? then st.tasks[t := Forgetting(c)] else st.tasks - {t})
    else on.(tasks := st.tasks - {t})
  }

  /** `unregisterConnection` up to its first await, or skipped when the socket is not in its identity's set. */
  function CloseBegun(st: State, t: nat, ws: Socket, up: bool): State
    requires WellFormed(st) && ws in st.users
  {
    var gone := st.(live := st.live - {ws});
    var id := st.users[ws].identity;
    if id !in st.conns || ws !in st.sets[st.conns[id]] then gone
    else
      var held := st.conns[id];
      CloseFrom(gone.(sets := st.sets[held := st.sets[held] - {ws}]), t, ws, held, st.users[ws].list, 0, up)
  }

  function Resumed(st: State, t: nat, ok: bool, up: bool): State
    requires WellFormed(st) && t in st.tasks
  {
    match st.tasks[t]
    case Opening(ws, list, next, true) =>
      var c := IdentityChannel(st.users[ws].identity);
      st.(tracked := st.tracked + if ok then {c} else {}, tasks := st.tasks[t := Opening(ws, list, next, false)])
    case Opening(ws, list, next, false) =>
      var ids := st.lists[list];
      if next < |ids| then
        st.(spaces := Put(st.spaces, ids[next], ws),
            tracked := st.tracked + {SpaceChannel(ids[next])},
            tasks := st.tasks[t := Opening(ws, list, next + 1, false)])
      else st.(tasks := st.tasks - {t})
    case Closing(ws, held, list, next, Some(c)) =>
      st.(tracked := Answered(st.tracked, c, ok), tasks := st.tasks[t := Closing(ws, held, list, next, None)])
    case Closing(ws, held, list, next, None) => CloseFrom(st, t, ws, held, list, next, up)
    case Forgetting(c) =>
      st.(tracked := Answered(st.tracked, c, ok), tasks := st.tasks - {t})
  }

  /** A closing whose turn it is: nothing it asked of Redis is open. */
  predicate Continues(task: Task) { task.Closing? && task.pending == None }

  /** The sockets a membership change of `id` reaches. */
  function Group(st: State, id: Id): set<Socket> {
    if id in st.conns && st.conns[id] in st.sets then st.sets[st.conns[id]] else {}
  }

  predicate Current(st: State, r: ListRef) { r.ws in st.users && st.users[r.ws].list == r }

  /** `grantSpaceMembership`: all that matters of it happens before its await. */
  function Granted(st: State, x: Id, id: Id): State
    requires WellFormed(st)
  {
    var group := Group(st, id);
    if group == {} then st
    else
      st.(spaces := st.spaces[x := At(st.spaces, x) + group],
          lists := map r | r in st.lists ::
            if r.ws in group && Current(st, r) && x !in st.lists[r] then st.lists[r] + [x] else st.lists[r],
          tracked := st.tracked + {SpaceChannel(x)})
  }

  /** The sockets whose array a revocation replaces by a filtered copy. */
  function Refiltered(st: State, x: Id, id: Id): set<Socket>
    requires WellFormed(st)
  {
    set s | s in Group(st, id) && s in At(st.spaces, x) && st.lists[st.users[s].list] != []
  }

  function Next(st: State, s: Socket): ListRef
    requires s in st.users
  {
    ListRef(s, st.users[s].list.n + 1)
  }

  /** `revokeSpaceMembership` up to its await. */
  function Revoked(st: State, t: nat, x: Id, id: Id, up: bool): State
    requires WellFormed(st)
  {
    if At(st.spaces, x) == {} || id !in st.conns then st
    else
      var moved := Refiltered(st, x, id);
      var on := st.(
        users := map s | s in st.users ::
          if s in moved then st.users[s].(list := Next(st, s)) else st.users[s],
        lists := st.lists + map s | s in moved :: Next(st, s) := ChatRegistry.Without(st.lists[st.users[s].list], x),
        spaces := Pruned(st.spaces, x, Group(st, id)));
      if x in on.spaces then on
      else
        var c := SpaceChannel(x);
        on.(tracked := TrackedAtOnce(st.tracked, c, up),
            tasks := if WaitsFor(st.tracked, c, up).Some? then st.tasks[t := Forgetting(c)] else st.tasks)
  }

  function Step(st: State, e: Event): State
    requires WellFormed(st) && Possible(st, e)
  {
    match e
    case Open(t, ws, id, ids) => Opened(st, t, ws, id, ids)
    case Close(t, ws, up) => CloseBegun(st, t, ws, up)
    case Resume(t, ok, up) => Resumed(st, t, ok, up)
    case MemberJoined(x, id) => Granted(st, x, id)
    case MemberLeft(t, x, id, up) => Revoked(st, t, x, id, up)
  }

  // ----- what the segments do, in the state's own fields -----

  /**
   * Handling a join adds the space to the array each of the identity's sockets has now, unless it is there, and
   * changes no other array.
   */
  lemma JoinAddsToArrays(st: State, x: Id, id: Id, r: ListRef)
    requires WellFormed(st) && r in st.lists && r.ws in st.users
    ensures var w := Granted(st, x, id);
            var mine := id in st.conns && r.ws in st.sets[st.conns[id]] && r == st.users[r.ws].list;
            r in w.lists && w.lists[r] == if mine && x !in st.lists[r] then st.lists[r] + [x] else st.lists[r]
  {
  }

  /**
   * Handling a leave gives each of the identity's sockets in the space an array without the space; the arrays that
   * suspended handlers may hold stay as they were.
   */
  lemma LeaveFiltersArrays(st: State, t: nat, x: Id, id: Id, up: bool, s: Socket)
    requires WellFormed(st) && s in st.users && x in st.spaces && id in st.conns
    ensures var w := Revoked(st, t, x, id, up);
            var was := st.lists[st.users[s].list];
            && s in w.users && w.users[s].list in w.lists && st.users[s].list in w.lists && w.lists[st.users[s].list] == was
            && var now := w.lists[w.users[s].list];
               if s in st.sets[st.conns[id]] && s in st.spaces[x]
               then x !in now && (forall y :: y != x ==> (y in now <==> y in was))
               else now == was
  {
    if At(st.spaces, x) != {} { RevokeLists(st, t, x, id, up); }
  }

  /**
   * Letting go of a channel: at once when Redis is down, otherwise by a suspended handler, when it is tracked. That
   * is what a leave does with a space it empties, and a closing with an identity whose last socket it took.
   */
  ghost predicate LetsGo(st: State, w: State, t: nat, c: Channel, up: bool) {
    && (!up ==> c !in w.tracked)
    && (up && c in st.tracked ==> t in w.tasks && w.tasks[t] == Forgetting(c))
    && (up && c !in st.tracked ==> w.tasks - {t} == w.tasks)
  }

  lemma EmptiedSpaceIsLetGo(st: State, t: nat, x: Id, id: Id, up: bool)
    requires WellFormed(st) && t !in st.tasks && x in st.spaces && x !in Revoked(st, t, x, id, up).spaces
    ensures LetsGo(st, Revoked(st, t, x, id, up), t, SpaceChannel(x), up)
  {
  }

  lemma EmptiedIdentityIsLetGo(st: State, t: nat, ws: Socket, held: SetRef, list: ListRef, next: nat, up: bool)
    requires list in st.lists && held in st.sets && st.sets[held] == {}
    requires var p := Advance(st.spaces, st.tracked, st.lists[list], next, ws, up); p.done && p.tracked == st.tracked
    ensures var w := CloseFrom(st, t, ws, held, list, next, up);
            held.id !in w.conns && LetsGo(st, w, t, IdentityChannel(held.id), up)
  {
  }

  /** An opening's own channel is tracked exactly if Redis accepted or it was tracked before. */
  lemma AcceptedIsTracked(st: State, t: nat, ok: bool, up: bool)
    requires WellFormed(st) && t in st.tasks && st.tasks[t].Opening? && st.tasks[t].asking && st.tasks[t].ws in st.users
    ensures var c := IdentityChannel(st.users[st.tasks[t].ws].identity);
            c in Resumed(st, t, ok, up).tracked <==> ok || c in st.tracked
  {
  }

  // ----- well-formedness -----

  /** A closing changes no object, and of the suspended handlers only its own. */
  lemma CloseFromFrame(st: State, t: nat, ws: Socket, held: SetRef, list: ListRef, next: nat, up: bool)
    requires held in st.sets && list in st.lists
    ensures var w := CloseFrom(st, t, ws, held, list, next, up);
            && w.sets == st.sets && w.users == st.users && w.lists == st.lists && w.live == st.live && w.made == st.made
            && (w.conns == st.conns || w.conns == st.conns - {held.id})
            && w.tasks - {t} == st.tasks - {t}
            && (t in w.tasks && w.tasks[t].Closing? ==>
                  w.tasks[t].ws == ws && w.tasks[t].held == held && w.tasks[t].list == list)
            && (t in w.tasks ==> !w.tasks[t].Opening?)
  {
    var w := CloseFrom(st, t, ws, held, list, next, up);
    assert w.tasks == st.tasks - {t} || (t in w.tasks && w.tasks == st.tasks[t := w.tasks[t]]);
  }

  lemma CloseFromFormed(st: State, t: nat, ws: Socket, held: SetRef, list: ListRef, next: nat, up: bool)
    requires WellFormed(st) && ws in st.users && held in st.sets && list in st.lists && list.ws == ws
    ensures WellFormed(CloseFrom(st, t, ws, held, list, next, up))
  {
    CloseFromFrame(st, t, ws, held, list, next, up);
    TasksStayFormed(st, CloseFrom(st, t, ws, held, list, next, up), t);
  }

  lemma TasksStayFormed(st: State, w: State, t: nat)
    requires WellFormed(st) && w.tasks - {t} == st.tasks - {t} && (t in w.tasks ==> TaskFormed(w, w.tasks[t]))
    requires st.users.Keys <= w.users.Keys && st.lists.Keys <= w.lists.Keys && st.sets.Keys <= w.sets.Keys
    ensures forall k <- w.tasks :: TaskFormed(w, w.tasks[k])
  {
    forall k | k in w.tasks ensures TaskFormed(w, w.tasks[k]) {
      if k != t {
        assert k in w.tasks - {t} && (w.tasks - {t})[k] == w.tasks[k];
        assert TaskFormed(st, st.tasks[k]);
      }
    }
  }

  lemma StepFormed(st: State, e: Event)
    requires WellFormed(st) && Possible(st, e)
    ensures WellFormed(Step(st, e))
  {
    match e
    case Open(t, ws, id, ids) => OpenFormed(st, t, ws, id, ids);
    case Close(t, ws, up) => CloseFormed(st, t, ws, up);
    case Resume(t, ok, up) => ResumeFormed(st, t, ok, up);
    case MemberJoined(x, id) => GrantFormed(st, x, id);
    case MemberLeft(t, x, id, up) => RevokeFormed(st, t, x, id, up);
  }

  lemma OpenFormed(st: State, t: nat, ws: Socket, id: Id, ids: seq<Id>)
    requires WellFormed(st) && t !in st.tasks && ws !in st.users
    ensures WellFormed(Opened(st, t, ws, id, ids))
  {
    var w := Opened(st, t, ws, id, ids);
    forall k | k in w.tasks ensures TaskFormed(w, w.tasks[k]) {
      if k != t { assert TaskFormed(st, st.tasks[k]); }
    }
  }

  lemma CloseFormed(st: State, t: nat, ws: Socket, up: bool)
    requires WellFormed(st) && t !in st.tasks && ws in st.users
    ensures WellFormed(CloseBegun(st, t, ws, up))
  {
    var gone := st.(live := st.live - {ws});
    var id := st.users[ws].identity;
    if id in st.conns && ws in st.sets[st.conns[id]] {
      var held := st.conns[id];
      var less := gone.(sets := st.sets[held := st.sets[held] - {ws}]);
      assert forall k <- less.tasks :: TaskFormed(st, st.tasks[k]);
      CloseFromFormed(less, t, ws, held, st.users[ws].list, 0, up);
    }
  }

  lemma ResumeFormed(st: State, t: nat, ok: bool, up: bool)
    requires WellFormed(st) && t in st.tasks
    ensures WellFormed(Resumed(st, t, ok, up))
  {
    assert TaskFormed(st, st.tasks[t]);
    match st.tasks[t]
    case Closing(ws, held, list, next, None) => CloseFromFormed(st, t, ws, held, list, next, up);
    case _ =>
      OtherResumeFrame(st, t, ok, up);
      TasksStayFormed(st, Resumed(st, t, ok, up), t);
  }

  lemma GrantFormed(st: State, x: Id, id: Id)
    requires WellFormed(st)
    ensures WellFormed(Granted(st, x, id))
  {
    var w := Granted(st, x, id);
    assert forall k <- w.tasks :: TaskFormed(st, st.tasks[k]) ==> TaskFormed(w, w.tasks[k]);
  }

  lemma RevokeFormed(st: State, t: nat, x: Id, id: Id, up: bool)
    requires WellFormed(st) && t !in st.tasks
    ensures WellFormed(Revoked(st, t, x, id, up))
  {
    if At(st.spaces, x) != {} && id in st.conns {
      RevokeFrame(st, t, x, id, up);
      RevokeLists(st, t, x, id, up);
      RevokeListsFormed(st, t, x, id, up);
      TasksStayFormed(st, Revoked(st, t, x, id, up), t);
    }
  }

  lemma RevokeListsFormed(st: State, t: nat, x: Id, id: Id, up: bool)
    requires WellFormed(st) && At(st.spaces, x) != {} && id in st.conns
    ensures var w := Revoked(st, t, x, id, up); ListsFormed(w.users, w.lists)
  {
    RevokeLists(st, t, x, id, up);
  }

  lemma RevokeFrame(st: State, t: nat, x: Id, id: Id, up: bool)
    requires WellFormed(st)
    ensures var w := Revoked(st, t, x, id, up);
            && w.conns == st.conns && w.sets == st.sets && w.live == st.live && w.made == st.made
            && w.tasks - {t} == st.tasks - {t}
            && ((t in w.tasks && w.tasks[t].Forgetting?) || w.tasks == st.tasks)
  {
    if At(st.spaces, x) != {} && id in st.conns {
      var tasks := Revoked(st, t, x, id, up).tasks;
      assert tasks == st.tasks || tasks == st.tasks[t := Forgetting(SpaceChannel(x))];
    }
  }

  /** A revocation gives some sockets a new array and leaves every array there was. */
  lemma RevokeLists(st: State, t: nat, x: Id, id: Id, up: bool)
    requires WellFormed(st) && At(st.spaces, x) != {} && id in st.conns
    ensures var w := Revoked(st, t, x, id, up);
            && w.users.Keys == st.users.Keys
            && (forall s <- st.users :: w.users[s] ==
                  if s in Refiltered(st, x, id) then st.users[s].(list := Next(st, s)) else st.users[s])
            && (forall r <- st.lists :: r in w.lists && w.lists[r] == st.lists[r])
            && (forall r <- w.lists :: r in st.lists || (r.ws in Refiltered(st, x, id) && r == Next(st, r.ws)))
            && (forall s <- Refiltered(st, x, id) ::
                  Next(st, s) in w.lists && w.lists[Next(st, s)] == ChatRegistry.Without(st.lists[st.users[s].list], x))
  {
    forall s | s in Refiltered(st, x, id) ensures Next(st, s) !in st.lists {}
  }

  lemma OtherResumeFrame(st: State, t: nat, ok: bool, up: bool)
    requires WellFormed(st) && t in st.tasks && !Continues(st.tasks[t])
    ensures var w := Resumed(st, t, ok, up);
            w.conns == st.conns && w.sets == st.sets && w.live == st.live && w.users == st.users && w.lists == st.lists
            && w.tasks - {t} == st.tasks - {t}
            && (st.tasks[t].Closing? ==> t in w.tasks && w.tasks[t] == st.tasks[t].(pending := None))
  {
    var task := st.tasks[t];
    assert TaskFormed(st, task);
    if task.Closing? {
      var w := Resumed(st, t, ok, up);
      assert w.tasks == st.tasks[t := task.(pending := None)];
    } else if task.Opening? {
      OpeningFrame(st, t, ok, up);
    }
  }

  lemma OpeningFrame(st: State, t: nat, ok: bool, up: bool)
    requires WellFormed(st) && t in st.tasks && st.tasks[t].Opening?
    ensures var w := Resumed(st, t, ok, up);
            w.conns == st.conns && w.sets == st.sets && w.live == st.live && w.users == st.users && w.lists == st.lists
            && w.tasks - {t} == st.tasks - {t}
  {
    var task := st.tasks[t];
    assert TaskFormed(st, task);
    if !task.asking && task.next >= |st.lists[task.list]| {
      assert Resumed(st, t, ok, up).tasks == st.tasks - {t};
    }
  }
}
