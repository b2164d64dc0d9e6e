/** When a `space_member_left` handled amid overlapping chat handlers keeps the leaver out of the space for good. */
module ConnectionLeaves {
  import opened Optional
  import opened ChatChannels
  import opened ConnectionRegistry
  import opened ConnectionRaces
  import opened ConnectionSafety
  import opened ConnectionLosses
  import ChatRegistry

  type Socket = ChatRegistry.Socket

  /** Space sets hold accepted sockets only. */
  ghost predicate Known(st: State) { forall x, s :: s in At(st.spaces, x) ==> s in st.users }

  /** No socket of the identity is in the space. */
  ghost predicate Out(st: State, x: Id, id: Id) {
    forall s <- st.users :: st.users[s].identity == id ==> s !in At(st.spaces, x)
  }

  /** A suspended opening of a socket of the identity has the space still ahead of it. */
  predicate OpensInto(st: State, t: nat, x: Id, id: Id) {
    t in st.tasks && st.tasks[t].Opening? && st.tasks[t].ws in st.users && st.users[st.tasks[t].ws].identity == id
    && st.tasks[t].list in st.lists && InTail(st.lists[st.tasks[t].list], st.tasks[t].next, x)
  }

  /** The event makes the identity a member again: a join, or an opening that found it a member. */
  predicate Brings(e: Event, x: Id, id: Id) {
    (e.MemberJoined? && e.x == x && e.id == id) || (e.Open? && e.id == id && x in e.ids)
  }

  ghost predicate NeverBrings(events: seq<Event>, x: Id, id: Id) { forall e <- events :: !Brings(e, x, id) }

  ghost predicate ShutOut(st: State, x: Id, id: Id) {
    Known(st) && Out(st, x, id) && forall t :: !OpensInto(st, t, x, id)
  }

  // ----- what keeps an identity out -----

  /** A step after which every set is part of what it was, no array or opening is new, stays as it is. */
  lemma ShrinkStaysOut(st: State, w: State, x: Id, id: Id)
    requires ShutOut(st, x, id) && st.users.Keys <= w.users.Keys
    requires forall s <- st.users :: w.users[s].identity == st.users[s].identity
    requires forall y :: At(w.spaces, y) <= At(st.spaces, y)
    requires forall t | t in w.tasks && w.tasks[t].Opening? :: t in st.tasks && w.tasks[t] == st.tasks[t] && w.tasks[t].ws in st.users
    requires forall r | r in st.lists :: r in w.lists && w.lists[r] == st.lists[r]
    requires forall t | t in w.tasks && w.tasks[t].Opening? :: w.tasks[t].list in st.lists
    requires w.users.Keys == st.users.Keys
    ensures ShutOut(w, x, id)
  {
    forall t ensures !OpensInto(w, t, x, id) {
      assert !OpensInto(st, t, x, id);
    }
  }

  lemma OpenStaysOut(st: State, t: nat, ws: Socket, i: Id, ids: seq<Id>, x: Id, id: Id)
    requires WellFormed(st) && t !in st.tasks && ws !in st.users && ShutOut(st, x, id) && !(i == id && x in ids)
    ensures ShutOut(Opened(st, t, ws, i, ids), x, id)
  {
    var w := Opened(st, t, ws, i, ids);
    forall k ensures !OpensInto(w, k, x, id) {
      if k in st.tasks {
        assert TaskFormed(st, st.tasks[k]);
        assert !OpensInto(st, k, x, id);
      }
    }
  }

  lemma CloseFromShrinksSpaces(on: State, t: nat, ws: Socket, held: SetRef, list: ListRef, next: nat, up: bool)
    requires held in on.sets && list in on.lists
    ensures forall y :: At(CloseFrom(on, t, ws, held, list, next, up).spaces, y) <= At(on.spaces, y)
  {
    forall y, s | s in At(CloseFrom(on, t, ws, held, list, next, up).spaces, y) ensures s in At(on.spaces, y) {
      CloseFromDrops(on, t, ws, held, list, next, up, s, y);
    }
  }

  lemma CloseFromStaysOut(st: State, on: State, t: nat, ws: Socket, held: SetRef, list: ListRef, next: nat, up: bool, x: Id, id: Id)
    requires WellFormed(st) && held in on.sets && list in on.lists && ShutOut(st, x, id)
    requires on.users == st.users && on.lists == st.lists && on.tasks == st.tasks && on.spaces == st.spaces
    ensures ShutOut(CloseFrom(on, t, ws, held, list, next, up), x, id)
  {
    var w := CloseFrom(on, t, ws, held, list, next, up);
    CloseFromFrame(on, t, ws, held, list, next, up);
    CloseFromShrinksSpaces(on, t, ws, held, list, next, up);
    forall k | k in w.tasks && w.tasks[k].Opening?
      ensures k in st.tasks && w.tasks[k] == st.tasks[k] && w.tasks[k].ws in st.users && w.tasks[k].list in st.lists
    {
      assert k in w.tasks - {t} && (w.tasks - {t})[k] == (st.tasks - {t})[k];
      assert TaskFormed(st, st.tasks[k]);
    }
    ShrinkStaysOut(st, w, x, id);
  }

  lemma CloseStaysOut(st: State, t: nat, ws: Socket, up: bool, x: Id, id: Id)
    requires WellFormed(st) && t !in st.tasks && ws in st.users && ShutOut(st, x, id)
    ensures ShutOut(CloseBegun(st, t, ws, up), x, id)
  {
    CloseIsRemoval(st, t, ws, up);
    if Registered(st, ws) {
      CloseFromStaysOut(st, Removed(st, ws), t, ws, st.conns[st.users[ws].identity], st.users[ws].list, 0, up, x, id);
    } else {
      assert forall k :: OpensInto(CloseBegun(st, t, ws, up), k, x, id) ==> OpensInto(st, k, x, id);
    }
  }

  lemma ResumeStaysOut(st: State, t: nat, ok: bool, up: bool, x: Id, id: Id)
    requires WellFormed(st) && t in st.tasks && ShutOut(st, x, id)
    ensures ShutOut(Resumed(st, t, ok, up), x, id)
  {
    var task := st.tasks[t];
    assert TaskFormed(st, task);
    if Continues(task) {
      CloseFromStaysOut(st, st, t, task.ws, task.held, task.list, task.next, up, x, id);
    } else {
      OtherResumeFrame(st, t, ok, up);
      var w := Resumed(st, t, ok, up);
      assert !OpensInto(st, t, x, id);
      forall y, s | s in At(w.spaces, y) ensures s in st.users && !(y == x && st.users[s].identity == id) {
        assert s in At(st.spaces, y) || (task.Opening? && s == task.ws && y == st.lists[task.list][task.next]);
      }
      forall k ensures !OpensInto(w, k, x, id) {
        assert !OpensInto(st, k, x, id);
        if k != t && k in w.tasks { assert (w.tasks - {t})[k] == (st.tasks - {t})[k]; }
      }
    }
  }

  lemma GrantStaysOut(st: State, y: Id, i: Id, x: Id, id: Id)
    requires WellFormed(st) && OwnSets(st) && ShutOut(st, x, id) && !(y == x && i == id)
    ensures ShutOut(Granted(st, y, i), x, id)
  {
    var w := Granted(st, y, i);
    assert forall s <- Group(st, i) :: s in st.users && st.users[s].identity == i;
    forall z, s | s in At(w.spaces, z) ensures s in st.users && !(z == x && st.users[s].identity == id) {
      assert s in At(st.spaces, z) || (z == y && s in Group(st, i));
    }
    forall k ensures !OpensInto(w, k, x, id) {
      assert !OpensInto(st, k, x, id);
      if k in st.tasks && st.tasks[k].Opening? {
        assert TaskFormed(st, st.tasks[k]);
        TailOfMore(st.lists[st.tasks[k].list], st.tasks[k].next, y, x);
      }
    }
  }

  lemma TailOfMore(ids: seq<Id>, next: nat, y: Id, x: Id)
    ensures InTail(ids + [y], next, x) && x != y ==> InTail(ids, next, x)
  {
    if InTail(ids + [y], next, x) && x != y {
      var j :| 0 <= j < |(ids + [y])[next..]| && (ids + [y])[next..][j] == x;
      assert (ids + [y])[next + j] == x;
      assert ids[next..][j] == x;
    }
  }

  lemma RevokeStaysOut(st: State, t: nat, y: Id, i: Id, up: bool, x: Id, id: Id)
    requires WellFormed(st) && t !in st.tasks && ShutOut(st, x, id)
    ensures ShutOut(Revoked(st, t, y, i, up), x, id)
  {
    RevokeOpensInto(st, t, y, i, up);
    RevokeKnown(st, t, y, i, up);
    RevokeOut(st, t, y, i, up, x, id);
  }

  /** What a leave takes out of the space sets: the group's sockets from the one space. */
  lemma RevokeTakesOut(st: State, t: nat, y: Id, i: Id, up: bool, z: Id, s: Socket)
    requires WellFormed(st)
    ensures s in At(Revoked(st, t, y, i, up).spaces, z) <==> s in At(st.spaces, z) && !(z == y && s in Group(st, i))
  {
    if At(st.spaces, y) != {} && i in st.conns {
      assert Revoked(st, t, y, i, up).spaces == Pruned(st.spaces, y, Group(st, i));
      assert s in At(st.spaces, y) && s !in Group(st, i) ==> s in st.spaces[y] - Group(st, i);
    }
  }

  /** After a leave sets hold accepted sockets, and those of the leaver's identity only in other spaces or unregistered. */
  lemma RevokeKnown(st: State, t: nat, y: Id, i: Id, up: bool)
    requires WellFormed(st) && Known(st)
    ensures Known(Revoked(st, t, y, i, up))
  {
    var w := Revoked(st, t, y, i, up);
    RevokeShrinks(st, t, y, i, up);
    forall z, s | s in At(w.spaces, z) ensures s in w.users { RevokeTakesOut(st, t, y, i, up, z, s); }
  }

  lemma RevokeOut(st: State, t: nat, y: Id, i: Id, up: bool, x: Id, id: Id)
    requires WellFormed(st)
    requires forall s <- st.users :: st.users[s].identity == id && s in At(st.spaces, x) ==> x == y && s in Group(st, i)
    ensures Out(Revoked(st, t, y, i, up), x, id)
  {
    var w := Revoked(st, t, y, i, up);
    RevokeShrinks(st, t, y, i, up);
    forall s | s in w.users && w.users[s].identity == id ensures s !in At(w.spaces, x) {
      RevokeTakesOut(st, t, y, i, up, x, s);
    }
  }

  /** A leave changes nothing about what openings still have ahead of them. */
  lemma RevokeOpensInto(st: State, t: nat, y: Id, i: Id, up: bool)
    requires WellFormed(st) && t !in st.tasks
    ensures forall k, x, id :: OpensInto(Revoked(st, t, y, i, up), k, x, id) <==> OpensInto(st, k, x, id)
  {
    var w := Revoked(st, t, y, i, up);
    RevokeFrame(st, t, y, i, up);
    if At(st.spaces, y) != {} && i in st.conns {
      RevokeLists(st, t, y, i, up);
      forall k, x, id ensures OpensInto(w, k, x, id) <==> OpensInto(st, k, x, id) {
        if k in st.tasks {
          assert TaskFormed(st, st.tasks[k]);
          assert k in st.tasks - {t} && (w.tasks - {t})[k] == (st.tasks - {t})[k];
        } else if k in w.tasks {
          assert k == t;
        }
      }
    }
  }

  lemma StepStaysOut(st: State, e: Event, x: Id, id: Id)
    requires Inv(st) && Possible(st, e) && ShutOut(st, x, id) && !Brings(e, x, id)
    ensures ShutOut(Step(st, e), x, id)
  {
    match e
    case Open(t, ws, i, ids) => OpenStaysOut(st, t, ws, i, ids, x, id);
    case Close(t, ws, up) => CloseStaysOut(st, t, ws, up, x, id);
    case Resume(t, ok, up) => ResumeStaysOut(st, t, ok, up, x, id);
    case MemberJoined(y, i) => GrantStaysOut(st, y, i, x, id);
    case MemberLeft(t, y, i, up) => RevokeStaysOut(st, t, y, i, up, x, id);
  }

  lemma {:induction false} RunStaysOut(st: State, events: seq<Event>, x: Id, id: Id)
    requires Inv(st) && Legal(st, events) && ShutOut(st, x, id) && NeverBrings(events, x, id)
    ensures ShutOut(Run(st, events), x, id)
    decreases |events|
  {
    if events != [] {
      assert events[0] in events && forall e <- events[1..] :: e in events;
      StepStaysOut(st, events[0], x, id);
      StepKeepsInv(st, events[0]);
      RunStaysOut(Step(st, events[0]), events[1..], x, id);
    }
  }

  lemma StepKeepsInv(st: State, e: Event)
    requires Inv(st) && Possible(st, e)
    ensures Inv(Step(st, e))
  {
    StepKeepsNoEmpty(st, e);
    StepKeepsOwnSets(st, e);
    StepKeepsEmptyIsClosing(st, e);
  }

  // ----- a leave that lasts -----

  lemma Prepend(st: State, e: Event, rest: seq<Event>)
    requires WellFormed(st) && Possible(st, e) && WellFormed(Step(st, e)) && Legal(Step(st, e), rest)
    ensures Legal(st, [e] + rest) && Run(st, [e] + rest) == Run(Step(st, e), rest)
  {
    assert ([e] + rest)[1..] == rest;
  }

  lemma TailSplits(ids: seq<Id>, next: nat, x: Id)
    requires InTail(ids, next, x)
    ensures next < |ids| && (ids[next] == x || InTail(ids, next + 1, x))
  {
    var j :| 0 <= j < |ids[next..]| && ids[next..][j] == x;
    assert j > 0 ==> ids[next + 1..][j - 1] == x;
  }

  /** An opening that has the space ahead of it gets there, if nothing but its own turns happens. */
  lemma {:induction false} EntersLater(st: State, t: nat, x: Id, id: Id) returns (events: seq<Event>)
    requires Inv(st) && OpensInto(st, t, x, id)
    ensures Legal(st, events) && NeverBrings(events, x, id) && !Out(Run(st, events), x, id)
    decreases |st.lists[st.tasks[t].list]| - st.tasks[t].next, if st.tasks[t].asking then 1 else 0
  {
    var task, e := st.tasks[t], Resume(t, true, true);
    var ids, w := st.lists[task.list], Step(st, e);
    StepKeepsInv(st, e);
    var rest: seq<Event>;
    TailSplits(ids, task.next, x);
    if task.asking {
      assert w.tasks[t] == task.(asking := false);
      rest := EntersLater(w, t, x, id);
    } else if ids[task.next] == x {
      assert task.ws in At(w.spaces, x) && w.users == st.users;
      assert !Out(w, x, id);
      rest := [];
    } else {
      assert w.tasks[t] == Opening(task.ws, task.list, task.next + 1, false);
      rest := EntersLater(w, t, x, id);
    }
    Prepend(st, e, rest);
    events := [e] + rest;
  }

  lemma LeaveLasts(st: State, t: nat, x: Id, id: Id, up: bool)
    requires Inv(st) && Known(st) && t !in st.tasks
    requires forall s <- st.users :: st.users[s].identity == id && s in At(st.spaces, x) ==> Registered(st, s)
    requires forall k :: !OpensInto(st, k, x, id)
    ensures var w := Revoked(st, t, x, id, up);
            WellFormed(w) && forall events | Legal(w, events) && NeverBrings(events, x, id) :: Out(Run(w, events), x, id)
  {
    var w := Revoked(st, t, x, id, up);
    StepKeepsInv(st, MemberLeft(t, x, id, up));
    RevokeOpensInto(st, t, x, id, up);
    RevokeKnown(st, t, x, id, up);
    RevokeOut(st, t, x, id, up, x, id);
    forall events | Legal(w, events) && NeverBrings(events, x, id) ensures Out(Run(w, events), x, id) {
      RunStaysOut(w, events, x, id);
    }
  }

  /**
   * Once a leave is handled, no socket of the identity is in the space, nor later enters it before the identity is
   * a member again, in any interleaving, exactly when at the leave every socket of the identity in the space was
   * registered and no suspended opening of the identity still had the space ahead of it.
   */
  lemma LeaveLastsIff(st: State, t: nat, x: Id, id: Id, up: bool)
    requires Inv(st) && Known(st) && t !in st.tasks
    ensures var w := Revoked(st, t, x, id, up);
            WellFormed(w) &&
            ((forall events | Legal(w, events) && NeverBrings(events, x, id) :: Out(Run(w, events), x, id)) <==>
               && (forall s <- st.users :: st.users[s].identity == id && s in At(st.spaces, x) ==> Registered(st, s))
               && (forall k :: !OpensInto(st, k, x, id)))
  {
    var w := Revoked(st, t, x, id, up);
    StepKeepsInv(st, MemberLeft(t, x, id, up));
    RevokeOpensInto(st, t, x, id, up);
    if (forall s <- st.users :: st.users[s].identity == id && s in At(st.spaces, x) ==> Registered(st, s))
       && (forall k :: !OpensInto(st, k, x, id)) {
      LeaveLasts(st, t, x, id, up);
    } else if exists k :: OpensInto(st, k, x, id) {
      var k :| OpensInto(st, k, x, id);
      assert OpensInto(w, k, x, id);
      var events := EntersLater(w, k, x, id);
    } else {
      var s :| s in st.users && st.users[s].identity == id && s in At(st.spaces, x) && !Registered(st, s);
      RevokeTakesOut(st, t, x, id, up, x, s);
      RevokeShrinks(st, t, x, id, up);
      assert Legal(w, []) && NeverBrings([], x, id) && !Out(Run(w, []), x, id);
    }
  }

  /** In every run space sets hold accepted sockets only. */
  lemma StepStaysKnown(st: State, e: Event)
    requires Inv(st) && Possible(st, e) && Known(st)
    ensures Known(Step(st, e))
  {
    match e
    case Open(t, ws, i, ids) =>
    case Close(t, ws, up) => CloseStaysKnown(st, t, ws, up);
    case Resume(t, ok, up) => ResumeStaysKnown(st, t, ok, up);
    case MemberJoined(y, i) => GrantStaysKnown(st, y, i);
    case MemberLeft(t, y, i, up) => RevokeKnown(st, t, y, i, up);
  }

  lemma CloseStaysKnown(st: State, t: nat, ws: Socket, up: bool)
    requires WellFormed(st) && ws in st.users && Known(st)
    ensures Known(CloseBegun(st, t, ws, up))
  {
    CloseIsRemoval(st, t, ws, up);
    if Registered(st, ws) {
      var held, list := st.conns[st.users[ws].identity], st.users[ws].list;
      CloseFromShrinksSpaces(Removed(st, ws), t, ws, held, list, 0, up);
      CloseFromFrame(Removed(st, ws), t, ws, held, list, 0, up);
    }
  }

  lemma GrantStaysKnown(st: State, y: Id, i: Id)
    requires WellFormed(st) && Known(st)
    ensures Known(Granted(st, y, i))
  {
    forall z, s | s in At(Granted(st, y, i).spaces, z) ensures s in st.users {
      assert s in At(st.spaces, z) || s in Group(st, i);
    }
  }

  lemma ResumeStaysKnown(st: State, t: nat, ok: bool, up: bool)
    requires WellFormed(st) && t in st.tasks && Known(st)
    ensures Known(Resumed(st, t, ok, up))
  {
    var task := st.tasks[t];
    assert TaskFormed(st, task);
    if Continues(task) {
      CloseFromShrinksSpaces(st, t, task.ws, task.held, task.list, task.next, up);
      CloseFromFrame(st, t, task.ws, task.held, task.list, task.next, up);
    } else {
      OtherResumeFrame(st, t, ok, up);
      forall y, s | s in At(Resumed(st, t, ok, up).spaces, y) ensures s in st.users {
        assert s in At(st.spaces, y) || (task.Opening? && s == task.ws);
      }
    }
  }

  /** So the hypotheses of `LeaveLastsIff` hold after every run from the start. */
  lemma {:induction false} RunStaysKnown(st: State, events: seq<Event>)
    requires Inv(st) && Known(st) && Legal(st, events)
    ensures Inv(Run(st, events)) && Known(Run(st, events))
    decreases |events|
  {
    if events != [] {
      StepKeepsInv(st, events[0]);
      StepStaysKnown(st, events[0]);
      RunStaysKnown(Step(st, events[0]), events[1..]);
    }
  }
}
