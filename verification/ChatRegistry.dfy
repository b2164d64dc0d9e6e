/**
 * The chat service's connections as a list of open sockets, and what each completed handler does to it.
 *
 * This is the simple form: who is open, as whom, in which spaces. `ConnectionRegistry` keeps the two lookup
 * maps the service really works on and is proved to follow these steps; the theorems about whole runs are here.
 */
module ChatRegistry {
  import opened Optional
  import opened ChatChannels

  type Socket = nat

  /** The part of a socket's user data that matters: whose it is and the spaces it listens to. */
  datatype User = User(identity: Id, spaceIds: seq<Id>)

  datatype Kind = MemberJoined | MemberLeft | OtherKind

  /**
   * A message published on a channel, as the handler's best-effort parse sees it. A text that does not parse is
   * one of `OtherKind` with nothing else present.
   */
  datatype Publication = Publication(
    channel: Channel, text: string, kind: Kind, dataMember: Option<Id>, dataIdentity: Option<Id>,
    audience: Option<seq<Id>>, exclude: Option<seq<Id>>)

  /** How Redis answers during one handler: for these channels it is not connected, for those the call throws. */
  datatype Redis = Redis(down: set<Channel>, failing: set<Channel>) {
    predicate Accepts(c: Channel) { c !in down && c !in failing }
    /** Whether an unsubscribe ends with the channel no longer tracked. */
    predicate Forgets(c: Channel) { c in down || c !in failing }
  }

  const Healthy := Redis({}, {})

  datatype View = View(users: map<Socket, User>, open: set<Socket>, tracked: set<Channel>,
                       inbox: map<Socket, seq<Publication>>)

  const Start := View(map[], {}, {}, map[])

  ghost predicate WellFormed(v: View) {
    v.open <= v.users.Keys && v.users.Keys == v.inbox.Keys
  }

  /** The sockets that listen to a space. */
  function Listeners(v: View, x: Id): set<Socket>
    requires WellFormed(v)
  {
    set s | s in v.open && x in v.users[s].spaceIds
  }

  /** The sockets of an identity. */
  function SocketsOf(v: View, id: Id): set<Socket>
    requires WellFormed(v)
  {
    set s | s in v.open && v.users[s].identity == id
  }

  /** The identities and the spaces that have a local socket. */
  function LiveIdentities(v: View): set<Id>
    requires WellFormed(v)
  {
    set s | s in v.open :: v.users[s].identity
  }

  function LiveSpaces(v: View): set<Id>
    requires WellFormed(v)
  {
    set s, x | s in v.open && x in v.users[s].spaceIds :: x
  }

  // ----- who receives a publication -----

  function MemberOf(p: Publication): Option<Id> { p.dataMember.OrElse(p.dataIdentity) }

  /** A join (or leave) of `id` in `x`; an event that names nobody, or the empty id, changes nothing. */
  predicate Names(p: Publication, id: Id) { MemberOf(p) == Some(id) && id.text != "" }

  predicate Joins(p: Publication, x: Id, id: Id) {
    p.channel == SpaceChannel(x) && p.kind == MemberJoined && Names(p, id)
  }

  predicate Leaves(p: Publication, x: Id, id: Id) {
    p.channel == SpaceChannel(x) && p.kind == MemberLeft && Names(p, id)
  }

  /**
   * The audience and exclusion lists as the fan-out loop tests them: an empty id is never in an audience and
   * never excluded.
   */
  predicate Admits(p: Publication, id: Id) {
    (p.audience.Some? ==> id.text != "" && id in p.audience.value) &&
    (p.exclude.Some? && p.exclude.value != [] && id.text != "" ==> id !in p.exclude.value)
  }

  /** The lists as they are meant: in the audience when there is one, and not excluded. */
  predicate Meant(p: Publication, id: Id) {
    (p.audience.Some? ==> id in p.audience.value) && (p.exclude.Some? ==> id !in p.exclude.value)
  }

  /** The test is the intended one for an id exactly when the id is not empty. */
  lemma AdmitsAsMeantIff(id: Id)
    ensures (forall p: Publication :: Admits(p, id) <==> Meant(p, id)) <==> id.text != ""
    ensures id.text == "" ==> forall p: Publication :: Admits(p, id) <==> p.audience == None
  {
    if id.text == "" {
      var p := Publication(SpaceChannel(id), "", OtherKind, None, None, None, Some([id]));
      assert id in p.exclude.value;
      assert Admits(p, id) && !Meant(p, id);
    }
  }

  // ----- the steps -----

  function SpaceChannels(ids: seq<Id>): set<Channel> { set x | x in ids :: SpaceChannel(x) }

  function Opened(v: View, ws: Socket, id: Id, spaceIds: seq<Id>, redis: Redis): View {
    View(v.users[ws := User(id, spaceIds)], v.open + {ws},
         v.tracked + (if redis.Accepts(IdentityChannel(id)) then {IdentityChannel(id)} else {})
         + SpaceChannels(spaceIds),
         v.inbox[ws := []])
  }

  /** A channel that only `ws` still needed. */
  predicate Abandoned(v: View, ws: Socket, c: Channel)
    requires WellFormed(v) && ws in v.users
  {
    match c
    case SpaceChannel(x) => x in v.users[ws].spaceIds && Listeners(v, x) <= {ws}
    case IdentityChannel(i) => i == v.users[ws].identity && SocketsOf(v, i) <= {ws}
  }

  function Closed(v: View, ws: Socket, redis: Redis): View
    requires WellFormed(v) && ws in v.users
  {
    if ws !in v.open then v
    else v.(open := v.open - {ws},
            tracked := set c | c in v.tracked && !(Abandoned(v, ws, c) && redis.Forgets(c)))
  }

  function Joined(u: User, x: Id): User {
    if x in u.spaceIds then u else u.(spaceIds := u.spaceIds + [x])
  }

  function Without(ids: seq<Id>, x: Id): (r: seq<Id>)
    ensures forall i :: i in r <==> i in ids && i != x
  {
    if ids == [] then []
    else if ids[|ids| - 1] == x then Without(ids[..|ids| - 1], x)
    else Without(ids[..|ids| - 1], x) + [ids[|ids| - 1]]
  }

  function Parted(u: User, x: Id): User { u.(spaceIds := Without(u.spaceIds, x)) }

  /** The user data after the sockets of `group` have joined, or parted from, a space. */
  function AllJoined(users: map<Socket, User>, group: set<Socket>, x: Id): map<Socket, User> {
    map s | s in users :: if s in group then Joined(users[s], x) else users[s]
  }

  function AllParted(users: map<Socket, User>, group: set<Socket>, x: Id): map<Socket, User> {
    map s | s in users :: if s in group then Parted(users[s], x) else users[s]
  }

  /** The inboxes after `p` has been handed to the sockets of `group`. */
  function Handed(inbox: map<Socket, seq<Publication>>, group: set<Socket>, p: Publication): map<Socket, seq<Publication>> {
    map s | s in inbox :: if s in group then inbox[s] + [p] else inbox[s]
  }

  function Granted(v: View, x: Id, id: Id): View
    requires WellFormed(v)
  {
    if SocketsOf(v, id) == {} then v
    else v.(users := AllJoined(v.users, SocketsOf(v, id), x),
            tracked := v.tracked + {SpaceChannel(x)})
  }

  /** The identity's sockets are the only ones left in the space. */
  predicate LastLeaves(v: View, x: Id, id: Id)
    requires WellFormed(v)
  {
    Listeners(v, x) != {} && Listeners(v, x) <= SocketsOf(v, id)
  }

  function Revoked(v: View, x: Id, id: Id, redis: Redis): View
    requires WellFormed(v)
  {
    var c := SpaceChannel(x);
    v.(users := AllParted(v.users, SocketsOf(v, id) * Listeners(v, x), x),
       tracked := if LastLeaves(v, x, id) && redis.Forgets(c) then v.tracked - {c} else v.tracked)
  }

  function Sent(v: View, targets: set<Socket>, p: Publication): View {
    v.(inbox := Handed(v.inbox, targets, p))
  }

  function Targets(v: View, p: Publication): set<Socket>
    requires WellFormed(v)
  {
    match p.channel
    case IdentityChannel(id) => SocketsOf(v, id)
    case SpaceChannel(x) => set s | s in Listeners(v, x) && Admits(p, v.users[s].identity)
  }

  /** The member a join or leave on a space channel is about. */
  function Subject(p: Publication, kind: Kind): Option<Id> {
    if p.channel.SpaceChannel? && p.kind == kind && MemberOf(p).Some? && MemberOf(p).value.text != ""
    then MemberOf(p) else None
  }

  /** Grant before the fan-out, revoke after it. */
  function Received(v: View, p: Publication, redis: Redis): View
    requires WellFormed(v)
  {
    var joining := Subject(p, MemberJoined);
    var v1 := if joining.Some? then Granted(v, p.channel.space, joining.value) else v;
    var v2 := Sent(v1, Targets(v1, p), p);
    var leaving := Subject(p, MemberLeft);
    if leaving.Some? then Revoked(v2, p.channel.space, leaving.value, redis) else v2
  }

  // ----- runs -----

  datatype Event =
    | Open(ws: Socket, id: Id, spaceIds: seq<Id>, redis: Redis)
    | Close(ws: Socket, redis: Redis)
    | Receive(p: Publication, redis: Redis)

  /** A socket is accepted once and closes only after that; anything may arrive. */
  predicate Possible(v: View, e: Event) {
    match e
    case Open(ws, _, _, _) => ws !in v.users
    case Close(ws, _) => ws in v.users
    case Receive(_, _) => true
  }

  function Step(v: View, e: Event): (w: View)
    requires WellFormed(v) && Possible(v, e)
    ensures WellFormed(w)
  {
    match e
    case Open(ws, id, spaceIds, redis) => Opened(v, ws, id, spaceIds, redis)
    case Close(ws, redis) => Closed(v, ws, redis)
    case Receive(p, redis) => Received(v, p, redis)
  }

  predicate Legal(v: View, events: seq<Event>)
    requires WellFormed(v)
    decreases |events|
  {
    events == [] || (Possible(v, events[0]) && Legal(Step(v, events[0]), events[1..]))
  }

  function Run(v: View, events: seq<Event>): (w: View)
    requires WellFormed(v) && Legal(v, events)
    ensures WellFormed(w)
    decreases |events|
  {
    if events == [] then v else Run(Step(v, events[0]), events[1..])
  }

  /** A second close of a socket changes nothing. */
  lemma RepeatedCloseIsNothing(v: View, ws: Socket, redis: Redis, again: Redis)
    requires WellFormed(v) && ws in v.users
    ensures var w := Closed(v, ws, redis); Closed(w, ws, again) == w
  {}

  // ----- tracked channels -----

  /** Every space somebody here listens to is tracked, so re-subscribing to what is tracked restores it. */
  ghost predicate Covered(v: View)
    requires WellFormed(v)
  {
    forall x <- LiveSpaces(v) :: SpaceChannel(x) in v.tracked
  }

  lemma StepKeepsCovered(v: View, e: Event)
    requires WellFormed(v) && Possible(v, e) && Covered(v)
    ensures Covered(Step(v, e))
  {
    var w := Step(v, e);
    forall x | x in LiveSpaces(w) ensures SpaceChannel(x) in w.tracked {
      var s :| s in w.open && x in w.users[s].spaceIds;
      StillTracked(v, e, s, x);
    }
  }

  lemma StillTracked(v: View, e: Event, s: Socket, x: Id)
    requires WellFormed(v) && Possible(v, e) && Covered(v)
    requires var w := Step(v, e); s in w.open && x in w.users[s].spaceIds
    ensures SpaceChannel(x) in Step(v, e).tracked
  {
    match e
    case Open(ws, _, spaceIds, _) =>
      if s != ws {
        assert x in LiveSpaces(v);
      }
    case Close(ws, _) =>
      assert x in LiveSpaces(v);
      assert s in Listeners(v, x);
    case Receive(p, redis) =>
      ReceivedSpaces(v, p, redis, s, x);
      if s in Listeners(v, x) {
        assert x in LiveSpaces(v);
      }
  }

  /** The spaces of one open socket after a message, in terms of the message and of its spaces before. */
  lemma ReceivedSpaces(v: View, p: Publication, redis: Redis, s: Socket, x: Id)
    requires WellFormed(v) && s in v.open
    ensures var w := Received(v, p, redis); var id := v.users[s].identity;
            && s in w.open && w.users[s].identity == id
            && (x in w.users[s].spaceIds <==> (x in v.users[s].spaceIds || Joins(p, x, id)) && !Leaves(p, x, id))
  {
    assert s in SocketsOf(v, v.users[s].identity);
  }

  /**
   * What a message does to the spaces each socket lists, in its own fields: the member it is about is
   * `data.member` when that is present, otherwise `data`'s own identity. A join on a space's channel adds the space
   * to exactly that member's open sockets, a leave removes it from exactly those, and nothing else changes any list.
   */
  lemma ListsAfterMessage(v: View, p: Publication, redis: Redis, s: Socket)
    requires WellFormed(v) && s in v.users
    ensures var w := Received(v, p, redis);
            var before, after := v.users[s].spaceIds, w.users[s].spaceIds;
            var about := if p.dataMember.Some? then p.dataMember.value
                         else if p.dataIdentity.Some? then p.dataIdentity.value else Id("");
            w.users.Keys == v.users.Keys && w.users[s].identity == v.users[s].identity && w.open == v.open &&
            if about == Id("") || s !in v.open || v.users[s].identity != about || p.channel.IdentityChannel? then after == before
            else
              var x := p.channel.space;
              match p.kind
              case MemberJoined => after == if x in before then before else before + [x]
              case MemberLeft => x !in after && (forall y :: y != x ==> (y in after <==> y in before))
              case OtherKind => after == before
  {
    if s in v.open { assert s in SocketsOf(v, v.users[s].identity); }
  }

  /** Whatever Redis does, after every completed handler of every run all live spaces are tracked. */
  lemma {:induction false} RunKeepsCovered(v: View, events: seq<Event>)
    requires WellFormed(v) && Legal(v, events) && Covered(v)
    ensures Covered(Run(v, events))
    decreases |events|
  {
    if events != [] {
      StepKeepsCovered(v, events[0]);
      RunKeepsCovered(Step(v, events[0]), events[1..]);
    }
  }

  /** A channel somebody here needs. */
  ghost predicate Needed(v: View, c: Channel)
    requires WellFormed(v)
  {
    match c
    case IdentityChannel(id) => SocketsOf(v, id) != {}
    case SpaceChannel(x) => Listeners(v, x) != {}
  }

  /** The tracked channels are exactly the needed ones. */
  ghost predicate Exact(v: View)
    requires WellFormed(v)
  {
    forall c: Channel :: c in v.tracked <==> Needed(v, c)
  }

  /**
   * What Redis must have done for the tracking to stay exact: accept the subscription of an identity not
   * tracked yet, and let go of every channel whose last socket went.
   */
  ghost predicate RedisFollowed(v: View, e: Event)
    requires WellFormed(v) && Possible(v, e)
  {
    match e
    case Open(_, id, _, redis) => IdentityChannel(id) in v.tracked || redis.Accepts(IdentityChannel(id))
    case Close(ws, redis) => ws in v.open ==> forall c: Channel :: Abandoned(v, ws, c) ==> redis.Forgets(c)
    case Receive(p, redis) =>
      var leaving := Subject(p, MemberLeft);
      (leaving.Some? && LastLeaves(v, p.channel.space, leaving.value)) ==> redis.Forgets(p.channel)
  }

  /** Exact tracking survives a handler exactly when Redis followed it. */
  lemma StepStaysExactIff(v: View, e: Event)
    requires WellFormed(v) && Possible(v, e) && Exact(v)
    ensures Exact(Step(v, e)) <==> RedisFollowed(v, e)
  {
    match e
    case Open(ws, id, spaceIds, redis) => OpenStaysExactIff(v, ws, id, spaceIds, redis);
    case Close(ws, redis) => CloseStaysExactIff(v, ws, redis);
    case Receive(p, redis) => ReceiveStaysExactIff(v, p, redis);
  }

  lemma OpenStaysExactIff(v: View, ws: Socket, id: Id, spaceIds: seq<Id>, redis: Redis)
    requires WellFormed(v) && ws !in v.users && Exact(v)
    ensures Exact(Opened(v, ws, id, spaceIds, redis)) <==> RedisFollowed(v, Open(ws, id, spaceIds, redis))
  {
    var w := Opened(v, ws, id, spaceIds, redis);
    forall c: Channel | c != IdentityChannel(id) ensures c in w.tracked <==> Needed(w, c) {
      OpenNeeds(v, ws, id, spaceIds, redis, c);
    }
    OpenNeeds(v, ws, id, spaceIds, redis, IdentityChannel(id));
  }

  lemma OpenNeeds(v: View, ws: Socket, id: Id, spaceIds: seq<Id>, redis: Redis, c: Channel)
    requires WellFormed(v) && ws !in v.users
    ensures Needed(Opened(v, ws, id, spaceIds, redis), c) <==>
              Needed(v, c) || c == IdentityChannel(id) || (c.SpaceChannel? && c.space in spaceIds)
  {
    var w := Opened(v, ws, id, spaceIds, redis);
    match c
    case IdentityChannel(i) =>
      assert SocketsOf(w, i) == SocketsOf(v, i) + (if i == id then {ws} else {});
    case SpaceChannel(x) =>
      assert Listeners(w, x) == Listeners(v, x) + (if x in spaceIds then {ws} else {});
  }

  lemma CloseStaysExactIff(v: View, ws: Socket, redis: Redis)
    requires WellFormed(v) && ws in v.users && Exact(v)
    ensures Exact(Closed(v, ws, redis)) <==> RedisFollowed(v, Close(ws, redis))
  {
    if ws in v.open {
      var w := Closed(v, ws, redis);
      forall x ensures Listeners(w, x) == Listeners(v, x) - {ws} {}
      forall i ensures SocketsOf(w, i) == SocketsOf(v, i) - {ws} {}
      forall c: Channel ensures Abandoned(v, ws, c) <==> Needed(v, c) && !Needed(w, c) {
        match c
        case SpaceChannel(x) => assert ws in Listeners(v, x) <==> x in v.users[ws].spaceIds;
        case IdentityChannel(i) => assert ws in SocketsOf(v, i) <==> i == v.users[ws].identity;
      }
    }
  }

  lemma ReceiveStaysExactIff(v: View, p: Publication, redis: Redis)
    requires WellFormed(v) && Exact(v)
    ensures Exact(Received(v, p, redis)) <==> RedisFollowed(v, Receive(p, redis))
  {
    var w := Received(v, p, redis);
    forall c: Channel | c != p.channel ensures c in w.tracked <==> Needed(w, c) {
      ReceiveNeeds(v, p, redis, c);
    }
    ReceiveNeeds(v, p, redis, p.channel);
    ReceiveTracks(v, p, redis);
  }

  function ListenersAfter(v: View, p: Publication, x: Id): set<Socket>
    requires WellFormed(v)
  {
    set s | s in v.open && (x in v.users[s].spaceIds || Joins(p, x, v.users[s].identity))
            && !Leaves(p, x, v.users[s].identity)
  }

  lemma ReceiveNeeds(v: View, p: Publication, redis: Redis, c: Channel)
    requires WellFormed(v)
    ensures Needed(Received(v, p, redis), c) <==>
              match c
              case IdentityChannel(i) => Needed(v, c)
              case SpaceChannel(x) => ListenersAfter(v, p, x) != {}
    ensures c != p.channel ==> (Needed(Received(v, p, redis), c) <==> Needed(v, c))
    ensures c != p.channel ==> (c in Received(v, p, redis).tracked <==> c in v.tracked)
  {
    var w := Received(v, p, redis);
    match c
    case IdentityChannel(i) =>
      assert SocketsOf(w, i) == SocketsOf(v, i);
    case SpaceChannel(x) =>
      forall s | s in v.open ensures s in Listeners(w, x) <==> s in ListenersAfter(v, p, x) {
        ReceivedSpaces(v, p, redis, s, x);
      }
      assert Listeners(w, x) == ListenersAfter(v, p, x);
      if c != p.channel {
        assert ListenersAfter(v, p, x) == Listeners(v, x);
      }
  }

  lemma NothingLeftIff(a: set<Socket>, b: set<Socket>)
    ensures a - b == {} <==> a <= b
  {
    if a - b == {} {
      forall s | s in a ensures s in b {
        assert s in a - b || s in b;
      }
    }
  }

  /** The message's own channel afterwards. */
  lemma ReceiveTracks(v: View, p: Publication, redis: Redis)
    requires WellFormed(v) && Exact(v)
    ensures var w := Received(v, p, redis);
            (p.channel in w.tracked <==> Needed(w, p.channel)) <==> RedisFollowed(v, Receive(p, redis))
  {
    ReceiveNeeds(v, p, redis, p.channel);
    if p.channel.SpaceChannel? {
      var x := p.channel.space;
      var joining, leaving := Subject(p, MemberJoined), Subject(p, MemberLeft);
      if joining.Some? {
        assert ListenersAfter(v, p, x) == Listeners(v, x) + SocketsOf(v, joining.value);
      } else if leaving.Some? {
        assert ListenersAfter(v, p, x) == Listeners(v, x) - SocketsOf(v, leaving.value);
        var v2 := Sent(v, Targets(v, p), p);
        assert Listeners(v2, x) == Listeners(v, x);
        assert SocketsOf(v2, leaving.value) == SocketsOf(v, leaving.value);
        NothingLeftIff(Listeners(v, x), SocketsOf(v, leaving.value));
        assert Received(v, p, redis) == Revoked(v2, x, leaving.value, redis);
      } else {
        assert ListenersAfter(v, p, x) == Listeners(v, x);
      }
    }
  }

  predicate NeverFails(events: seq<Event>) { forall e <- events :: e.redis == Healthy }

  /** While Redis never fails the tracked channels are exactly the live identities and the live spaces. */
  lemma {:induction false} RunStaysExact(v: View, events: seq<Event>)
    requires WellFormed(v) && Legal(v, events) && Exact(v) && NeverFails(events)
    ensures Exact(Run(v, events))
    decreases |events|
  {
    if events != [] {
      StepStaysExactIff(v, events[0]);
      RunStaysExact(Step(v, events[0]), events[1..]);
    }
  }

  /** Then the drift between tracked channels and identities is the number of live spaces, not zero. */
  lemma DriftIsLiveSpaces(v: View)
    requires WellFormed(v) && Exact(v)
    ensures |v.tracked| - |LiveIdentities(v)| == |LiveSpaces(v)|
  {
    var ids := set i | i in LiveIdentities(v) :: IdentityChannel(i);
    var spaces := set x | x in LiveSpaces(v) :: SpaceChannel(x);
    forall c: Channel ensures c in v.tracked <==> c in ids + spaces {
      match c
      case IdentityChannel(i) =>
        if c in ids { var s :| s in v.open && v.users[s].identity == i; assert s in SocketsOf(v, i); }
        if s :| s in SocketsOf(v, i) { assert i in LiveIdentities(v); }
      case SpaceChannel(x) =>
        if c in spaces { var s :| s in v.open && x in v.users[s].spaceIds; assert s in Listeners(v, x); }
        if s :| s in Listeners(v, x) { assert x in LiveSpaces(v); }
    }
    assert v.tracked == ids + spaces;
    IdentityNamesCount(LiveIdentities(v));
    SpaceNamesCount(LiveSpaces(v));
  }

  lemma IdentityNamesCount(ids: set<Id>)
    ensures |set i | i in ids :: IdentityChannel(i)| == |ids|
  {
    if i :| i in ids {
      IdentityNamesCount(ids - {i});
      assert (set j | j in ids :: IdentityChannel(j)) == (set j | j in ids - {i} :: IdentityChannel(j)) + {IdentityChannel(i)};
    }
  }

  lemma SpaceNamesCount(ids: set<Id>)
    ensures |set i | i in ids :: SpaceChannel(i)| == |ids|
  {
    if i :| i in ids {
      SpaceNamesCount(ids - {i});
      assert (set j | j in ids :: SpaceChannel(j)) == (set j | j in ids - {i} :: SpaceChannel(j)) + {SpaceChannel(i)};
    }
  }

  // ----- identities that open during an outage -----

  /** The channel of every identity with a local socket is tracked. */
  ghost predicate IdentitiesCovered(v: View)
    requires WellFormed(v)
  {
    forall s <- v.open :: IdentityChannel(v.users[s].identity) in v.tracked
  }

  /** An opening finds its identity's channel tracked, or Redis accepts the subscription. */
  predicate OpensSubscribed(v: View, e: Event) {
    e.Open? ==> IdentityChannel(e.id) in v.tracked || e.redis.Accepts(IdentityChannel(e.id))
  }

  /** A handler keeps every live identity tracked exactly when it is not such an unlucky opening. */
  lemma IdentitiesStayCoveredIff(v: View, e: Event)
    requires WellFormed(v) && Possible(v, e) && IdentitiesCovered(v)
    ensures IdentitiesCovered(Step(v, e)) <==> OpensSubscribed(v, e)
  {
    var w := Step(v, e);
    match e
    case Open(ws, id, spaceIds, redis) =>
      assert ws in w.open && w.users[ws].identity == id;
    case Close(ws, redis) =>
      forall s | s in w.open ensures IdentityChannel(w.users[s].identity) in w.tracked {
        assert s in SocketsOf(v, v.users[s].identity);
      }
    case Receive(p, redis) =>
      forall s | s in w.open ensures IdentityChannel(w.users[s].identity) in w.tracked {
        ReceivedSpaces(v, p, redis, s, v.users[s].identity);
      }
  }

  ghost predicate IdentitiesAlwaysCovered(v: View, events: seq<Event>)
    requires WellFormed(v) && Legal(v, events)
    decreases |events|
  {
    IdentitiesCovered(v) && (events == [] || IdentitiesAlwaysCovered(Step(v, events[0]), events[1..]))
  }

  ghost predicate AlwaysOpensSubscribed(v: View, events: seq<Event>)
    requires WellFormed(v) && Legal(v, events)
    decreases |events|
  {
    events == [] || (OpensSubscribed(v, events[0]) && AlwaysOpensSubscribed(Step(v, events[0]), events[1..]))
  }

  /**
   * After every handler of a run all live identities are tracked, so that re-subscribing restores them all,
   * exactly when every opening of the run found its channel tracked or was accepted by Redis.
   */
  lemma {:induction false} IdentitiesAlwaysCoveredIff(v: View, events: seq<Event>)
    requires WellFormed(v) && Legal(v, events) && IdentitiesCovered(v)
    ensures IdentitiesAlwaysCovered(v, events) <==> AlwaysOpensSubscribed(v, events)
    decreases |events|
  {
    if events != [] {
      IdentitiesStayCoveredIff(v, events[0]);
      if IdentitiesCovered(Step(v, events[0])) {
        IdentitiesAlwaysCoveredIff(Step(v, events[0]), events[1..]);
      }
    }
  }

  /** The full channel names that re-subscribing asks Redis for. */
  function AskedNames(prefix: string, tracked: set<Channel>): set<string> {
    set c | c in tracked :: prefix + ChannelText(c)
  }

  /** A first socket that opens during an outage is live, but its identity is not among the names asked for. */
  lemma OutageOpenIsNotAsked(prefix: string, ws: Socket, id: Id)
    ensures var down := Redis({IdentityChannel(id)}, {});
            var events := [Open(ws, id, [], down)];
            && Legal(Start, events)
            && var v := Run(Start, events);
               && ws in SocketsOf(v, id) && !IdentitiesCovered(v)
               && prefix + ChannelText(IdentityChannel(id)) !in AskedNames(prefix, v.tracked)
  {
    var e := Open(ws, id, [], Redis({IdentityChannel(id)}, {}));
    assert [e][1..] == [];
    var v := Step(Start, e);
    assert Run(Start, [e]) == Run(v, []) == v;
    assert v.tracked == {};
    assert ws in v.open && v.users[ws].identity == id;
  }

  /** A close of the identity's last socket that ends with its channel no longer tracked. */
  predicate LetsGo(v: View, e: Event, id: Id)
    requires WellFormed(v) && Possible(v, e)
  {
    e.Close? && e.ws in v.open && Abandoned(v, e.ws, IdentityChannel(id)) && e.redis.Forgets(IdentityChannel(id))
  }

  ghost predicate NeverLetsGo(v: View, events: seq<Event>, id: Id)
    requires WellFormed(v) && Legal(v, events)
    decreases |events|
  {
    events == [] || (!LetsGo(v, events[0], id) && NeverLetsGo(Step(v, events[0]), events[1..], id))
  }

  /** Some opening of the identity is accepted by Redis, and its channel is not let go of afterwards. */
  ghost predicate Reopened(v: View, events: seq<Event>, id: Id)
    requires WellFormed(v) && Legal(v, events)
    decreases |events|
  {
    events != [] &&
    var e, w := events[0], Step(v, events[0]);
    || (e.Open? && e.id == id && e.redis.Accepts(IdentityChannel(id)) && NeverLetsGo(w, events[1..], id))
    || Reopened(w, events[1..], id)
  }

  /**
   * An identity's channel is tracked after a run exactly when it was tracked and never let go of, or an accepted
   * opening of that identity brought it back. Nothing else does: one that opened during an outage is not
   * re-subscribed when Redis is ready again.
   */
  lemma {:induction false} OutageOpenIsNotRecovered(v: View, id: Id, events: seq<Event>)
    requires WellFormed(v) && Legal(v, events)
    ensures IdentityChannel(id) in Run(v, events).tracked <==>
              (IdentityChannel(id) in v.tracked && NeverLetsGo(v, events, id)) || Reopened(v, events, id)
    decreases |events|
  {
    if events != [] {
      OutageOpenIsNotRecovered(Step(v, events[0]), id, events[1..]);
    }
  }

  // ----- deliveries -----

  /** The publications handled during a run, in order. */
  function Publications(events: seq<Event>): seq<Publication> {
    if events == [] then []
    else
      var n := |events| - 1;
      Publications(events[..n]) + (if events[n].Receive? then [events[n].p] else [])
  }

  /**
   * Membership of `x` by the history alone: the last word was a join, or there was no leave and the identity
   * was a member when the socket opened.
   */
  ghost predicate Member(past: seq<Publication>, x: Id, id: Id, initially: bool) {
    || (exists j :: 0 <= j < |past| && Joins(past[j], x, id) && forall l :: j < l < |past| ==> !Leaves(past[l], x, id))
    || (initially && forall l :: 0 <= l < |past| ==> !Leaves(past[l], x, id))
  }

  /**
   * What a socket is owed: everything on its identity's channel; on a space's channel everything from the join
   * through the leave, both included, or from its opening when already a member, if the lists admit it.
   */
  ghost predicate Owed(past: seq<Publication>, p: Publication, id: Id, spaceIds: seq<Id>) {
    match p.channel
    case IdentityChannel(i) => i == id
    case SpaceChannel(x) => (Joins(p, x, id) || Member(past, x, id, x in spaceIds)) && Admits(p, id)
  }

  /** The owed ones of a sequence of publications, each once and in order. */
  ghost function Due(pubs: seq<Publication>, id: Id, spaceIds: seq<Id>): seq<Publication> {
    if pubs == [] then []
    else
      var n := |pubs| - 1;
      Due(pubs[..n], id, spaceIds) + (if Owed(pubs[..n], pubs[n], id, spaceIds) then [pubs[n]] else [])
  }

  lemma MemberAfter(past: seq<Publication>, p: Publication, x: Id, id: Id, initially: bool)
    ensures Member(past + [p], x, id, initially) <==>
            (Member(past, x, id, initially) || Joins(p, x, id)) && !Leaves(p, x, id)
  {
    var all := past + [p];
    var n := |past|;
    if Leaves(p, x, id) {
      assert all[n] == p && !Joins(p, x, id);
    } else if Joins(p, x, id) {
      assert Joins(all[n], x, id);
    } else if Member(past, x, id, initially) {
      if j :| 0 <= j < n && Joins(past[j], x, id) && forall l :: j < l < n ==> !Leaves(past[l], x, id) {
        assert Joins(all[j], x, id);
      }
    } else {
      assert forall l :: 0 <= l < n ==> past[l] == all[l];
    }
  }

  /** What an open socket has seen so far matches the history. */
  ghost predicate UpToDate(v: View, ws: Socket, id: Id, spaceIds: seq<Id>, past: seq<Publication>)
    requires WellFormed(v)
  {
    && ws in v.open && v.users[ws].identity == id
    && (forall x :: x in v.users[ws].spaceIds <==> Member(past, x, id, x in spaceIds))
    && v.inbox[ws] == Due(past, id, spaceIds)
  }

  lemma ReceiveKeepsUpToDate(v: View, ws: Socket, id: Id, spaceIds: seq<Id>, past: seq<Publication>, p: Publication, redis: Redis)
    requires WellFormed(v) && UpToDate(v, ws, id, spaceIds, past)
    ensures UpToDate(Received(v, p, redis), ws, id, spaceIds, past + [p])
  {
    var w := Received(v, p, redis);
    forall x ensures ws in w.open && (x in w.users[ws].spaceIds <==> Member(past + [p], x, id, x in spaceIds)) {
      ReceivedSpaces(v, p, redis, ws, x);
      MemberAfter(past, p, x, id, x in spaceIds);
    }
    ReceivedSpaces(v, p, redis, ws, id);
    assert (past + [p])[..|past|] == past;
    InboxAfter(v, p, redis, ws);
  }

  /** One message reaches a socket at most once, and exactly when its channel and lists say so. */
  lemma InboxAfter(v: View, p: Publication, redis: Redis, ws: Socket)
    requires WellFormed(v) && ws in v.open
    ensures var id := v.users[ws].identity;
            var reached := match p.channel
              case IdentityChannel(i) => i == id
              case SpaceChannel(x) => (Joins(p, x, id) || x in v.users[ws].spaceIds) && Admits(p, id);
            Received(v, p, redis).inbox[ws] == v.inbox[ws] + (if reached then [p] else [])
  {
    assert ws in SocketsOf(v, v.users[ws].identity);
  }

  lemma StepKeepsUpToDate(v: View, ws: Socket, id: Id, spaceIds: seq<Id>, past: seq<Publication>, e: Event)
    requires WellFormed(v) && Possible(v, e) && UpToDate(v, ws, id, spaceIds, past) && !(e.Close? && e.ws == ws)
    ensures UpToDate(Step(v, e), ws, id, spaceIds, past + (if e.Receive? then [e.p] else []))
  {
    if e.Receive? {
      ReceiveKeepsUpToDate(v, ws, id, spaceIds, past, e.p, e.redis);
    } else {
      assert past + [] == past;
    }
  }

  lemma RunSnoc(v: View, events: seq<Event>)
    requires WellFormed(v) && events != [] && Legal(v, events)
    ensures var n := |events| - 1;
            && Legal(v, events[..n]) && Possible(Run(v, events[..n]), events[n])
            && Run(v, events) == Step(Run(v, events[..n]), events[n])
    decreases |events|
  {
    var n := |events| - 1;
    if n > 0 {
      RunSnoc(Step(v, events[0]), events[1..]);
      assert events[1..][..n - 1] == events[..n][1..];
    }
  }

  /** Delivery, for a socket that is up to date and does not close during the run. */
  lemma {:induction false} RunKeepsUpToDate(v: View, ws: Socket, id: Id, spaceIds: seq<Id>, events: seq<Event>)
    requires WellFormed(v) && Legal(v, events) && UpToDate(v, ws, id, spaceIds, [])
    requires forall e <- events :: !(e.Close? && e.ws == ws)
    ensures UpToDate(Run(v, events), ws, id, spaceIds, Publications(events))
    decreases |events|
  {
    if events != [] {
      var n := |events| - 1;
      RunSnoc(v, events);
      RunKeepsUpToDate(v, ws, id, spaceIds, events[..n]);
      assert forall e <- events[..n] :: e in events;
      StepKeepsUpToDate(Run(v, events[..n]), ws, id, spaceIds, Publications(events[..n]), events[n]);
    }
  }

  /**
   * The delivery theorem. A socket opened at any moment of any run, and not closed since, has been handed
   * exactly the publications owed to it, each once and in order.
   */
  lemma {:induction false} DeliveryTheorem(v: View, ws: Socket, id: Id, spaceIds: seq<Id>, redis: Redis, events: seq<Event>)
    requires WellFormed(v) && ws !in v.users && Legal(Opened(v, ws, id, spaceIds, redis), events)
    requires forall e <- events :: !(e.Close? && e.ws == ws)
    ensures var w := Run(Opened(v, ws, id, spaceIds, redis), events);
            ws in w.open && w.inbox[ws] == Due(Publications(events), id, spaceIds)
  {
    RunKeepsUpToDate(Opened(v, ws, id, spaceIds, redis), ws, id, spaceIds, events);
  }

  /** Once closed a socket is never handed anything again. */
  lemma {:induction false} ClosedIsSilent(v: View, ws: Socket, events: seq<Event>)
    requires WellFormed(v) && Legal(v, events) && ws in v.users && ws !in v.open
    ensures var w := Run(v, events); ws in w.users && ws !in w.open && w.inbox[ws] == v.inbox[ws]
    decreases |events|
  {
    if events != [] {
      ClosedIsSilent(Step(v, events[0]), ws, events[1..]);
    }
  }
}
