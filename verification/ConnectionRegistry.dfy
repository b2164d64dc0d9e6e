/**
 * The chat service's in-memory lookup maps and the handlers that keep them, each run to completion. The maps are
 * indexes of the open sockets of `ChatRegistry`, and each handler is proved to take the step defined there.
 */
module ConnectionRegistry {
  import opened Optional
  import opened ChatChannels
  import opened ChatRegistry

  type Index = map<Id, set<Socket>>

  // ----- indexes -----

  datatype Link = Link(s: Socket, k: Id)

  /** `m` finds a socket under a key exactly when the two are linked, and has no empty entry. */
  ghost predicate Indexes(m: Index, links: set<Link>) {
    && (forall k, s :: (k in m && s in m[k]) <==> Link(s, k) in links)
    && (forall k <- m :: m[k] != {})
  }

  function Links(s: Socket, ids: seq<Id>): set<Link> { set x | x in ids :: Link(s, x) }

  /** What the two maps are kept by. */
  function IdentityLinks(v: View): set<Link>
    requires WellFormed(v)
  {
    set s | s in v.open :: Link(s, v.users[s].identity)
  }

  function SpaceLinks(v: View): set<Link>
    requires WellFormed(v)
  {
    set s, x | s in v.open && x in v.users[s].spaceIds :: Link(s, x)
  }

  /**
   * A socket is found under an identity exactly when it is open and of that identity, and under a space exactly
   * when it is open and lists that space; no entry is empty.
   */
  ghost predicate Agree(conns: Index, spaces: Index, v: View) {
    WellFormed(v) && Indexes(conns, IdentityLinks(v)) && Indexes(spaces, SpaceLinks(v))
  }

  function At(m: Index, k: Id): set<Socket> { if k in m then m[k] else {} }

  function Put(m: Index, k: Id, s: Socket): Index { m[k := At(m, k) + {s}] }

  function Drop(m: Index, k: Id, s: Socket): Index {
    if k !in m then m
    else if m[k] - {s} == {} then m - {k}
    else m[k := m[k] - {s}]
  }

  function PutAll(m: Index, ids: seq<Id>, s: Socket): Index {
    if ids == [] then m else Put(PutAll(m, ids[..|ids| - 1], s), ids[|ids| - 1], s)
  }

  function DropAll(m: Index, ids: seq<Id>, s: Socket): Index {
    if ids == [] then m else Drop(DropAll(m, ids[..|ids| - 1], s), ids[|ids| - 1], s)
  }

  lemma PutIndexes(m: Index, links: set<Link>, k: Id, s: Socket)
    requires Indexes(m, links)
    ensures Indexes(Put(m, k, s), links + {Link(s, k)})
  {}

  lemma DropIndexes(m: Index, links: set<Link>, k: Id, s: Socket)
    requires Indexes(m, links)
    ensures Indexes(Drop(m, k, s), links - {Link(s, k)})
  {
    var n := Drop(m, k, s);
    forall j, t ensures (j in n && t in n[j]) <==> (j in m && t in m[j] && !(j == k && t == s)) {
      if j == k && k in m && t in m[k] && t != s {
        assert t in m[k] - {s};
      }
    }
  }

  lemma {:induction false} PutAllIndexes(m: Index, links: set<Link>, ids: seq<Id>, s: Socket)
    requires Indexes(m, links)
    ensures Indexes(PutAll(m, ids, s), links + Links(s, ids))
  {
    if ids != [] {
      var less, k := ids[..|ids| - 1], ids[|ids| - 1];
      PutAllIndexes(m, links, less, s);
      PutIndexes(PutAll(m, less, s), links + Links(s, less), k, s);
      assert links + Links(s, less) + {Link(s, k)} == links + Links(s, ids);
    } else {
      assert links + Links(s, ids) == links;
    }
  }

  lemma {:induction false} DropAllIndexes(m: Index, links: set<Link>, ids: seq<Id>, s: Socket)
    requires Indexes(m, links)
    ensures Indexes(DropAll(m, ids, s), links - Links(s, ids))
  {
    if ids != [] {
      var less, k := ids[..|ids| - 1], ids[|ids| - 1];
      DropAllIndexes(m, links, less, s);
      DropIndexes(DropAll(m, less, s), links - Links(s, less), k, s);
      assert links - Links(s, less) - {Link(s, k)} == links - Links(s, ids);
    } else {
      assert links - Links(s, ids) == links;
    }
  }

  lemma OpenAgrees(conns: Index, spaces: Index, v: View, ws: Socket, id: Id, spaceIds: seq<Id>, redis: Redis)
    requires Agree(conns, spaces, v) && ws !in v.users
    ensures Agree(Put(conns, id, ws), PutAll(spaces, spaceIds, ws), Opened(v, ws, id, spaceIds, redis))
  {
    PutIndexes(conns, IdentityLinks(v), id, ws);
    PutAllIndexes(spaces, SpaceLinks(v), spaceIds, ws);
    OpenLinks(v, ws, id, spaceIds, redis);
  }

  lemma OpenLinks(v: View, ws: Socket, id: Id, spaceIds: seq<Id>, redis: Redis)
    requires WellFormed(v) && ws !in v.users
    ensures var w := Opened(v, ws, id, spaceIds, redis);
            && WellFormed(w)
            && IdentityLinks(w) == IdentityLinks(v) + {Link(ws, id)}
            && SpaceLinks(w) == SpaceLinks(v) + Links(ws, spaceIds)
  {}

  lemma CloseAgrees(conns: Index, spaces: Index, v: View, ws: Socket, redis: Redis)
    requires Agree(conns, spaces, v) && ws in v.open
    ensures Agree(Drop(conns, v.users[ws].identity, ws), DropAll(spaces, v.users[ws].spaceIds, ws), Closed(v, ws, redis))
  {
    var w := Closed(v, ws, redis);
    var u := v.users[ws];
    DropIndexes(conns, IdentityLinks(v), u.identity, ws);
    assert IdentityLinks(w) == IdentityLinks(v) - {Link(ws, u.identity)};
    DropAllIndexes(spaces, SpaceLinks(v), u.spaceIds, ws);
    assert SpaceLinks(w) == SpaceLinks(v) - Links(ws, u.spaceIds);
  }

  /** A socket that is not open is found nowhere. */
  lemma ClosedIsNowhere(conns: Index, spaces: Index, v: View, ws: Socket)
    requires Agree(conns, spaces, v) && ws !in v.open
    ensures forall k <- conns :: ws !in conns[k]
    ensures forall k <- spaces :: ws !in spaces[k]
  {
    assert forall k <- conns :: ws in conns[k] ==> Link(ws, k) in IdentityLinks(v);
    assert forall k <- spaces :: ws in spaces[k] ==> Link(ws, k) in SpaceLinks(v);
  }

  /** What is looked up in the maps is what the open sockets say. */
  lemma LookupsAgree(conns: Index, spaces: Index, v: View, k: Id)
    requires Agree(conns, spaces, v)
    ensures At(conns, k) == SocketsOf(v, k) && (k in conns <==> SocketsOf(v, k) != {})
    ensures At(spaces, k) == Listeners(v, k) && (k in spaces <==> Listeners(v, k) != {})
  {
    forall s ensures s in At(conns, k) <==> s in SocketsOf(v, k) {
      assert Link(s, k) in IdentityLinks(v) <==> s in SocketsOf(v, k);
    }
    forall s ensures s in At(spaces, k) <==> s in Listeners(v, k) {
      assert Link(s, k) in SpaceLinks(v) <==> s in Listeners(v, k);
    }
  }

  lemma KeysAgree(conns: Index, spaces: Index, v: View)
    requires Agree(conns, spaces, v)
    ensures conns.Keys == LiveIdentities(v) && spaces.Keys == LiveSpaces(v)
  {
    forall k ensures k in conns <==> k in LiveIdentities(v) {
      LookupsAgree(conns, spaces, v, k);
      if s :| s in SocketsOf(v, k) { assert k in LiveIdentities(v); }
      if k in LiveIdentities(v) {
        var s :| s in v.open && v.users[s].identity == k;
        assert s in SocketsOf(v, k);
      }
    }
    forall k ensures k in spaces <==> k in LiveSpaces(v) {
      LookupsAgree(conns, spaces, v, k);
      if s :| s in Listeners(v, k) { assert k in LiveSpaces(v); }
      if k in LiveSpaces(v) {
        var s :| s in v.open && k in v.users[s].spaceIds;
        assert s in Listeners(v, k);
      }
    }
  }

  lemma {:induction false} DropAllAt(m: Index, ids: seq<Id>, s: Socket, k: Id)
    requires forall j <- m :: m[j] != {}
    ensures At(DropAll(m, ids, s), k) == At(m, k) - (if k in ids then {s} else {})
    ensures forall j <- DropAll(m, ids, s) :: DropAll(m, ids, s)[j] != {}
  {
    if ids != [] {
      DropAllAt(m, ids[..|ids| - 1], s, k);
      assert ids == ids[..|ids| - 1] + [ids[|ids| - 1]];
    }
  }

  /** The channels an unregistering socket's spaces lose: those whose set it alone was in. */
  predicate Emptied(spaces: Index, ws: Socket, spaceIds: seq<Id>, c: Channel) {
    c.SpaceChannel? && c.space in spaceIds && c.space in spaces && spaces[c.space] - {ws} == {}
  }

  lemma EmptiedAreAbandoned(conns: Index, spaces: Index, v: View, ws: Socket, c: Channel)
    requires Agree(conns, spaces, v) && ws in v.open
    ensures var u := v.users[ws];
            Abandoned(v, ws, c) <==>
              Emptied(spaces, ws, u.spaceIds, c)
              || (c == IdentityChannel(u.identity) && At(conns, u.identity) - {ws} == {})
  {
    var u := v.users[ws];
    match c
    case IdentityChannel(i) =>
      LookupsAgree(conns, spaces, v, i);
      NothingLeftIff(SocketsOf(v, i), {ws});
    case SpaceChannel(x) =>
      LookupsAgree(conns, spaces, v, x);
      NothingLeftIff(Listeners(v, x), {ws});
      assert x in u.spaceIds ==> ws in Listeners(v, x);
  }

  /** What a close leaves tracked, read off the maps. */
  function LeftTracked(conns: Index, spaces: Index, tracked: set<Channel>, ws: Socket, u: User, redis: Redis): set<Channel> {
    (set c | c in tracked && !(Emptied(spaces, ws, u.spaceIds, c) && redis.Forgets(c)))
    - (if At(conns, u.identity) - {ws} == {} && redis.Forgets(IdentityChannel(u.identity))
       then {IdentityChannel(u.identity)} else {})
  }

  lemma CloseTracks(conns: Index, spaces: Index, v: View, ws: Socket, redis: Redis)
    requires Agree(conns, spaces, v) && ws in v.open
    ensures Closed(v, ws, redis).tracked == LeftTracked(conns, spaces, v.tracked, ws, v.users[ws], redis)
  {
    forall c: Channel
      ensures c in Closed(v, ws, redis).tracked <==> c in LeftTracked(conns, spaces, v.tracked, ws, v.users[ws], redis)
    {
      EmptiedAreAbandoned(conns, spaces, v, ws, c);
    }
  }

  lemma SkippedClose(conns: Index, spaces: Index, v: View, ws: Socket)
    requires Agree(conns, spaces, v) && ws in v.users
    ensures ws in v.open <==> ws in At(conns, v.users[ws].identity)
  {
    LookupsAgree(conns, spaces, v, v.users[ws].identity);
  }

  lemma GrantAgrees(conns: Index, spaces: Index, v: View, x: Id, id: Id)
    requires Agree(conns, spaces, v) && SocketsOf(v, id) != {}
    ensures Agree(conns, spaces[x := At(spaces, x) + SocketsOf(v, id)], Granted(v, x, id))
  {
    var w := Granted(v, x, id);
    assert IdentityLinks(w) == IdentityLinks(v);
    var m := spaces[x := At(spaces, x) + SocketsOf(v, id)];
    forall k, s ensures (k in m && s in m[k]) <==> Link(s, k) in SpaceLinks(w) {
      assert Link(s, k) in SpaceLinks(v) <==> s in v.open && k in v.users[s].spaceIds;
      assert Link(s, k) in SpaceLinks(w) <==> s in v.open && k in w.users[s].spaceIds;
    }
  }

  /** A grant read off the maps; without a socket of the identity it does nothing. */
  lemma GrantReads(conns: Index, spaces: Index, v: View, x: Id, id: Id)
    requires Agree(conns, spaces, v)
    ensures At(conns, id) == {} ==> Granted(v, x, id) == v
    ensures At(conns, id) != {} ==>
              && At(conns, id) <= v.users.Keys
              && Agree(conns, spaces[x := At(spaces, x) + At(conns, id)], Granted(v, x, id))
              && Granted(v, x, id) ==
                 v.(users := AllJoined(v.users, At(conns, id), x), tracked := v.tracked + {SpaceChannel(x)})
  {
    LookupsAgree(conns, spaces, v, id);
    if SocketsOf(v, id) != {} { GrantAgrees(conns, spaces, v, x, id); }
  }

  /** The index once the sockets of `gone` are taken from one entry, and the entry too when that empties it. */
  function Pruned(m: Index, x: Id, gone: set<Socket>): Index
    requires x in m
  {
    if m[x] - gone == {} then m - {x} else m[x := m[x] - gone]
  }

  lemma RevokeAgrees(conns: Index, spaces: Index, v: View, x: Id, id: Id, redis: Redis)
    requires Agree(conns, spaces, v) && x in spaces
    ensures Agree(conns, Pruned(spaces, x, SocketsOf(v, id)), Revoked(v, x, id, redis))
  {
    var w := Revoked(v, x, id, redis);
    assert IdentityLinks(w) == IdentityLinks(v);
    var m := Pruned(spaces, x, SocketsOf(v, id));
    forall k, s ensures (k in m && s in m[k]) <==> Link(s, k) in SpaceLinks(w) {
      RevokeLinks(conns, spaces, v, x, id, redis, k, s);
      assert Link(s, k) in SpaceLinks(v) <==> s in At(spaces, k);
      assert k == x ==> (s in At(m, x) <==> s in spaces[x] - SocketsOf(v, id));
      assert k != x ==> At(m, k) == At(spaces, k);
    }
  }

  /** A revocation does nothing for a space or an identity that is not in the maps. */
  lemma SkippedRevoke(conns: Index, spaces: Index, v: View, x: Id, id: Id, redis: Redis)
    requires Agree(conns, spaces, v) && (At(spaces, x) == {} || id !in conns)
    ensures Revoked(v, x, id, redis) == v
  {
    LookupsAgree(conns, spaces, v, x);
    LookupsAgree(conns, spaces, v, id);
    assert SocketsOf(v, id) * Listeners(v, x) == {};
    assert AllParted(v.users, {}, x) == v.users;
  }

  /** What taking the sockets `group` out of those `listening` to a space comes to. */
  function RevokedBy(v: View, group: set<Socket>, listening: set<Socket>, x: Id, redis: Redis): View {
    v.(users := AllParted(v.users, group * listening, x),
       tracked := v.tracked - (if listening - group == {} && redis.Forgets(SpaceChannel(x)) then {SpaceChannel(x)} else {}))
  }

  /** Otherwise it can be read off them. */
  lemma RevokeReads(conns: Index, spaces: Index, v: View, x: Id, id: Id, redis: Redis)
    requires Agree(conns, spaces, v) && x in spaces && id in conns
    ensures conns[id] <= v.users.Keys
    ensures Agree(conns, Pruned(spaces, x, conns[id]), Revoked(v, x, id, redis))
    ensures Revoked(v, x, id, redis) == RevokedBy(v, conns[id], spaces[x], x, redis)
  {
    LookupsAgree(conns, spaces, v, x);
    LookupsAgree(conns, spaces, v, id);
    RevokeAgrees(conns, spaces, v, x, id, redis);
    RevokedIs(v, x, id, redis);
  }

  lemma RevokedIs(v: View, x: Id, id: Id, redis: Redis)
    requires WellFormed(v) && Listeners(v, x) != {}
    ensures Revoked(v, x, id, redis) == RevokedBy(v, SocketsOf(v, id), Listeners(v, x), x, redis)
  {
    NothingLeftIff(Listeners(v, x), SocketsOf(v, id));
  }

  /** The sockets a message's lists let through. */
  function Admitted(users: map<Socket, User>, sockets: set<Socket>, p: Publication): set<Socket>
    requires sockets <= users.Keys
  {
    set s | s in sockets && Admits(p, users[s].identity)
  }

  lemma RevokeLinks(conns: Index, spaces: Index, v: View, x: Id, id: Id, redis: Redis, k: Id, s: Socket)
    requires Agree(conns, spaces, v)
    ensures Link(s, k) in SpaceLinks(Revoked(v, x, id, redis)) <==>
              Link(s, k) in SpaceLinks(v) && !(k == x && s in SocketsOf(v, id))
  {
    var w := Revoked(v, x, id, redis);
    assert Link(s, k) in SpaceLinks(v) <==> s in v.open && k in v.users[s].spaceIds;
    assert Link(s, k) in SpaceLinks(w) <==> s in v.open && k in w.users[s].spaceIds;
  }

  lemma DeliveryAgrees(conns: Index, spaces: Index, v: View, p: Publication)
    requires Agree(conns, spaces, v)
    ensures Agree(conns, spaces, Sent(v, Targets(v, p), p))
    ensures p.channel.SpaceChannel? ==>
              At(spaces, p.channel.space) <= v.users.Keys
              && Targets(v, p) == Admitted(v.users, At(spaces, p.channel.space), p)
    ensures p.channel.IdentityChannel? ==>
              At(conns, p.channel.identity) <= v.users.Keys
              && Targets(v, p) == Admitted(v.users, At(conns, p.channel.identity), p.(audience := None, exclude := None))
  {
    match p.channel
    case SpaceChannel(x) => LookupsAgree(conns, spaces, v, x);
    case IdentityChannel(i) => LookupsAgree(conns, spaces, v, i);
    assert IdentityLinks(Sent(v, Targets(v, p), p)) == IdentityLinks(v);
    assert SpaceLinks(Sent(v, Targets(v, p), p)) == SpaceLinks(v);
  }

  // ----- one turn of the handlers' loops -----

  lemma JoinOne(users: map<Socket, User>, group: set<Socket>, x: Id, ws: Socket)
    requires ws in users && ws !in group
    ensures var now := AllJoined(users, group, x);
            now[ws] == users[ws] && AllJoined(users, group + {ws}, x) == now[ws := Joined(users[ws], x)]
  {}

  lemma PartOne(users: map<Socket, User>, group: set<Socket>, x: Id, ws: Socket)
    requires ws in users && ws !in group
    ensures var now := AllParted(users, group, x);
            now[ws] == users[ws] && AllParted(users, group + {ws}, x) == now[ws := Parted(users[ws], x)]
  {}

  lemma HandOne(inbox: map<Socket, seq<Publication>>, group: set<Socket>, p: Publication, ws: Socket)
    requires ws in inbox && ws !in group
    ensures var now := Handed(inbox, group, p);
            now[ws] == inbox[ws] && Handed(inbox, group + {ws}, p) == now[ws := inbox[ws] + [p]]
  {}

  class Registry {
    /** Identity to its sockets, and space to the sockets listening to it. */
    var connections: Index
    var spaceConnections: Index
    /** The channels tracked for re-subscription. */
    var subscriptions: set<Channel>
    /** What each accepted socket carries and what has been handed to it. */
    var userData: map<Socket, User>
    var sent: map<Socket, seq<Publication>>
    ghost var open: set<Socket>

    ghost function Now(): View
      reads this
    {
      View(userData, open, subscriptions, sent)
    }

    ghost predicate Valid()
      reads this
    {
      Agree(connections, spaceConnections, Now())
    }

    constructor ()
      ensures Valid() && Now() == Start
    {
      connections, spaceConnections, subscriptions, userData, sent := map[], map[], {}, map[], map[];
      open := {};
    }

    method SubscribeToIdentity(identityId: Id, redis: Redis)
      modifies this`subscriptions
      ensures subscriptions == old(subscriptions)
                + (if redis.Accepts(IdentityChannel(identityId)) then {IdentityChannel(identityId)} else {})
    {
      var channel := IdentityChannel(identityId);
      if channel in redis.down { return; }
      if channel !in redis.failing {
        subscriptions := subscriptions + {channel};
      }
    }

    method UnsubscribeFromIdentity(identityId: Id, redis: Redis)
      modifies this`subscriptions
      ensures subscriptions == old(subscriptions)
                - (if redis.Forgets(IdentityChannel(identityId)) then {IdentityChannel(identityId)} else {})
    {
      var channel := IdentityChannel(identityId);
      if channel !in subscriptions { return; }
      if channel in redis.down {
        subscriptions := subscriptions - {channel};
        return;
      }
      if channel !in redis.failing {
        subscriptions := subscriptions - {channel};
      }
    }

    /** A space's channel is tracked whatever Redis answers. */
    method SubscribeToSpace(spaceId: Id)
      modifies this`subscriptions
      ensures subscriptions == old(subscriptions) + {SpaceChannel(spaceId)}
    {
      var channel := SpaceChannel(spaceId);
      if channel in subscriptions { return; }
      subscriptions := subscriptions + {channel};
    }

    method UnsubscribeFromSpace(spaceId: Id, redis: Redis)
      modifies this`subscriptions
      ensures subscriptions == old(subscriptions)
                - (if redis.Forgets(SpaceChannel(spaceId)) then {SpaceChannel(spaceId)} else {})
    {
      var channel := SpaceChannel(spaceId);
      if channel !in subscriptions { return; }
      if channel in redis.down {
        subscriptions := subscriptions - {channel};
        return;
      }
      if channel !in redis.failing {
        subscriptions := subscriptions - {channel};
      }
    }

    /** The full channel names asked of Redis when it is ready again: those of the tracked channels, each once. */
    method ResubscribeAllChannels(prefix: string) returns (asked: seq<string>)
      ensures forall c: Channel :: prefix + ChannelText(c) in asked <==> c in subscriptions
      ensures |asked| == |subscriptions| && (forall n :: n in asked <==> n in AskedNames(prefix, subscriptions))
      ensures Valid() && Covered(Now()) ==> forall x <- spaceConnections :: prefix + ChannelText(SpaceChannel(x)) in asked
      ensures Valid() && IdentitiesCovered(Now()) ==> forall i <- connections :: prefix + ChannelText(IdentityChannel(i)) in asked
    {
      if Valid() { KeysAgree(connections, spaceConnections, Now()); }
      asked := [];
      var rest := subscriptions;
      while rest != {}
        invariant rest <= subscriptions
        invariant forall c: Channel :: prefix + ChannelText(c) in asked <==> c in subscriptions - rest
        invariant forall n :: n in asked <==> n in AskedNames(prefix, subscriptions - rest)
        invariant |asked| + |rest| == |subscriptions|
      {
        var c :| c in rest;
        forall d | prefix + ChannelText(d) == prefix + ChannelText(c) ensures d == c {
          NamesAreDistinct(prefix, c, d);
        }
        asked := asked + [prefix + ChannelText(c)];
        assert subscriptions - (rest - {c}) == subscriptions - rest + {c};
        rest := rest - {c};
      }
    }

    /** Puts an opening socket into the set of each of its spaces. */
    method ListenToSpaces(ws: Socket, spaceIds: seq<Id>)
      modifies this`spaceConnections, this`subscriptions
      ensures spaceConnections == PutAll(old(spaceConnections), spaceIds, ws)
      ensures subscriptions == old(subscriptions) + SpaceChannels(spaceIds)
    {
      for i := 0 to |spaceIds|
        invariant spaceConnections == PutAll(old(spaceConnections), spaceIds[..i], ws)
        invariant subscriptions == old(subscriptions) + SpaceChannels(spaceIds[..i])
      {
        var spaceId := spaceIds[i];
        assert spaceIds[..i + 1][..i] == spaceIds[..i];
        assert SpaceChannels(spaceIds[..i + 1]) == SpaceChannels(spaceIds[..i]) + {SpaceChannel(spaceId)};
        var spaceSockets := if spaceId in spaceConnections then spaceConnections[spaceId] else {};
        spaceConnections := spaceConnections[spaceId := spaceSockets + {ws}];
        SubscribeToSpace(spaceId);
      }
      assert spaceIds[..|spaceIds|] == spaceIds;
    }

    /** Opens a socket: the user data is what the upgrade attached to it. */
    method RegisterConnection(identityId: Id, ws: Socket, spaceIds: seq<Id>, redis: Redis)
      requires Valid() && ws !in userData
      modifies this
      ensures Valid() && Now() == Opened(old(Now()), ws, identityId, spaceIds, redis)
    {
      OpenAgrees(connections, spaceConnections, Now(), ws, identityId, spaceIds, redis);
      Enter(identityId, ws, spaceIds, redis);
    }

    method Enter(identityId: Id, ws: Socket, spaceIds: seq<Id>, redis: Redis)
      modifies this
      ensures Now() == Opened(old(Now()), ws, identityId, spaceIds, redis)
      ensures connections == Put(old(connections), identityId, ws)
      ensures spaceConnections == PutAll(old(spaceConnections), spaceIds, ws)
    {
      userData := userData[ws := User(identityId, spaceIds)];
      sent := sent[ws := []];
      open := open + {ws};
      var sockets := if identityId in connections then connections[identityId] else {};
      connections := connections[identityId := sockets + {ws}];
      SubscribeToIdentity(identityId, redis);
      ListenToSpaces(ws, spaceIds);
    }

    /** Takes a closing socket out of its spaces, and lets go of each space it was the last of. */
    method LeaveSpaces(ws: Socket, spaceIds: seq<Id>, redis: Redis)
      requires forall k <- spaceConnections :: spaceConnections[k] != {}
      modifies this`spaceConnections, this`subscriptions
      ensures spaceConnections == DropAll(old(spaceConnections), spaceIds, ws)
      ensures subscriptions ==
              set c | c in old(subscriptions) && !(Emptied(old(spaceConnections), ws, spaceIds, c) && redis.Forgets(c))
    {
      ghost var before := spaceConnections;
      for i := 0 to |spaceIds|
        invariant spaceConnections == DropAll(before, spaceIds[..i], ws)
        invariant subscriptions ==
                  set c | c in old(subscriptions) && !(Emptied(before, ws, spaceIds[..i], c) && redis.Forgets(c))
      {
        var spaceId := spaceIds[i];
        DropAllAt(before, spaceIds[..i], ws, spaceId);
        assert spaceIds[..i + 1][..i] == spaceIds[..i];
        assert spaceIds[..i + 1] == spaceIds[..i] + [spaceId];
        if spaceId !in spaceConnections { continue; }
        var spaceSockets := spaceConnections[spaceId] - {ws};
        if spaceSockets == {} {
          spaceConnections := spaceConnections - {spaceId};
          UnsubscribeFromSpace(spaceId, redis);
        } else {
          spaceConnections := spaceConnections[spaceId := spaceSockets];
        }
      }
      assert spaceIds[..|spaceIds|] == spaceIds;
    }

    /** Closes a socket; one that is not registered, as on a repeated close, is skipped. */
    method UnregisterConnection(identityId: Id, ws: Socket, spaceIds: seq<Id>, redis: Redis)
      requires Valid() && ws in userData && userData[ws] == User(identityId, spaceIds)
      modifies this
      ensures Valid() && Now() == Closed(old(Now()), ws, redis)
      ensures forall k <- connections :: ws !in connections[k]
      ensures forall k <- spaceConnections :: ws !in spaceConnections[k]
      ensures ws !in old(open) ==> connections == old(connections) && spaceConnections == old(spaceConnections)
    {
      SkippedClose(connections, spaceConnections, Now(), ws);
      if identityId !in connections || ws !in connections[identityId] {
        ClosedIsNowhere(connections, spaceConnections, Now(), ws);
        return;
      }
      CloseAgrees(connections, spaceConnections, Now(), ws, redis);
      CloseTracks(connections, spaceConnections, Now(), ws, redis);
      ClosedIsNowhere(Drop(connections, identityId, ws), DropAll(spaceConnections, spaceIds, ws), Closed(Now(), ws, redis), ws);
      open := open - {ws};
      var sockets := connections[identityId] - {ws};
      LeaveSpaces(ws, spaceIds, redis);
      if sockets == {} {
        connections := connections - {identityId};
        UnsubscribeFromIdentity(identityId, redis);
      } else {
        connections := connections[identityId := sockets];
      }
    }

    /** Adds the sockets of an identity that joined a space to that space. */
    method GrantSpaceMembership(spaceId: Id, identityId: Id)
      requires Valid()
      modifies this`spaceConnections, this`userData, this`subscriptions
      ensures Valid() && Now() == Granted(old(Now()), spaceId, identityId)
    {
      GrantReads(connections, spaceConnections, Now(), spaceId, identityId);
      if identityId !in connections || connections[identityId] == {} { return; }
      AddToSpace(spaceId, connections[identityId]);
    }

    method AddToSpace(spaceId: Id, identitySockets: set<Socket>)
      requires identitySockets <= userData.Keys
      modifies this`spaceConnections, this`userData, this`subscriptions
      ensures spaceConnections == old(spaceConnections)[spaceId := At(old(spaceConnections), spaceId) + identitySockets]
      ensures userData == AllJoined(old(userData), identitySockets, spaceId)
      ensures subscriptions == old(subscriptions) + {SpaceChannel(spaceId)}
    {
      var spaceSockets := if spaceId in spaceConnections then spaceConnections[spaceId] else {};
      spaceSockets := JoinAll(identitySockets, spaceSockets, spaceId);
      spaceConnections := spaceConnections[spaceId := spaceSockets];
      SubscribeToSpace(spaceId);
    }

    /** Each socket joins the space's set and records the space in its own list, once. */
    method JoinAll(identitySockets: set<Socket>, spaceSockets: set<Socket>, spaceId: Id) returns (joined: set<Socket>)
      requires identitySockets <= userData.Keys
      modifies this`userData
      ensures joined == spaceSockets + identitySockets
      ensures userData == AllJoined(old(userData), identitySockets, spaceId)
    {
      joined := spaceSockets;
      var rest, done := identitySockets, {};
      while rest != {}
        invariant done !! rest && done + rest == identitySockets
        invariant joined == spaceSockets + done
        invariant userData == AllJoined(old(userData), done, spaceId)
      {
        var ws :| ws in rest;
        JoinOne(old(userData), done, spaceId, ws);
        rest, done := rest - {ws}, done + {ws};
        joined := joined + {ws};
        if spaceId !in userData[ws].spaceIds {
          userData := userData[ws := userData[ws].(spaceIds := userData[ws].spaceIds + [spaceId])];
        } else {
          assert userData[ws := userData[ws]] == userData;
        }
      }
      assert done == identitySockets;
    }

    /** Drops the sockets of an identity that left a space, and the space once nobody here is left in it. */
    method RevokeSpaceMembership(spaceId: Id, identityId: Id, redis: Redis)
      requires Valid()
      modifies this`spaceConnections, this`userData, this`subscriptions
      ensures Valid() && Now() == Revoked(old(Now()), spaceId, identityId, redis)
    {
      if spaceId !in spaceConnections || spaceConnections[spaceId] == {} || identityId !in connections {
        SkippedRevoke(connections, spaceConnections, Now(), spaceId, identityId, redis);
        return;
      }
      RevokeReads(connections, spaceConnections, Now(), spaceId, identityId, redis);
      RemoveFromSpace(spaceId, connections[identityId], redis);
    }

    /** Takes sockets out of a space's set, and the space out of the map once its set is empty. */
    method RemoveFromSpace(spaceId: Id, identitySockets: set<Socket>, redis: Redis)
      requires spaceId in spaceConnections && identitySockets <= userData.Keys
      modifies this`spaceConnections, this`userData, this`subscriptions
      ensures spaceConnections == Pruned(old(spaceConnections), spaceId, identitySockets)
      ensures Now() == RevokedBy(old(Now()), identitySockets, old(spaceConnections)[spaceId], spaceId, redis)
    {
      var spaceSockets := PartAll(identitySockets, spaceConnections[spaceId], spaceId);
      if spaceSockets == {} {
        spaceConnections := spaceConnections - {spaceId};
        UnsubscribeFromSpace(spaceId, redis);
      } else {
        spaceConnections := spaceConnections[spaceId := spaceSockets];
      }
    }

    /** Each socket found in the space's set leaves it and forgets the space. */
    method PartAll(identitySockets: set<Socket>, spaceSockets: set<Socket>, spaceId: Id) returns (left: set<Socket>)
      requires identitySockets <= userData.Keys
      modifies this`userData
      ensures left == spaceSockets - identitySockets
      ensures userData == AllParted(old(userData), identitySockets * spaceSockets, spaceId)
    {
      left := spaceSockets;
      var rest, done := identitySockets, {};
      assert AllParted(userData, {}, spaceId) == userData;
      while rest != {}
        invariant done !! rest && done + rest == identitySockets
        invariant left == spaceSockets - done
        invariant userData == AllParted(old(userData), done * spaceSockets, spaceId)
      {
        var ws :| ws in rest;
        PartOne(old(userData), done * spaceSockets, spaceId, ws);
        rest, done := rest - {ws}, done + {ws};
        if ws !in left {
          assert done * spaceSockets == (done - {ws}) * spaceSockets;
          continue;
        }
        assert done * spaceSockets == (done - {ws}) * spaceSockets + {ws};
        left := left - {ws};
        userData := userData[ws := userData[ws].(spaceIds := Without(userData[ws].spaceIds, spaceId))];
      }
      assert done == identitySockets;
    }

    /** Hands a message to each of the sockets that the lists, when given, let through. */
    method DeliverToSockets(sockets: set<Socket>, p: Publication, audience: Option<seq<Id>>, exclude: Option<seq<Id>>)
      requires sockets <= userData.Keys && userData.Keys == sent.Keys
      modifies this`sent
      ensures sent == Handed(old(sent), Admitted(userData, sockets, p.(audience := audience, exclude := exclude)), p)
    {
      var excluded := if exclude.Some? && |exclude.value| > 0 then exclude else None;
      ghost var q := p.(audience := audience, exclude := exclude);
      var rest, done := sockets, {};
      assert Handed(sent, {}, p) == sent;
      while rest != {}
        invariant done !! rest && done + rest == sockets
        invariant sent == Handed(old(sent), Admitted(userData, done, q), p)
      {
        var ws :| ws in rest;
        HandOne(old(sent), Admitted(userData, done, q), p, ws);
        assert Admitted(userData, done + {ws}, q) ==
               Admitted(userData, done, q) + (if Admits(q, userData[ws].identity) then {ws} else {});
        rest, done := rest - {ws}, done + {ws};
        var identityId := userData[ws].identity;
        if audience.Some? && (identityId.text == "" || identityId !in audience.value) { continue; }
        if excluded.Some? && identityId.text != "" && identityId in excluded.value { continue; }
        sent := sent[ws := sent[ws] + [p]];
      }
      assert done == sockets;
    }

    /** The pub/sub message handler. */
    method HandleMessage(p: Publication, redis: Redis)
      requires Valid()
      modifies this`spaceConnections, this`userData, this`subscriptions, this`sent
      ensures Valid() && Now() == Received(old(Now()), p, redis)
    {
      var memberIdentityId := p.dataMember.OrElse(p.dataIdentity);
      match p.channel
      case SpaceChannel(spaceId) =>
        if p.kind == MemberJoined && memberIdentityId.Some? && memberIdentityId.value.text != "" {
          GrantSpaceMembership(spaceId, memberIdentityId.value);
        }
        DeliveryAgrees(connections, spaceConnections, Now(), p);
        DeliverToSockets(At(spaceConnections, spaceId), p, p.audience, p.exclude);
        if p.kind == MemberLeft && memberIdentityId.Some? && memberIdentityId.value.text != "" {
          RevokeSpaceMembership(spaceId, memberIdentityId.value, redis);
        }
      case IdentityChannel(identityId) =>
        DeliveryAgrees(connections, spaceConnections, Now(), p);
        DeliverToSockets(At(connections, identityId), p, None, None);
    }

    /** The number of sockets across all identities is the number of open ones. */
    method GetConnectionCount() returns (total: nat)
      requires Valid()
      ensures total == |open|
    {
      total := 0;
      var rest := connections.Keys;
      ghost var counted: set<Socket> := {};
      forall s | s in open ensures userData[s].identity in connections {
        LookupsAgree(connections, spaceConnections, Now(), userData[s].identity);
        assert s in SocketsOf(Now(), userData[s].identity);
      }
      while rest != {}
        invariant rest <= connections.Keys
        invariant forall s :: s in counted <==> s in open && userData[s].identity !in rest
        invariant total == |counted|
      {
        var id :| id in rest;
        LookupsAgree(connections, spaceConnections, Now(), id);
        total := total + |connections[id]|;
        counted := counted + connections[id];
        rest := rest - {id};
      }
      assert counted == open;
    }

    /** The periodic figures. While the tracking is exact the drift is the number of spaces with a local socket. */
    method Telemetry() returns (sockets: nat, identities: nat, tracked: nat, drift: int)
      requires Valid()
      ensures sockets == |open| && identities == |LiveIdentities(Now())| && tracked == |subscriptions|
      ensures Exact(Now()) ==> drift == |spaceConnections|
    {
      sockets := GetConnectionCount();
      identities := |connections|;
      tracked := |subscriptions|;
      drift := tracked - identities;
      KeysAgree(connections, spaceConnections, Now());
      if Exact(Now()) { DriftIsLiveSpaces(Now()); }
      assert connections.Keys == LiveIdentities(Now()) && spaceConnections.Keys == LiveSpaces(Now());
      assert |connections| == |connections.Keys| && |spaceConnections| == |spaceConnections.Keys|;
    }
  }
}
