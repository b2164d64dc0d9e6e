/** The session store (`session.repository.ts`): a database of sessions with a write-through cache.

    Operations run one at a time with a clock that never goes back; the cache may lose any entry at
    any moment, and each operation finds the cache server connected (`up`) or not.  Times are in
    milliseconds. */
module Sessions {
  import opened Optional
  import opened FiniteSets

  type Id = nat

  const SESSION_ACCOUNT_TTL_SECONDS := 7 * 24 * 60 * 60
  const SESSION_IDENTITY_TTL_SECONDS := 7 * 24 * 60 * 60
  /** The cap on one `findMany`. */
  const PAGE_LIMIT: nat := 100

  datatype Kind = Account | Identity

  datatype Session = Session(
    kind: Kind, userId: Option<Id>, identifier: Option<string>, identifierType: Option<string>,
    identityId: Option<Id>, maxVideoDurationSeconds: Option<int>, subscriptions: Option<seq<string>>,
    entitlements: Option<seq<string>>, isLifetime: bool, encryptedSubscriptionGrants: Option<string>,
    absoluteExpiresAt: Option<int>, expiresAt: int, lastActivityAt: int,
    userAgent: Option<string>, ipAddress: Option<string>, revoked: bool, createdAt: int, updatedAt: int)

  /** The lightweight form kept in the cache. */
  datatype CachedSession = CachedSession(
    kind: Kind, userId: Option<Id>, identifier: Option<string>, identifierType: Option<string>,
    identityId: Option<Id>, maxVideoDurationSeconds: Option<int>, subscriptions: Option<seq<string>>,
    entitlements: Option<seq<string>>, isLifetime: bool, encryptedSubscriptionGrants: Option<string>,
    absoluteExpiresAt: Option<int>, expiresAt: int, lastActivityAt: int)

  function ToCachedSession(doc: Session): CachedSession {
    match doc.kind
    case Account =>
      CachedSession(Account, doc.userId, doc.identifier, doc.identifierType,
                    None, None, None, None, false, None, None, doc.expiresAt, doc.lastActivityAt)
    case Identity =>
      CachedSession(Identity, None, None, None,
                    doc.identityId, doc.maxVideoDurationSeconds, doc.subscriptions, doc.entitlements, doc.isLifetime,
                    if doc.encryptedSubscriptionGrants == Some("") then None else doc.encryptedSubscriptionGrants,
                    doc.absoluteExpiresAt, doc.expiresAt, doc.lastActivityAt)
  }

  type Sessions = map<string, Session>

  /** A cached value and the moment its key lapses. */
  datatype Entry = Entry(data: CachedSession, lapsesAt: int)

  datatype Store = Store(sessions: Sessions, cache: map<string, Entry>)

  datatype NewSession =
    | NewAccount(userId: Id, identifier: string, identifierType: string, expiresAt: int,
                 userAgent: Option<string>, ipAddress: Option<string>)
    | NewIdentity(identityId: Id, expiresAt: int, maxVideoDurationSeconds: Option<int>,
                  encryptedSubscriptionGrants: Option<string>, absoluteExpiresAt: Option<int>, jitter: nat)

  function Document(input: NewSession, now: int): Session {
    match input
    case NewAccount(userId, identifier, identifierType, expiresAt, userAgent, ipAddress) =>
      Session(Account, Some(userId), Some(identifier), Some(identifierType), None, None, None, None, false, None, None,
              expiresAt, now, userAgent, ipAddress, false, now, now)
    case NewIdentity(identityId, expiresAt, maxVideo, grants, absoluteExpiresAt, jitter) =>
      Session(Identity, None, None, None, Some(identityId), maxVideo, None, None, false, grants, absoluteExpiresAt,
              expiresAt, now, None, None, false, now - jitter, now)
  }

  /** The sessions a revoke-all is about. */
  datatype Owner = ByUser(userId: Id) | ByIdentity(identityId: Id) | ByIdentityExcept(identityId: Id, keep: string)

  predicate Selects(owner: Owner, sid: string, s: Session) {
    && !s.revoked
    && match owner
       case ByUser(u) => s.userId == Some(u)
       case ByIdentity(i) => s.kind == Identity && s.identityId == Some(i)
       case ByIdentityExcept(i, keep) => s.kind == Identity && s.identityId == Some(i) && sid != keep
  }

  function Owned(sessions: Sessions, owner: Owner): set<string> {
    set sid | sid in sessions && Selects(owner, sid, sessions[sid])
  }

  /** What one capped `findMany` may return out of `all`. */
  predicate IsPage(page: set<string>, all: set<string>) {
    page <= all && |page| == if |all| <= PAGE_LIMIT then |all| else PAGE_LIMIT
  }

  // ---------------------------------------------------------------- the plain store, without a cache

  datatype Op =
    | GetSession(sid: string)
    | FindBySessionId(sid: string)
    | CreateSession(sid: string, input: NewSession)
    | UpdateLastActivity(sid: string)
    | Revoke(sid: string)
    | RevokeAll(owner: Owner, page: set<string>)
    | DeleteExpired
    | Expire(sid: string)  // the database's own expiry
    | Evict(sid: string)   // the cache loses a key

  datatype Output =
    | Cached(value: Option<CachedSession>)
    | Found(doc: Option<Session>)
    | Created(ok: bool)
    | Renewed(expiresAt: Option<int>)
    | Count(n: nat)
    | Nothing

  predicate Live(sessions: Sessions, sid: string, now: int) {
    sid in sessions && !sessions[sid].revoked && sessions[sid].expiresAt >= now
  }

  function Ttl(kind: Kind): int {
    1000 * if kind == Identity then SESSION_IDENTITY_TTL_SECONDS else SESSION_ACCOUNT_TTL_SECONDS
  }

  function RenewedSession(s: Session, now: int): Session {
    s.(lastActivityAt := now, expiresAt := now + Ttl(s.kind), updatedAt := now)
  }

  function RevokedAll(sessions: Sessions, owner: Owner, now: int): Sessions {
    map sid | sid in sessions ::
      if Selects(owner, sid, sessions[sid]) then sessions[sid].(revoked := true, updatedAt := now) else sessions[sid]
  }

  function Stale(sessions: Sessions, now: int): set<string> {
    set sid | sid in sessions && (sessions[sid].expiresAt < now || sessions[sid].revoked)
  }

  /** What the operations mean on the database alone. */
  function PlainStep(sessions: Sessions, op: Op, now: int): (Sessions, Output) {
    match op
    case GetSession(sid) =>
      (sessions, Cached(if Live(sessions, sid, now) then Some(ToCachedSession(sessions[sid])) else None))
    case FindBySessionId(sid) => (sessions, Found(if Live(sessions, sid, now) then Some(sessions[sid]) else None))
    case CreateSession(sid, input) =>
      if sid in sessions then (sessions, Created(false)) else (sessions[sid := Document(input, now)], Created(true))
    case UpdateLastActivity(sid) =>
      if Live(sessions, sid, now) then
        (sessions[sid := RenewedSession(sessions[sid], now)], Renewed(Some(now + Ttl(sessions[sid].kind))))
      else (sessions, Renewed(None))
    case Revoke(sid) =>
      (if sid in sessions then sessions[sid := sessions[sid].(revoked := true, updatedAt := now)] else sessions, Nothing)
    case RevokeAll(owner, _) => (RevokedAll(sessions, owner, now), Count(|Owned(sessions, owner)|))
    case DeleteExpired => (sessions - Stale(sessions, now), Count(|Stale(sessions, now)|))
    case Expire(sid) =>
      (if sid in sessions && sessions[sid].expiresAt < now then sessions - {sid} else sessions, Nothing)
    case Evict(_) => (sessions, Nothing)
  }

  // ---------------------------------------------------------------- the store as it is

  function ReadCache(st: Store, sid: string, now: int, up: bool): Option<CachedSession> {
    if up && sid in st.cache && now < st.cache[sid].lapsesAt then Some(st.cache[sid].data) else None
  }

  /** The key's life in whole seconds, at least one. */
  function CacheSeconds(expiresAt: int, now: int): (n: int)
    ensures n >= 1
    ensures n > 1 ==> now + 1000 * n <= expiresAt
  {
    if (expiresAt - now) / 1000 >= 1 then (expiresAt - now) / 1000 else 1
  }

  function WriteCache(st: Store, sid: string, s: Session, now: int, up: bool): Store {
    if up then st.(cache := st.cache[sid := Entry(ToCachedSession(s), now + 1000 * CacheSeconds(s.expiresAt, now))]) else st
  }

  function DropCache(st: Store, sids: set<string>, up: bool): Store {
    if up then st.(cache := st.cache - sids) else st
  }

  function Step(st: Store, op: Op, now: int, up: bool): (Store, Output) {
    var (sessions, output) := PlainStep(st.sessions, op, now);
    match op
    case GetSession(sid) =>
      var hit := ReadCache(st, sid, now, up);
      if hit.Some? then
        if hit.value.expiresAt < now then (DropCache(st, {sid}, up), Cached(None)) else (st, Cached(hit))
      else if Live(sessions, sid, now) then (WriteCache(st, sid, sessions[sid], now, up), output)
      else (st, output)
    case FindBySessionId(sid) =>
      var hit := ReadCache(st, sid, now, up);
      if hit.Some? && hit.value.expiresAt < now then (DropCache(st, {sid}, up), Found(None))
      else if Live(sessions, sid, now) then (WriteCache(st, sid, sessions[sid], now, up), output)
      else (st, output)
    case CreateSession(sid, input) =>
      if sid in st.sessions then (st, output)
      else (WriteCache(st.(sessions := sessions), sid, sessions[sid], now, up), output)
    case UpdateLastActivity(sid) =>
      if sid !in st.sessions || st.sessions[sid].revoked then (st, output)
      else if st.sessions[sid].expiresAt < now then (DropCache(st, {sid}, up), output)
      else (WriteCache(st.(sessions := sessions), sid, sessions[sid], now, up), output)
    case Revoke(sid) => (DropCache(st, {sid}, up).(sessions := sessions), output)
    case RevokeAll(_, page) => (DropCache(st, page, up).(sessions := sessions), output)
    case DeleteExpired => (st.(sessions := sessions), output)
    case Expire(_) => (st.(sessions := sessions), output)
    case Evict(sid) => (st.(cache := st.cache - {sid}), output)
  }

  // ---------------------------------------------------------------- what the operations do, field by field

  /** Which documents a revoke-all marks: the unrevoked ones with the user's id, of either kind; the
      unrevoked identity sessions of the identity; or those without the session to keep.  Every other
      document stays as it was, and the count is the number newly marked. */
  lemma RevokeAllMarks(st: Store, owner: Owner, page: set<string>, now: int, up: bool)
    ensures var before, (st', output) := st.sessions, Step(st, RevokeAll(owner, page), now, up);
            var after := st'.sessions;
            && after.Keys == before.Keys
            && output == Count(|set sid | sid in before && after[sid].revoked && !before[sid].revoked|)
            && forall sid | sid in before ::
                 var s := before[sid];
                 var marked := s.(revoked := true, updatedAt := now);
                 match owner
                 case ByUser(u) => after[sid] == if !s.revoked && s.userId == Some(u) then marked else s
                 case ByIdentity(i) =>
                   after[sid] == if !s.revoked && s.kind.Identity? && s.identityId == Some(i) then marked else s
                 case ByIdentityExcept(i, keep) =>
                   if sid == keep then after[sid] == s
                   else after[sid] == if !s.revoked && s.kind.Identity? && s.identityId == Some(i) then marked else s
  {
    var before, after := st.sessions, Step(st, RevokeAll(owner, page), now, up).0.sessions;
    assert Owned(before, owner) == set sid | sid in before && after[sid].revoked && !before[sid].revoked;
  }

  /** Losing a cache entry loses that entry only. */
  lemma EvictionLosesOne(st: Store, sid: string, now: int, up: bool)
    ensures Step(st, Evict(sid), now, up).0 == Store(st.sessions, map k | k in st.cache && k != sid :: st.cache[k])
  {
  }

  /** What the cached form holds: the times and the kind always, the rest by kind. */
  lemma CachedFormCopies(doc: Session)
    ensures var c := ToCachedSession(doc);
            && c.kind == doc.kind && c.expiresAt == doc.expiresAt && c.lastActivityAt == doc.lastActivityAt
            && (doc.kind.Account? ==>
                  && c.userId == doc.userId && c.identifier == doc.identifier && c.identifierType == doc.identifierType
                  && c.identityId == None && c.maxVideoDurationSeconds == None && c.subscriptions == None
                  && c.entitlements == None && !c.isLifetime && c.encryptedSubscriptionGrants == None && c.absoluteExpiresAt == None)
            && (doc.kind.Identity? ==>
                  && c.userId == None && c.identifier == None && c.identifierType == None
                  && c.identityId == doc.identityId && c.maxVideoDurationSeconds == doc.maxVideoDurationSeconds
                  && c.subscriptions == doc.subscriptions && c.entitlements == doc.entitlements && c.isLifetime == doc.isLifetime
                  && c.absoluteExpiresAt == doc.absoluteExpiresAt
                  && (doc.encryptedSubscriptionGrants != Some("") ==> c.encryptedSubscriptionGrants == doc.encryptedSubscriptionGrants)
                  && (doc.encryptedSubscriptionGrants == Some("") ==> c.encryptedSubscriptionGrants == None))
  {
  }

  // ---------------------------------------------------------------- the cache mirrors the database

  /** Every unexpired cache entry is the cached form of an unrevoked document, and an expired one
      stands for a session that is no longer live. */
  ghost predicate Mirrors(st: Store, now: int) {
    forall sid | sid in st.cache ::
      if st.cache[sid].data.expiresAt >= now
      then Live(st.sessions, sid, now) && st.cache[sid].data == ToCachedSession(st.sessions[sid])
      else !Live(st.sessions, sid, now)
  }

  /** The conditions under which an operation leaves the mirror intact: writers find the cache up, and
      a revoke-all concerns at most one page of sessions. */
  predicate Safe(sessions: Sessions, op: Op, up: bool) {
    match op
    case CreateSession(_, _) => up
    case UpdateLastActivity(_) => up
    case Revoke(_) => up
    case RevokeAll(owner, page) => up && IsPage(page, Owned(sessions, owner)) && |Owned(sessions, owner)| <= PAGE_LIMIT
    case _ => true
  }

  lemma MirrorsLater(st: Store, now: int, later: int)
    requires Mirrors(st, now) && now <= later
    ensures Mirrors(st, later)
  {
  }

  /** One step of the cached store is that step of the plain one, and keeps the mirror. */
  lemma StepRefines(st: Store, op: Op, now: int, up: bool)
    requires Mirrors(st, now) && Safe(st.sessions, op, up)
    ensures var (st', output) := Step(st, op, now, up);
            Mirrors(st', now) && (st'.sessions, output) == PlainStep(st.sessions, op, now)
  {
    if op.RevokeAll? { RevokeAllRefines(st, op.owner, op.page, now, up); }
  }

  lemma RevokeAllRefines(st: Store, owner: Owner, page: set<string>, now: int, up: bool)
    requires Mirrors(st, now) && Safe(st.sessions, RevokeAll(owner, page), up)
    ensures var (st', output) := Step(st, RevokeAll(owner, page), now, up);
            Mirrors(st', now) && (st'.sessions, output) == PlainStep(st.sessions, RevokeAll(owner, page), now)
  {
    WholePart(page, Owned(st.sessions, owner));
  }

  datatype Event = Event(op: Op, now: int, up: bool)

  function Run(st: Store, events: seq<Event>): (Store, seq<Output>)
    decreases |events|
  {
    if events == [] then (st, [])
    else
      var (next, output) := Step(st, events[0].op, events[0].now, events[0].up);
      var (last, outputs) := Run(next, events[1..]);
      (last, [output] + outputs)
  }

  function PlainRun(sessions: Sessions, events: seq<Event>): (Sessions, seq<Output>)
    decreases |events|
  {
    if events == [] then (sessions, [])
    else
      var (next, output) := PlainStep(sessions, events[0].op, events[0].now);
      var (last, outputs) := PlainRun(next, events[1..]);
      (last, [output] + outputs)
  }

  ghost predicate SafeRun(sessions: Sessions, events: seq<Event>, from: int)
    decreases |events|
  {
    events == [] ||
    (from <= events[0].now && Safe(sessions, events[0].op, events[0].up) &&
     SafeRun(PlainStep(sessions, events[0].op, events[0].now).0, events[1..], events[0].now))
  }

  /** The cached store refines the plain one: every serial run, with any evictions, answers each
      operation exactly as the database alone would. */
  lemma {:induction false} CacheRefinement(st: Store, events: seq<Event>, from: int)
    requires Mirrors(st, from) && SafeRun(st.sessions, events, from)
    ensures Run(st, events).1 == PlainRun(st.sessions, events).1
    ensures Run(st, events).0.sessions == PlainRun(st.sessions, events).0
    decreases |events|
  {
    if events != [] {
      MirrorsLater(st, from, events[0].now);
      StepRefines(st, events[0].op, events[0].now, events[0].up);
      CacheRefinement(Step(st, events[0].op, events[0].now, events[0].up).0, events[1..], events[0].now);
    }
  }

  // ---------------------------------------------------------------- exactly when the conditions are needed

  /** What a reader gets at `t`, with the cache connected, is what the database alone would answer. */
  predicate Truthful(st: Store, sid: string, t: int) {
    Step(st, GetSession(sid), t, true).1 == PlainStep(st.sessions, GetSession(sid), t).1
  }

  /** The entry of a session answers at `t`: its key has not lapsed. */
  predicate Answers(st: Store, sid: string, t: int) { sid in st.cache && t < st.cache[sid].lapsesAt }

  lemma MirrorIsTruthful(st: Store, sid: string, now: int, t: int)
    requires Mirrors(st, now) && now <= t
    ensures Truthful(st, sid, t)
  {
    MirrorsLater(st, now, t);
    StepRefines(st, GetSession(sid), t, true);
  }

  /** Revoke-all keeps every reader truthful, for every cache and every page the database may return,
      exactly when the owner has at most one page of unrevoked sessions, or none of them is live. */
  lemma RevokeAllSafeIff(sessions: Sessions, owner: Owner, now: int)
    ensures (forall page, cache, sid | IsPage(page, Owned(sessions, owner)) && Mirrors(Store(sessions, cache), now) ::
               Truthful(Step(Store(sessions, cache), RevokeAll(owner, page), now, true).0, sid, now))
            <==> |Owned(sessions, owner)| <= PAGE_LIMIT || forall sid | sid in Owned(sessions, owner) :: sessions[sid].expiresAt < now
  {
    var owned := Owned(sessions, owner);
    if |owned| > PAGE_LIMIT && exists sid :: sid in owned && sessions[sid].expiresAt >= now {
      var sid :| sid in owned && sessions[sid].expiresAt >= now;
      var page := SubsetOfSize(owned - {sid}, PAGE_LIMIT);
      var cache := map[sid := Entry(ToCachedSession(sessions[sid]), now + 1000)];
      assert IsPage(page, owned) && Mirrors(Store(sessions, cache), now);
      LeftOutIsServed(Store(sessions, cache), owner, page, sid, now);
      assert !Truthful(Step(Store(sessions, cache), RevokeAll(owner, page), now, true).0, sid, now);
    } else {
      forall page, cache, sid | IsPage(page, owned) && Mirrors(Store(sessions, cache), now)
        ensures Truthful(Step(Store(sessions, cache), RevokeAll(owner, page), now, true).0, sid, now)
      {
        if |owned| <= PAGE_LIMIT { WholePart(page, owned); }
        MirrorIsTruthful(Step(Store(sessions, cache), RevokeAll(owner, page), now, true).0, sid, now, now);
      }
    }
  }

  /** A live cached session that the page leaves out is revoked and still served. */
  lemma LeftOutIsServed(st: Store, owner: Owner, page: set<string>, sid: string, now: int)
    requires sid in Owned(st.sessions, owner) && sid !in page && Answers(st, sid, now)
    requires st.cache[sid].data.expiresAt >= now
    ensures var after := Step(st, RevokeAll(owner, page), now, true).0;
            && sid in after.sessions && after.sessions[sid].revoked
            && Step(after, GetSession(sid), now, true).1 == Cached(Some(st.cache[sid].data))
            && PlainStep(after.sessions, GetSession(sid), now).1 == Cached(None)
  {
  }

  // ---------------------------------------------------------------- one session more than a page

  /** The id of the n-th session created. */
  function Sid(n: nat): string { if n == 0 then "" else Sid(n - 1) + "s" }

  lemma {:induction false} SidLength(n: nat)
    ensures |Sid(n)| == n
  {
    if n > 0 { SidLength(n - 1); }
  }

  ghost function Sids(n: nat): set<string> { if n == 0 then {} else Sids(n - 1) + {Sid(n - 1)} }

  lemma {:induction false} SidsCount(n: nat)
    ensures |Sids(n)| == n && forall sid | sid in Sids(n) :: |sid| < n
  {
    if n > 0 {
      SidsCount(n - 1);
      SidLength(n - 1);
    }
  }

  /** The creations of the sessions `from` up to `n` of one identity, all at time 0 with the cache connected. */
  function Creations(i: Id, expiresAt: int, from: nat, n: nat): seq<Event>
    decreases n - from
  {
    if from >= n then []
    else [Event(CreateSession(Sid(from), NewIdentity(i, expiresAt, None, None, None, 0)), 0, true)]
         + Creations(i, expiresAt, from + 1, n)
  }

  /** The first `n` sessions are stored, all the identity's, live and cached, and nothing else is stored. */
  ghost predicate Holds(st: Store, i: Id, n: nat) {
    && st.sessions.Keys == Sids(n)
    && forall sid | sid in Sids(n) ::
         && Selects(ByIdentity(i), sid, st.sessions[sid])
         && Answers(st, sid, 0) && st.cache[sid].data.expiresAt >= 0
  }

  lemma SidFresh(n: nat)
    ensures Sid(n) !in Sids(n)
  {
    SidsCount(n);
    SidLength(n);
  }

  /** What one creation stores and caches. */
  lemma CreationHolds(st: Store, sid: string, i: Id, expiresAt: int)
    requires sid !in st.sessions && expiresAt >= 0
    ensures var after := Step(st, CreateSession(sid, NewIdentity(i, expiresAt, None, None, None, 0)), 0, true).0;
            && after.sessions.Keys == st.sessions.Keys + {sid}
            && Selects(ByIdentity(i), sid, after.sessions[sid])
            && Answers(after, sid, 0) && after.cache[sid].data.expiresAt >= 0
            && (forall k | k in st.sessions :: after.sessions[k] == st.sessions[k])
            && (forall k | k in st.cache && k != sid :: k in after.cache && after.cache[k] == st.cache[k])
  {
  }

  lemma OneMoreHolds(st: Store, i: Id, expiresAt: int, n: nat)
    requires Holds(st, i, n) && expiresAt >= 0
    ensures Holds(Step(st, CreateSession(Sid(n), NewIdentity(i, expiresAt, None, None, None, 0)), 0, true).0, i, n + 1)
  {
    SidFresh(n);
    CreationHolds(st, Sid(n), i, expiresAt);
  }

  lemma {:induction false} CreationsHold(st: Store, i: Id, expiresAt: int, from: nat, n: nat)
    requires from <= n && Holds(st, i, from) && expiresAt >= 0
    ensures Holds(Run(st, Creations(i, expiresAt, from, n)).0, i, n)
    decreases n - from
  {
    if from < n {
      var events := Creations(i, expiresAt, from, n);
      OneMoreHolds(st, i, expiresAt, from);
      assert events[1..] == Creations(i, expiresAt, from + 1, n);
      CreationsHold(Step(st, events[0].op, 0, true).0, i, expiresAt, from + 1, n);
    }
  }

  /** The failing runs: more sessions of one identity than fit a page, 101 say, are created and cached
      and then all revoked.  Whatever page the database returned, some revoked session is still served. */
  lemma OneTooManyIsServed(i: Id, expiresAt: int, n: nat, page: set<string>)
    requires n > PAGE_LIMIT && expiresAt >= 0
    requires IsPage(page, Owned(Run(Store(map[], map[]), Creations(i, expiresAt, 0, n)).0.sessions, ByIdentity(i)))
    ensures var st := Run(Store(map[], map[]), Creations(i, expiresAt, 0, n)).0;
            var (after, output) := Step(st, RevokeAll(ByIdentity(i), page), 0, true);
            && output == Count(n)
            && exists sid ::
                 && sid in after.sessions && after.sessions[sid].revoked && sid in st.cache
                 && Step(after, GetSession(sid), 0, true).1 == Cached(Some(st.cache[sid].data))
                 && PlainStep(after.sessions, GetSession(sid), 0).1 == Cached(None)
  {
    CreationsHold(Store(map[], map[]), i, expiresAt, 0, n);
    var st := Run(Store(map[], map[]), Creations(i, expiresAt, 0, n)).0;
    var owned := Owned(st.sessions, ByIdentity(i));
    assert owned == Sids(n);
    SidsCount(n);
    if owned <= page { SubsetSize(owned, page); }
    var sid :| sid in owned && sid !in page;
    LeftOutIsServed(st, ByIdentity(i), page, sid, 0);
  }

  // ---------------------------------------------------------------- writing while the cache is down

  /** A reader at `t` of a session revoked while the cache was unreachable is misled exactly while its
      entry answers and is not past its expiry. */
  lemma RevokeWhileDownIff(st: Store, sid: string, now: int, t: int)
    requires Mirrors(st, now) && now <= t
    ensures var after := Step(st, Revoke(sid), now, false).0;
            !Truthful(after, sid, t) <==> Answers(st, sid, t) && t <= st.cache[sid].data.expiresAt
  {
  }

  /** The same for each session a revoke-all is about. */
  lemma RevokeAllWhileDownIff(st: Store, owner: Owner, page: set<string>, sid: string, now: int, t: int)
    requires Mirrors(st, now) && now <= t && sid in Owned(st.sessions, owner)
    ensures var after := Step(st, RevokeAll(owner, page), now, false).0;
            !Truthful(after, sid, t) <==> Answers(st, sid, t) && t <= st.cache[sid].data.expiresAt
  {
  }

  /** A reader of a session created while the cache was down is misled exactly while an entry left
      under its id answers and the new session is not past its expiry. */
  lemma CreateWhileDownIff(st: Store, sid: string, input: NewSession, now: int, t: int)
    requires Mirrors(st, now) && now <= t && sid !in st.sessions
    ensures var after := Step(st, CreateSession(sid, input), now, false).0;
            !Truthful(after, sid, t) <==> Answers(st, sid, t) && t <= input.expiresAt
  {
  }

  /** A reader of a session renewed while the cache was down is misled exactly while its old entry
      answers, unless the renewal changed nothing or the renewed session too is past its expiry. */
  lemma RenewWhileDownIff(st: Store, sid: string, now: int, t: int)
    requires Mirrors(st, now) && now <= t && Live(st.sessions, sid, now)
    ensures var after := Step(st, UpdateLastActivity(sid), now, false).0;
            var doc := st.sessions[sid];
            !Truthful(after, sid, t) <==>
              && Answers(st, sid, t)
              && if t <= doc.expiresAt then doc.lastActivityAt != now || doc.expiresAt != now + Ttl(doc.kind)
                 else t <= now + Ttl(doc.kind)
  {
    var after := Step(st, UpdateLastActivity(sid), now, false).0;
    if Answers(st, sid, t) && t <= st.sessions[sid].expiresAt {
      assert st.cache[sid].data == ToCachedSession(st.sessions[sid]);
      assert ToCachedSession(after.sessions[sid]).lastActivityAt == now;
    }
  }

  /** All three are reachable: a session created and cached at 0 is revoked, renewed, or removed as
      expired and created again, at 1 with the cache unreachable, and then read at 1. */
  lemma WritesWhileDownMislead(sid: string, i: Id)
    ensures var lasting := NewIdentity(i, 2000, None, None, None, 0);
            var ending := NewIdentity(i, 0, None, None, None, 0);
            var st := Step(Store(map[], map[]), CreateSession(sid, lasting), 0, true).0;
            var ended := Step(Step(Store(map[], map[]), CreateSession(sid, ending), 0, true).0, Expire(sid), 1, true).0;
            && !Truthful(Step(st, Revoke(sid), 1, false).0, sid, 1)
            && !Truthful(Step(st, UpdateLastActivity(sid), 1, false).0, sid, 1)
            && !Truthful(Step(ended, CreateSession(sid, lasting), 1, false).0, sid, 1)
  {
    var lasting := NewIdentity(i, 2000, None, None, None, 0);
    var ending := NewIdentity(i, 0, None, None, None, 0);
    var st := Step(Store(map[], map[]), CreateSession(sid, lasting), 0, true).0;
    assert CacheSeconds(2000, 0) == 2 && CacheSeconds(0, 0) == 1;
    assert Mirrors(st, 1) && Answers(st, sid, 1);
    RevokeWhileDownIff(st, sid, 1, 1);
    RenewWhileDownIff(st, sid, 1, 1);
    var ended := Step(Step(Store(map[], map[]), CreateSession(sid, ending), 0, true).0, Expire(sid), 1, true).0;
    assert Mirrors(ended, 1) && Answers(ended, sid, 1) && sid !in ended.sessions;
    CreateWhileDownIff(ended, sid, lasting, 1, 1);
  }

  // ---------------------------------------------------------------- the repository

  class SessionRepository {
    var sessions: Sessions
    var cache: map<string, Entry>

    ghost function View(): Store
      reads this
    {
      Store(sessions, cache)
    }

    constructor ()
      ensures View() == Store(map[], map[])
      ensures forall now :: Mirrors(View(), now)
    {
      sessions, cache := map[], map[];
    }

    method GetFromCache(sid: string, now: int, up: bool) returns (data: Option<CachedSession>)
      ensures data == ReadCache(View(), sid, now, up)
    {
      if !up { return None; }
      if sid !in cache || now >= cache[sid].lapsesAt { return None; }
      data := Some(cache[sid].data);
    }

    method SetCache(sid: string, s: Session, now: int, up: bool)
      modifies this`cache
      ensures View() == WriteCache(old(View()), sid, s, now, up)
      ensures !up ==> cache == old(cache)
      ensures up ==> sid in cache && cache[sid].data == ToCachedSession(s) && now + 1000 <= cache[sid].lapsesAt
      ensures up && s.expiresAt - now >= 1000 ==> s.expiresAt - 1000 < cache[sid].lapsesAt <= s.expiresAt
      ensures up && s.expiresAt - now < 1000 ==> cache[sid].lapsesAt == now + 1000
    {
      if !up { return; }
      var ttl := (s.expiresAt - now) / 1000;
      if ttl < 1 { ttl := 1; }
      cache := cache[sid := Entry(ToCachedSession(s), now + 1000 * ttl)];
    }

    method InvalidateCache(sid: string, up: bool)
      modifies this`cache
      ensures View() == DropCache(old(View()), {sid}, up)
    {
      if up { cache := cache - {sid}; }
    }

    /** At most one page of the owner's unrevoked sessions, in no particular order. */
    method FindMany(owner: Owner) returns (page: set<string>)
      ensures IsPage(page, Owned(sessions, owner))
    {
      var rest := Owned(sessions, owner);
      page := {};
      while rest != {} && |page| < PAGE_LIMIT
        invariant page !! rest && page + rest == Owned(sessions, owner)
        invariant |page| <= PAGE_LIMIT && |page| + |rest| == |Owned(sessions, owner)|
        decreases rest
      {
        var sid :| sid in rest;
        page, rest := page + {sid}, rest - {sid};
      }
    }

    method GetSession(sid: string, now: int, up: bool) returns (result: Option<CachedSession>)
      modifies this
      ensures (View(), Cached(result)) == Step(old(View()), Op.GetSession(sid), now, up)
      ensures sessions == old(sessions)
      ensures old(Mirrors(View(), now)) ==>
        result == if sid in sessions && !sessions[sid].revoked && sessions[sid].expiresAt >= now
                  then Some(ToCachedSession(sessions[sid])) else None
    {
      ghost var before := View();
      var cached := GetFromCache(sid, now, up);
      if cached.Some? {
        if cached.value.expiresAt < now {
          InvalidateCache(sid, up);
          return None;
        }
        return cached;
      }
      if sid !in sessions || sessions[sid].revoked { return None; }
      if sessions[sid].expiresAt < now { return None; }
      SetCache(sid, sessions[sid], now, up);
      result := Some(ToCachedSession(sessions[sid]));
    }

    method FindBySessionId(sid: string, now: int, up: bool) returns (result: Option<Session>)
      modifies this
      ensures (View(), Found(result)) == Step(old(View()), Op.FindBySessionId(sid), now, up)
      ensures sessions == old(sessions)
      ensures old(Mirrors(View(), now)) ==>
        result == if sid in sessions && !sessions[sid].revoked && sessions[sid].expiresAt >= now then Some(sessions[sid]) else None
    {
      var cached := GetFromCache(sid, now, up);
      if cached.Some? && cached.value.expiresAt < now {
        InvalidateCache(sid, up);
        return None;
      }
      if sid in sessions && !sessions[sid].revoked {
        if sessions[sid].expiresAt < now { return None; }
        SetCache(sid, sessions[sid], now, up);
        return Some(sessions[sid]);
      }
      result := None;
    }

    /** Fails on a session id that is taken (unique index). */
    method CreateSession(sid: string, input: NewSession, now: int, up: bool) returns (ok: bool)
      modifies this
      ensures (View(), Created(ok)) == Step(old(View()), Op.CreateSession(sid, input), now, up)
      ensures ok <==> sid !in old(sessions)
      ensures sessions.Keys == old(sessions).Keys + {sid} && forall k | k in old(sessions) :: sessions[k] == old(sessions)[k]
      ensures ok ==>
        var s := sessions[sid];
        && !s.revoked && s.lastActivityAt == now && s.updatedAt == now && s.expiresAt == input.expiresAt
        && (input.NewAccount? ==>
              && s.kind.Account? && s.userId == Some(input.userId) && s.identifier == Some(input.identifier)
              && s.identifierType == Some(input.identifierType) && s.createdAt == now
              && s.userAgent == input.userAgent && s.ipAddress == input.ipAddress && s.identityId == None)
        && (input.NewIdentity? ==>
              && s.kind.Identity? && s.identityId == Some(input.identityId) && s.userId == None
              && s.maxVideoDurationSeconds == input.maxVideoDurationSeconds && s.createdAt == now - input.jitter
              && s.encryptedSubscriptionGrants == input.encryptedSubscriptionGrants
              && s.absoluteExpiresAt == input.absoluteExpiresAt && s.userAgent == None && s.ipAddress == None)
    {
      if sid in sessions { return false; }
      var session: Session;
      match input {
        case NewAccount(userId, identifier, identifierType, expiresAt, userAgent, ipAddress) =>
          session := Session(Account, Some(userId), Some(identifier), Some(identifierType), None, None, None, None,
                             false, None, None, expiresAt, now, userAgent, ipAddress, false, now, now);
          sessions := sessions[sid := session];
        case NewIdentity(identityId, expiresAt, maxVideo, grants, absoluteExpiresAt, jitter) =>
          session := Session(Identity, None, None, None, Some(identityId), maxVideo, None, None,
                             false, grants, absoluteExpiresAt, expiresAt, now, None, None, false, now, now);
          sessions := sessions[sid := session];
          session := session.(createdAt := now - jitter);
          sessions := sessions[sid := session];
      }
      assert sessions == old(sessions)[sid := Document(input, now)];
      SetCache(sid, session, now, up);
      ok := true;
    }

    method UpdateLastActivity(sid: string, now: int, up: bool) returns (expiresAt: Option<int>)
      modifies this
      ensures (View(), Renewed(expiresAt)) == Step(old(View()), Op.UpdateLastActivity(sid), now, up)
      ensures expiresAt.Some? <==> sid in old(sessions) && !old(sessions)[sid].revoked && old(sessions)[sid].expiresAt >= now
      ensures expiresAt == None ==> sessions == old(sessions)
      ensures expiresAt.Some? ==>
        && expiresAt.value == now + 7 * 24 * 60 * 60 * 1000
        && sessions == old(sessions)[sid := old(sessions)[sid].(lastActivityAt := now, updatedAt := now, expiresAt := expiresAt.value)]
    {
      if sid !in sessions || sessions[sid].revoked { return None; }
      var session := sessions[sid];
      if session.expiresAt < now {
        InvalidateCache(sid, up);
        return None;
      }
      var ttlSeconds := if session.kind == Identity then SESSION_IDENTITY_TTL_SECONDS else SESSION_ACCOUNT_TTL_SECONDS;
      var newExpiresAt := now + ttlSeconds * 1000;
      var updated := session.(lastActivityAt := now, expiresAt := newExpiresAt, updatedAt := now);
      sessions := sessions[sid := updated];
      SetCache(sid, updated, now, up);
      expiresAt := Some(newExpiresAt);
    }

    /** Drops the cache entry first, then marks the document. */
    method Revoke(sid: string, now: int, up: bool)
      modifies this
      ensures (View(), Nothing) == Step(old(View()), Op.Revoke(sid), now, up)
      ensures sessions == if sid in old(sessions)
                          then old(sessions)[sid := old(sessions)[sid].(revoked := true, updatedAt := now)] else old(sessions)
      ensures up ==> sid !in cache
    {
      InvalidateCache(sid, up);
      if sid in sessions {
        sessions := sessions[sid := sessions[sid].(revoked := true, updatedAt := now)];
      }
    }

    method InvalidateAll(sids: set<string>, up: bool)
      modifies this`cache
      ensures View() == DropCache(old(View()), sids, up)
    {
      var rest := sids;
      while rest != {}
        invariant rest <= sids
        invariant cache == if up then old(cache) - (sids - rest) else old(cache)
        decreases rest
      {
        var sid :| sid in rest;
        InvalidateCache(sid, up);
        assert sids - (rest - {sid}) == (sids - rest) + {sid};
        rest := rest - {sid};
      }
      assert sids - rest == sids;
    }

    /** The three revoke-all operations: invalidate what one page found, then mark every match. */
    method RevokeAll(owner: Owner, now: int, up: bool) returns (count: nat, ghost page: set<string>)
      modifies this
      ensures IsPage(page, Owned(old(sessions), owner))
      ensures (View(), Count(count)) == Step(old(View()), Op.RevokeAll(owner, page), now, up)
    {
      var found := FindMany(owner);
      page := found;
      InvalidateAll(found, up);
      count := |Owned(sessions, owner)|;
      sessions := RevokedAll(sessions, owner, now);
    }

    /** The cleanup job. */
    method DeleteExpired(now: int) returns (count: nat)
      modifies this
      ensures (View(), Count(count)) == Step(old(View()), Op.DeleteExpired, now, true)
      ensures sessions == map sid | sid in old(sessions) && old(sessions)[sid].expiresAt >= now && !old(sessions)[sid].revoked ::
                            old(sessions)[sid]
      ensures count == |old(sessions)| - |sessions|
    {
      var stale := set sid | sid in sessions && (sessions[sid].expiresAt < now || sessions[sid].revoked);
      ghost var all := sessions.Keys;
      count := |stale|;
      sessions := sessions - stale;
      assert sessions.Keys == all - stale && |all - stale| == |all| - |stale|;
    }
  }
}
