/** The pool of one-time pre-keys (`pre-key.repository.ts`): uploads, claims, purges and expiry in any
    interleaving, each effect on one document an atomic step. */
module PreKeys {
  import opened Optional

  /** Identities, devices and keys are known by opaque identifiers. */
  type Id = nat
  type KeyId = nat

  /** How long a consumed key stays listed, in milliseconds. */
  const CONSUMED_OTPK_TTL: int := 30 * 24 * 60 * 60 * 1000

  datatype Device = Device(identityId: Id, deviceId: Id)

  datatype Key = Key(
    device: Device, signed: bool, material: string, signature: Option<string>,
    consumed: bool, consumedAt: Option<int>, expiresAt: Option<int>)

  /** The collection, by key id: the unique index on the id. */
  type Keys = map<KeyId, Key>

  datatype Upload = Upload(device: Device, keyId: KeyId, material: string)

  // ---------------------------------------------------------------- the atomic database calls

  function OneTime(u: Upload): Key { Key(u.device, false, u.material, None, false, None, None) }

  /** An ordered bulk insert stops at the first key id that is taken; also the number inserted. */
  function InsertMany(docs: Keys, uploads: seq<Upload>): (r: (Keys, nat))
    ensures r.1 <= |uploads|
    decreases |uploads|
  {
    if uploads == [] || uploads[0].keyId in docs then (docs, 0)
    else
      var (rest, n) := InsertMany(docs[uploads[0].keyId := OneTime(uploads[0])], uploads[1..]);
      (rest, n + 1)
  }

  predicate Available(docs: Keys, device: Device, k: KeyId) {
    k in docs && docs[k].device == device && !docs[k].signed && !docs[k].consumed
  }

  function Unconsumed(docs: Keys, device: Device): set<KeyId> {
    set k | k in docs && Available(docs, device, k)
  }

  function Consumed(key: Key, now: int): Key {
    key.(consumed := true, consumedAt := Some(now), expiresAt := Some(now + CONSUMED_OTPK_TTL))
  }

  /** The key ids `getConsumedOtpkKeyIds` lists. */
  function ConsumedIds(docs: Keys, device: Device, now: int): set<KeyId> {
    set k | k in docs && docs[k].device == device && !docs[k].signed && docs[k].consumed
            && docs[k].expiresAt.Some? && docs[k].expiresAt.value > now
  }

  function Purged(docs: Keys, device: Device): Keys {
    docs - Unconsumed(docs, device)
  }

  function DeviceKeys(docs: Keys, device: Device): set<KeyId> {
    set k | k in docs && docs[k].device == device
  }

  /** What the expiry index removes: consumed keys past their time. */
  function Lapsed(docs: Keys, now: int): set<KeyId> {
    set k | k in docs && docs[k].consumed && docs[k].expiresAt.Some? && docs[k].expiresAt.value <= now
  }

  // ---------------------------------------------------------------- runs, one document at a time

  datatype Claim = Claim(device: Device, keyId: KeyId, at: int)

  /** A claim that returned nothing, with how many of the device's keys had been stored, claimed and
      removed unclaimed by then. */
  datatype Miss = Miss(device: Device, stored: nat, claimed: nat, dropped: nat)

  /** `stored`, `claims`, `misses` and `dropped` record every one-time key ever stored, every claim that
      returned one, every claim that returned none, and every key removed unclaimed. */
  datatype World = World(docs: Keys, stored: map<KeyId, Device>, claims: seq<Claim>, misses: seq<Miss>, dropped: set<KeyId>)

  const Empty := World(map[], map[], [], [], {})

  /** The effects on single documents.  A bulk insert, update or removal is a sequence of them, between
      which anything else may happen. */
  datatype Action =
    | StoreKey(u: Upload)
    | ExpireSigned(device: Device, keyId: KeyId)
    | InsertSigned(device: Device, keyId: KeyId, material: string, signature: string, expiresAt: int)
    | ClaimKey(device: Device, keyId: KeyId)  // the database picks any available key, or finds none
    | PurgeKey(device: Device, keyId: KeyId)
    | DeleteOfDevice(device: Device, keyId: KeyId)
    | DeleteOfIdentity(identityId: Id, keyId: KeyId)
    | SweepKey(keyId: KeyId)

  datatype Event = Event(action: Action, now: int)

  function Removed(w: World, k: KeyId): World {
    w.(docs := w.docs - {k},
       dropped := w.dropped + if k in w.docs && !w.docs[k].signed && !w.docs[k].consumed then {k} else {})
  }

  function Missed(w: World, device: Device): Miss {
    Miss(device, |Of(w, w.stored.Keys, device)|, |Of(w, ClaimedIds(w.claims), device)|, |Of(w, w.dropped, device)|)
  }

  function Step(w: World, e: Event): World {
    match e.action
    case StoreKey(u) =>
      if u.keyId in w.docs then w
      else w.(docs := w.docs[u.keyId := OneTime(u)], stored := w.stored[u.keyId := u.device])
    case ExpireSigned(device, k) =>
      if k in w.docs && w.docs[k].device == device && w.docs[k].signed
      then w.(docs := w.docs[k := w.docs[k].(expiresAt := Some(e.now))]) else w
    case InsertSigned(device, k, material, signature, expiresAt) =>
      if k in w.docs then w
      else w.(docs := w.docs[k := Key(device, true, material, Some(signature), false, None, Some(expiresAt))])
    case ClaimKey(device, k) =>
      if Available(w.docs, device, k) then
        w.(docs := w.docs[k := Consumed(w.docs[k], e.now)], claims := w.claims + [Claim(device, k, e.now)])
      else if Unconsumed(w.docs, device) == {} then w.(misses := w.misses + [Missed(w, device)])
      else w
    case PurgeKey(device, k) => if Available(w.docs, device, k) then Removed(w, k) else w
    case DeleteOfDevice(device, k) => if k in w.docs && w.docs[k].device == device then Removed(w, k) else w
    case DeleteOfIdentity(i, k) => if k in w.docs && w.docs[k].device.identityId == i then Removed(w, k) else w
    case SweepKey(k) => if k in Lapsed(w.docs, e.now) then Removed(w, k) else w
  }

  /** What each event does to the stored keys, in their own fields; and a claim is recorded as having
      found nothing exactly when the device has no unclaimed one-time key. */
  lemma StepByFields(w: World, e: Event)
    ensures var w', docs := Step(w, e), w.docs;
            match e.action
            case StoreKey(u) =>
              w'.docs == if u.keyId in docs then docs else docs[u.keyId := Key(u.device, false, u.material, None, false, None, None)]
            case ExpireSigned(device, k) =>
              && w'.docs.Keys == docs.Keys
              && forall j | j in docs :: w'.docs[j] ==
                   if j == k && docs[j].device == device && docs[j].signed then docs[j].(expiresAt := Some(e.now)) else docs[j]
            case InsertSigned(device, k, material, signature, expiresAt) =>
              w'.docs == if k in docs then docs else docs[k := Key(device, true, material, Some(signature), false, None, Some(expiresAt))]
            case ClaimKey(device, k) =>
              && w'.docs.Keys == docs.Keys
              && (forall j | j in docs :: w'.docs[j] ==
                    if j == k && docs[j].device == device && !docs[j].signed && !docs[j].consumed
                    then docs[j].(consumed := true, consumedAt := Some(e.now), expiresAt := Some(e.now + 30 * 24 * 60 * 60 * 1000))
                    else docs[j])
              && (w'.misses != w.misses <==>
                    forall j | j in docs :: docs[j].device != device || docs[j].signed || docs[j].consumed)
            case PurgeKey(device, k) =>
              w'.docs == map j | j in docs && !(j == k && docs[j].device == device && !docs[j].signed && !docs[j].consumed) :: docs[j]
            case DeleteOfDevice(device, k) =>
              w'.docs == map j | j in docs && !(j == k && docs[j].device == device) :: docs[j]
            case DeleteOfIdentity(i, k) =>
              w'.docs == map j | j in docs && !(j == k && docs[j].device.identityId == i) :: docs[j]
            case SweepKey(k) =>
              w'.docs == map j | j in docs && !(j == k && docs[j].consumed && docs[j].expiresAt.Some? && docs[j].expiresAt.value <= e.now) :: docs[j]
  {
    if e.action.ClaimKey? {
      var device := e.action.device;
      assert forall k | k in w.docs :: k in Unconsumed(w.docs, device) <==> Available(w.docs, device, k);
      assert Unconsumed(w.docs, device) == {} <==> forall k | k in w.docs :: !Available(w.docs, device, k);
      assert w.misses + [Missed(w, device)] != w.misses;
    }
  }

  function Run(w: World, events: seq<Event>): World
    decreases |events|
  {
    if events == [] then w else Run(Step(w, events[0]), events[1..])
  }

  // ---------------------------------------------------------------- bulk calls nothing comes between

  function Stores(uploads: seq<Upload>, now: int): seq<Event> {
    if uploads == [] then [] else [Event(StoreKey(uploads[0]), now)] + Stores(uploads[1..], now)
  }

  /** An undisturbed bulk insert is the sequence of the inserts it gets to. */
  lemma {:induction false} InsertManyIsStores(w: World, uploads: seq<Upload>, now: int)
    ensures var (docs, n) := InsertMany(w.docs, uploads);
            Run(w, Stores(uploads[..n], now)).docs == docs
    decreases |uploads|
  {
    if uploads != [] && uploads[0].keyId !in w.docs {
      var n := InsertMany(w.docs, uploads).1;
      var first := Event(StoreKey(uploads[0]), now);
      assert uploads[..n][1..] == uploads[1..][..n - 1];
      assert Stores(uploads[..n], now)[1..] == Stores(uploads[1..][..n - 1], now);
      InsertManyIsStores(Step(w, first), uploads[1..], now);
    } else {
      assert Stores(uploads[..0], now) == [];
    }
  }

  function Purges(device: Device, ids: seq<KeyId>, now: int): seq<Event> {
    if ids == [] then [] else [Event(PurgeKey(device, ids[0]), now)] + Purges(device, ids[1..], now)
  }

  /** An undisturbed purge is the sequence of its removals, in any order. */
  lemma {:induction false} PurgeIsRemovals(w: World, device: Device, ids: seq<KeyId>, now: int)
    requires forall k :: k in ids <==> Available(w.docs, device, k)
    ensures Run(w, Purges(device, ids, now)).docs == Purged(w.docs, device)
  {
    PurgesRemove(w, device, ids, now);
  }

  lemma {:induction false} PurgesRemove(w: World, device: Device, ids: seq<KeyId>, now: int)
    ensures Run(w, Purges(device, ids, now)).docs
         == map k | k in w.docs && !(k in ids && Available(w.docs, device, k)) :: w.docs[k]
    decreases |ids|
  {
    if ids != [] {
      assert Purges(device, ids, now)[1..] == Purges(device, ids[1..], now);
      PurgesRemove(Step(w, Event(PurgeKey(device, ids[0]), now)), device, ids[1..], now);
      assert forall k :: k in ids <==> k == ids[0] || k in ids[1..];
    }
  }

  // ---------------------------------------------------------------- what every step keeps

  function Pool(docs: Keys): set<KeyId> {
    set k | k in docs && !docs[k].signed && !docs[k].consumed
  }

  function ClaimedIds(claims: seq<Claim>): set<KeyId> {
    if claims == [] then {} else ClaimedIds(claims[..|claims| - 1]) + {claims[|claims| - 1].keyId}
  }

  lemma {:induction false} ClaimsAreIn(claims: seq<Claim>)
    ensures forall i | 0 <= i < |claims| :: claims[i].keyId in ClaimedIds(claims)
    ensures forall k | k in ClaimedIds(claims) :: exists i :: 0 <= i < |claims| && claims[i].keyId == k
  {
    if claims != [] {
      var n := |claims| - 1;
      ClaimsAreIn(claims[..n]);
      forall k | k in ClaimedIds(claims) ensures exists i :: 0 <= i < |claims| && claims[i].keyId == k {
        if k != claims[n].keyId {
          var i :| 0 <= i < n && claims[..n][i].keyId == k;
          assert claims[i].keyId == k;
        }
      }
    }
  }

  /** The keys of `ids` that were stored for a device. */
  function Of(w: World, ids: set<KeyId>, device: Device): set<KeyId> {
    set k | k in ids && k in w.stored && w.stored[k] == device
  }

  /** Every stored key is in exactly one of three places: the pool, the claims, or the dropped keys. */
  ghost predicate Partition(w: World) {
    && w.stored.Keys == Pool(w.docs) + ClaimedIds(w.claims) + w.dropped
    && Pool(w.docs) !! ClaimedIds(w.claims) && Pool(w.docs) !! w.dropped && ClaimedIds(w.claims) !! w.dropped
  }

  /** No key was returned by two claims. */
  ghost predicate ClaimedOnce(w: World) {
    forall i, j | 0 <= i < j < |w.claims| :: w.claims[i].keyId != w.claims[j].keyId
  }

  /** Every one-time key belongs to the device it was stored for. */
  ghost predicate KeysOwned(w: World) {
    forall k | k in w.docs && !w.docs[k].signed :: k in w.stored && w.stored[k] == w.docs[k].device
  }

  ghost predicate ClaimsOwned(w: World) {
    forall i | 0 <= i < |w.claims| :: w.claims[i].keyId in w.stored && w.stored[w.claims[i].keyId] == w.claims[i].device
  }

  /** A claimed key that is still stored is consumed and lapses 30 days after its claim. */
  ghost predicate Spent(w: World, claim: Claim) {
    claim.keyId in w.docs && !w.docs[claim.keyId].signed ==>
      w.docs[claim.keyId].consumed && w.docs[claim.keyId].expiresAt == Some(claim.at + CONSUMED_OTPK_TTL)
  }

  ghost predicate ClaimsSpent(w: World) {
    forall i | 0 <= i < |w.claims| :: Spent(w, w.claims[i])
  }

  /** A claim returned nothing only when every key ever stored for the device was claimed or removed. */
  ghost predicate MissesJust(w: World) {
    forall i | 0 <= i < |w.misses| :: w.misses[i].stored == w.misses[i].claimed + w.misses[i].dropped
  }

  ghost predicate Inv(w: World) {
    Partition(w) && ClaimedOnce(w) && KeysOwned(w) && ClaimsOwned(w) && ClaimsSpent(w) && MissesJust(w)
  }

  function IdsOf(uploads: seq<Upload>): set<KeyId> {
    if uploads == [] then {} else {uploads[0].keyId} + IdsOf(uploads[1..])
  }

  predicate Distinct(uploads: seq<Upload>) {
    uploads == [] || (uploads[0].keyId !in IdsOf(uploads[1..]) && Distinct(uploads[1..]))
  }

  /** Clients never reuse a key id. */
  ghost predicate FreshIds(w: World, e: Event) {
    e.action.StoreKey? ==> e.action.u.keyId !in w.stored
  }

  ghost predicate FreshRun(w: World, events: seq<Event>)
    decreases |events|
  {
    events == [] || (FreshIds(w, events[0]) && FreshRun(Step(w, events[0]), events[1..]))
  }

  /** What a bulk insert adds: the uploads before the first taken id, each a fresh unconsumed key of
      its device, and nothing else. */
  lemma {:induction false} InsertManyAdds(docs: Keys, uploads: seq<Upload>)
    requires Distinct(uploads)
    ensures var (after, n) := InsertMany(docs, uploads);
            var added := uploads[..n];
            && after.Keys == docs.Keys + IdsOf(added) && docs.Keys !! IdsOf(added) && IdsOf(added) <= IdsOf(uploads)
            && (forall k | k in docs :: after[k] == docs[k])
            && (forall u | u in added :: u.keyId in after && after[u.keyId] == OneTime(u))
            && (n < |uploads| ==> uploads[n].keyId in after)
    decreases |uploads|
  {
    if uploads != [] && uploads[0].keyId !in docs {
      var u, n := uploads[0], InsertMany(docs, uploads).1;
      InsertManyAdds(docs[u.keyId := OneTime(u)], uploads[1..]);
      assert uploads[..n][1..] == uploads[1..][..n - 1];
      assert IdsOf(uploads[..n]) == {u.keyId} + IdsOf(uploads[1..][..n - 1]);
      forall v | v in uploads[..n] && v != u ensures v in uploads[1..][..n - 1] {}
    }
  }

  lemma StoreKeepsInv(w: World, e: Event)
    requires Inv(w) && FreshIds(w, e) && e.action.StoreKey?
    ensures Inv(Step(w, e))
  {
    var w', k := Step(w, e), e.action.u.keyId;
    if k !in w.docs {
      assert Pool(w'.docs) == Pool(w.docs) + {k};
      ClaimsAreIn(w.claims);
      forall i | 0 <= i < |w.claims|
        ensures w.claims[i].keyId in w'.stored && w'.stored[w.claims[i].keyId] == w.claims[i].device
        ensures Spent(w', w.claims[i])
      {
        assert w.claims[i].keyId in w.stored && Spent(w, w.claims[i]);
      }
    }
  }

  /** A claim moves one key from the pool to the claims. */
  lemma ClaimMoves(w: World, e: Event)
    requires e.action.ClaimKey? && Available(w.docs, e.action.device, e.action.keyId)
    ensures var w', k := Step(w, e), e.action.keyId;
            && k in Pool(w.docs) && Pool(w'.docs) == Pool(w.docs) - {k}
            && ClaimedIds(w'.claims) == ClaimedIds(w.claims) + {k}
            && w'.stored == w.stored && w'.dropped == w.dropped
  {
    var w', k := Step(w, e), e.action.keyId;
    assert w'.claims[..|w.claims|] == w.claims;
    assert forall j :: j in Pool(w'.docs) <==> j in Pool(w.docs) && j != k;
  }

  lemma ClaimKeepsPartition(w: World, e: Event)
    requires Partition(w) && e.action.ClaimKey? && Available(w.docs, e.action.device, e.action.keyId)
    ensures Partition(Step(w, e))
  {
    ClaimMoves(w, e);
  }

  lemma ClaimKeepsOnce(w: World, e: Event)
    requires ClaimedOnce(w) && Pool(w.docs) !! ClaimedIds(w.claims)
    requires e.action.ClaimKey? && Available(w.docs, e.action.device, e.action.keyId)
    ensures ClaimedOnce(Step(w, e))
  {
    ClaimIsNew(w, e.action.keyId);
    assert forall i | 0 <= i < |w.claims| :: Step(w, e).claims[i] == w.claims[i];
  }

  lemma ClaimKeepsOwned(w: World, e: Event)
    requires KeysOwned(w) && ClaimsOwned(w)
    requires e.action.ClaimKey? && Available(w.docs, e.action.device, e.action.keyId)
    ensures KeysOwned(Step(w, e)) && ClaimsOwned(Step(w, e))
  {
    var w' := Step(w, e);
    forall i | 0 <= i < |w'.claims| ensures w'.claims[i].keyId in w'.stored && w'.stored[w'.claims[i].keyId] == w'.claims[i].device {
      if i < |w.claims| { assert w'.claims[i] == w.claims[i]; }
    }
  }

  /** What is in the pool has never been claimed. */
  lemma ClaimIsNew(w: World, k: KeyId)
    requires Pool(w.docs) !! ClaimedIds(w.claims) && k in Pool(w.docs)
    ensures forall i | 0 <= i < |w.claims| :: w.claims[i].keyId != k
  {
    ClaimsAreIn(w.claims);
  }

  lemma ClaimKeepsSpent(w: World, e: Event)
    requires ClaimsSpent(w) && Pool(w.docs) !! ClaimedIds(w.claims)
    requires e.action.ClaimKey? && Available(w.docs, e.action.device, e.action.keyId)
    ensures ClaimsSpent(Step(w, e))
  {
    var w', k := Step(w, e), e.action.keyId;
    ClaimIsNew(w, k);
    forall i | 0 <= i < |w'.claims| ensures Spent(w', w'.claims[i]) {
      if i < |w.claims| { assert w'.claims[i] == w.claims[i] && Spent(w, w.claims[i]); }
    }
  }

  lemma MissKeepsInv(w: World, e: Event)
    requires Inv(w) && e.action.ClaimKey? && !Available(w.docs, e.action.device, e.action.keyId)
    ensures Inv(Step(w, e))
  {
    if Unconsumed(w.docs, e.action.device) == {} {
      MissIsJust(w, e.action.device);
      OnlyMissesDiffer(w, Step(w, e));
    }
  }

  lemma MissIsJust(w: World, device: Device)
    requires Partition(w) && KeysOwned(w) && MissesJust(w) && Unconsumed(w.docs, device) == {}
    ensures MissesJust(w.(misses := w.misses + [Missed(w, device)]))
  {
    Conservation(w, device);
  }

  lemma OnlyMissesDiffer(w: World, w': World)
    requires Inv(w) && w' == w.(misses := w'.misses) && MissesJust(w')
    ensures Inv(w')
  {
    forall i | 0 <= i < |w'.claims| ensures Spent(w', w'.claims[i]) { assert Spent(w, w.claims[i]); }
  }

  lemma RemovalKeepsInv(w: World, k: KeyId)
    requires Inv(w)
    ensures Inv(Removed(w, k))
  {
    var w' := Removed(w, k);
    assert Pool(w'.docs) == Pool(w.docs) - {k};
    assert w'.dropped == w.dropped + Pool(w.docs) * {k};
  }

  lemma SignedKeepsInv(w: World, e: Event)
    requires Inv(w) && (e.action.ExpireSigned? || e.action.InsertSigned?)
    ensures Inv(Step(w, e))
  {
    assert Pool(Step(w, e).docs) == Pool(w.docs);
    forall i | 0 <= i < |w.claims| ensures Spent(Step(w, e), w.claims[i]) {
      assert Spent(w, w.claims[i]);
    }
  }

  lemma StepKeepsInv(w: World, e: Event)
    requires Inv(w) && FreshIds(w, e)
    ensures Inv(Step(w, e))
  {
    match e.action
    case StoreKey(_) => StoreKeepsInv(w, e);
    case ClaimKey(d, k) =>
      if Available(w.docs, d, k) {
        ClaimKeepsPartition(w, e);
        ClaimKeepsOnce(w, e);
        ClaimKeepsOwned(w, e);
        ClaimKeepsSpent(w, e);
        assert Step(w, e).misses == w.misses;
      } else {
        MissKeepsInv(w, e);
      }
    case PurgeKey(_, k) => RemovalKeepsInv(w, k);
    case DeleteOfDevice(_, k) => RemovalKeepsInv(w, k);
    case DeleteOfIdentity(_, k) => RemovalKeepsInv(w, k);
    case SweepKey(k) => RemovalKeepsInv(w, k);
    case _ => SignedKeepsInv(w, e);
  }

  lemma {:induction false} RunKeepsInv(w: World, events: seq<Event>)
    requires Inv(w) && FreshRun(w, events)
    ensures Inv(Run(w, events))
    decreases |events|
  {
    if events != [] {
      StepKeepsInv(w, events[0]);
      RunKeepsInv(Step(w, events[0]), events[1..]);
    }
  }

  /** In every interleaving with fresh key ids, down to the single documents of every bulk call: no key
      is returned by two claims, each was stored for the device it was claimed for, device by device the
      keys ever stored are those unconsumed, those claimed and those removed unclaimed, and a claim
      returned nothing only when none was left unconsumed at that instant. */
  lemma PoolTheorem(events: seq<Event>, device: Device)
    requires FreshRun(Empty, events)
    ensures var w := Run(Empty, events);
            && (forall i, j | 0 <= i < j < |w.claims| :: w.claims[i].keyId != w.claims[j].keyId)
            && (forall i | 0 <= i < |w.claims| ::
                  w.claims[i].keyId in w.stored && w.stored[w.claims[i].keyId] == w.claims[i].device)
            && |Of(w, w.stored.Keys, device)| ==
                 |Unconsumed(w.docs, device)| + |Of(w, ClaimedIds(w.claims), device)| + |Of(w, w.dropped, device)|
            && (forall i | 0 <= i < |w.misses| :: w.misses[i].stored == w.misses[i].claimed + w.misses[i].dropped)
  {
    RunKeepsInv(Empty, events);
    Conservation(Run(Empty, events), device);
  }

  /** Conservation, device by device: keys stored = unconsumed + claimed + removed unclaimed. */
  lemma Conservation(w: World, device: Device)
    requires Partition(w) && KeysOwned(w)
    ensures |Of(w, w.stored.Keys, device)| ==
              |Unconsumed(w.docs, device)| + |Of(w, ClaimedIds(w.claims), device)| + |Of(w, w.dropped, device)|
  {
    assert Unconsumed(w.docs, device) == Of(w, Pool(w.docs), device);
    OfUnion(w, Pool(w.docs), ClaimedIds(w.claims), device);
    OfUnion(w, Pool(w.docs) + ClaimedIds(w.claims), w.dropped, device);
  }

  lemma OfUnion(w: World, a: set<KeyId>, b: set<KeyId>, device: Device)
    requires a !! b
    ensures |Of(w, a + b, device)| == |Of(w, a, device)| + |Of(w, b, device)|
  {
    assert Of(w, a + b, device) == Of(w, a, device) + Of(w, b, device);
    assert Of(w, a, device) !! Of(w, b, device);
  }

  // ---------------------------------------------------------------- exactly which reuse of an id is harmful

  /** An upload stores an id that was claimed before and has since been removed. */
  ghost predicate Reuses(w: World, e: Event) {
    e.action.StoreKey? && e.action.u.keyId !in w.docs && e.action.u.keyId in ClaimedIds(w.claims)
  }

  ghost predicate NeverReuses(w: World, events: seq<Event>)
    decreases |events|
  {
    events == [] || (!Reuses(w, events[0]) && NeverReuses(Step(w, events[0]), events[1..]))
  }

  /** Nothing claimed can be claimed again. */
  ghost predicate ClaimsClosed(w: World) { ClaimedOnce(w) && Pool(w.docs) !! ClaimedIds(w.claims) }

  lemma StepClaimsClosedIff(w: World, e: Event)
    requires ClaimsClosed(w)
    ensures ClaimsClosed(Step(w, e)) <==> !Reuses(w, e)
  {
    var w' := Step(w, e);
    ClaimsAreIn(w.claims);
    if e.action.ClaimKey? && Available(w.docs, e.action.device, e.action.keyId) {
      assert e.action.keyId in Pool(w.docs);
      assert w'.claims[..|w.claims|] == w.claims;
      assert Pool(w'.docs) == Pool(w.docs) - {e.action.keyId};
    } else if e.action.StoreKey? && e.action.u.keyId !in w.docs {
      assert Pool(w'.docs) == Pool(w.docs) + {e.action.u.keyId};
    } else {
      assert w'.claims == w.claims && Pool(w'.docs) <= Pool(w.docs);
    }
  }

  lemma {:induction false} RunClaimsClosed(w: World, events: seq<Event>)
    requires ClaimsClosed(w) && NeverReuses(w, events)
    ensures ClaimsClosed(Run(w, events))
    decreases |events|
  {
    if events != [] {
      StepClaimsClosedIff(w, events[0]);
      RunClaimsClosed(Step(w, events[0]), events[1..]);
    }
  }

  lemma OneEvent(w: World, e: Event)
    ensures Run(w, [e]) == Step(w, e) && (!Reuses(w, e) ==> NeverReuses(w, [e]))
  {
    assert [e][1..] == [];
    assert Run(Step(w, e), []) == Step(w, e);
  }

  /** An upload is harmless, whatever follows without such a reuse, exactly when its id is still stored
      or was never claimed; otherwise one more claim hands the id out a second time. */
  lemma UploadHarmlessIff(w: World, u: Upload, now: int)
    requires ClaimsClosed(w)
    ensures var e := Event(StoreKey(u), now);
            (forall events | NeverReuses(Step(w, e), events) :: ClaimedOnce(Run(Step(w, e), events))) <==>
              u.keyId in w.docs || u.keyId !in ClaimedIds(w.claims)
  {
    var e := Event(StoreKey(u), now);
    StepClaimsClosedIff(w, e);
    if Reuses(w, e) {
      var again := Event(ClaimKey(u.device, u.keyId), now);
      var w1 := Step(w, e);
      var w2 := Step(w1, again);
      OneEvent(w1, again);
      ClaimsAreIn(w.claims);
      var i :| 0 <= i < |w.claims| && w.claims[i].keyId == u.keyId;
      assert w2.claims[i].keyId == w2.claims[|w.claims|].keyId;
      assert !ClaimedOnce(Run(Step(w, e), [again]));
    } else {
      forall events | NeverReuses(Step(w, e), events) ensures ClaimedOnce(Run(Step(w, e), events)) {
        RunClaimsClosed(Step(w, e), events);
      }
    }
  }

  // ---------------------------------------------------------------- how long a claimed key stays listed

  /** The event does not remove the device's keys. */
  predicate KeepsDevice(e: Event, device: Device) {
    match e.action
    case DeleteOfDevice(d, _) => d != device
    case DeleteOfIdentity(i, _) => i != device.identityId
    case _ => true
  }

  ghost predicate Ordered(events: seq<Event>, from: int, until: int)
    decreases |events|
  {
    if events == [] then from <= until else from <= events[0].now && Ordered(events[1..], events[0].now, until)
  }

  /** A claim in the log has a consumed key behind it until the key lapses. */
  lemma {:induction false} ClaimStaysRecorded(w: World, events: seq<Event>, claim: Claim, from: int, until: int)
    requires Inv(w) && FreshRun(w, events) && Ordered(events, from, until)
    requires forall i | 0 <= i < |events| :: KeepsDevice(events[i], claim.device)
    requires claim in w.claims && (from < claim.at + CONSUMED_OTPK_TTL ==> InPool(w, claim))
    ensures claim in Run(w, events).claims
    ensures until < claim.at + CONSUMED_OTPK_TTL ==> InPool(Run(w, events), claim)
    decreases |events|
  {
    if events != [] {
      StepKeepsInv(w, events[0]);
      StepKeepsClaim(w, events[0], claim, from);
      assert forall i | 0 <= i < |events[1..]| :: events[1..][i] == events[i + 1];
      ClaimStaysRecorded(Step(w, events[0]), events[1..], claim, events[0].now, until);
    }
  }

  ghost predicate InPool(w: World, claim: Claim) {
    && claim.keyId in w.docs && !w.docs[claim.keyId].signed && w.docs[claim.keyId].device == claim.device
    && w.docs[claim.keyId].consumed && w.docs[claim.keyId].expiresAt == Some(claim.at + CONSUMED_OTPK_TTL)
  }

  lemma StepKeepsClaim(w: World, e: Event, claim: Claim, from: int)
    requires Inv(w) && FreshIds(w, e) && KeepsDevice(e, claim.device) && from <= e.now
    requires claim in w.claims && (from < claim.at + CONSUMED_OTPK_TTL ==> InPool(w, claim))
    ensures claim in Step(w, e).claims
    ensures e.now < claim.at + CONSUMED_OTPK_TTL ==> InPool(Step(w, e), claim)
  {
    if claim in w.claims {
      var i :| 0 <= i < |w.claims| && w.claims[i] == claim;
      assert w.claims[i].keyId in w.stored;
    }
  }

  /** Whatever is uploaded, claimed, purged or swept while its device remains, a claimed key is listed
      as consumed exactly until 30 days after its claim. */
  lemma ListedForThirtyDays(w: World, e: Event, events: seq<Event>, now: int)
    requires Inv(w) && e.action.ClaimKey? && Available(w.docs, e.action.device, e.action.keyId)
    requires FreshRun(Step(w, e), events) && Ordered(events, e.now, now)
    requires forall i | 0 <= i < |events| :: KeepsDevice(events[i], e.action.device)
    ensures e.action.keyId in ConsumedIds(Run(Step(w, e), events).docs, e.action.device, now)
            <==> now < e.now + CONSUMED_OTPK_TTL
  {
    var w1 := Step(w, e);
    var claim := Claim(e.action.device, e.action.keyId, e.now);
    ClaimIsRecorded(w, e);
    StepKeepsInv(w, e);
    ClaimStaysRecorded(w1, events, claim, e.now, now);
    RunKeepsInv(w1, events);
    RecordedIsListed(Run(w1, events), claim, now);
  }

  lemma ClaimIsRecorded(w: World, e: Event)
    requires e.action.ClaimKey? && Available(w.docs, e.action.device, e.action.keyId)
    ensures var claim := Claim(e.action.device, e.action.keyId, e.now);
            claim in Step(w, e).claims && InPool(Step(w, e), claim)
  {
    assert Step(w, e).claims[|w.claims|] == Claim(e.action.device, e.action.keyId, e.now);
  }

  lemma RecordedIsListed(w: World, claim: Claim, now: int)
    requires ClaimsSpent(w) && claim in w.claims && (now < claim.at + CONSUMED_OTPK_TTL ==> InPool(w, claim))
    ensures claim.keyId in ConsumedIds(w.docs, claim.device, now) <==> now < claim.at + CONSUMED_OTPK_TTL
  {
    var i :| 0 <= i < |w.claims| && w.claims[i] == claim;
    assert Spent(w, claim);
  }

  /** Such a reuse is reachable: once its first claim lapsed, nothing stops a new upload. */
  lemma ReusedIdClaimedTwice(d: Device, k: KeyId)
    ensures var up := StoreKey(Upload(d, k, "m"));
            var later := CONSUMED_OTPK_TTL + 1;
            var w := Run(Empty, [Event(up, 0), Event(ClaimKey(d, k), 0), Event(SweepKey(k), later), Event(up, later),
                                 Event(ClaimKey(d, k), later)]);
            w.claims == [Claim(d, k, 0), Claim(d, k, later)]
  {
    var u := Upload(d, k, "m");
    var up := StoreKey(u);
    var later := CONSUMED_OTPK_TTL + 1;
    var e := [Event(up, 0), Event(ClaimKey(d, k), 0), Event(SweepKey(k), later), Event(up, later), Event(ClaimKey(d, k), later)];
    var w1 := Step(Empty, e[0]);
    assert w1.docs == map[k := OneTime(u)];
    var w2 := Step(w1, e[1]);
    var w3 := Step(w2, e[2]);
    assert w3.docs == map[];
    var w4 := Step(w3, e[3]);
    assert w4.docs == map[k := OneTime(u)];
    var w5 := Step(w4, e[4]);
    assert w5.claims == [Claim(d, k, 0), Claim(d, k, later)];
    assert e[1..] == [e[1], e[2], e[3], e[4]] && e[1..][1..] == [e[2], e[3], e[4]];
    assert e[1..][1..][1..] == [e[3], e[4]] && e[1..][1..][1..][1..] == [e[4]] && e[1..][1..][1..][1..][1..] == [];
    assert Run(w3, [e[3], e[4]]) == Run(w4, [e[4]]) == Run(w5, []);
    assert Run(Empty, e) == Run(w1, e[1..]) == Run(w2, e[1..][1..]) == Run(w3, e[1..][1..][1..]);
  }

  // ---------------------------------------------------------------- the repository

  datatype ClaimedDevice = ClaimedDevice(deviceId: Id, signedKeyId: Option<KeyId>, oneTimeKeyId: Option<KeyId>)

  /** The keys a list of results hands out. */
  ghost function Taken(results: seq<ClaimedDevice>): set<KeyId> {
    if results == [] then {}
    else
      var last := results[|results| - 1].oneTimeKeyId;
      Taken(results[..|results| - 1]) + if last.Some? then {last.value} else {}
  }

  predicate SignedAndActive(docs: Keys, device: Device, k: KeyId, now: int) {
    && k in docs && docs[k].device == device && docs[k].signed && docs[k].signature.GetOr("") != ""
    && docs[k].expiresAt.Some? && docs[k].expiresAt.value > now
  }

  lemma SignedAndActiveMeans(docs: Keys, device: Device, k: KeyId, now: int)
    ensures SignedAndActive(docs, device, k, now) <==>
      && k in docs && docs[k].device == device && docs[k].signed && docs[k].expiresAt.Some? && docs[k].expiresAt.value > now
      && docs[k].signature.Some? && docs[k].signature.value != ""
  {
  }

  /** Result `i` names its device, and only keys that were that device's to give. */
  ghost predicate HandedOut(docs: Keys, results: seq<ClaimedDevice>, i: nat, device: Device, now: int)
    requires i < |results|
  {
    var r := results[i];
    && r.deviceId == device.deviceId
    && (r.signedKeyId.Some? ==> SignedAndActive(docs, device, r.signedKeyId.value, now))
    && (SureToSign(docs, device, now) ==> r.signedKeyId.Some?)
    && (r.oneTimeKeyId.Some? ==> r.oneTimeKeyId.value in Taken(results) && Available(docs, device, r.oneTimeKeyId.value))
  }

  lemma HandedOutStays(docs: Keys, results: seq<ClaimedDevice>, next: ClaimedDevice, i: nat, device: Device, now: int)
    requires i < |results| && HandedOut(docs, results, i, device, now)
    ensures HandedOut(docs, results + [next], i, device, now)
  {
    assert (results + [next])[..|results|] == results;
  }

  /** Some signed key of the device is active, and each active one carries a signature. */
  predicate SureToSign(docs: Keys, device: Device, now: int) {
    && (exists k :: k in docs && docs[k].device == device && docs[k].signed
                    && docs[k].expiresAt.Some? && docs[k].expiresAt.value > now)
    && (forall k | k in docs && docs[k].device == device && docs[k].signed
                   && docs[k].expiresAt.Some? && docs[k].expiresAt.value > now ::
          docs[k].signature.Some? && docs[k].signature.value != "")
  }

  /** Consuming one-time keys does not touch the signed ones. */
  lemma SureUntouched(docs: Keys, taken: set<KeyId>, device: Device, now: int)
    requires taken <= Pool(docs)
    ensures SureToSign(docs, device, now) ==> SureToSign(ConsumedAll(docs, taken, now), device, now)
  {
    if SureToSign(docs, device, now) {
      var k :| k in docs && docs[k].device == device && docs[k].signed
               && docs[k].expiresAt.Some? && docs[k].expiresAt.value > now;
      assert ConsumedAll(docs, taken, now)[k] == docs[k];
    }
  }

  lemma SignedUntouched(docs: Keys, taken: set<KeyId>, device: Device, k: Option<KeyId>, now: int)
    requires taken <= Pool(docs)
    requires k.Some? ==> SignedAndActive(ConsumedAll(docs, taken, now), device, k.value, now)
    ensures k.Some? ==> SignedAndActive(docs, device, k.value, now)
  {
  }

  ghost function ConsumedAll(docs: Keys, taken: set<KeyId>, now: int): Keys {
    map k | k in docs :: if k in taken then Consumed(docs[k], now) else docs[k]
  }

  /** One more result takes one more of the keys that were there, or none. */
  lemma TakenGrows(docs: Keys, done: seq<ClaimedDevice>, next: ClaimedDevice, device: Device, now: int)
    requires Taken(done) <= Pool(docs)
    requires next.oneTimeKeyId.Some? ==> Available(ConsumedAll(docs, Taken(done), now), device, next.oneTimeKeyId.value)
    ensures Taken(done + [next]) <= Pool(docs)
    ensures next.oneTimeKeyId == None ==> Taken(done + [next]) == Taken(done)
    ensures next.oneTimeKeyId.Some? ==>
      var k, so := next.oneTimeKeyId.value, ConsumedAll(docs, Taken(done), now);
      && k !in Taken(done) && Taken(done + [next]) == Taken(done) + {k} && Available(docs, device, k)
      && ConsumedAll(docs, Taken(done + [next]), now) == so[k := Consumed(so[k], now)]
  {
    assert (done + [next])[..|done|] == done;
  }

  lemma ClaimShrinksPools(before: Keys, after: Keys, claimed: Option<KeyId>, now: int)
    requires if claimed == None then after == before
             else claimed.value in before && after == before[claimed.value := Consumed(before[claimed.value], now)]
    ensures forall d :: Unconsumed(after, d) <= Unconsumed(before, d)
  {
  }

  class PreKeyRepository {
    var docs: Keys

    constructor ()
      ensures docs == map[]
    {
      docs := map[];
    }

    /** Inserts the batch in order; `ok` is false when a key id was taken and the rest was not inserted. */
    method StoreOneTimePreKeys(uploads: seq<Upload>) returns (inserted: nat, ok: bool)
      modifies this
      ensures (docs, inserted) == InsertMany(old(docs), uploads)
      ensures ok <==> inserted == |uploads|
      ensures forall i | 0 <= i < inserted ::
        uploads[i].keyId !in old(docs) && uploads[i].keyId in docs
        && docs[uploads[i].keyId] == Key(uploads[i].device, false, uploads[i].material, None, false, None, None)
      ensures forall k | k in docs :: if k in old(docs) then docs[k] == old(docs)[k]
                                      else exists i :: 0 <= i < inserted && uploads[i].keyId == k
      ensures old(docs).Keys <= docs.Keys && (!ok ==> uploads[inserted].keyId in docs)
    {
      inserted := 0;
      while inserted < |uploads| && uploads[inserted].keyId !in docs
        invariant inserted <= |uploads|
        invariant InsertMany(docs, uploads[inserted..]).0 == InsertMany(old(docs), uploads).0
        invariant InsertMany(docs, uploads[inserted..]).1 + inserted == InsertMany(old(docs), uploads).1
        invariant old(docs).Keys <= docs.Keys
        invariant forall i | 0 <= i < inserted :: uploads[i].keyId !in old(docs) && uploads[i].keyId in docs
        invariant forall i | 0 <= i < inserted ::
          docs[uploads[i].keyId] == Key(uploads[i].device, false, uploads[i].material, None, false, None, None)
        invariant forall k | k in docs :: if k in old(docs) then docs[k] == old(docs)[k]
                                          else exists i :: 0 <= i < inserted && uploads[i].keyId == k
      {
        var u := uploads[inserted];
        docs := docs[u.keyId := Key(u.device, false, u.material, None, false, None, None)];
        assert uploads[inserted..][1..] == uploads[inserted + 1..];
        inserted := inserted + 1;
      }
      ok := inserted == |uploads|;
    }

    /** Claims one unconsumed key; None only when the device has none left. */
    method ClaimOneTimePreKey(device: Device, now: int) returns (claimed: Option<KeyId>)
      modifies this
      ensures claimed == None <==> Unconsumed(old(docs), device) == {}
      ensures claimed == None ==> docs == old(docs)
      ensures claimed == None <==>
        forall k | k in old(docs) :: old(docs)[k].device != device || old(docs)[k].signed || old(docs)[k].consumed
      ensures claimed.Some? ==>
        Available(old(docs), device, claimed.value)
        && docs == old(docs)[claimed.value := Consumed(old(docs)[claimed.value], now)]
      ensures claimed.Some? ==>
        var was, key := old(docs)[claimed.value], docs[claimed.value];
        && was.device == device && !was.signed && !was.consumed
        && key == was.(consumed := true, consumedAt := Some(now), expiresAt := Some(now + 30 * 24 * 60 * 60 * 1000))
    {
      var available := Unconsumed(docs, device);
      if available == {} {
        assert forall k | k in docs && Available(docs, device, k) :: k in available;
        return None;
      }
      var k :| k in available;
      docs := docs[k := docs[k].(consumed := true, consumedAt := Some(now),
                                 expiresAt := Some(now + 30 * 24 * 60 * 60 * 1000))];
      claimed := Some(k);
    }

    method GetActiveSignedPreKey(device: Device, now: int) returns (found: Option<KeyId>)
      ensures found.Some? ==>
        found.value in docs && docs[found.value].device == device && docs[found.value].signed
        && docs[found.value].expiresAt.Some? && docs[found.value].expiresAt.value > now
      ensures found == None ==> forall k | k in docs && docs[k].device == device && docs[k].signed ::
        docs[k].expiresAt == None || docs[k].expiresAt.value <= now
    {
      var active := set k | k in docs && docs[k].device == device && docs[k].signed
                            && docs[k].expiresAt.Some? && docs[k].expiresAt.value > now;
      if active == {} {
        assert forall k | k in docs && docs[k].device == device && docs[k].signed :: k !in active;
        return None;
      }
      var k :| k in active;
      found := Some(k);
    }

    /** One claim per listed device: each key handed out was available to that device, no two are the
        same, and a device gets none only when it has none left. */
    method ClaimPreKeysForAllDevices(identityId: Id, deviceIds: seq<Id>, now: int) returns (results: seq<ClaimedDevice>)
      modifies this
      ensures |results| == |deviceIds|
      ensures forall i | 0 <= i < |results| :: results[i].deviceId == deviceIds[i]
      ensures forall i | 0 <= i < |results| && results[i].oneTimeKeyId.Some? ::
        Available(old(docs), Device(identityId, deviceIds[i]), results[i].oneTimeKeyId.value)
      ensures forall i, j | 0 <= i < j < |results| && results[i].oneTimeKeyId.Some? ::
        results[i].oneTimeKeyId != results[j].oneTimeKeyId
      ensures forall i | 0 <= i < |results| && results[i].oneTimeKeyId == None ::
        Unconsumed(docs, Device(identityId, deviceIds[i])) == {}
      ensures docs == ConsumedAll(old(docs), Taken(results), now)
      ensures forall i | 0 <= i < |results| && results[i].signedKeyId.Some? ::
        SignedAndActive(old(docs), Device(identityId, deviceIds[i]), results[i].signedKeyId.value, now)
      ensures forall i | 0 <= i < |results| && SureToSign(old(docs), Device(identityId, deviceIds[i]), now) ::
        results[i].signedKeyId.Some?
    {
      results := [];
      while |results| < |deviceIds|
        invariant |results| <= |deviceIds|
        invariant docs == ConsumedAll(old(docs), Taken(results), now)
        invariant Taken(results) <= Pool(old(docs))
        invariant forall i | 0 <= i < |results| :: HandedOut(old(docs), results, i, Device(identityId, deviceIds[i]), now)
        invariant forall i, j | 0 <= i < j < |results| && results[i].oneTimeKeyId.Some? ::
          results[i].oneTimeKeyId != results[j].oneTimeKeyId
        invariant forall i | 0 <= i < |results| && results[i].oneTimeKeyId == None ::
          Unconsumed(docs, Device(identityId, deviceIds[i])) == {}
      {
        ghost var before, done := docs, results;
        var device := Device(identityId, deviceIds[|results|]);
        var claimed := ClaimForDevice(device, now);
        results := results + [claimed];
        assert results[..|done|] == done;
        TakenGrows(old(docs), done, claimed, device, now);
        ClaimShrinksPools(before, docs, claimed.oneTimeKeyId, now);
        forall i | 0 <= i < |done| && done[i].oneTimeKeyId.Some? ensures done[i].oneTimeKeyId.value in Taken(done) {
          assert HandedOut(old(docs), done, i, Device(identityId, deviceIds[i]), now);
        }
        SignedUntouched(old(docs), Taken(done), device, claimed.signedKeyId, now);
        SureUntouched(old(docs), Taken(done), device, now);
        forall i | 0 <= i < |results| ensures HandedOut(old(docs), results, i, Device(identityId, deviceIds[i]), now) {
          if i < |done| { HandedOutStays(old(docs), done, claimed, i, Device(identityId, deviceIds[i]), now); }
        }
        forall i | 0 <= i < |results| && results[i].oneTimeKeyId == None
          ensures Unconsumed(docs, Device(identityId, deviceIds[i])) == {}
        {
          assert Unconsumed(docs, Device(identityId, deviceIds[i])) <= Unconsumed(before, Device(identityId, deviceIds[i]));
        }
        assert forall i | 0 <= i < |done| :: HandedOut(old(docs), done, i, Device(identityId, deviceIds[i]), now);
      }
      assert forall i | 0 <= i < |results| :: HandedOut(old(docs), results, i, Device(identityId, deviceIds[i]), now);
    }

    /** The active signed pre-key and one claimed one-time key of a device. */
    method ClaimForDevice(device: Device, now: int) returns (r: ClaimedDevice)
      modifies this
      ensures r.deviceId == device.deviceId
      ensures r.signedKeyId.Some? ==> SignedAndActive(old(docs), device, r.signedKeyId.value, now)
      ensures SureToSign(old(docs), device, now) ==> r.signedKeyId.Some?
      ensures r.oneTimeKeyId == None ==> docs == old(docs) && Unconsumed(docs, device) == {}
      ensures r.oneTimeKeyId.Some? ==>
        && Available(old(docs), device, r.oneTimeKeyId.value)
        && docs == old(docs)[r.oneTimeKeyId.value := Consumed(old(docs)[r.oneTimeKeyId.value], now)]
    {
      var signed := SignedFor(device, now);
      var oneTime := ClaimOneTimePreKey(device, now);
      r := ClaimedDevice(device.deviceId, signed, oneTime);
    }

    /** The active signed pre-key to hand out: only one that carries a signature. */
    method SignedFor(device: Device, now: int) returns (signed: Option<KeyId>)
      ensures signed.Some? ==> SignedAndActive(docs, device, signed.value, now)
      ensures signed.Some? ==>
        var key := docs[signed.value];
        && key.device == device && key.signed && key.signature.Some? && key.signature.value != ""
        && key.expiresAt.Some? && key.expiresAt.value > now
      ensures SureToSign(docs, device, now) ==> signed.Some?
    {
      signed := GetActiveSignedPreKey(device, now);
      if signed.Some? && docs[signed.value].signature.GetOr("") == "" { signed := None; }
    }

    method GetConsumedOtpkKeyIds(device: Device, now: int) returns (ids: set<KeyId>)
      ensures ids == ConsumedIds(docs, device, now)
      ensures forall k :: k in ids <==>
        k in docs && docs[k].device == device && !docs[k].signed && docs[k].consumed
        && docs[k].expiresAt.Some? && docs[k].expiresAt.value > now
    {
      ids := set k | k in docs && docs[k].device == device && !docs[k].signed && docs[k].consumed
                     && docs[k].expiresAt.Some? && docs[k].expiresAt.value > now;
    }

    /** Deletes the device's unconsumed one-time keys and nothing else. */
    method PurgeUnconsumedOneTimePreKeys(device: Device) returns (count: nat)
      modifies this
      ensures docs == Purged(old(docs), device) && count == |Unconsumed(old(docs), device)|
      ensures forall k | k in old(docs) ::
        if old(docs)[k].device == device && !old(docs)[k].signed && !old(docs)[k].consumed
        then k !in docs else k in docs && docs[k] == old(docs)[k]
    {
      var gone := set k | k in docs && docs[k].device == device && !docs[k].signed && !docs[k].consumed;
      assert gone == Unconsumed(docs, device);
      count := |gone|;
      docs := docs - gone;
    }

    method DeletePreKeysForDevice(device: Device) returns (count: nat)
      modifies this
      ensures docs == old(docs) - DeviceKeys(old(docs), device) && count == |DeviceKeys(old(docs), device)|
      ensures forall k | k in old(docs) ::
        if old(docs)[k].device == device then k !in docs else k in docs && docs[k] == old(docs)[k]
    {
      var gone := DeviceKeys(docs, device);
      count := |gone|;
      docs := docs - gone;
    }
  }
}
