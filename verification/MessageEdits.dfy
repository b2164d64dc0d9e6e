/** Optimistic editing of end-to-end encrypted messages (`message.repository.ts`).

    An edit is a read, a compare-and-set guarded by the history length and the last edit id, and a
    re-read.  Between any two of them other editors and deleters may run.  The collection is a map,
    each database call one atomic step, and a run any sequence of such steps. */
module MessageEdits {
  import opened Optional

  type Id = nat

  const MAX_MESSAGE_REVISIONS: nat := 3

  datatype Payload = Payload(
    ciphertext: string, nonce: string, wrappedKeys: seq<string>, signature: string, cryptoProfile: string)

  datatype Revision = Revision(payload: Payload, replacedAt: int)

  datatype Message = Message(
    conversationId: Id, sender: Id, system: bool, payload: Payload, e2eMediaIds: Option<seq<string>>,
    deleted: bool, deletedFor: set<Id>, history: seq<Revision>,
    lastClientEditId: Option<string>, lastEditedAt: Option<int>, updatedAt: int)

  type Messages = map<Id, Message>

  datatype Request = Request(
    conversationId: Id, messageId: Id, sender: Id, clientEditId: string,
    payload: Payload, e2eMediaIds: Option<seq<string>>)

  datatype ErrorCode = NOT_FOUND | NOT_SENDER | MAX_EDITS_REACHED | SYSTEM_MESSAGE | TOMBSTONE

  datatype EditResult = EditResult(doc: Option<Message>, error: Option<ErrorCode>, replay: bool)

  function Failure(code: ErrorCode): EditResult { EditResult(None, Some(code), false) }

  // ---------------------------------------------------------------- the atomic database calls

  function FindOne(docs: Messages, conversationId: Id, messageId: Id): Option<Message> {
    if messageId in docs && docs[messageId].conversationId == conversationId then Some(docs[messageId]) else None
  }

  /** The filter of the compare-and-set: nothing the edit depends on has changed since `found` was read. */
  predicate Matches(docs: Messages, req: Request, found: Message) {
    && FindOne(docs, req.conversationId, req.messageId).Some?
    && var doc := docs[req.messageId];
       && doc.sender == req.sender && !doc.deleted && !doc.system
       && |doc.history| == |found.history| && doc.lastClientEditId == found.lastClientEditId
  }

  /** What the compare-and-set writes over `doc`: the snapshot and the history come from `found`. */
  function Overwritten(doc: Message, req: Request, found: Message, now: int): Message {
    doc.(payload := req.payload,
         history := found.history + [Revision(found.payload, now)],
         lastClientEditId := Some(req.clientEditId), lastEditedAt := Some(now), updatedAt := now,
         e2eMediaIds := req.e2eMediaIds.OrElse(doc.e2eMediaIds))
  }

  /** The tombstone `markDeletedForEveryone` leaves; the crypto profile stays. */
  function Tombstone(doc: Message, now: int): Message {
    doc.(deleted := true, payload := Payload("", "", [], "", doc.payload.cryptoProfile),
         history := [], updatedAt := now, lastClientEditId := None, lastEditedAt := None)
  }

  // ---------------------------------------------------------------- one edit, as if nothing ran beside it

  /** An edit performed in one step on the current document. */
  function AtomicEdit(docs: Messages, req: Request, now: int): (Messages, EditResult) {
    match FindOne(docs, req.conversationId, req.messageId)
    case None => (docs, Failure(NOT_FOUND))
    case Some(doc) =>
      if doc.sender != req.sender then (docs, Failure(NOT_SENDER))
      else if doc.deleted then (docs, Failure(TOMBSTONE))
      else if doc.system then (docs, Failure(SYSTEM_MESSAGE))
      else if doc.lastClientEditId == Some(req.clientEditId) then (docs, EditResult(Some(doc), None, true))
      else if |doc.history| >= MAX_MESSAGE_REVISIONS then (docs, Failure(MAX_EDITS_REACHED))
      else
        var edited := doc.(payload := req.payload,
                           history := doc.history + [Revision(doc.payload, now)],
                           lastClientEditId := Some(req.clientEditId), lastEditedAt := Some(now),
                           updatedAt := now, e2eMediaIds := req.e2eMediaIds.OrElse(doc.e2eMediaIds));
        (docs[req.messageId := edited], EditResult(Some(edited), None, false))
  }

  /** What an edit answers and writes, in the fields of the message and the request: the first check that
      fails decides, a repeated edit id is answered without writing, and a performed edit replaces the
      payload, keeps the old one as the last revision, keeps the media ids when it brings none, and
      leaves every other field and message alone. */
  lemma EditByFields(docs: Messages, req: Request, now: int)
    ensures var (docs', result) := AtomicEdit(docs, req, now);
            && (result.error.Some? ==> docs' == docs && result.doc == None && !result.replay)
            && (result.error == Some(NOT_FOUND) <==>
                  req.messageId !in docs || docs[req.messageId].conversationId != req.conversationId)
            && (result.error != Some(NOT_FOUND) ==>
                  var doc := docs[req.messageId];
                  && (result.error == Some(NOT_SENDER) <==> doc.sender != req.sender)
                  && (doc.sender == req.sender ==>
                        && (result.error == Some(TOMBSTONE) <==> doc.deleted)
                        && (result.error == Some(SYSTEM_MESSAGE) <==> !doc.deleted && doc.system)
                        && (result.replay <==> !doc.deleted && !doc.system && doc.lastClientEditId == Some(req.clientEditId))
                        && (result.replay ==> docs' == docs && result.doc == Some(doc))
                        && (result.error == Some(MAX_EDITS_REACHED) <==>
                              !doc.deleted && !doc.system && !result.replay && |doc.history| >= 3)))
            && (result.error == None && !result.replay ==>
                  var before, after := docs[req.messageId], docs'[req.messageId];
                  && result.doc == Some(after)
                  && docs'.Keys == docs.Keys && (forall k | k in docs && k != req.messageId :: docs'[k] == docs[k])
                  && after.payload == req.payload && after.history == before.history + [Revision(before.payload, now)]
                  && after.lastClientEditId == Some(req.clientEditId)
                  && after.lastEditedAt == Some(now) && after.updatedAt == now
                  && after.e2eMediaIds == (if req.e2eMediaIds.Some? then req.e2eMediaIds else before.e2eMediaIds)
                  && after.conversationId == before.conversationId && after.sender == before.sender
                  && after.system == before.system && after.deleted == before.deleted && after.deletedFor == before.deletedFor)
  {
  }

  // ---------------------------------------------------------------- the interleaved protocol

  /** Where a call to `applyMessageEdit` stands between two database calls. */
  datatype Phase = Start | Ready(found: Message) | Written | Missed | Done(result: EditResult)

  datatype Call = Call(req: Request, phase: Phase, wrote: bool)

  /** `committed` records, per message, every payload ever stored: the first one and then each edit's. */
  datatype World = World(docs: Messages, calls: map<nat, Call>, committed: map<Id, seq<Payload>>)

  datatype Action =
    | Advance(call: nat)
    | Create(messageId: Id, conversationId: Id, sender: Id, system: bool, payload: Payload)
    | DeleteForEveryone(messageId: Id)
    | DeleteForIdentity(messageId: Id, identityId: Id)
    | Remove(messageId: Id)  // hard deletion or expiry

  /** The decision taken on the document first read. */
  function AfterRead(req: Request, read: Option<Message>): Phase {
    match read
    case None => Done(Failure(NOT_FOUND))
    case Some(doc) =>
      if doc.sender != req.sender then Done(Failure(NOT_SENDER))
      else if doc.deleted then Done(Failure(TOMBSTONE))
      else if doc.system then Done(Failure(SYSTEM_MESSAGE))
      else if doc.lastClientEditId == Some(req.clientEditId) then Done(EditResult(Some(doc), None, true))
      else if |doc.history| >= MAX_MESSAGE_REVISIONS then Done(Failure(MAX_EDITS_REACHED))
      else Ready(doc)
  }

  /** The answer given when the compare-and-set matched nothing. */
  function AfterMiss(req: Request, reRead: Option<Message>): EditResult {
    if reRead.Some? && reRead.value.lastClientEditId == Some(req.clientEditId) then EditResult(reRead, None, true)
    else if reRead.Some? && |reRead.value.history| >= MAX_MESSAGE_REVISIONS then Failure(MAX_EDITS_REACHED)
    else Failure(NOT_FOUND)
  }

  function AdvanceCall(w: World, c: nat, now: int): World
    requires c in w.calls
  {
    var call := w.calls[c];
    var req := call.req;
    var read := FindOne(w.docs, req.conversationId, req.messageId);
    match call.phase
    case Start => w.(calls := w.calls[c := call.(phase := AfterRead(req, read))])
    case Ready(found) =>
      if Matches(w.docs, req, found) then
        var m := req.messageId;
        World(w.docs[m := Overwritten(w.docs[m], req, found, now)],
              w.calls[c := call.(phase := Written, wrote := true)],
              w.committed[m := (if m in w.committed then w.committed[m] else []) + [req.payload]])
      else w.(calls := w.calls[c := call.(phase := Missed)])
    case Written => w.(calls := w.calls[c := call.(phase := Done(EditResult(read, None, false)))])
    case Missed => w.(calls := w.calls[c := call.(phase := Done(AfterMiss(req, read)))])
    case Done(_) => w
  }

  function Step(w: World, a: Action, now: int): World {
    match a
    case Advance(c) => if c in w.calls then AdvanceCall(w, c, now) else w
    case Create(m, conversationId, sender, system, payload) =>
      // Message ids are never issued twice.
      if m in w.committed then w
      else w.(docs := w.docs[m := Message(conversationId, sender, system, payload, None, false, {}, [], None, None, now)],
              committed := w.committed[m := [payload]])
    case DeleteForEveryone(m) =>
      if m in w.docs then w.(docs := w.docs[m := Tombstone(w.docs[m], now)]) else w
    case DeleteForIdentity(m, i) =>
      if m in w.docs && i !in w.docs[m].deletedFor
      then w.(docs := w.docs[m := w.docs[m].(deletedFor := w.docs[m].deletedFor + {i}, updatedAt := now)]) else w
    case Remove(m) => w.(docs := w.docs - {m})
  }

  datatype Event = Event(action: Action, now: int)

  function Run(w: World, events: seq<Event>): World
    decreases |events|
  {
    if events == [] then w else Run(Step(w, events[0].action, events[0].now), events[1..])
  }

  /** An edit between whose three database calls nothing comes is the atomic edit at the moment of the
      write, with its answer. */
  lemma UndisturbedIsAtomic(w: World, c: nat, read: int, write: int, reread: int)
    requires c in w.calls && w.calls[c].phase.Start?
    ensures var w' := Run(w, [Event(Advance(c), read), Event(Advance(c), write), Event(Advance(c), reread)]);
            var (docs, result) := AtomicEdit(w.docs, w.calls[c].req, write);
            c in w'.calls && w'.docs == docs && w'.calls == w.calls[c := w'.calls[c]] && w'.calls[c].phase == Done(result)
  {
    RunThree(w, Event(Advance(c), read), Event(Advance(c), write), Event(Advance(c), reread));
    UndisturbedSteps(w, c, read, write, reread);
  }

  lemma UndisturbedSteps(w: World, c: nat, read: int, write: int, reread: int)
    requires c in w.calls && w.calls[c].phase.Start?
    ensures var w' := Step(Step(Step(w, Advance(c), read), Advance(c), write), Advance(c), reread);
            var (docs, result) := AtomicEdit(w.docs, w.calls[c].req, write);
            c in w'.calls && w'.docs == docs && w'.calls == w.calls[c := w'.calls[c]] && w'.calls[c].phase == Done(result)
  {
  }

  lemma RunThree(w: World, a: Event, b: Event, c: Event)
    ensures Run(w, [a, b, c]) == Step(Step(Step(w, a.action, a.now), b.action, b.now), c.action, c.now)
  {
    var w1 := Step(w, a.action, a.now);
    var w2 := Step(w1, b.action, b.now);
    assert [a, b, c][1..] == [b, c] && [b, c][1..] == [c] && [c][1..] == [];
    assert Run(w, [a, b, c]) == Run(w1, [b, c]) == Run(w2, [c]) == Run(Step(w2, c.action, c.now), []);
  }

  /** What creation, deletion and removal do to the stored messages, in their own fields. */
  lemma OthersByFields(w: World, a: Action, now: int)
    ensures var docs, docs' := w.docs, Step(w, a, now).docs;
            match a
            case Advance(_) => true
            case Create(m, conversationId, sender, system, payload) =>
              docs' == if m in w.committed then docs
                       else docs[m := Message(conversationId, sender, system, payload, None, false, {}, [], None, None, now)]
            case DeleteForEveryone(m) =>
              docs' == map k | k in docs ::
                if k == m
                then docs[k].(deleted := true, history := [], lastClientEditId := None, lastEditedAt := None, updatedAt := now,
                              payload := docs[k].payload.(ciphertext := "", nonce := "", wrappedKeys := [], signature := ""))
                else docs[k]
            case DeleteForIdentity(m, i) =>
              docs' == map k | k in docs ::
                if k == m && i !in docs[k].deletedFor
                then docs[k].(deletedFor := docs[k].deletedFor + {i}, updatedAt := now) else docs[k]
            case Remove(m) => docs' == map k | k in docs && k != m :: docs[k]
  {
  }

  function Payloads(history: seq<Revision>): (r: seq<Payload>)
    ensures |r| == |history|
  {
    seq(|history|, i requires 0 <= i < |history| => history[i].payload)
  }

  // ---------------------------------------------------------------- what every step keeps

  /** The revision history followed by the current payload is everything ever committed, in order. */
  ghost predicate Faithful(w: World, m: Id)
    requires m in w.docs
  {
    && m in w.committed
    && |w.docs[m].history| <= MAX_MESSAGE_REVISIONS
    && (!w.docs[m].deleted ==> Payloads(w.docs[m].history) + [w.docs[m].payload] == w.committed[m])
    && (w.docs[m].deleted ==> w.docs[m].history == [] && w.docs[m].payload.ciphertext == "")
  }

  /** A call that is about to compare-and-set still holds a past state of its message. */
  ghost predicate Grounded(w: World, call: Call) {
    match call.phase
    case Start | Missed => !call.wrote
    case Written => call.wrote
    case Done(result) => call.wrote <==> result.error == None && !result.replay
    case Ready(found) =>
      var req := call.req;
      && !call.wrote
      && |found.history| < MAX_MESSAGE_REVISIONS && found.lastClientEditId != Some(req.clientEditId)
      && req.messageId in w.committed
      && Payloads(found.history) + [found.payload] <= w.committed[req.messageId]
      && (req.messageId in w.docs && !w.docs[req.messageId].deleted ==> found.history <= w.docs[req.messageId].history)
  }

  ghost predicate Inv(w: World) {
    && (forall m | m in w.docs :: Faithful(w, m))
    && (forall c | c in w.calls :: Grounded(w, w.calls[c]))
  }

  /** Any collection of calls about to start, on a collection still to be filled. */
  ghost predicate Init(w: World) {
    && w.docs == map[] && w.committed == map[]
    && forall c | c in w.calls :: w.calls[c].phase == Start && !w.calls[c].wrote
  }

  /** When the compare-and-set matches, the snapshot it writes is the payload really being replaced. */
  lemma MatchSeesCurrent(w: World, call: Call)
    requires Inv(w) && call.phase.Ready? && Grounded(w, call)
    requires Matches(w.docs, call.req, call.phase.found)
    ensures call.phase.found.history == w.docs[call.req.messageId].history
    ensures call.phase.found.payload == w.docs[call.req.messageId].payload
  {
    var doc, found := w.docs[call.req.messageId], call.phase.found;
    var committed := w.committed[call.req.messageId];
    assert Faithful(w, call.req.messageId);
    assert found.history == doc.history;
    assert (Payloads(found.history) + [found.payload])[|found.history|] == committed[|found.history|];
    assert (Payloads(doc.history) + [doc.payload])[|doc.history|] == committed[|doc.history|];
  }

  /** The step that commits an edit is that edit performed atomically at that instant. */
  lemma CommitIsAtomicEdit(w: World, c: nat, now: int)
    requires Inv(w) && c in w.calls && w.calls[c].phase.Ready?
    requires Matches(w.docs, w.calls[c].req, w.calls[c].phase.found)
    ensures var (docs, result) := AtomicEdit(w.docs, w.calls[c].req, now);
            && AdvanceCall(w, c, now).docs == docs
            && result.error == None && !result.replay
  {
    assert Grounded(w, w.calls[c]);
    MatchSeesCurrent(w, w.calls[c]);
  }

  /** A call that is answered by its first read is answered as the edit done at that instant would be,
      and one that goes on has read a message that edit would still write. */
  lemma ReadAnswersAsAtomic(w: World, c: nat, now: int)
    requires c in w.calls && w.calls[c].phase.Start?
    ensures var req, (docs, result) := w.calls[c].req, AtomicEdit(w.docs, w.calls[c].req, now);
            match AdvanceCall(w, c, now).calls[c].phase
            case Done(answer) => answer == result && docs == w.docs
            case Ready(found) =>
              req.messageId in w.docs && found == w.docs[req.messageId] && result.error == None && !result.replay
            case _ => false
  {
  }

  /** A call that lost the race is answered by what it reads then: a replay when its own edit id is the
      last one, the cap when the history is full, and otherwise that nothing was found. */
  lemma MissIsAnswered(w: World, c: nat, now: int)
    requires c in w.calls && w.calls[c].phase.Missed?
    ensures var w', req := AdvanceCall(w, c, now), w.calls[c].req;
            var there := req.messageId in w.docs && w.docs[req.messageId].conversationId == req.conversationId;
            && w'.docs == w.docs && w'.calls[c].phase.Done?
            && var result := w'.calls[c].phase.result;
               if there && w.docs[req.messageId].lastClientEditId == Some(req.clientEditId) then
                 result.doc == Some(w.docs[req.messageId]) && result.error == None && result.replay
               else
                 && result.doc == None && !result.replay
                 && result.error == Some(if there && |w.docs[req.messageId].history| >= 3 then MAX_EDITS_REACHED else NOT_FOUND)
  {
  }

  /** A commit extends the committed sequence and the history in step. */
  lemma CommitKeepsFaithful(w: World, c: nat, now: int, k: Id)
    requires Inv(w) && c in w.calls && w.calls[c].phase.Ready? && k in w.docs
    requires Matches(w.docs, w.calls[c].req, w.calls[c].phase.found)
    ensures Faithful(AdvanceCall(w, c, now), k)
  {
    var m := w.calls[c].req.messageId;
    assert Faithful(w, k) && Grounded(w, w.calls[c]);
    if k == m {
      MatchSeesCurrent(w, w.calls[c]);
      var doc := w.docs[m];
      assert Payloads(AdvanceCall(w, c, now).docs[m].history) == Payloads(doc.history) + [doc.payload];
    }
  }

  /** A commit by one call leaves every other call holding a past state. */
  lemma CommitKeepsGrounded(w: World, c: nat, now: int, d: nat)
    requires Inv(w) && c in w.calls && w.calls[c].phase.Ready? && d in w.calls
    requires Matches(w.docs, w.calls[c].req, w.calls[c].phase.found)
    ensures Grounded(AdvanceCall(w, c, now), AdvanceCall(w, c, now).calls[d])
  {
    assert Grounded(w, w.calls[d]) && Grounded(w, w.calls[c]);
    MatchSeesCurrent(w, w.calls[c]);
  }

  lemma ReadIsGrounded(w: World, c: nat, now: int)
    requires Inv(w) && c in w.calls && w.calls[c].phase.Start?
    ensures Grounded(AdvanceCall(w, c, now), AdvanceCall(w, c, now).calls[c])
  {
    var call := w.calls[c];
    assert Grounded(w, call);
    if call.req.messageId in w.docs { assert Faithful(w, call.req.messageId); }
  }

  lemma AdvanceKeepsInv(w: World, c: nat, now: int)
    requires Inv(w) && c in w.calls
    ensures Inv(AdvanceCall(w, c, now))
  {
    var call, w' := w.calls[c], AdvanceCall(w, c, now);
    if call.phase.Ready? && Matches(w.docs, call.req, call.phase.found) {
      forall k | k in w'.docs ensures Faithful(w', k) { CommitKeepsFaithful(w, c, now, k); }
      forall d | d in w'.calls ensures Grounded(w', w'.calls[d]) { CommitKeepsGrounded(w, c, now, d); }
    } else {
      assert w'.docs == w.docs && w'.committed == w.committed;
      forall k | k in w'.docs ensures Faithful(w', k) { assert Faithful(w, k); }
      forall d | d in w'.calls ensures Grounded(w', w'.calls[d]) {
        assert Grounded(w, w.calls[d]);
        if d == c && call.phase.Start? { ReadIsGrounded(w, c, now); }
      }
    }
  }

  lemma StepKeepsInv(w: World, a: Action, now: int)
    requires Inv(w)
    ensures Inv(Step(w, a, now))
  {
    if a.Advance? {
      if a.call in w.calls { AdvanceKeepsInv(w, a.call, now); }
    } else {
      var w' := Step(w, a, now);
      forall k | k in w'.docs ensures Faithful(w', k) {
        if k in w.docs { assert Faithful(w, k); }
      }
      forall d | d in w'.calls ensures Grounded(w', w'.calls[d]) {
        assert Grounded(w, w.calls[d]);
        if w.calls[d].req.messageId in w.docs { assert Faithful(w, w.calls[d].req.messageId); }
      }
    }
  }

  lemma {:induction false} RunKeepsInv(w: World, events: seq<Event>)
    requires Inv(w)
    ensures Inv(Run(w, events))
    decreases |events|
  {
    if events != [] {
      StepKeepsInv(w, events[0].action, events[0].now);
      RunKeepsInv(Step(w, events[0].action, events[0].now), events[1..]);
    }
  }

  /** In every run, whatever the interleaving: a message that is not a tombstone holds its whole edit
      history in order, ending in its current payload; a tombstone holds nothing; the history never
      exceeds the cap; a compare-and-set that is about to match snapshots the current payload; and a
      finished call wrote exactly when it reports success without a replay. */
  lemma HistoryTheorem(w: World, events: seq<Event>)
    requires Init(w)
    ensures var w' := Run(w, events);
            && (forall m | m in w'.docs ::
                  && m in w'.committed && |w'.docs[m].history| <= MAX_MESSAGE_REVISIONS
                  && (!w'.docs[m].deleted ==> w'.committed[m] == Payloads(w'.docs[m].history) + [w'.docs[m].payload])
                  && (w'.docs[m].deleted ==> w'.docs[m].history == [] && w'.docs[m].payload.ciphertext == ""))
            && (forall c | c in w'.calls && w'.calls[c].phase.Ready?
                           && Matches(w'.docs, w'.calls[c].req, w'.calls[c].phase.found) ::
                  w'.calls[c].phase.found.payload == w'.docs[w'.calls[c].req.messageId].payload)
            && (forall c | c in w'.calls && w'.calls[c].phase.Done? ::
                  var result := w'.calls[c].phase.result;
                  w'.calls[c].wrote <==> result.error == None && !result.replay)
  {
    RunKeepsInv(w, events);
    var w' := Run(w, events);
    forall m | m in w'.docs ensures Faithful(w', m) {}
    forall c | c in w'.calls ensures Grounded(w', w'.calls[c]) {}
    forall c | c in w'.calls && w'.calls[c].phase.Ready? && Matches(w'.docs, w'.calls[c].req, w'.calls[c].phase.found)
      ensures w'.calls[c].phase.found.payload == w'.docs[w'.calls[c].req.messageId].payload
    {
      MatchSeesCurrent(w', w'.calls[c]);
    }
  }

  // ---------------------------------------------------------------- tombstones

  /** Deleting for everyone is final: no later step edits or revives the message. */
  lemma {:induction false} TombstoneIsFinal(w: World, events: seq<Event>, m: Id)
    requires Inv(w) && m in w.committed && (m in w.docs ==> w.docs[m].deleted)
    ensures var w' := Run(w, events);
            && m in w'.committed && w'.committed[m] == w.committed[m]
            && (m in w'.docs ==> m in w.docs && w'.docs[m].deleted && w'.docs[m].history == []
                                 && w'.docs[m].payload.ciphertext == "")
    decreases |events|
  {
    if m in w.docs { assert Faithful(w, m); }
    if events != [] {
      StepKeepsInv(w, events[0].action, events[0].now);
      TombstoneStays(w, events[0].action, events[0].now, m);
      TombstoneIsFinal(Step(w, events[0].action, events[0].now), events[1..], m);
    }
  }

  lemma TombstoneStays(w: World, a: Action, now: int, m: Id)
    requires Inv(w) && m in w.committed && (m in w.docs ==> w.docs[m].deleted)
    ensures var w' := Step(w, a, now);
            && m in w'.committed && w'.committed[m] == w.committed[m]
            && (m in w'.docs ==> m in w.docs && w'.docs[m].deleted)
  {
    if m in w.docs { assert Faithful(w, m); }
  }

  // ---------------------------------------------------------------- one edit id, many callers

  /** The call carries the edit `key` of message `m` by its sender. */
  predicate Carries(call: Call, m: Id, doc: Message, key: string) {
    call.req.messageId == m && call.req.conversationId == doc.conversationId
    && call.req.sender == doc.sender && call.req.clientEditId == key
  }

  /** The event is no edit of `m` other than `key`'s, and no deletion of `m`. */
  predicate LeavesAlone(calls: map<nat, Call>, e: Event, m: Id, doc: Message, key: string) {
    match e.action
    case Advance(c) => c in calls && calls[c].req.messageId == m ==> Carries(calls[c], m, doc, key)
    case Create(_, _, _, _, _) => true
    case DeleteForEveryone(k) => k != m
    case DeleteForIdentity(_, _) => true
    case Remove(k) => k != m
  }

  predicate SameExceptPhases(a: map<nat, Call>, b: map<nat, Call>) {
    a.Keys == b.Keys && forall c | c in a :: a[c].req == b[c].req
  }

  /** The two phases of such a run: before the first commit, and after it. */
  ghost predicate OneEdit(w: World, doc: Message, m: Id, key: string) {
    && m in w.docs && m in w.committed
    && var cur := w.docs[m];
    && cur.conversationId == doc.conversationId && cur.sender == doc.sender && !cur.deleted && !cur.system
    && ((cur.history == doc.history && cur.lastClientEditId == doc.lastClientEditId && cur.payload == doc.payload) ||
        (cur.lastClientEditId == Some(key) && |cur.history| == |doc.history| + 1
         && cur.history[..|doc.history|] == doc.history && cur.history[|doc.history|].payload == doc.payload))
    && forall c | c in w.calls && Carries(w.calls[c], m, doc, key) :: InStep(w.calls[c], cur, doc, key)
  }

  /** What one call of such a run may know. */
  ghost predicate InStep(call: Call, cur: Message, doc: Message, key: string) {
    match call.phase
    case Start => true
    case Ready(found) => found.history == doc.history && found.payload == doc.payload
                         && found.lastClientEditId == doc.lastClientEditId
    case Written | Missed => cur.lastClientEditId == Some(key)
    case Done(result) => cur.lastClientEditId == Some(key) && result.error == None && result.doc.Some?
  }

  lemma AdvanceKeepsOneEdit(w: World, c: nat, now: int, doc: Message, m: Id, key: string)
    requires OneEdit(w, doc, m, key) && c in w.calls && Carries(w.calls[c], m, doc, key)
    requires |doc.history| < MAX_MESSAGE_REVISIONS && doc.lastClientEditId != Some(key)
    ensures OneEdit(AdvanceCall(w, c, now), doc, m, key)
  {
    var w' := AdvanceCall(w, c, now);
    assert InStep(w.calls[c], w.docs[m], doc, key);
    forall d | d in w'.calls && Carries(w'.calls[d], m, doc, key)
      ensures InStep(w'.calls[d], w'.docs[m], doc, key)
    {
      assert d in w.calls && Carries(w.calls[d], m, doc, key);
      assert InStep(w.calls[d], w.docs[m], doc, key);
    }
  }

  lemma StepKeepsOneEdit(w: World, e: Event, doc: Message, m: Id, key: string)
    requires OneEdit(w, doc, m, key) && LeavesAlone(w.calls, e, m, doc, key)
    requires |doc.history| < MAX_MESSAGE_REVISIONS && doc.lastClientEditId != Some(key)
    ensures OneEdit(Step(w, e.action, e.now), doc, m, key)
    ensures SameExceptPhases(w.calls, Step(w, e.action, e.now).calls)
  {
    StepKeepsCalls(w, e);
    if e.action.Advance? && e.action.call in w.calls && Carries(w.calls[e.action.call], m, doc, key) {
      AdvanceKeepsOneEdit(w, e.action.call, e.now, doc, m, key);
    } else {
      OtherKeepsOneEdit(w, e, doc, m, key);
    }
  }

  lemma StepKeepsCalls(w: World, e: Event)
    ensures SameExceptPhases(w.calls, Step(w, e.action, e.now).calls)
  {
  }

  lemma OtherKeepsOneEdit(w: World, e: Event, doc: Message, m: Id, key: string)
    requires OneEdit(w, doc, m, key) && LeavesAlone(w.calls, e, m, doc, key)
    requires !(e.action.Advance? && e.action.call in w.calls && Carries(w.calls[e.action.call], m, doc, key))
    ensures OneEdit(Step(w, e.action, e.now), doc, m, key)
  {
    var w' := Step(w, e.action, e.now);
    forall d | d in w'.calls && Carries(w'.calls[d], m, doc, key)
      ensures InStep(w'.calls[d], w'.docs[m], doc, key)
    {
      assert d in w.calls && w'.calls[d] == w.calls[d];
    }
  }

  lemma {:induction false} RunKeepsOneEdit(w: World, events: seq<Event>, doc: Message, m: Id, key: string)
    requires OneEdit(w, doc, m, key)
    requires forall i | 0 <= i < |events| :: LeavesAlone(w.calls, events[i], m, doc, key)
    requires |doc.history| < MAX_MESSAGE_REVISIONS && doc.lastClientEditId != Some(key)
    ensures OneEdit(Run(w, events), doc, m, key)
    ensures SameExceptPhases(w.calls, Run(w, events).calls)
    decreases |events|
  {
    if events != [] {
      var next := Step(w, events[0].action, events[0].now);
      StepKeepsOneEdit(w, events[0], doc, m, key);
      forall i | 0 <= i < |events[1..]| ensures LeavesAlone(next.calls, events[1..][i], m, doc, key) {
        assert events[1..][i] == events[i + 1];
      }
      RunKeepsOneEdit(next, events[1..], doc, m, key);
    }
  }

  /** Any number of concurrent calls carrying one edit id, on an editable message under the cap and with
      no other edit or deletion of it, append exactly one revision (a snapshot of the payload they
      found), and every one of them that finishes reports success. */
  lemma OneRevisionPerEditId(w: World, events: seq<Event>, m: Id, key: string, some: nat)
    requires m in w.docs && m in w.committed
    requires var doc := w.docs[m];
             && !doc.deleted && !doc.system && |doc.history| < MAX_MESSAGE_REVISIONS
             && doc.lastClientEditId != Some(key)
             && (forall c | c in w.calls && Carries(w.calls[c], m, doc, key) :: w.calls[c].phase == Start)
             && (forall i | 0 <= i < |events| :: LeavesAlone(w.calls, events[i], m, doc, key))
             && some in w.calls && Carries(w.calls[some], m, doc, key)
    requires some in Run(w, events).calls && Run(w, events).calls[some].phase.Done?
    ensures var doc, w' := w.docs[m], Run(w, events);
            && m in w'.docs && |w'.docs[m].history| == |doc.history| + 1
            && w'.docs[m].history[..|doc.history|] == doc.history
            && w'.docs[m].history[|doc.history|].payload == doc.payload
            && SameExceptPhases(w.calls, w'.calls)
            && forall c | c in w'.calls && Carries(w'.calls[c], m, doc, key) && w'.calls[c].phase.Done? ::
                 w'.calls[c].phase.result.error == None && w'.calls[c].phase.result.doc.Some?
  {
    RunKeepsOneEdit(w, events, w.docs[m], m, key);
  }

  // ---------------------------------------------------------------- the repository

  class MessageRepository {
    var docs: Messages

    constructor ()
      ensures docs == map[]
    {
      docs := map[];
    }

    /** Stores a new message with empty deletion marks. */
    method CreateMessage(id: Id, conversationId: Id, sender: Id, system: bool, payload: Payload, now: int)
      requires id !in docs
      modifies this
      ensures docs == old(docs)[id := Message(conversationId, sender, system, payload, None, false, {}, [], None, None, now)]
    {
      docs := docs[id := Message(conversationId, sender, system, payload, None, false, {}, [], None, None, now)];
    }

    method MarkDeletedForEveryone(messageId: Id, now: int) returns (ok: bool)
      modifies this
      ensures docs == if messageId in old(docs)
                      then old(docs)[messageId := Tombstone(old(docs)[messageId], now)] else old(docs)
      ensures messageId in docs ==>
        var before, after := old(docs)[messageId], docs[messageId];
        && after.deleted && after.history == [] && after.lastClientEditId == None && after.lastEditedAt == None
        && after.payload.ciphertext == "" && after.payload.nonce == "" && after.payload.wrappedKeys == []
        && after.payload.signature == "" && after.payload.cryptoProfile == before.payload.cryptoProfile
        && after.conversationId == before.conversationId && after.sender == before.sender && after.system == before.system
        && after.e2eMediaIds == before.e2eMediaIds && after.deletedFor == before.deletedFor && after.updatedAt == now
      ensures ok <==> docs != old(docs)
    {
      if messageId !in docs { return false; }
      var doc := docs[messageId];
      var tomb := doc.(deleted := true, history := [], updatedAt := now, lastClientEditId := None, lastEditedAt := None);
      tomb := tomb.(payload := doc.payload.(ciphertext := "", nonce := "", wrappedKeys := [], signature := ""));
      docs := docs[messageId := tomb];
      ok := tomb != doc;
    }

    /** The guarded update: writes only if the filter still matches. */
    method CompareAndSet(req: Request, found: Message, newHistory: seq<Revision>, now: int) returns (matched: bool)
      requires newHistory == found.history + [Revision(found.payload, now)]
      modifies this
      ensures matched == Matches(old(docs), req, found)
      ensures docs == if matched
                      then old(docs)[req.messageId := Overwritten(old(docs)[req.messageId], req, found, now)] else old(docs)
    {
      matched := Matches(docs, req, found);
      if matched {
        var doc := docs[req.messageId].(payload := req.payload, history := newHistory,
                     lastClientEditId := Some(req.clientEditId), lastEditedAt := Some(now), updatedAt := now);
        if req.e2eMediaIds.Some? { doc := doc.(e2eMediaIds := req.e2eMediaIds); }
        docs := docs[req.messageId := doc];
      }
    }

    /** The whole protocol with nothing running beside it is one atomic edit. */
    method ApplyMessageEdit(req: Request, now: int) returns (result: EditResult)
      modifies this
      ensures (docs, result) == AtomicEdit(old(docs), req, now)
    {
      var read := FindOne(docs, req.conversationId, req.messageId);
      if read == None { return Failure(NOT_FOUND); }
      var found := read.value;
      if found.sender != req.sender { return Failure(NOT_SENDER); }
      if found.deleted { return Failure(TOMBSTONE); }
      if found.system { return Failure(SYSTEM_MESSAGE); }
      if found.lastClientEditId == Some(req.clientEditId) { return EditResult(Some(found), None, true); }
      if |found.history| >= MAX_MESSAGE_REVISIONS { return Failure(MAX_EDITS_REACHED); }
      var newHistory := found.history + [Revision(found.payload, now)];
      var matched := CompareAndSet(req, found, newHistory, now);
      if !matched {
        var reRead := FindOne(docs, req.conversationId, req.messageId);
        return AfterMiss(req, reRead);
      }
      var after := FindOne(docs, req.conversationId, req.messageId);
      result := EditResult(after, None, false);
    }
  }
}
