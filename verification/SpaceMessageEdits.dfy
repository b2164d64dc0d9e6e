/** Optimistic editing of Space channel messages (`space-message.repository.ts`), which hold either
    plaintext or ciphertext.  An edit reads the message and then updates it, guarded by the revision
    count it read; any number of edits and deletions may interleave. */
module SpaceMessageEdits {
  import opened Optional

  type Id = nat

  /** The part of a message that an edit replaces and a revision keeps. */
  datatype Body = Body(
    content: Option<string>, ciphertext: Option<string>, nonce: Option<string>, cipherId: Option<string>)

  datatype Revision = Revision(body: Body, replacedAt: int)

  datatype Message = Message(
    channelId: Id, sender: Id, body: Body,
    attachmentMediaIds: Option<seq<string>>, attachments: Option<seq<string>>, e2eMediaIds: Option<seq<string>>,
    deleted: bool, revisionCount: nat, history: seq<Revision>, lastEditedAt: Option<int>, updatedAt: int)

  type Messages = map<Id, Message>

  datatype EditBody =
    | Plain(content: string, attachmentMediaIds: Option<seq<string>>, attachments: Option<seq<string>>)
    | Encrypted(ciphertext: string, nonce: string, cipherId: string, e2eMediaIds: Option<seq<string>>)

  datatype EditResult = NotFound | Updated(message: Message) | Conflict(current: Option<Message>)

  /** JavaScript truthiness of an optional string. */
  predicate Truthy(s: Option<string>) { s.Some? && s.value != "" }

  // ---------------------------------------------------------------- the atomic database calls

  /** The revision entry made from the message that was read. */
  function Snapshot(body: Body): Body {
    if Truthy(body.ciphertext) then body.(content := None) else Body(body.content, None, None, None)
  }

  /** What the `$set` and `$unset` of an edit make of the message's content. */
  function WithBody(doc: Message, edit: EditBody): Message {
    match edit
    case Encrypted(ciphertext, nonce, cipherId, e2eMediaIds) =>
      if ciphertext != "" then
        doc.(body := Body(None, Some(ciphertext), Some(nonce), Some(cipherId)),
             attachmentMediaIds := None, attachments := None,
             e2eMediaIds := if e2eMediaIds == None then doc.e2eMediaIds
                            else if e2eMediaIds.value == [] then None else e2eMediaIds)
      else
        // An empty ciphertext takes the plaintext branch, whose content is then undefined.
        doc.(body := Body(None, None, None, None), e2eMediaIds := None)
    case Plain(content, attachmentMediaIds, attachments) =>
      var keep := doc.(body := Body(Some(content), None, None, None), e2eMediaIds := None);
      if attachmentMediaIds == None then keep
      else if attachmentMediaIds.value == [] then keep.(attachmentMediaIds := None, attachments := None)
      else keep.(attachmentMediaIds := attachmentMediaIds, attachments := Some(attachments.GetOr([])))
  }

  /** The body an edit asks for. */
  function Requested(edit: EditBody): Body {
    match edit
    case Encrypted(ciphertext, nonce, cipherId, _) =>
      if ciphertext == "" then Body(None, None, None, None) else Body(None, Some(ciphertext), Some(nonce), Some(cipherId))
    case Plain(content, _, _) => Body(Some(content), None, None, None)
  }

  predicate Matches(docs: Messages, m: Id, existing: Message) {
    m in docs && !docs[m].deleted && docs[m].revisionCount == existing.revisionCount
  }

  function Overwritten(doc: Message, existing: Message, edit: EditBody, now: int): Message {
    WithBody(doc, edit).(revisionCount := doc.revisionCount + 1,
                         history := doc.history + [Revision(Snapshot(existing.body), now)],
                         lastEditedAt := Some(now), updatedAt := now)
  }

  function SoftDeleted(doc: Message, now: int): Message {
    doc.(deleted := true, body := Body(Some(""), None, None, None), history := [],
         attachmentMediaIds := None, attachments := None, e2eMediaIds := None, updatedAt := now)
  }

  /** An edit performed in one step on the current document. */
  function AtomicEdit(docs: Messages, m: Id, edit: EditBody, now: int): (Messages, EditResult) {
    if m !in docs then (docs, NotFound)
    else if docs[m].deleted then (docs, Conflict(Some(docs[m])))
    else
      var edited := WithBody(docs[m], edit).(
        revisionCount := docs[m].revisionCount + 1,
        history := docs[m].history + [Revision(Snapshot(docs[m].body), now)],
        lastEditedAt := Some(now), updatedAt := now);
      (docs[m := edited], Updated(edited))
  }

  /** What an edit leaves in each field.  A plaintext edit without attachment ids keeps the attachments,
      with an empty list it drops them, with others it stores them; an encrypted one always drops the
      attachments, and keeps, drops or replaces the encrypted media ids likewise. */
  lemma EditSetsFields(docs: Messages, m: Id, edit: EditBody, now: int)
    requires m in docs && !docs[m].deleted
    ensures var (docs', result) := AtomicEdit(docs, m, edit, now);
            && docs'.Keys == docs.Keys && (forall k | k in docs && k != m :: docs'[k] == docs[k])
            && var before, after := docs[m], docs'[m];
               && result == Updated(after)
               && after.channelId == before.channelId && after.sender == before.sender && !after.deleted
               && after.revisionCount == before.revisionCount + 1
               && after.lastEditedAt == Some(now) && after.updatedAt == now
               && |after.history| == |before.history| + 1 && after.history[..|before.history|] == before.history
               && var entry := after.history[|before.history|];
                  && entry.replacedAt == now
                  && (if before.body.ciphertext.Some? && before.body.ciphertext.value != ""
                      then entry.body == Body(None, before.body.ciphertext, before.body.nonce, before.body.cipherId)
                      else entry.body == Body(before.body.content, None, None, None))
    ensures var before, after := docs[m], AtomicEdit(docs, m, edit, now).0[m];
            if edit.Encrypted? && edit.ciphertext != "" then
              && after.body.content == None && after.body.ciphertext == Some(edit.ciphertext)
              && after.body.nonce == Some(edit.nonce) && after.body.cipherId == Some(edit.cipherId)
              && after.attachmentMediaIds == None && after.attachments == None
              && (edit.e2eMediaIds == None ==> after.e2eMediaIds == before.e2eMediaIds)
              && (edit.e2eMediaIds == Some([]) ==> after.e2eMediaIds == None)
              && (edit.e2eMediaIds.Some? && edit.e2eMediaIds.value != [] ==> after.e2eMediaIds == edit.e2eMediaIds)
            else
              && after.body.content == (if edit.Plain? then Some(edit.content) else None)
              && after.body.ciphertext == None && after.body.nonce == None && after.body.cipherId == None
              && after.e2eMediaIds == None
              && var ids := if edit.Plain? then edit.attachmentMediaIds else None;
                 && (ids == None ==> after.attachmentMediaIds == before.attachmentMediaIds && after.attachments == before.attachments)
                 && (ids == Some([]) ==> after.attachmentMediaIds == None && after.attachments == None)
                 && (ids.Some? && ids.value != [] ==>
                       && after.attachmentMediaIds == ids
                       && after.attachments == (if edit.attachments.Some? then edit.attachments else Some([])))
  {
  }

  // ---------------------------------------------------------------- the interleaved protocol

  datatype Phase = Start | Ready(existing: Message) | Missed | Done(result: EditResult)

  datatype Call = Call(messageId: Id, edit: EditBody, phase: Phase, wrote: bool)

  /** `first` is each message as created; `bodies` lists every body it ever had, in order. */
  datatype World = World(docs: Messages, calls: map<nat, Call>, first: map<Id, Message>, bodies: map<Id, seq<Body>>)

  datatype Action =
    | Advance(call: nat)
    | Create(messageId: Id, message: Message)
    | SoftDelete(messageId: Id)
    | Remove(messageId: Id)

  datatype Event = Event(action: Action, now: int)

  function AdvanceCall(w: World, c: nat, now: int): World
    requires c in w.calls
  {
    var call := w.calls[c];
    var m := call.messageId;
    var read := if m in w.docs then Some(w.docs[m]) else None;
    match call.phase
    case Start =>
      w.(calls := w.calls[c := call.(phase := if read.Some? then Ready(read.value) else Done(NotFound))])
    case Ready(existing) =>
      if Matches(w.docs, m, existing) then
        var doc := Overwritten(w.docs[m], existing, call.edit, now);
        w.(docs := w.docs[m := doc],
           calls := w.calls[c := call.(phase := Done(Updated(doc)), wrote := true)],
           bodies := w.bodies[m := (if m in w.bodies then w.bodies[m] else []) + [Requested(call.edit)]])
      else w.(calls := w.calls[c := call.(phase := Missed)])
    case Missed => w.(calls := w.calls[c := call.(phase := Done(Conflict(read)))])
    case Done(_) => w
  }

  function Step(w: World, e: Event): World {
    match e.action
    case Advance(c) => if c in w.calls then AdvanceCall(w, c, e.now) else w
    case Create(m, message) =>
      // Message ids are never issued twice; a new message has no revision history.
      if m in w.first then w
      else
        var doc := message.(history := [], lastEditedAt := None, updatedAt := e.now);
        w.(docs := w.docs[m := doc], first := w.first[m := doc], bodies := w.bodies[m := [doc.body]])
    case SoftDelete(m) => if m in w.docs then w.(docs := w.docs[m := SoftDeleted(w.docs[m], e.now)]) else w
    case Remove(m) => w.(docs := w.docs - {m})
  }

  function Run(w: World, events: seq<Event>): World
    decreases |events|
  {
    if events == [] then w else Run(Step(w, events[0]), events[1..])
  }

  /** An edit between whose database calls nothing comes is the atomic edit at the moment of the write,
      with its answer. */
  lemma UndisturbedIsAtomic(w: World, c: nat, read: int, write: int, reread: int)
    requires c in w.calls && w.calls[c].phase.Start?
    ensures var w' := Run(w, [Event(Advance(c), read), Event(Advance(c), write), Event(Advance(c), reread)]);
            var (docs, result) := AtomicEdit(w.docs, w.calls[c].messageId, w.calls[c].edit, write);
            c in w'.calls && w'.docs == docs && w'.calls == w.calls[c := w'.calls[c]] && w'.calls[c].phase == Done(result)
  {
    var e := [Event(Advance(c), read), Event(Advance(c), write), Event(Advance(c), reread)];
    assert e[1..] == [e[1], e[2]] && e[1..][1..] == [e[2]] && e[1..][1..][1..] == [];
    var w1 := AdvanceCall(w, c, read);
    var w2 := AdvanceCall(w1, c, write);
    assert Run(w, e) == Run(w1, e[1..]) == Run(w2, e[1..][1..]) == Run(AdvanceCall(w2, c, reread), e[1..][1..][1..]);
  }

  /** What creation, deletion and removal do to the stored messages, in their own fields. */
  lemma OthersByFields(w: World, e: Event)
    ensures var docs, w' := w.docs, Step(w, e);
            match e.action
            case Advance(_) => true
            case Create(m, message) =>
              w'.docs == if m in w.first then docs
                         else docs[m := message.(history := [], lastEditedAt := None, updatedAt := e.now)]
            case SoftDelete(m) =>
              w'.docs == map k | k in docs ::
                if k == m
                then docs[k].(deleted := true, body := Body(Some(""), None, None, None), history := [], updatedAt := e.now,
                              attachmentMediaIds := None, attachments := None, e2eMediaIds := None)
                else docs[k]
            case Remove(m) => w'.docs == map k | k in docs && k != m :: docs[k]
  {
  }

  // ---------------------------------------------------------------- what every step keeps

  /** Never half plaintext and half encrypted. */
  predicate OneForm(doc: Message) {
    && (doc.body.ciphertext.Some? ==>
          doc.body.content == None && doc.attachmentMediaIds == None && doc.attachments == None)
    && (doc.body.content.Some? ==>
          doc.body.ciphertext == None && doc.body.nonce == None && doc.body.cipherId == None && doc.e2eMediaIds == None)
  }

  /** A body that is its own snapshot: either a non-empty ciphertext without content, or no cipher fields. */
  predicate Clean(body: Body) {
    if Truthy(body.ciphertext) then body.content == None
    else body.ciphertext == None && body.nonce == None && body.cipherId == None
  }

  function Bodies(history: seq<Revision>): (r: seq<Body>)
    ensures |r| == |history|
  {
    seq(|history|, i requires 0 <= i < |history| => history[i].body)
  }

  function Snapshots(bodies: seq<Body>): (r: seq<Body>)
    ensures |r| == |bodies|
  {
    seq(|bodies|, i requires 0 <= i < |bodies| => Snapshot(bodies[i]))
  }

  ghost predicate Faithful(w: World, m: Id)
    requires m in w.docs
  {
    && m in w.first && m in w.bodies && w.bodies[m] != []
    && w.bodies[m][0] == w.first[m].body
    && (forall i | 1 <= i < |w.bodies[m]| :: Clean(w.bodies[m][i]))
    && var doc := w.docs[m];
       if doc.deleted then doc == w.first[m] || (doc.history == [] && OneForm(doc))
       else
         && doc.revisionCount == w.first[m].revisionCount + |doc.history|
         && |w.bodies[m]| == |doc.history| + 1
         && doc.body == w.bodies[m][|doc.history|]
         && Bodies(doc.history) == Snapshots(w.bodies[m][..|doc.history|])
         && (doc.history == [] ==> doc == w.first[m])
         && (doc.history != [] ==> OneForm(doc))
  }

  /** A call that is about to write still holds a past state of its message. */
  ghost predicate Grounded(w: World, call: Call) {
    var m := call.messageId;
    match call.phase
    case Start | Missed => !call.wrote
    case Done(result) => call.wrote <==> result.Updated?
    case Ready(existing) =>
      && !call.wrote && m in w.first && m in w.bodies
      && (existing.deleted ==> (m in w.docs ==> w.docs[m].deleted))
      && (!existing.deleted ==>
            var i := existing.revisionCount - w.first[m].revisionCount;
            0 <= i < |w.bodies[m]| && w.bodies[m][i] == existing.body)
  }

  ghost predicate Inv(w: World) {
    && (forall m | m in w.docs :: Faithful(w, m))
    && (forall c | c in w.calls :: Grounded(w, w.calls[c]))
  }

  ghost predicate Init(w: World) {
    && w.docs == map[] && w.first == map[] && w.bodies == map[]
    && forall c | c in w.calls :: w.calls[c].phase == Start && !w.calls[c].wrote
  }

  /** The step that writes an edit is that edit performed atomically at that instant. */
  lemma CommitIsAtomicEdit(w: World, c: nat, now: int)
    requires Inv(w) && c in w.calls && w.calls[c].phase.Ready?
    requires Matches(w.docs, w.calls[c].messageId, w.calls[c].phase.existing)
    ensures var w' := AdvanceCall(w, c, now);
            (w'.docs, w'.calls[c].phase.result) == AtomicEdit(w.docs, w.calls[c].messageId, w.calls[c].edit, now)
  {
    assert Grounded(w, w.calls[c]) && Faithful(w, w.calls[c].messageId);
  }

  lemma CommitKeepsFaithful(w: World, c: nat, now: int)
    requires Inv(w) && c in w.calls && w.calls[c].phase.Ready?
    requires Matches(w.docs, w.calls[c].messageId, w.calls[c].phase.existing)
    ensures Faithful(AdvanceCall(w, c, now), w.calls[c].messageId)
  {
    var m, w' := w.calls[c].messageId, AdvanceCall(w, c, now);
    assert Faithful(w, m);
    CommitIsAtomicEdit(w, c, now);
    var before, after := w.docs[m], w'.docs[m];
    assert Bodies(after.history) == Bodies(before.history) + [Snapshot(before.body)];
    var n := |before.history|;
    assert w'.bodies[m][..n + 1] == w.bodies[m][..n] + [w.bodies[m][n]];
    assert Snapshots(w'.bodies[m][..n + 1]) == Snapshots(w.bodies[m][..n]) + [Snapshot(before.body)];
  }

  lemma AdvanceKeepsInv(w: World, c: nat, now: int)
    requires Inv(w) && c in w.calls
    ensures Inv(AdvanceCall(w, c, now))
  {
    var w' := AdvanceCall(w, c, now);
    forall k | k in w'.docs ensures Faithful(w', k) { AdvanceKeepsFaithful(w, c, now, k); }
    forall d | d in w'.calls ensures Grounded(w', w'.calls[d]) { AdvanceKeepsGrounded(w, c, now, d); }
  }

  lemma AdvanceKeepsFaithful(w: World, c: nat, now: int, k: Id)
    requires Inv(w) && c in w.calls && k in AdvanceCall(w, c, now).docs
    ensures Faithful(AdvanceCall(w, c, now), k)
  {
    var call := w.calls[c];
    assert Grounded(w, call) && Faithful(w, k);
    if call.phase.Ready? && Matches(w.docs, call.messageId, call.phase.existing) && k == call.messageId {
      CommitKeepsFaithful(w, c, now);
    }
  }

  lemma AdvanceKeepsGrounded(w: World, c: nat, now: int, d: nat)
    requires Inv(w) && c in w.calls && d in w.calls
    ensures d in AdvanceCall(w, c, now).calls && Grounded(AdvanceCall(w, c, now), AdvanceCall(w, c, now).calls[d])
  {
    var call := w.calls[c];
    assert Grounded(w, call) && Grounded(w, w.calls[d]);
    if call.messageId in w.docs { assert Faithful(w, call.messageId); }
  }

  lemma OtherStepKeepsFaithful(w: World, e: Event, k: Id)
    requires Inv(w) && !e.action.Advance? && k in Step(w, e).docs
    ensures Faithful(Step(w, e), k)
  {
    if e.action.Create? {
      CreateKeepsFaithful(w, e.action.messageId, e.action.message, e.now, k);
    } else if k in w.docs {
      assert Faithful(w, k);
    }
  }

  lemma CreateKeepsFaithful(w: World, m: Id, message: Message, now: int, k: Id)
    requires Inv(w) && k in Step(w, Event(Create(m, message), now)).docs
    ensures Faithful(Step(w, Event(Create(m, message), now)), k)
  {
    if m in w.first || k != m {
      assert Faithful(w, k);
    } else {
      assert Bodies([]) == Snapshots([]);
    }
  }

  lemma OtherStepKeepsGrounded(w: World, e: Event, d: nat)
    requires Inv(w) && !e.action.Advance? && d in w.calls
    ensures d in Step(w, e).calls && Grounded(Step(w, e), Step(w, e).calls[d])
  {
    assert Grounded(w, w.calls[d]);
  }

  lemma StepKeepsInv(w: World, e: Event)
    requires Inv(w)
    ensures Inv(Step(w, e))
  {
    if e.action.Advance? {
      if e.action.call in w.calls { AdvanceKeepsInv(w, e.action.call, e.now); }
    } else {
      forall k | k in Step(w, e).docs ensures Faithful(Step(w, e), k) { OtherStepKeepsFaithful(w, e, k); }
      forall d | d in Step(w, e).calls ensures Grounded(Step(w, e), Step(w, e).calls[d]) {
        OtherStepKeepsGrounded(w, e, d);
      }
    }
  }

  /** Every interleaving keeps the invariant. */
  lemma {:induction false} RunKeepsInv(w: World, events: seq<Event>)
    requires Inv(w)
    ensures Inv(Run(w, events))
    decreases |events|
  {
    if events != [] {
      StepKeepsInv(w, events[0]);
      RunKeepsInv(Step(w, events[0]), events[1..]);
    }
  }

  /** In every interleaving from an empty collection, a message that is not deleted and was created
      with revision count 0 has as many history entries as its revision count, and its history lists
      every replaced body in order exactly when it was never edited or its first body is clean.
      Every message is in one form once it was edited or deleted, or if it was created in one form;
      and a finished call wrote exactly when it reports the update. */
  lemma EditTheorem(w: World, events: seq<Event>, m: Id)
    requires Init(w) && m in Run(w, events).docs
    ensures var w' := Run(w, events);
            && m in w'.first && m in w'.bodies
            && var doc := w'.docs[m];
               && (!doc.deleted && w'.first[m].revisionCount == 0 ==> |doc.history| == doc.revisionCount)
               && (!doc.deleted ==> (Bodies(doc.history) + [doc.body] == w'.bodies[m]
                                     <==> doc.history == [] || Clean(w'.first[m].body)))
               && (OneForm(w'.first[m]) || doc != w'.first[m] ==>
                     && (doc.body.ciphertext == None ||
                           (doc.body.content == None && doc.attachmentMediaIds == None && doc.attachments == None))
                     && (doc.body.content == None ||
                           (doc.body.nonce == None && doc.body.cipherId == None && doc.e2eMediaIds == None)))
               && forall c | c in w'.calls && w'.calls[c].phase.Done? ::
                    w'.calls[c].wrote <==> w'.calls[c].phase.result.Updated?
  {
    RunKeepsInv(w, events);
    var w' := Run(w, events);
    var doc, bodies := w'.docs[m], w'.bodies[m];
    assert Faithful(w', m);
    forall c | c in w'.calls && w'.calls[c].phase.Done?
      ensures w'.calls[c].wrote <==> w'.calls[c].phase.result.Updated?
    {
      assert Grounded(w', w'.calls[c]);
    }
    if !doc.deleted {
      var n := |doc.history|;
      assert bodies == bodies[..n] + [bodies[n]];
      if doc.history != [] {
        assert Bodies(doc.history)[0] == Snapshots(bodies[..n])[0] == Snapshot(bodies[0]);
        if Clean(bodies[0]) {
          assert forall i | 0 <= i < n :: Snapshots(bodies[..n])[i] == bodies[i];
          assert Bodies(doc.history) == bodies[..n];
        } else {
          assert (Bodies(doc.history) + [doc.body])[0] != bodies[0];
        }
      }
    }
  }

  /** A message created with an empty ciphertext loses its nonce from the history at its first edit. */
  lemma EmptyCiphertextIsNotKept(now: int)
    ensures var body := Body(None, Some(""), Some("n"), Some("c"));
            var doc := Message(1, 2, body, None, None, None, false, 0, [], None, 0);
            var (docs, result) := AtomicEdit(map[7 := doc], 7, Plain("x", None, None), now);
            && !Clean(body) && result.Updated?
            && docs[7].history == [Revision(Body(None, None, None, None), now)]
  {
  }

  // ---------------------------------------------------------------- the repository

  class SpaceMessageRepository {
    var docs: Messages

    constructor ()
      ensures docs == map[]
    {
      docs := map[];
    }

    /** Stores a new message; `deleted` and `revisionCount` default to false and 0. */
    method CreateMessage(id: Id, input: Message, deleted: Option<bool>, revisionCount: Option<nat>, now: int)
      requires id !in docs
      modifies this
      ensures docs == old(docs)[id := input.(deleted := deleted == Some(true), revisionCount := revisionCount.GetOr(0),
                                             history := [], lastEditedAt := None, updatedAt := now)]
    {
      docs := docs[id := input.(deleted := deleted.GetOr(false), revisionCount := revisionCount.GetOr(0),
                                history := [], lastEditedAt := None, updatedAt := now)];
    }

    /** The whole protocol with nothing running beside it is one atomic edit. */
    method EditMessage(messageId: Id, edit: EditBody, now: int) returns (result: EditResult)
      modifies this
      ensures (docs, result) == AtomicEdit(old(docs), messageId, edit, now)
      ensures result.NotFound? <==> messageId !in old(docs)
      ensures result.Conflict? <==> messageId in old(docs) && old(docs)[messageId].deleted
      ensures result.Conflict? ==> result.current == Some(old(docs)[messageId])
      ensures !result.Updated? ==> docs == old(docs)
    {
      if messageId !in docs { return NotFound; }
      var existing := docs[messageId];
      var prevRevision := Revision(Body(None, None, None, None), now);
      if Truthy(existing.body.ciphertext) {
        prevRevision := prevRevision.(body := Body(None, existing.body.ciphertext, existing.body.nonce, existing.body.cipherId));
      } else {
        prevRevision := prevRevision.(body := prevRevision.body.(content := existing.body.content));
      }
      if !Matches(docs, messageId, existing) {
        return Conflict(Some(docs[messageId]));
      }
      var doc := WithBody(docs[messageId], edit);
      doc := doc.(revisionCount := doc.revisionCount + 1, history := doc.history + [prevRevision],
                  lastEditedAt := Some(now), updatedAt := now);
      docs := docs[messageId := doc];
      result := Updated(doc);
    }

    method SoftDelete(messageId: Id, now: int) returns (result: Option<Message>)
      modifies this
      ensures docs == if messageId in old(docs)
                      then old(docs)[messageId := SoftDeleted(old(docs)[messageId], now)] else old(docs)
      ensures result == if messageId in docs then Some(docs[messageId]) else None
      ensures messageId in docs ==>
        var before, after := old(docs)[messageId], docs[messageId];
        && after.deleted && after.body == Body(Some(""), None, None, None) && after.history == []
        && after.attachmentMediaIds == None && after.attachments == None && after.e2eMediaIds == None
        && after.channelId == before.channelId && after.sender == before.sender
        && after.revisionCount == before.revisionCount && after.lastEditedAt == before.lastEditedAt && after.updatedAt == now
    {
      if messageId !in docs { return None; }
      var doc := docs[messageId].(deleted := true, updatedAt := now, history := []);
      doc := doc.(body := Body(Some(""), None, None, None), attachmentMediaIds := None, attachments := None, e2eMediaIds := None);
      docs := docs[messageId := doc];
      result := Some(doc);
    }
  }
}
