/** Paging through the pins of a channel with a compound cursor (`space-pin.repository.ts`), while pins
    come and go between the pages. */
module SpacePins {
  import opened FiniteSets
  import opened Optional

  type Id = nat

  datatype Pin = Pin(id: Id, channelId: Id, messageId: Id, pinnedBy: Id, pinnedAt: int)

  /** The sort key of the last row of a page. */
  datatype Cursor = Cursor(pinnedAt: int, id: Id)

  function CursorOf(p: Pin): Cursor { Cursor(p.pinnedAt, p.id) }

  // ---------------------------------------------------------------- the order of the listing

  /** `p` comes after the cursor: pinned earlier, or at the same time with a smaller id. */
  predicate After(p: Pin, c: Cursor) {
    p.pinnedAt < c.pinnedAt || (p.pinnedAt == c.pinnedAt && p.id < c.id)
  }

  /** No two stored pins share an id. */
  ghost predicate UniqueIds(pins: set<Pin>) {
    forall p, q | p in pins && q in pins && p.id == q.id :: p == q
  }

  predicate Descending(page: seq<Pin>) {
    forall i, j | 0 <= i < j < |page| :: After(page[j], CursorOf(page[i]))
  }

  /** The channel's pins after the cursor. */
  function Rest(pins: set<Pin>, channelId: Id, cursor: Option<Cursor>): set<Pin> {
    set p | p in pins && p.channelId == channelId && (cursor.Some? ==> After(p, cursor.value))
  }

  /** The first `limit` of `rest` in listing order; a limit of 0 means all of them. */
  ghost predicate IsPage(page: seq<Pin>, rest: set<Pin>, limit: nat) {
    && Descending(page)
    && (forall p | p in page :: p in rest)
    && |page| == (if limit == 0 || |rest| <= limit then |rest| else limit)
    && (forall p, q | p in page && q in rest && q !in page :: After(q, CursorOf(p)))
  }

  lemma {:induction false} ElementsOf(page: seq<Pin>) returns (s: set<Pin>)
    requires Descending(page)
    ensures |s| == |page| && forall p :: p in s <==> p in page
  {
    s := {};
    if page != [] {
      var init, last := page[..|page| - 1], page[|page| - 1];
      var t := ElementsOf(init);
      s := t + {last};
      assert page == init + [last];
      forall p | p in init ensures p != last {
        var i :| 0 <= i < |init| && init[i] == p;
        assert After(page[|page| - 1], CursorOf(page[i]));
      }
    }
  }

  /** A page that is not full holds everything that was left. */
  lemma ShortPageIsAll(page: seq<Pin>, rest: set<Pin>, limit: nat)
    requires IsPage(page, rest, limit) && |page| < limit
    ensures forall p :: p in page <==> p in rest
  {
    var s := ElementsOf(page);
    assert s <= rest;
    assert |rest - s| == |rest| - |s| == 0;
    forall p | p in rest ensures p in page { assert p !in rest - s; }
  }

  /** A page in the fields of the pins: newest first, ties by the greater id, of the channel, strictly
      after the cursor, and when any such pin is missing then the page is full and ends before it. */
  lemma PageByFields(page: seq<Pin>, pins: set<Pin>, channelId: Id, cursor: Option<Cursor>, limit: nat)
    requires IsPage(page, Rest(pins, channelId, cursor), limit)
    ensures forall i, j | 0 <= i < j < |page| ::
      page[i].pinnedAt > page[j].pinnedAt || (page[i].pinnedAt == page[j].pinnedAt && page[i].id > page[j].id)
    ensures forall p | p in page ::
      && p in pins && p.channelId == channelId
      && (cursor.Some? ==> p.pinnedAt < cursor.value.pinnedAt || (p.pinnedAt == cursor.value.pinnedAt && p.id < cursor.value.id))
    ensures forall q | q in pins && q !in page && q.channelId == channelId
              && (cursor.Some? ==> q.pinnedAt < cursor.value.pinnedAt || (q.pinnedAt == cursor.value.pinnedAt && q.id < cursor.value.id)) ::
      && limit > 0 && |page| == limit
      && forall p | p in page :: p.pinnedAt > q.pinnedAt || (p.pinnedAt == q.pinnedAt && p.id > q.id)
  {
    var rest := Rest(pins, channelId, cursor);
    forall q | q in rest && q !in page ensures limit > 0 && |page| == limit {
      var s := ElementsOf(page);
      if |page| == |rest| { WholePart(s, rest); }
    }
  }

  // ---------------------------------------------------------------- walks

  /** One page request: the collection it ran on and the page it returned. */
  datatype Visit = Visit(pins: set<Pin>, page: seq<Pin>)

  /** A client that asks for page after page, with the last row as the next cursor, until a page is
      not full.  The collection may be a different one at each request. */
  ghost predicate IsWalk(visits: seq<Visit>, channelId: Id, limit: nat, cursor: Option<Cursor>)
    requires limit >= 1
    decreases |visits|
  {
    visits != [] ==>
      && IsPage(visits[0].page, Rest(visits[0].pins, channelId, cursor), limit)
      && if |visits[0].page| < limit then |visits| == 1
         else IsWalk(visits[1..], channelId, limit, Some(CursorOf(visits[0].page[limit - 1])))
  }

  ghost predicate Finished(visits: seq<Visit>, limit: nat) {
    visits != [] && |visits[|visits| - 1].page| < limit
  }

  function Listed(visits: seq<Visit>): seq<Pin> {
    if visits == [] then [] else visits[0].page + Listed(visits[1..])
  }

  /** Whatever is pinned or unpinned between the pages, a walk lists pins in strictly descending order,
      so no pin twice. */
  lemma {:induction false} WalkDescends(visits: seq<Visit>, channelId: Id, limit: nat, cursor: Option<Cursor>)
    requires limit >= 1 && IsWalk(visits, channelId, limit, cursor)
    ensures Descending(Listed(visits))
    ensures cursor.Some? ==> forall p | p in Listed(visits) :: After(p, cursor.value)
    decreases |visits|
  {
    if visits != [] {
      var page, later := visits[0].page, Listed(visits[1..]);
      if |page| == limit {
        WalkDescends(visits[1..], channelId, limit, Some(CursorOf(page[limit - 1])));
        forall i, q | 0 <= i < |page| && q in later ensures After(q, CursorOf(page[i])) {
          assert After(q, CursorOf(page[limit - 1]));
          assert i < limit - 1 ==> After(page[limit - 1], CursorOf(page[i]));
        }
        forall i, j | 0 <= i < j < |page + later| ensures After((page + later)[j], CursorOf((page + later)[i])) {
          if i < |page| <= j { assert (page + later)[j] in later; }
        }
      } else {
        assert later == [];
        assert page + later == page;
      }
    }
  }

  /** A pin that is there at every request of a finished walk is listed. */
  lemma {:induction false} WalkMissesNothing(visits: seq<Visit>, channelId: Id, limit: nat, cursor: Option<Cursor>, p: Pin)
    requires limit >= 1 && IsWalk(visits, channelId, limit, cursor) && Finished(visits, limit)
    requires forall i | 0 <= i < |visits| :: p in visits[i].pins && UniqueIds(visits[i].pins)
    requires p.channelId == channelId && (cursor.Some? ==> After(p, cursor.value))
    ensures p in Listed(visits)
    decreases |visits|
  {
    var page, rest := visits[0].page, Rest(visits[0].pins, channelId, cursor);
    if |page| < limit {
      ShortPageIsAll(page, rest, limit);
    } else if p !in page {
      assert page[limit - 1] in page;
      assert After(p, CursorOf(page[limit - 1]));
      assert |visits| > 1;
      assert forall i | 0 <= i < |visits[1..]| :: visits[1..][i] == visits[i + 1];
      WalkMissesNothing(visits[1..], channelId, limit, Some(CursorOf(page[limit - 1])), p);
    }
  }

  /** Only pins of the channel that were stored at the request are listed. */
  lemma {:induction false} WalkListsStoredPins(visits: seq<Visit>, channelId: Id, limit: nat, cursor: Option<Cursor>, p: Pin)
    requires limit >= 1 && IsWalk(visits, channelId, limit, cursor) && p in Listed(visits)
    ensures p.channelId == channelId && exists i :: 0 <= i < |visits| && p in visits[i].page && p in visits[i].pins
    decreases |visits|
  {
    if p in visits[0].page {
    } else if |visits[0].page| == limit {
      WalkListsStoredPins(visits[1..], channelId, limit, Some(CursorOf(visits[0].page[limit - 1])), p);
      var i :| 0 <= i < |visits[1..]| && p in visits[1..][i].page && p in visits[1..][i].pins;
      assert visits[i + 1] == visits[1..][i];
    }
  }

  /** Whatever is pinned or unpinned between the pages: a finished walk lists in strictly descending
      order only pins of the channel that were stored when their page was read, and among them every
      pin that was stored all along. */
  lemma WalkUnderChanges(visits: seq<Visit>, channelId: Id, limit: nat)
    requires limit >= 1 && IsWalk(visits, channelId, limit, None) && Finished(visits, limit)
    requires forall i | 0 <= i < |visits| :: UniqueIds(visits[i].pins)
    ensures Descending(Listed(visits))
    ensures forall p | p in Listed(visits) ::
      p.channelId == channelId && exists i :: 0 <= i < |visits| && p in visits[i].page && p in visits[i].pins
    ensures forall p: Pin | p.channelId == channelId && (forall i | 0 <= i < |visits| :: p in visits[i].pins) :: p in Listed(visits)
  {
    WalkDescends(visits, channelId, limit, None);
    forall p | p in Listed(visits)
      ensures p.channelId == channelId && exists i :: 0 <= i < |visits| && p in visits[i].page && p in visits[i].pins
    {
      WalkListsStoredPins(visits, channelId, limit, None, p);
    }
    forall p: Pin | p.channelId == channelId && forall i | 0 <= i < |visits| :: p in visits[i].pins ensures p in Listed(visits) {
      WalkMissesNothing(visits, channelId, limit, None, p);
    }
  }

  // ---------------------------------------------------------------- only newer pins are added

  /** The collection is `pins` plus pins that sort before all of it. */
  ghost predicate OnlyNewer(now: set<Pin>, pins: set<Pin>) {
    pins <= now && forall p, q | p in pins && q in now && q !in pins :: After(p, CursorOf(q))
  }

  /** A request past some pin of the first collection sees what is left of it, and nothing newer. */
  lemma SeesOnlyTheRest(now: set<Pin>, pins: set<Pin>, channelId: Id, last: Pin)
    requires OnlyNewer(now, pins) && last in pins
    ensures Rest(now, channelId, Some(CursorOf(last))) == Rest(pins, channelId, Some(CursorOf(last)))
  {
  }

  /** The number of pins on `n` full pages. */
  function FullPages(n: nat, limit: nat): (r: nat)
    ensures r == n * limit
  {
    if n == 0 then 0 else FullPages(n - 1, limit) + limit
  }

  lemma {:induction false} WalkOfRest(visits: seq<Visit>, pins: set<Pin>, channelId: Id, limit: nat, last: Pin)
    requires limit >= 1 && last in pins && IsWalk(visits, channelId, limit, Some(CursorOf(last)))
    requires forall i | 0 <= i < |visits| :: OnlyNewer(visits[i].pins, pins)
    ensures forall p | p in Listed(visits) :: p in Rest(pins, channelId, Some(CursorOf(last)))
    ensures visits != [] ==> FullPages(|visits| - 1, limit) <= |Rest(pins, channelId, Some(CursorOf(last)))|
    decreases |visits|
  {
    if visits != [] {
      var page, rest := visits[0].page, Rest(pins, channelId, Some(CursorOf(last)));
      SeesOnlyTheRest(visits[0].pins, pins, channelId, last);
      if |page| == limit {
        var next := page[limit - 1];
        assert next in page;
        assert forall i | 0 <= i < |visits[1..]| :: visits[1..][i] == visits[i + 1];
        WalkOfRest(visits[1..], pins, channelId, limit, next);
        PageShrinksRest(page, pins, channelId, Some(CursorOf(last)), limit);
      }
    }
  }

  /** After a full page, what is left is what was left before it, less the page. */
  lemma PageShrinksRest(page: seq<Pin>, pins: set<Pin>, channelId: Id, cursor: Option<Cursor>, limit: nat)
    requires limit >= 1 && IsPage(page, Rest(pins, channelId, cursor), limit) && |page| == limit
    ensures var left := Rest(pins, channelId, Some(CursorOf(page[limit - 1])));
            |left| + limit <= |Rest(pins, channelId, cursor)|
            && forall p | p in left :: p in Rest(pins, channelId, cursor)
  {
    var rest := Rest(pins, channelId, cursor);
    var left := Rest(pins, channelId, Some(CursorOf(page[limit - 1])));
    var s := ElementsOf(page);
    assert page[limit - 1] in page && page[limit - 1] in rest;
    forall p | p in left ensures p in rest && p !in s {
      forall i | 0 <= i < |page| ensures page[i] != p {
        assert i < limit - 1 ==> After(page[limit - 1], CursorOf(page[i]));
      }
    }
    assert left <= rest - s;
    SubsetSize(left, rest - s);
    assert |rest - s| == |rest| - |s|;
  }

  /** A walk that starts on `pins` and may meet newer pins on the way ends within a bounded number of
      pages and, once finished, has listed every pin of the channel exactly once, in descending order,
      and nothing else. */
  lemma WalkTheorem(visits: seq<Visit>, pins: set<Pin>, channelId: Id, limit: nat)
    requires limit >= 1 && IsWalk(visits, channelId, limit, None) && visits != []
    requires visits[0].pins == pins && UniqueIds(pins)
    requires forall i | 0 <= i < |visits| :: OnlyNewer(visits[i].pins, pins) && UniqueIds(visits[i].pins)
    ensures FullPages(|visits| - 1, limit) <= |Rest(pins, channelId, None)|
    ensures Descending(Listed(visits))
    ensures forall i, j | 0 <= i < j < |Listed(visits)| ::
      var p, q := Listed(visits)[i], Listed(visits)[j];
      p.pinnedAt > q.pinnedAt || (p.pinnedAt == q.pinnedAt && p.id > q.id)
    ensures forall p | p in Listed(visits) :: p in Rest(pins, channelId, None)
    ensures Finished(visits, limit) ==> forall p | p in Rest(pins, channelId, None) :: p in Listed(visits)
  {
    WalkDescends(visits, channelId, limit, None);
    var page := visits[0].page;
    if |page| == limit {
      var next := page[limit - 1];
      assert next in page;
      assert forall i | 0 <= i < |visits[1..]| :: visits[1..][i] == visits[i + 1];
      WalkOfRest(visits[1..], pins, channelId, limit, next);
      PageShrinksRest(page, pins, channelId, None, limit);
    }
    if Finished(visits, limit) {
      forall p | p in Rest(pins, channelId, None) ensures p in Listed(visits) {
        WalkMissesNothing(visits, channelId, limit, None, p);
      }
    }
  }

  // ---------------------------------------------------------------- the repository

  class SpacePinRepository {
    var pins: set<Pin>

    constructor ()
      ensures pins == {}
    {
      pins := {};
    }

    /** Fails on a message already pinned in the channel (unique index). */
    method CreatePin(id: Id, channelId: Id, messageId: Id, pinnedBy: Id, now: int) returns (ok: bool)
      requires forall p | p in pins :: p.id != id
      modifies this
      ensures ok <==> forall p | p in old(pins) :: p.channelId != channelId || p.messageId != messageId
      ensures pins == if ok then old(pins) + {Pin(id, channelId, messageId, pinnedBy, now)} else old(pins)
      ensures old(UniqueIds(pins)) ==> UniqueIds(pins)
    {
      ok := forall p | p in pins :: p.channelId != channelId || p.messageId != messageId;
      if ok { pins := pins + {Pin(id, channelId, messageId, pinnedBy, now)}; }
    }

    /** The pin that the listing shows first. */
    method First(rest: set<Pin>) returns (best: Pin)
      requires rest != {} && UniqueIds(rest)
      ensures best in rest && forall p | p in rest && p != best :: After(p, CursorOf(best))
    {
      best :| best in rest;
      var todo := rest - {best};
      while todo != {}
        invariant todo <= rest && best in rest && best !in todo
        invariant forall p | p in rest && p !in todo && p != best :: After(p, CursorOf(best))
        decreases todo
      {
        var p :| p in todo;
        if !After(p, CursorOf(best)) { best := p; }
        todo := todo - {p};
      }
    }

    /** A page of the channel's pins after the cursor, newest first. */
    method FindByChannel(channelId: Id, limit: nat, cursor: Option<Cursor>) returns (page: seq<Pin>)
      requires UniqueIds(pins)
      ensures IsPage(page, Rest(pins, channelId, cursor), limit)
    {
      ghost var all := Rest(pins, channelId, cursor);
      var rest := Rest(pins, channelId, cursor);
      page := [];
      while rest != {} && (limit == 0 || |page| < limit)
        invariant rest <= all && |page| + |rest| == |all|
        invariant forall p :: p in all <==> p in page || p in rest
        invariant forall p | p in page :: p !in rest
        invariant limit == 0 || |page| <= limit
        invariant Descending(page)
        invariant forall p, q | p in page && q in rest :: After(q, CursorOf(p))
        decreases rest
      {
        var p := First(rest);
        page, rest := page + [p], rest - {p};
      }
    }

    method RemovePin(channelId: Id, messageId: Id) returns (removed: bool)
      requires forall p, q | p in pins && q in pins && p.channelId == q.channelId && p.messageId == q.messageId :: p == q
      modifies this
      ensures removed <==> exists p :: p in old(pins) && p.channelId == channelId && p.messageId == messageId
      ensures pins == set p | p in old(pins) && !(p.channelId == channelId && p.messageId == messageId)
    {
      removed := exists p :: p in pins && p.channelId == channelId && p.messageId == messageId;
      if removed {
        var p :| p in pins && p.channelId == channelId && p.messageId == messageId;
        pins := pins - {p};
      }
    }
  }
}
