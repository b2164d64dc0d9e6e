/** Channel categories of Spaces as a forest of parent pointers, with the channels as its leaves.

    The pointers are rewritten in bulk by `space-channel-category.repository.ts` and
    `space-channel.repository.ts`.  A missing or null parent means the root of the Space. */
module CategoryForest {
  import opened Optional

  type Id = nat

  datatype Category = Category(spaceId: Id, parent: Option<Id>, position: int, updatedAt: int)
  datatype Channel = Channel(spaceId: Id, category: Option<Id>, position: int, updatedAt: int)
  datatype Entry = Entry(id: Id, parent: Option<Id>, position: int)

  type Categories = map<Id, Category>
  type Channels = map<Id, Channel>

  // ---------------------------------------------------------------- well-formed forests

  /** A walk along parent pointers, from a category up. */
  ghost predicate IsPath(cats: Categories, path: seq<Id>) {
    && path != []
    && (forall i | 0 <= i < |path| :: path[i] in cats)
    && (forall i | 0 <= i < |path| - 1 :: cats[path[i]].parent == Some(path[i + 1]))
  }

  /** `x` is a proper ancestor of `y`. */
  ghost predicate Ancestor(cats: Categories, x: Id, y: Id) {
    exists path :: IsPath(cats, path) && |path| >= 2 && path[0] == y && path[|path| - 1] == x
  }

  ghost predicate Acyclic(cats: Categories) {
    forall x | x in cats :: !Ancestor(cats, x, x)
  }

  /** No parent pointer dangles or leaves its Space. */
  ghost predicate NoDangling(cats: Categories) {
    forall x | x in cats && cats[x].parent.Some? ::
      cats[x].parent.value in cats && cats[cats[x].parent.value].spaceId == cats[x].spaceId
  }

  ghost predicate ChannelsPlaced(cats: Categories, chans: Channels) {
    forall h | h in chans && chans[h].category.Some? ::
      chans[h].category.value in cats && cats[chans[h].category.value].spaceId == chans[h].spaceId
  }

  ghost predicate WellFormed(cats: Categories, chans: Channels) {
    NoDangling(cats) && Acyclic(cats) && ChannelsPlaced(cats, chans)
  }

  // ---------------------------------------------------------------- ancestor chains

  /** `chain` lists the categories from `from` up to the root, nearest first. */
  ghost predicate IsChain(cats: Categories, from: Option<Id>, chain: seq<Id>)
    decreases |chain|
  {
    match from
    case None => chain == []
    case Some(x) =>
      chain != [] && chain[0] == x && x in cats && IsChain(cats, cats[x].parent, chain[1..])
  }

  ghost predicate Reaches(cats: Categories, from: Option<Id>) {
    exists chain :: IsChain(cats, from, chain)
  }

  ghost function ChainOf(cats: Categories, from: Option<Id>): (chain: seq<Id>)
    requires Reaches(cats, from)
    ensures IsChain(cats, from, chain)
  {
    var chain :| IsChain(cats, from, chain); chain
  }

  ghost predicate AllReachRoot(cats: Categories) {
    forall x | x in cats :: Reaches(cats, Some(x))
  }

  lemma {:induction false} ChainUnique(cats: Categories, from: Option<Id>, a: seq<Id>, b: seq<Id>)
    requires IsChain(cats, from, a) && IsChain(cats, from, b)
    ensures a == b
    decreases |a|
  {
    if from.Some? {
      ChainUnique(cats, cats[from.value].parent, a[1..], b[1..]);
      assert a == [a[0]] + a[1..] && b == [b[0]] + b[1..];
    }
  }

  /** Every suffix of a chain is the chain of its first element. */
  lemma {:induction false} ChainSuffix(cats: Categories, from: Option<Id>, chain: seq<Id>, i: nat)
    requires IsChain(cats, from, chain) && i < |chain|
    ensures IsChain(cats, Some(chain[i]), chain[i..])
    decreases i
  {
    if i > 0 {
      ChainSuffix(cats, cats[from.value].parent, chain[1..], i - 1);
      assert chain[1..][i - 1..] == chain[i..];
    } else {
      assert chain[0..] == chain;
    }
  }

  lemma ChainIsPath(cats: Categories, from: Option<Id>, chain: seq<Id>)
    requires IsChain(cats, from, chain) && chain != []
    ensures IsPath(cats, chain)
  {
    forall i | 0 <= i < |chain| ensures chain[i] in cats {
      ChainSuffix(cats, from, chain, i);
    }
    forall i | 0 <= i < |chain| - 1 ensures cats[chain[i]].parent == Some(chain[i + 1]) {
      ChainSuffix(cats, from, chain, i);
      assert chain[i..][1..] == chain[i + 1..];
    }
  }

  /** A walk up from the start of a chain stays on the chain. */
  lemma {:induction false} PathFollowsChain(cats: Categories, path: seq<Id>, chain: seq<Id>)
    requires IsPath(cats, path) && IsChain(cats, Some(path[0]), chain)
    ensures |path| <= |chain| && path == chain[..|path|]
    decreases |path|
  {
    if |path| > 1 {
      var rest := path[1..];
      forall i | 0 <= i < |rest| ensures rest[i] in cats { assert rest[i] == path[i + 1]; }
      forall i | 0 <= i < |rest| - 1 ensures cats[rest[i]].parent == Some(rest[i + 1]) {
        assert rest[i] == path[i + 1] && rest[i + 1] == path[i + 2];
      }
      assert cats[path[0]].parent == Some(path[1]);
      PathFollowsChain(cats, rest, chain[1..]);
      assert chain == [chain[0]] + chain[1..] && path == [path[0]] + rest;
    }
  }

  /** The proper ancestors of `y` are the tail of its chain. */
  lemma AncestorIffInChain(cats: Categories, x: Id, y: Id)
    requires Reaches(cats, Some(y))
    ensures Ancestor(cats, x, y) <==> x in ChainOf(cats, Some(y))[1..]
  {
    var chain := ChainOf(cats, Some(y));
    if Ancestor(cats, x, y) {
      var path :| IsPath(cats, path) && |path| >= 2 && path[0] == y && path[|path| - 1] == x;
      PathFollowsChain(cats, path, chain);
      assert chain[1..][|path| - 2] == x;
    }
    if x in chain[1..] {
      var i :| 0 <= i < |chain| - 1 && chain[1..][i] == x;
      ChainIsPath(cats, Some(y), chain);
      var path := chain[..i + 2];
      assert IsPath(cats, path) && path[0] == y && path[|path| - 1] == x;
    }
  }

  lemma SelfNotInTail(cats: Categories, x: Id)
    requires Reaches(cats, Some(x))
    ensures !Ancestor(cats, x, x)
  {
    var chain := ChainOf(cats, Some(x));
    AncestorIffInChain(cats, x, x);
    if x in chain[1..] {
      var i :| 0 <= i < |chain| - 1 && chain[1..][i] == x;
      ChainSuffix(cats, Some(x), chain, i + 1);
      ChainUnique(cats, Some(x), chain, chain[i + 1..]);
    }
  }

  lemma PathHasNoRepeats(cats: Categories, path: seq<Id>)
    requires Acyclic(cats) && IsPath(cats, path)
    ensures forall i, j | 0 <= i < j < |path| :: path[i] != path[j]
  {
    forall i, j | 0 <= i < j < |path| ensures path[i] != path[j] {
      var loop := path[i..j + 1];
      assert forall k | 0 <= k < |loop| :: loop[k] == path[i + k];
      assert IsPath(cats, loop);
      assert Ancestor(cats, loop[|loop| - 1], loop[0]);
    }
  }

  lemma {:induction false} DistinctBound(s: seq<Id>, ids: set<Id>)
    requires forall i, j | 0 <= i < j < |s| :: s[i] != s[j]
    requires forall i | 0 <= i < |s| :: s[i] in ids
    ensures |s| <= |ids|
  {
    if s != [] {
      var init, last := s[..|s| - 1], s[|s| - 1];
      DistinctBound(init, ids - {last});
    }
  }

  /** Climbing from the end of any walk ends at the root: it never repeats, so it runs out of categories. */
  lemma {:induction false} ClimbToRoot(cats: Categories, path: seq<Id>)
    requires NoDangling(cats) && Acyclic(cats) && IsPath(cats, path)
    ensures Reaches(cats, Some(path[|path| - 1]))
    decreases |cats.Keys| + 1 - |path|
  {
    PathHasNoRepeats(cats, path);
    DistinctBound(path, cats.Keys);
    var x := path[|path| - 1];
    if cats[x].parent == None {
      assert IsChain(cats, Some(x), [x]);
    } else {
      var longer := path + [cats[x].parent.value];
      PathHasNoRepeats(cats, longer);
      DistinctBound(longer, cats.Keys);
      ClimbToRoot(cats, longer);
      var chain := ChainOf(cats, cats[x].parent);
      assert ([x] + chain)[1..] == chain;
      assert IsChain(cats, Some(x), [x] + chain);
    }
  }

  /** The two readings of "forest" agree: no dangling parent and no cycle, or every category reaches a root. */
  lemma ForestIffAllReachRoot(cats: Categories)
    requires NoDangling(cats)
    ensures Acyclic(cats) <==> AllReachRoot(cats)
  {
    if AllReachRoot(cats) {
      forall x | x in cats ensures !Ancestor(cats, x, x) { SelfNotInTail(cats, x); }
    }
    if Acyclic(cats) {
      forall x | x in cats ensures Reaches(cats, Some(x)) { ClimbToRoot(cats, [x]); }
    }
  }

  lemma PlacedReaches(cats: Categories, from: Option<Id>)
    requires NoDangling(cats) && Acyclic(cats)
    requires from.Some? ==> from.value in cats
    ensures Reaches(cats, from)
  {
    ForestIffAllReachRoot(cats);
    if from == None { assert IsChain(cats, from, []); }
  }

  // ---------------------------------------------------------------- what the bulk updates do

  /** `reparentChildren`: every child of `source` in the Space now hangs under `target`. */
  function Reparented(cats: Categories, space: Id, source: Id, target: Option<Id>, now: int): Categories {
    map k | k in cats ::
      if cats[k].spaceId == space && cats[k].parent == Some(source)
      then cats[k].(parent := target, updatedAt := now) else cats[k]
  }

  /** `reparentChannels`, likewise for the channels filed under `source`. */
  function Moved(chans: Channels, space: Id, source: Id, target: Option<Id>, now: int): Channels {
    map k | k in chans ::
      if chans[k].spaceId == space && chans[k].category == Some(source)
      then chans[k].(category := target, updatedAt := now) else chans[k]
  }

  /** `deleteCategory`. */
  function Deleted(cats: Categories, space: Id, id: Id): Categories {
    if id in cats && cats[id].spaceId == space then cats - {id} else cats
  }

  function Without(chain: seq<Id>, c: Id): (r: seq<Id>)
    ensures c !in r
    ensures forall x :: x in r <==> x in chain && x != c
  {
    if chain == [] then []
    else if chain[0] == c then Without(chain[1..], c)
    else [chain[0]] + Without(chain[1..], c)
  }

  lemma {:induction false} WithoutAbsent(chain: seq<Id>, c: Id)
    requires c !in chain
    ensures Without(chain, c) == chain
  {
    if chain != [] {
      WithoutAbsent(chain[1..], c);
      assert chain == [chain[0]] + chain[1..];
    }
  }

  // ---------------------------------------------------------------- removing a category

  /** Reparenting the children of `c` drops `c` from every chain that does not start at `c`. */
  lemma {:induction false} ReparentedChain(cats: Categories, c: Id, now: int, from: Option<Id>, chain: seq<Id>)
    requires NoDangling(cats) && Acyclic(cats) && c in cats
    requires IsChain(cats, from, chain) && from != Some(c)
    ensures IsChain(Reparented(cats, cats[c].spaceId, c, cats[c].parent, now), from, Without(chain, c))
    decreases |chain|
  {
    var after := Reparented(cats, cats[c].spaceId, c, cats[c].parent, now);
    if from.Some? {
      var x, rest := from.value, chain[1..];
      if cats[x].parent == Some(c) {
        NotOwnParent(cats, c);
        assert rest[0] == c;
        ReparentedChain(cats, c, now, cats[c].parent, rest[1..]);
        assert Without(chain, c) == [x] + Without(rest[1..], c);
      } else {
        ReparentedChain(cats, c, now, cats[x].parent, rest);
        assert Without(chain, c) == [x] + Without(rest, c);
      }
      assert Without(chain, c)[1..] == if cats[x].parent == Some(c) then Without(rest[1..], c) else Without(rest, c);
    }
  }

  lemma NotOwnParent(cats: Categories, c: Id)
    requires Acyclic(cats) && c in cats
    ensures cats[c].parent != Some(c)
  {
    assert IsPath(cats, [c, c]) <==> cats[c].parent == Some(c);
  }

  lemma {:induction false} ChainAvoiding(cats: Categories, c: Id, from: Option<Id>, chain: seq<Id>)
    requires IsChain(cats, from, chain) && c !in chain
    ensures IsChain(cats - {c}, from, chain)
    decreases |chain|
  {
    if from.Some? { ChainAvoiding(cats, c, cats[from.value].parent, chain[1..]); }
  }

  /** The chain of any starting point after the children of `c` moved up to `c`'s parent. */
  lemma {:induction false} ChainAfterReparent(cats: Categories, c: Id, now: int, from: Option<Id>)
    requires NoDangling(cats) && Acyclic(cats) && c in cats
    requires from.Some? ==> from.value in cats
    ensures Reaches(cats, from)
    ensures var after := Reparented(cats, cats[c].spaceId, c, cats[c].parent, now);
            Reaches(after, from) &&
            ChainOf(after, from) ==
              if from == Some(c) then ChainOf(cats, from) else Without(ChainOf(cats, from), c)
  {
    var after := Reparented(cats, cats[c].spaceId, c, cats[c].parent, now);
    PlacedReaches(cats, from);
    var chain := ChainOf(cats, from);
    if from == Some(c) {
      NotOwnParent(cats, c);
      ReparentedChain(cats, c, now, cats[c].parent, chain[1..]);
      AncestorIffInChain(cats, c, c);
      WithoutAbsent(chain[1..], c);
      assert IsChain(after, from, chain);
      ChainUnique(after, from, chain, ChainOf(after, from));
    } else {
      ReparentedChain(cats, c, now, from, chain);
      ChainUnique(after, from, Without(chain, c), ChainOf(after, from));
    }
  }

  /** First step of a removal: the children of `c` move up; the forest stays a forest. */
  lemma ReparentKeepsForest(cats: Categories, chans: Channels, c: Id, now: int)
    requires WellFormed(cats, chans) && c in cats
    ensures WellFormed(Reparented(cats, cats[c].spaceId, c, cats[c].parent, now), chans)
  {
    var after := Reparented(cats, cats[c].spaceId, c, cats[c].parent, now);
    assert NoDangling(after);
    forall x | x in after ensures Reaches(after, Some(x)) {
      ChainAfterReparent(cats, c, now, Some(x));
    }
    ForestIffAllReachRoot(after);
  }

  /** The categories once all three steps of removing `c` are done. */
  function Removed(cats: Categories, c: Id, now: int): (after: Categories)
    requires c in cats
    ensures after.Keys == cats.Keys - {c}
  {
    Deleted(Reparented(cats, cats[c].spaceId, c, cats[c].parent, now), cats[c].spaceId, c)
  }

  /** The channels once `c` is removed. */
  function ChannelsAfter(cats: Categories, chans: Channels, c: Id, now: int): (after: Channels)
    requires c in cats
    ensures after.Keys == chans.Keys
  {
    Moved(chans, cats[c].spaceId, c, cats[c].parent, now)
  }

  /** No step of a removal breaks the forest, whichever of the two reparentings runs first, and the
      documents of every other Space stay as they were. */
  lemma RemovalKeepsForest(cats: Categories, chans: Channels, c: Id, now: int)
    requires WellFormed(cats, chans) && c in cats
    ensures var cats1 := Reparented(cats, cats[c].spaceId, c, cats[c].parent, now);
            var chans1 := ChannelsAfter(cats, chans, c, now);
            && WellFormed(cats1, chans) && WellFormed(cats, chans1) && WellFormed(cats1, chans1)
            && WellFormed(Removed(cats, c, now), chans1)
    ensures forall x | x in cats && cats[x].spaceId != cats[c].spaceId ::
      x in Removed(cats, c, now) && Removed(cats, c, now)[x] == cats[x]
    ensures forall h | h in chans && chans[h].spaceId != cats[c].spaceId ::
      ChannelsAfter(cats, chans, c, now)[h] == chans[h]
  {
    ReparentKeepsForest(cats, chans, c, now);
    NotOwnParent(cats, c);
    var cats2 := Removed(cats, c, now);
    assert NoDangling(cats2);
    forall x | x in cats2 ensures Reaches(cats2, Some(x)) { SurvivorChain(cats, c, now, Some(x)); }
    ForestIffAllReachRoot(cats2);
  }

  /** Ancestry among the survivors of a removal is exactly what it was. */
  lemma RemovalKeepsAncestry(cats: Categories, c: Id, now: int, x: Id, y: Id)
    requires NoDangling(cats) && Acyclic(cats) && c in cats
    requires x in cats && y in cats && x != c && y != c
    ensures Ancestor(Removed(cats, c, now), x, y) <==> Ancestor(cats, x, y)
  {
    SurvivorChain(cats, c, now, Some(y));
    AncestorIffInChain(cats, x, y);
    AncestorIffInChain(Removed(cats, c, now), x, y);
    var chain := ChainOf(cats, Some(y));
    assert Without(chain, c) == [y] + Without(chain[1..], c);
    assert Without(chain, c)[1..] == Without(chain[1..], c);
  }

  lemma {:induction false} SurvivorChain(cats: Categories, c: Id, now: int, from: Option<Id>)
    requires NoDangling(cats) && Acyclic(cats) && c in cats && from != Some(c)
    requires from.Some? ==> from.value in cats
    ensures var after := Removed(cats, c, now);
            && Reaches(cats, from) && Reaches(after, from)
            && ChainOf(after, from) == Without(ChainOf(cats, from), c)
  {
    var cats1 := Reparented(cats, cats[c].spaceId, c, cats[c].parent, now);
    ChainAfterReparent(cats, c, now, from);
    ChainAvoiding(cats1, c, from, ChainOf(cats1, from));
    ChainUnique(cats1 - {c}, from, ChainOf(cats1, from), ChainOf(cats1 - {c}, from));
  }

  /** Each channel's chain of categories is its old one with `c` dropped. */
  lemma {:induction false} ChannelChainAfterRemoval(cats: Categories, chans: Channels, c: Id, now: int, h: Id)
    requires WellFormed(cats, chans) && c in cats && h in chans
    ensures var after := Removed(cats, c, now);
            var chans1 := ChannelsAfter(cats, chans, c, now);
            && Reaches(cats, chans[h].category) && Reaches(after, chans1[h].category)
            && ChainOf(after, chans1[h].category) == Without(ChainOf(cats, chans[h].category), c)
  {
    if chans[h].category == Some(c) {
      PlacedReaches(cats, Some(c));
      NotOwnParent(cats, c);
      SurvivorChain(cats, c, now, cats[c].parent);
      var chain := ChainOf(cats, Some(c));
      ChainUnique(cats, cats[c].parent, chain[1..], ChainOf(cats, cats[c].parent));
    } else {
      SurvivorChain(cats, c, now, chans[h].category);
    }
  }

  // ---------------------------------------------------------------- bulk layout

  /** The last entry for `id`: a bulk write applies its updates in order. */
  function LastEntry(entries: seq<Entry>, id: Id): Option<Entry> {
    if entries == [] then None
    else if entries[|entries| - 1].id == id then Some(entries[|entries| - 1])
    else LastEntry(entries[..|entries| - 1], id)
  }

  /** Entry `i` is the last one for `id`. */
  predicate LastFor(entries: seq<Entry>, id: Id, i: int) {
    0 <= i < |entries| && entries[i].id == id && forall j | i < j < |entries| :: entries[j].id != id
  }

  /** Whatever a layout mentions has a last entry. */
  lemma {:induction false} HasLast(entries: seq<Entry>, i: nat) returns (n: nat)
    requires i < |entries|
    ensures i <= n < |entries| && LastFor(entries, entries[i].id, n)
    decreases |entries| - i
  {
    if j: nat :| i < j < |entries| && entries[j].id == entries[i].id {
      n := HasLast(entries, j);
    } else {
      n := i;
    }
  }

  lemma {:induction false} LastEntries(entries: seq<Entry>)
    ensures forall id, i | LastFor(entries, id, i) :: LastEntry(entries, id) == Some(entries[i])
    ensures forall id | forall i | 0 <= i < |entries| :: entries[i].id != id :: LastEntry(entries, id) == None
    decreases |entries|
  {
    if entries != [] {
      var init := entries[..|entries| - 1];
      LastEntries(init);
      forall id, i | LastFor(entries, id, i) ensures LastEntry(entries, id) == Some(entries[i]) {
        if i < |init| { assert LastFor(init, id, i); }
      }
    }
  }

  /** `setLayout` on categories: each category of the Space that the layout mentions takes its last
      entry; entries for unknown or foreign categories do nothing. */
  function LaidOut(cats: Categories, space: Id, entries: seq<Entry>, now: int): Categories {
    map k | k in cats ::
      var e := LastEntry(entries, k);
      if cats[k].spaceId == space && e.Some?
      then cats[k].(parent := e.value.parent, position := e.value.position, updatedAt := now) else cats[k]
  }

  function ChannelsLaidOut(chans: Channels, space: Id, entries: seq<Entry>, now: int): Channels {
    map k | k in chans ::
      var e := LastEntry(entries, k);
      if chans[k].spaceId == space && e.Some?
      then chans[k].(category := e.value.parent, position := e.value.position, updatedAt := now) else chans[k]
  }

  /** Whose child each category of the Space is once the layout is written. */
  function NewParents(cats: Categories, space: Id, entries: seq<Entry>): Parents {
    map k | k in cats && cats[k].spaceId == space ::
      var e := LastEntry(entries, k); if e.Some? then e.value.parent else cats[k].parent
  }

  type Parents = map<Id, Option<Id>>

  /** The walk from `id` up to a category without a parent; there is none past an unknown category. */
  ghost predicate IsWalk(parents: Parents, id: Id, walk: seq<Id>)
    decreases |walk|
  {
    && walk != [] && walk[0] == id && id in parents
    && match parents[id]
       case None => walk == [id]
       case Some(p) => IsWalk(parents, p, walk[1..])
  }

  ghost predicate Ends(parents: Parents, id: Id) { exists walk :: IsWalk(parents, id, walk) }

  /** Whatever the layout mentions, writing it leaves a forest exactly when the walk from every category
      of the Space ends: parents that are written must exist in the Space and must not close a cycle. */
  lemma SetLayoutForestIff(cats: Categories, chans: Channels, space: Id, entries: seq<Entry>, now: int)
    requires WellFormed(cats, chans)
    ensures WellFormed(LaidOut(cats, space, entries, now), chans)
            <==> forall k | k in cats && cats[k].spaceId == space :: Ends(NewParents(cats, space, entries), k)
  {
    var after, parents := LaidOut(cats, space, entries, now), NewParents(cats, space, entries);
    if forall k | k in cats && cats[k].spaceId == space :: Ends(parents, k) {
      LayoutPlaces(cats, space, entries, now);
      ForestIffAllReachRoot(after);
      forall x | x in after ensures Reaches(after, Some(x)) {
        if cats[x].spaceId == space {
          var walk :| IsWalk(parents, x, walk);
          WalkIsChain(cats, space, entries, now, x, walk);
        } else {
          PlacedReaches(cats, Some(x));
          ForeignChain(cats, space, entries, now, Some(x), ChainOf(cats, Some(x)));
        }
      }
    }
    if WellFormed(after, chans) {
      ForestIffAllReachRoot(after);
      forall k | k in cats && cats[k].spaceId == space ensures Ends(parents, k) {
        ChainIsWalk(cats, space, entries, now, k, ChainOf(after, Some(k)));
      }
    }
  }

  /** A walk that ends goes through categories of the Space only. */
  lemma LayoutPlaces(cats: Categories, space: Id, entries: seq<Entry>, now: int)
    requires NoDangling(cats)
    requires forall k | k in cats && cats[k].spaceId == space :: Ends(NewParents(cats, space, entries), k)
    ensures NoDangling(LaidOut(cats, space, entries, now))
  {
    var after, parents := LaidOut(cats, space, entries, now), NewParents(cats, space, entries);
    forall x | x in after && after[x].parent.Some?
      ensures after[x].parent.value in after && after[after[x].parent.value].spaceId == after[x].spaceId
    {
      if cats[x].spaceId == space {
        var walk :| IsWalk(parents, x, walk);
        assert after[x].parent == parents[x];
        assert IsWalk(parents, parents[x].value, walk[1..]);
      }
    }
  }

  lemma {:induction false} WalkIsChain(cats: Categories, space: Id, entries: seq<Entry>, now: int, k: Id, walk: seq<Id>)
    requires IsWalk(NewParents(cats, space, entries), k, walk)
    ensures IsChain(LaidOut(cats, space, entries, now), Some(k), walk)
    decreases |walk|
  {
    var p := NewParents(cats, space, entries)[k];
    if p.Some? { WalkIsChain(cats, space, entries, now, p.value, walk[1..]); }
  }

  lemma {:induction false} ChainIsWalk(cats: Categories, space: Id, entries: seq<Entry>, now: int, k: Id, chain: seq<Id>)
    requires NoDangling(LaidOut(cats, space, entries, now)) && k in cats && cats[k].spaceId == space
    requires IsChain(LaidOut(cats, space, entries, now), Some(k), chain)
    ensures IsWalk(NewParents(cats, space, entries), k, chain)
    decreases |chain|
  {
    var after := LaidOut(cats, space, entries, now);
    assert after[k].parent == NewParents(cats, space, entries)[k];
    var p := after[k].parent;
    if p.Some? {
      ChainIsWalk(cats, space, entries, now, p.value, chain[1..]);
    } else {
      assert chain == [chain[0]] + chain[1..];
    }
  }

  lemma {:induction false} ForeignChain(cats: Categories, space: Id, entries: seq<Entry>, now: int, from: Option<Id>, chain: seq<Id>)
    requires NoDangling(cats) && IsChain(cats, from, chain)
    requires from.Some? ==> from.value in cats && cats[from.value].spaceId != space
    ensures IsChain(LaidOut(cats, space, entries, now), from, chain)
    decreases |chain|
  {
    if from.Some? { ForeignChain(cats, space, entries, now, cats[from.value].parent, chain[1..]); }
  }

  // ---------------------------------------------------------------- the service's guard

  /** The greatest nesting depth, a root being at depth 1. */
  const SPACE_CATEGORY_MAX_DEPTH: nat := 5

  ghost predicate EndsWithin(parents: Parents, id: Id, n: nat) {
    exists walk :: IsWalk(parents, id, walk) && |walk| <= n
  }

  lemma {:induction false} WalkUnique(parents: Parents, id: Id, a: seq<Id>, b: seq<Id>)
    requires IsWalk(parents, id, a) && IsWalk(parents, id, b)
    ensures a == b
    decreases |a|
  {
    match parents[id]
    case None =>
    case Some(p) =>
      WalkUnique(parents, p, a[1..], b[1..]);
      assert a == [a[0]] + a[1..] && b == [b[0]] + b[1..];
  }

  /** `path` climbs from `id`, and its last category's parent is `next`. */
  ghost predicate Climbs(parents: Parents, id: Id, path: seq<Id>, next: Id)
    decreases |path|
  {
    if path == [] then next == id
    else path[0] == id && id in parents && parents[id].Some? && Climbs(parents, parents[id].value, path[1..], next)
  }

  lemma {:induction false} ClimbOneMore(parents: Parents, id: Id, path: seq<Id>, next: Id)
    requires Climbs(parents, id, path, next) && next in parents && parents[next].Some?
    ensures Climbs(parents, id, path + [next], parents[next].value)
    decreases |path|
  {
    if path == [] {
      assert ([] + [next])[1..] == [];
    } else {
      ClimbOneMore(parents, parents[id].value, path[1..], next);
      assert (path + [next])[1..] == path[1..] + [next];
    }
  }

  /** Every walk from `id` starts with what was climbed and goes on from there. */
  lemma {:induction false} WalkGoesOn(parents: Parents, id: Id, path: seq<Id>, next: Id, walk: seq<Id>)
    requires Climbs(parents, id, path, next) && IsWalk(parents, id, walk)
    ensures |walk| > |path| && path == walk[..|path|] && IsWalk(parents, next, walk[|path|..])
    decreases |path|
  {
    if path == [] {
      assert walk[0..] == walk;
    } else {
      WalkGoesOn(parents, parents[id].value, path[1..], next, walk[1..]);
      assert walk[1..][|path| - 1..] == walk[|path|..];
      assert path == [path[0]] + path[1..];
    }
  }

  /** A climb that stops at a root is a walk. */
  lemma {:induction false} ClimbIsWalk(parents: Parents, id: Id, path: seq<Id>, next: Id)
    requires Climbs(parents, id, path, next) && next in parents && parents[next] == None
    ensures IsWalk(parents, id, path + [next])
    decreases |path|
  {
    if path == [] {
      assert [] + [next] == [next];
    } else {
      ClimbIsWalk(parents, parents[id].value, path[1..], next);
      assert (path + [next])[1..] == path[1..] + [next];
    }
  }

  /** A climb that meets a category again never ends. */
  lemma RepeatNeverEnds(parents: Parents, id: Id, path: seq<Id>, next: Id)
    requires Climbs(parents, id, path, next) && next in path
    ensures !Ends(parents, id)
  {
    if walk :| IsWalk(parents, id, walk) {
      WalkGoesOn(parents, id, path, next, walk);
      var j :| 0 <= j < |path| && path[j] == next;
      ClimbPrefix(parents, id, path, next, j);
      WalkGoesOn(parents, id, path[..j], path[j], walk);
      WalkUnique(parents, next, walk[j..], walk[|path|..]);
    }
  }

  lemma {:induction false} ClimbPrefix(parents: Parents, id: Id, path: seq<Id>, next: Id, j: nat)
    requires Climbs(parents, id, path, next) && j < |path|
    ensures Climbs(parents, id, path[..j], path[j])
    decreases |path|
  {
    if j > 0 {
      ClimbPrefix(parents, parents[id].value, path[1..], next, j - 1);
      assert path[..j][1..] == path[1..][..j - 1];
    }
  }

  /** The depth of a category: none on a cycle or an unknown parent met within the greatest depth, one
      more than the greatest depth when the walk is longer. */
  method CategoryDepth(categoryId: Id, parents: Parents) returns (depth: Option<nat>)
    ensures depth.Some? && depth.value <= SPACE_CATEGORY_MAX_DEPTH ==>
              exists walk :: IsWalk(parents, categoryId, walk) && |walk| == depth.value
    ensures depth.Some? && depth.value <= SPACE_CATEGORY_MAX_DEPTH <==> EndsWithin(parents, categoryId, SPACE_CATEGORY_MAX_DEPTH)
    ensures depth == None ==> !Ends(parents, categoryId)
  {
    var d, current, seen := 1, categoryId, {};
    ghost var path: seq<Id> := [];
    while true
      invariant Climbs(parents, categoryId, path, current)
      invariant forall x :: x in seen <==> x in path
      invariant d == |path| + 1 <= SPACE_CATEGORY_MAX_DEPTH
      decreases SPACE_CATEGORY_MAX_DEPTH - d
    {
      if current in seen {
        RepeatNeverEnds(parents, categoryId, path, current);
        return None;
      }
      seen := seen + {current};
      if current !in parents {
        forall walk | IsWalk(parents, categoryId, walk) ensures false {
          WalkGoesOn(parents, categoryId, path, current, walk);
        }
        return None;
      }
      if parents[current] == None {
        ClimbIsWalk(parents, categoryId, path, current);
        return Some(d);
      }
      ClimbOneMore(parents, categoryId, path, current);
      path := path + [current];
      current := parents[current].value;
      d := d + 1;
      if d > SPACE_CATEGORY_MAX_DEPTH {
        forall walk | IsWalk(parents, categoryId, walk) ensures |walk| > SPACE_CATEGORY_MAX_DEPTH {
          WalkGoesOn(parents, categoryId, path, current, walk);
        }
        return Some(d);
      }
    }
  }

  /** The check before a layout is written: every category's depth is known and not too great. */
  method LayoutAllowed(parents: Parents) returns (ok: bool)
    ensures ok <==> forall k | k in parents :: EndsWithin(parents, k, SPACE_CATEGORY_MAX_DEPTH)
  {
    var rest := parents.Keys;
    while rest != {}
      invariant rest <= parents.Keys
      invariant forall k | k in parents && k !in rest :: EndsWithin(parents, k, SPACE_CATEGORY_MAX_DEPTH)
      decreases rest
    {
      var k :| k in rest;
      var depth := CategoryDepth(k, parents);
      if depth == None || depth.value > SPACE_CATEGORY_MAX_DEPTH { return false; }
      rest := rest - {k};
    }
    ok := true;
  }

  /** The check passes exactly when writing the layout leaves a forest in which no category of the Space
      is nested deeper than allowed. */
  lemma GuardedLayoutIff(cats: Categories, chans: Channels, space: Id, entries: seq<Entry>, now: int)
    requires WellFormed(cats, chans)
    ensures var after, parents := LaidOut(cats, space, entries, now), NewParents(cats, space, entries);
            (forall k | k in parents :: EndsWithin(parents, k, SPACE_CATEGORY_MAX_DEPTH)) <==>
              && WellFormed(after, chans)
              && forall k | k in cats && cats[k].spaceId == space ::
                   Reaches(after, Some(k)) && |ChainOf(after, Some(k))| <= SPACE_CATEGORY_MAX_DEPTH
  {
    var after, parents := LaidOut(cats, space, entries, now), NewParents(cats, space, entries);
    SetLayoutForestIff(cats, chans, space, entries, now);
    if forall k | k in parents :: EndsWithin(parents, k, SPACE_CATEGORY_MAX_DEPTH) {
      forall k | k in cats && cats[k].spaceId == space
        ensures Ends(parents, k) && Reaches(after, Some(k)) && |ChainOf(after, Some(k))| <= SPACE_CATEGORY_MAX_DEPTH
      {
        assert k in parents && EndsWithin(parents, k, SPACE_CATEGORY_MAX_DEPTH);
        var walk :| IsWalk(parents, k, walk) && |walk| <= SPACE_CATEGORY_MAX_DEPTH;
        WalkIsChain(cats, space, entries, now, k, walk);
        ChainUnique(after, Some(k), walk, ChainOf(after, Some(k)));
      }
    } else if WellFormed(after, chans) {
      var k :| k in parents && !EndsWithin(parents, k, SPACE_CATEGORY_MAX_DEPTH);
      if Reaches(after, Some(k)) {
        ChainIsWalk(cats, space, entries, now, k, ChainOf(after, Some(k)));
      }
    }
  }

  /** The repository alone accepts a layout that closes a cycle: two root categories, each filed under the other. */
  lemma SetLayoutCanCloseACycle(now: int)
    ensures var cats := map[1 := Category(0, None, 0, 0), 2 := Category(0, None, 1, 0)];
            var entries := [Entry(1, Some(2), 0), Entry(2, Some(1), 0)];
            && WellFormed(cats, map[])
            && !WellFormed(LaidOut(cats, 0, entries, now), map[])
  {
    var cats := map[1 := Category(0, None, 0, 0), 2 := Category(0, None, 1, 0)];
    var entries := [Entry(1, Some(2), 0), Entry(2, Some(1), 0)];
    assert entries[..1] == [entries[0]];
    assert LastEntry(entries, 2) == Some(entries[1]) && LastEntry(entries, 1) == Some(entries[0]);
    forall x | x in cats ensures Reaches(cats, Some(x)) { assert IsChain(cats, Some(x), [x]); }
    ForestIffAllReachRoot(cats);
    var after := LaidOut(cats, 0, entries, now);
    assert IsPath(after, [1, 2, 1]);
    assert Ancestor(after, 1, 1);
  }

  // ---------------------------------------------------------------- the repositories

  /** The documents an update really changed. */
  function Modified<D(==)>(before: map<Id, D>, after: map<Id, D>): set<Id> {
    set k | k in before && k in after && before[k] != after[k]
  }

  lemma OneModified<D>(before: map<Id, D>, docs: map<Id, D>, k: Id, updated: D)
    requires k in docs && k in before && docs[k] == before[k]
    ensures |Modified(before, docs[k := updated])| == |Modified(before, docs)| + (if updated != docs[k] then 1 else 0)
  {
    assert Modified(before, docs[k := updated]) == Modified(before, docs) + (if updated != docs[k] then {k} else {});
  }

  class SpaceChannelCategoryRepository {
    var docs: Categories

    constructor ()
      ensures docs == map[]
    {
      docs := map[];
    }

    /** Promotes nested categories from one parent to another (None is the root). */
    method ReparentChildren(spaceId: Id, fromParentId: Id, toParentId: Option<Id>, now: int) returns (modified: nat)
      modifies this
      ensures docs == Reparented(old(docs), spaceId, fromParentId, toParentId, now)
      ensures docs.Keys == old(docs).Keys && forall k | k in docs ::
        docs[k] == if old(docs)[k].spaceId == spaceId && old(docs)[k].parent == Some(fromParentId)
                   then old(docs)[k].(parent := toParentId, updatedAt := now) else old(docs)[k]
      ensures modified == |Modified(old(docs), docs)|
    {
      ghost var before := docs;
      modified := 0;
      var rest := docs.Keys;
      while rest != {}
        invariant rest <= docs.Keys == before.Keys
        invariant forall k | k in docs ::
          docs[k] == if k in rest then before[k] else Reparented(before, spaceId, fromParentId, toParentId, now)[k]
        invariant modified == |Modified(before, docs)|
        decreases rest
      {
        var k :| k in rest;
        if docs[k].spaceId == spaceId && docs[k].parent == Some(fromParentId) {
          var updated := docs[k].(parent := toParentId, updatedAt := now);
          OneModified(before, docs, k, updated);
          if updated != docs[k] { modified := modified + 1; }
          docs := docs[k := updated];
        }
        rest := rest - {k};
      }
    }

    method DeleteCategory(spaceId: Id, categoryId: Id) returns (deleted: bool)
      modifies this
      ensures deleted <==> categoryId in old(docs) && old(docs)[categoryId].spaceId == spaceId
      ensures docs == Deleted(old(docs), spaceId, categoryId)
      ensures docs == if deleted then old(docs) - {categoryId} else old(docs)
    {
      deleted := categoryId in docs && docs[categoryId].spaceId == spaceId;
      if deleted { docs := docs - {categoryId}; }
    }

    /** Bulk-sets parent and position, one update per entry, in order. */
    method SetLayout(spaceId: Id, entries: seq<Entry>, now: int)
      modifies this
      ensures docs == LaidOut(old(docs), spaceId, entries, now)
      ensures docs.Keys == old(docs).Keys
      ensures forall k | k in docs && (old(docs)[k].spaceId != spaceId || forall i | 0 <= i < |entries| :: entries[i].id != k) ::
        docs[k] == old(docs)[k]
      ensures forall k, i | k in docs && old(docs)[k].spaceId == spaceId && LastFor(entries, k, i) ::
        docs[k] == old(docs)[k].(parent := entries[i].parent, position := entries[i].position, updatedAt := now)
    {
      LastEntries(entries);
      var i := 0;
      while i < |entries|
        invariant 0 <= i <= |entries|
        invariant docs == LaidOut(old(docs), spaceId, entries[..i], now)
      {
        var e := entries[i];
        assert entries[..i + 1][..i] == entries[..i];
        if e.id in docs && docs[e.id].spaceId == spaceId {
          docs := docs[e.id := docs[e.id].(parent := e.parent, position := e.position, updatedAt := now)];
        }
        i := i + 1;
      }
      assert entries[..i] == entries;
    }
  }

  class SpaceChannelRepository {
    var docs: Channels

    constructor ()
      ensures docs == map[]
    {
      docs := map[];
    }

    /** Moves all channels of one category to another (None is uncategorized). */
    method ReparentChannels(spaceId: Id, fromCategoryId: Id, toCategoryId: Option<Id>, now: int) returns (modified: nat)
      modifies this
      ensures docs == Moved(old(docs), spaceId, fromCategoryId, toCategoryId, now)
      ensures docs.Keys == old(docs).Keys && forall h | h in docs ::
        docs[h] == if old(docs)[h].spaceId == spaceId && old(docs)[h].category == Some(fromCategoryId)
                   then old(docs)[h].(category := toCategoryId, updatedAt := now) else old(docs)[h]
      ensures modified == |Modified(old(docs), docs)|
    {
      ghost var before := docs;
      modified := 0;
      var rest := docs.Keys;
      while rest != {}
        invariant rest <= docs.Keys == before.Keys
        invariant forall k | k in docs ::
          docs[k] == if k in rest then before[k] else Moved(before, spaceId, fromCategoryId, toCategoryId, now)[k]
        invariant modified == |Modified(before, docs)|
        decreases rest
      {
        var k :| k in rest;
        if docs[k].spaceId == spaceId && docs[k].category == Some(fromCategoryId) {
          var updated := docs[k].(category := toCategoryId, updatedAt := now);
          OneModified(before, docs, k, updated);
          if updated != docs[k] { modified := modified + 1; }
          docs := docs[k := updated];
        }
        rest := rest - {k};
      }
    }

    /** Uncategorizes every channel of a category. */
    method ClearCategory(spaceId: Id, categoryId: Id, now: int) returns (modified: nat)
      modifies this
      ensures docs == Moved(old(docs), spaceId, categoryId, None, now)
      ensures docs.Keys == old(docs).Keys && forall h | h in docs ::
        docs[h] == if old(docs)[h].spaceId == spaceId && old(docs)[h].category == Some(categoryId)
                   then old(docs)[h].(category := None, updatedAt := now) else old(docs)[h]
      ensures modified == |Modified(old(docs), docs)|
    {
      modified := ReparentChannels(spaceId, categoryId, None, now);
    }

    method SetLayout(spaceId: Id, entries: seq<Entry>, now: int)
      modifies this
      ensures docs == ChannelsLaidOut(old(docs), spaceId, entries, now)
      ensures docs.Keys == old(docs).Keys
      ensures forall h | h in docs && (old(docs)[h].spaceId != spaceId || forall i | 0 <= i < |entries| :: entries[i].id != h) ::
        docs[h] == old(docs)[h]
      ensures forall h, i | h in docs && old(docs)[h].spaceId == spaceId && LastFor(entries, h, i) ::
        docs[h] == old(docs)[h].(category := entries[i].parent, position := entries[i].position, updatedAt := now)
    {
      LastEntries(entries);
      var i := 0;
      while i < |entries|
        invariant 0 <= i <= |entries|
        invariant docs == ChannelsLaidOut(old(docs), spaceId, entries[..i], now)
      {
        var e := entries[i];
        assert entries[..i + 1][..i] == entries[..i];
        if e.id in docs && docs[e.id].spaceId == spaceId {
          docs := docs[e.id := docs[e.id].(category := e.parent, position := e.position, updatedAt := now)];
        }
        i := i + 1;
      }
      assert entries[..i] == entries;
    }
  }

  /** The removal as the category service runs it, channels first.  Whatever well-formed forest it
      starts from, it ends in a well-formed one without the category. */
  method DeleteSpaceChannelCategory(
    categories: SpaceChannelCategoryRepository, channels: SpaceChannelRepository,
    spaceId: Id, categoryId: Id, now: int) returns (ok: bool)
    requires WellFormed(categories.docs, channels.docs)
    modifies categories, channels
    ensures ok <==> categoryId in old(categories.docs) && old(categories.docs)[categoryId].spaceId == spaceId
    ensures WellFormed(categories.docs, channels.docs)
    ensures !ok ==> categories.docs == old(categories.docs) && channels.docs == old(channels.docs)
    ensures ok ==> categories.docs.Keys == old(categories.docs).Keys - {categoryId}
    ensures ok ==> forall x, y | x in categories.docs && y in categories.docs ::
      Ancestor(categories.docs, x, y) <==> Ancestor(old(categories.docs), x, y)
    ensures ok ==> forall x | x in categories.docs ::
      var was, promoteTo := old(categories.docs)[x], old(categories.docs)[categoryId].parent;
      categories.docs[x] == if was.spaceId == spaceId && was.parent == Some(categoryId)
                            then was.(parent := promoteTo, updatedAt := now) else was
    ensures channels.docs.Keys == old(channels.docs).Keys
    ensures ok ==> forall h | h in channels.docs ::
      var was, promoteTo := old(channels.docs)[h], old(categories.docs)[categoryId].parent;
      channels.docs[h] == if was.spaceId == spaceId && was.category == Some(categoryId)
                          then was.(category := promoteTo, updatedAt := now) else was
    ensures ok ==> forall h | h in channels.docs ::
      && Reaches(old(categories.docs), old(channels.docs)[h].category)
      && Reaches(categories.docs, channels.docs[h].category)
      && ChainOf(categories.docs, channels.docs[h].category)
         == Without(ChainOf(old(categories.docs), old(channels.docs)[h].category), categoryId)
  {
    if categoryId !in categories.docs || categories.docs[categoryId].spaceId != spaceId {
      return false;
    }
    ghost var before, filed := categories.docs, channels.docs;
    RemovalKeepsForest(before, channels.docs, categoryId, now);
    var promoteTo := categories.docs[categoryId].parent;
    var _ := channels.ReparentChannels(spaceId, categoryId, promoteTo, now);
    var _ := categories.ReparentChildren(spaceId, categoryId, promoteTo, now);
    ok := categories.DeleteCategory(spaceId, categoryId);
    forall x, y | x in categories.docs && y in categories.docs
      ensures Ancestor(categories.docs, x, y) <==> Ancestor(before, x, y)
    {
      RemovalKeepsAncestry(before, categoryId, now, x, y);
    }
    forall h | h in channels.docs
      ensures Reaches(before, filed[h].category) && Reaches(categories.docs, channels.docs[h].category)
      ensures ChainOf(categories.docs, channels.docs[h].category) == Without(ChainOf(before, filed[h].category), categoryId)
    {
      ChannelChainAfterRemoval(before, filed, categoryId, now, h);
    }
  }
}
