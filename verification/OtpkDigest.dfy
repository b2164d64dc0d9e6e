/** The text that client and server hash to compare their pools of one-time pre-keys
    (`pre-key.repository.ts`, getUnconsumedOtpkDigest): the key ids, sorted and joined with commas.
    The hash itself is not modelled; everything is stated about its input. */
module OtpkDigest {

  /** Lexicographic order of strings, character by character. */
  predicate Leq(a: string, b: string) {
    a == [] || (b != [] && (a[0] < b[0] || (a[0] == b[0] && Leq(a[1..], b[1..]))))
  }

  lemma {:induction false} LeqTotal(a: string, b: string)
    ensures Leq(a, b) || Leq(b, a)
  {
    if a != [] && b != [] && a[0] == b[0] { LeqTotal(a[1..], b[1..]); }
  }

  /** The first character in which two texts differ decides; a prefix comes first. */
  lemma {:induction false} FirstDifferenceDecides(a: string, b: string, n: nat)
    requires n <= |a| && n <= |b| && a[..n] == b[..n]
    ensures n < |a| && n < |b| && a[n] != b[n] ==> (Leq(a, b) <==> a[n] < b[n])
    ensures n == |a| ==> Leq(a, b)
    ensures n == |b| < |a| ==> !Leq(a, b)
  {
    if n > 0 {
      assert a[0] == a[..n][0] && b[0] == b[..n][0];
      assert a[1..][..n - 1] == a[..n][1..] && b[1..][..n - 1] == b[..n][1..];
      FirstDifferenceDecides(a[1..], b[1..], n - 1);
    }
  }

  lemma {:induction false} LeqAntisymmetric(a: string, b: string)
    requires Leq(a, b) && Leq(b, a)
    ensures a == b
  {
    if a != [] && b != [] {
      LeqAntisymmetric(a[1..], b[1..]);
      assert a == [a[0]] + a[1..] && b == [b[0]] + b[1..];
    }
  }

  lemma {:induction false} LeqTransitive(a: string, b: string, c: string)
    requires Leq(a, b) && Leq(b, c)
    ensures Leq(a, c)
  {
    if a != [] && b != [] && c != [] && a[0] == b[0] && b[0] == c[0] { LeqTransitive(a[1..], b[1..], c[1..]); }
  }

  predicate IsSorted(ids: seq<string>) {
    ids == [] || ((forall x | x in ids[1..] :: Leq(ids[0], x)) && IsSorted(ids[1..]))
  }

  function Insert(x: string, ids: seq<string>): (r: seq<string>)
    ensures multiset(r) == multiset(ids) + multiset{x}
  {
    if ids == [] || Leq(x, ids[0]) then [x] + ids
    else
      assert ids == [ids[0]] + ids[1..];
      [ids[0]] + Insert(x, ids[1..])
  }

  function Sort(ids: seq<string>): (r: seq<string>)
    ensures multiset(r) == multiset(ids)
  {
    if ids == [] then []
    else
      assert ids == [ids[0]] + ids[1..];
      Insert(ids[0], Sort(ids[1..]))
  }

  lemma {:induction false} InsertKeepsSorted(x: string, ids: seq<string>)
    requires IsSorted(ids)
    ensures IsSorted(Insert(x, ids))
  {
    if ids != [] {
      LeqTotal(x, ids[0]);
      if Leq(x, ids[0]) {
        forall y | y in ids ensures Leq(x, y) {
          if y != ids[0] { assert y in ids[1..]; LeqTransitive(x, ids[0], y); }
        }
        assert ([x] + ids)[1..] == ids;
      } else {
        InsertKeepsSorted(x, ids[1..]);
        var rest := Insert(x, ids[1..]);
        forall y | y in rest ensures Leq(ids[0], y) {
          assert y in multiset(rest);
          assert y == x || y in ids[1..];
        }
        assert ([ids[0]] + rest)[1..] == rest;
      }
    }
  }

  lemma {:induction false} SortSorts(ids: seq<string>)
    ensures IsSorted(Sort(ids))
  {
    if ids != [] {
      SortSorts(ids[1..]);
      InsertKeepsSorted(ids[0], Sort(ids[1..]));
    }
  }

  lemma SortedHeadLeast(a: seq<string>, x: string)
    requires IsSorted(a) && x in a
    ensures Leq(a[0], x)
  {
    LeqTotal(x, x);
    assert a == [a[0]] + a[1..];
  }

  lemma TailMultiset(a: seq<string>)
    requires a != []
    ensures multiset(a[1..]) == multiset(a) - multiset{a[0]}
  {
    assert a == [a[0]] + a[1..];
  }

  /** Sorting is canonical: one sorted sequence per multiset. */
  lemma {:induction false} SortedUnique(a: seq<string>, b: seq<string>)
    requires IsSorted(a) && IsSorted(b) && multiset(a) == multiset(b)
    ensures a == b
    decreases |a|
  {
    assert |multiset(a)| == |a| && |multiset(b)| == |b|;
    if a != [] {
      assert a[0] in multiset(b) && b[0] in multiset(a);
      SortedHeadLeast(a, b[0]);
      SortedHeadLeast(b, a[0]);
      LeqAntisymmetric(a[0], b[0]);
      TailMultiset(a);
      TailMultiset(b);
      SortedUnique(a[1..], b[1..]);
      assert a == [a[0]] + a[1..] && b == [b[0]] + b[1..];
    }
  }

  /** Every text comes before every later one. */
  lemma {:induction false} SortedInOrder(ids: seq<string>, i: nat, j: nat)
    requires IsSorted(ids) && i < j < |ids|
    ensures Leq(ids[i], ids[j])
  {
    if i == 0 { assert ids[j] == ids[1..][j - 1]; } else { SortedInOrder(ids[1..], i - 1, j - 1); }
  }

  // ---------------------------------------------------------------- joining with commas

  function Join(ids: seq<string>): string {
    if ids == [] then "" else if |ids| == 1 then ids[0] else ids[0] + "," + Join(ids[1..])
  }

  /** Ids for which the comma is a separator. */
  predicate Plain(id: string) { id != "" && ',' !in id }

  predicate AllPlain(ids: seq<string>) { forall id | id in ids :: Plain(id) }

  /** Joining plain ids can be undone. */
  lemma {:induction false} JoinInjective(a: seq<string>, b: seq<string>)
    requires AllPlain(a) && AllPlain(b) && Join(a) == Join(b)
    ensures a == b
    decreases |a|
  {
    JoinEmpty(a);
    JoinEmpty(b);
    if a != [] {
      assert Plain(a[0]) && Plain(b[0]);
      HeadOfJoin(a);
      HeadOfJoin(b);
      FirstCommaAgrees(Join(a), a[0], b[0]);
      var n := |a[0]|;
      if |a| == 1 || |b| == 1 {
        assert |Join(a)| == n <==> |a| == 1;
        assert |Join(b)| == n <==> |b| == 1;
        assert a == [a[0]] && b == [b[0]];
      } else {
        assert Join(a)[n + 1..] == Join(a[1..]) && Join(b)[n + 1..] == Join(b[1..]);
        assert AllPlain(a[1..]) && AllPlain(b[1..]);
        JoinInjective(a[1..], b[1..]);
        assert a == [a[0]] + a[1..] && b == [b[0]] + b[1..];
      }
    }
  }

  lemma JoinEmpty(ids: seq<string>)
    requires AllPlain(ids)
    ensures Join(ids) == "" <==> ids == []
  {
    assert ids != [] ==> Plain(ids[0]);
  }

  /** `id` is the piece of `s` before its first comma. */
  predicate IsHead(s: string, id: string) {
    && ',' !in id && |id| <= |s| && s[..|id|] == id && (|id| == |s| || s[|id|] == ',')
  }

  lemma HeadOfJoin(ids: seq<string>)
    requires ids != [] && Plain(ids[0])
    ensures IsHead(Join(ids), ids[0])
  {
  }

  lemma FirstCommaBounds(s: string, x: string, y: string)
    requires IsHead(s, x) && IsHead(s, y)
    ensures |x| <= |y|
  {
    assert forall i | 0 <= i < |x| :: s[i] == x[i] && x[i] in x;
  }

  lemma FirstCommaAgrees(s: string, x: string, y: string)
    requires IsHead(s, x) && IsHead(s, y)
    ensures x == y
  {
    FirstCommaBounds(s, x, y);
    FirstCommaBounds(s, y, x);
  }

  // ---------------------------------------------------------------- the digest's input

  /** What the server hashes, given the key ids in the order the database returned them. */
  function Preimage(ids: seq<string>): string { Join(Sort(ids)) }

  /** The text hashed does not depend on the retrieval order and tells any two pools apart: two lists
      of plain key ids give the same text exactly when they hold the same ids. */
  lemma DigestIsCanonical(a: seq<string>, b: seq<string>)
    requires AllPlain(a) && AllPlain(b)
    ensures Preimage(a) == Preimage(b) <==> multiset(a) == multiset(b)
  {
    SortSorts(a);
    SortSorts(b);
    if multiset(a) == multiset(b) { SortedUnique(Sort(a), Sort(b)); }
    if Preimage(a) == Preimage(b) {
      SortKeepsPlain(a);
      SortKeepsPlain(b);
      JoinInjective(Sort(a), Sort(b));
    }
  }

  lemma SortKeepsPlain(ids: seq<string>)
    requires AllPlain(ids)
    ensures AllPlain(Sort(ids))
  {
    forall id | id in Sort(ids) ensures Plain(id) {
      assert id in multiset(Sort(ids));
      assert id in ids;
    }
  }

  /** Without plain ids the text is ambiguous: a comma inside an id, or an empty id, hides a boundary. */
  lemma DigestNeedsPlainIds()
    ensures Preimage(["a,b"]) == Preimage(["a", "b"]) && Preimage([""]) == Preimage([])
  {
    assert Sort(["b"]) == Insert("b", Sort([])) == ["b"];
    assert Sort(["a", "b"]) == Insert("a", ["b"]) by { assert ["a", "b"][1..] == ["b"]; }
    assert Insert("a", ["b"]) == ["a", "b"];
    assert Join(["a", "b"]) == "a" + "," + Join(["b"]) by { assert ["a", "b"][1..] == ["b"]; }
    assert Sort(["a,b"]) == Insert("a,b", Sort([])) == ["a,b"];
    assert Sort([""]) == Insert("", Sort([])) == [""];
  }
}
