/** The pub/sub channel names of the chat service and how an incoming channel is routed back to its subject. */
module ChatChannels {
  /** An identity or space id. The empty string is an id like any other here; the filters treat it specially. */
  datatype Id = Id(text: string)

  datatype Channel = IdentityChannel(identity: Id) | SpaceChannel(space: Id)

  const IDENTITY := "identity:"
  const SPACE := "space:"

  /** The name a channel is tracked under, without the key prefix. */
  function ChannelText(c: Channel): string {
    match c
    case IdentityChannel(id) => IDENTITY + id.text
    case SpaceChannel(id) => SPACE + id.text
  }

  /** `s.replace(p, '')`: the first occurrence of `p`, wherever it is, is removed. */
  function ReplaceFirst(s: string, p: string): string
    requires p != ""
    decreases |s|
  {
    if p <= s then s[|p|..]
    else if s == "" then ""
    else [s[0]] + ReplaceFirst(s[1..], p)
  }

  /** The subject of a channel as the message handler reads it. */
  function Route(prefix: string, channel: string): Channel {
    var unprefixed := if prefix <= channel then channel[|prefix|..] else channel;
    if SPACE <= unprefixed then SpaceChannel(Id(unprefixed[|SPACE|..]))
    else IdentityChannel(Id(ReplaceFirst(unprefixed, IDENTITY)))
  }

  /** The leftmost place where `p` stands in `s`. */
  predicate Leftmost(s: string, p: string, i: nat) {
    i <= |s| && p <= s[i..] && forall j :: 0 <= j < i ==> !(p <= s[j..])
  }

  /** What replacing means: the leftmost occurrence is cut out; without one the text stays as it is. */
  lemma ReplaceFirstCuts(s: string, p: string)
    requires p != ""
    ensures forall i: nat :: Leftmost(s, p, i) ==> ReplaceFirst(s, p) == s[..i] + s[i + |p|..]
    ensures (forall i: nat :: !Leftmost(s, p, i)) ==> ReplaceFirst(s, p) == s
  {
    forall i: nat | Leftmost(s, p, i) ensures ReplaceFirst(s, p) == s[..i] + s[i + |p|..] {
      CutAt(s, p, i);
    }
    if forall i: nat :: !Leftmost(s, p, i) {
      StandsNowhere(s, p, |s|);
      NothingToCut(s, p);
    }
  }

  lemma {:induction false} StandsNowhere(s: string, p: string, n: nat)
    requires n <= |s| && forall i: nat :: !Leftmost(s, p, i)
    ensures forall j :: 0 <= j <= n ==> !(p <= s[j..])
    decreases n
  {
    if n > 0 { StandsNowhere(s, p, n - 1); }
    assert !Leftmost(s, p, n);
  }

  lemma {:induction false} CutAt(s: string, p: string, i: nat)
    requires p != "" && Leftmost(s, p, i)
    ensures ReplaceFirst(s, p) == s[..i] + s[i + |p|..]
    decreases i
  {
    assert s[0..] == s;
    if i > 0 {
      assert !(p <= s[0..]);
      var t := s[1..];
      assert t[i - 1..] == s[i..];
      forall j | 0 <= j < i - 1 ensures !(p <= t[j..]) {
        assert t[j..] == s[j + 1..];
      }
      CutAt(t, p, i - 1);
      assert ReplaceFirst(s, p) == [s[0]] + ReplaceFirst(t, p);
      CutShifts(s, i, i + |p|);
    }
  }

  lemma {:induction false} NothingToCut(s: string, p: string)
    requires p != "" && forall j :: 0 <= j <= |s| ==> !(p <= s[j..])
    ensures ReplaceFirst(s, p) == s
    decreases |s|
  {
    assert s[0..] == s;
    assert !(p <= s[0..]);
    if s != "" {
      var t := s[1..];
      forall j | 0 <= j <= |t| ensures !(p <= t[j..]) {
        assert t[j..] == s[j + 1..];
      }
      NothingToCut(t, p);
    }
  }

  lemma CutShifts(s: string, i: nat, j: nat)
    requires 0 < i <= j <= |s|
    ensures [s[0]] + (s[1..][..i - 1] + s[1..][j - 1..]) == s[..i] + s[j..]
  {
    assert s[1..][j - 1..] == s[j..];
    assert [s[0]] + s[1..][..i - 1] == s[..i];
  }

  /** A message published for an identity or a space reaches that very subject, whatever its id and the prefix. */
  lemma RouteUndoesNaming(prefix: string, c: Channel)
    ensures ChannelText(c) == if c.SpaceChannel? then "space:" + c.space.text else "identity:" + c.identity.text
    ensures Route(prefix, prefix + ChannelText(c)) == c
  {
    var t := ChannelText(c);
    assert (prefix + t)[|prefix|..] == t;
    match c
    case SpaceChannel(id) =>
      assert t[|SPACE|..] == id.text;
    case IdentityChannel(id) =>
      assert t[0] == 'i';
      assert t[|IDENTITY|..] == id.text;
  }

  /** No two channels share a name, so tracking names is tracking channels. */
  lemma NamesAreDistinct(prefix: string, c: Channel, d: Channel)
    requires prefix + ChannelText(c) == prefix + ChannelText(d)
    ensures c == d
  {
    RouteUndoesNaming(prefix, c);
    RouteUndoesNaming(prefix, d);
  }
}
