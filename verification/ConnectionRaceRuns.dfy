/** Short runs from the start in which overlapping chat handlers do each of the harms. */
module ConnectionRaceRuns {
  import opened Optional
  import opened ChatChannels
  import opened ConnectionRegistry
  import opened ConnectionRaces
  import opened ConnectionSafety
  import opened ConnectionLosses
  import opened ConnectionLeaves

  const A := Id("a")
  const B := Id("b")
  const X := Id("x")

  ghost predicate Reachable(st: State) {
    exists events :: Legal(Start, events) && Run(Start, events) == st
  }

  lemma {:induction false} LegalSnoc(st: State, events: seq<Event>, e: Event)
    requires WellFormed(st) && Legal(st, events) && Possible(Run(st, events), e)
    ensures WellFormed(Step(Run(st, events), e))
    ensures Legal(st, events + [e]) && Run(st, events + [e]) == Step(Run(st, events), e)
    decreases |events|
  {
    StepFormed(Run(st, events), e);
    if events == [] {
      assert [] + [e] == [e];
      assert [e][1..] == [];
    } else {
      StepFormed(st, events[0]);
      LegalSnoc(Step(st, events[0]), events[1..], e);
      assert (events + [e])[1..] == events[1..] + [e];
    }
  }

  /** One more step of a reachable state. */
  lemma Then(st: State, e: Event) returns (w: State)
    requires Reachable(st) && WellFormed(st) && Possible(st, e)
    ensures WellFormed(w) && w == Step(st, e) && Reachable(w)
  {
    var events :| Legal(Start, events) && Run(Start, events) == st;
    LegalSnoc(Start, events, e);
    w := Step(st, e);
    assert Legal(Start, events + [e]);
  }

  ghost predicate Reached(st: State) { WellFormed(st) && Reachable(st) }

  /** The same for a step whose outcome is known. */
  lemma Reach(st: State, e: Event, w: State)
    requires Reached(st) && Possible(st, e) && Step(st, e) == w
    ensures Reached(w)
  {
    var v := Then(st, e);
  }

  lemma Begin() returns (w: State)
    ensures w == Start && WellFormed(w) && Reachable(w)
  {
    w := Start;
    assert Legal(Start, []);
  }

  // The objects of the runs, and their states one by one.

  const setA := SetRef(A, 0)
  const l1 := ListRef(1, 0)
  const l2 := ListRef(2, 0)
  const toX := SpaceChannel(X)
  const toA := IdentityChannel(A)


  const One := State(map[A := setA], map[setA := {1}], map[], {}, map[1 := Owner(A, l1)], map[l1 := [X]],
                     map[0 := Opening(1, l1, 0, true)], {1}, 1)
  const OneAsked := One.(tracked := {toA}, tasks := map[0 := Opening(1, l1, 0, false)])
  const OneInX := OneAsked.(spaces := map[X := {1}], tracked := {toA, toX}, tasks := map[0 := Opening(1, l1, 1, false)])

  /** Redis accepts an opening's identity channel. */
  lemma OpeningAnswered(st: State, t: nat)
    requires WellFormed(st) && t in st.tasks && st.tasks[t].Opening? && st.tasks[t].asking && st.tasks[t].ws in st.users
    ensures Step(st, Resume(t, true, true)) ==
            st.(tracked := st.tracked + {IdentityChannel(st.users[st.tasks[t].ws].identity)},
                tasks := st.tasks[t := st.tasks[t].(asking := false)])
  {}

  /** An opening enters the next space of its array. */
  lemma OpeningEnters(st: State, t: nat, x: Id, ws: Socket, list: ListRef, next: nat)
    requires WellFormed(st) && t in st.tasks && st.tasks[t] == Opening(ws, list, next, false)
    requires list in st.lists && next < |st.lists[list]| && st.lists[list][next] == x
    ensures Step(st, Resume(t, true, true)) ==
            st.(spaces := Put(st.spaces, x, ws), tracked := st.tracked + {SpaceChannel(x)},
                tasks := st.tasks[t := Opening(ws, list, next + 1, false)])
  {}

  lemma ReachedOne()
    ensures Reached(One)
  {
    var w := Begin();
    assert {} + {1} == {1};
    Reach(Start, Open(0, 1, A, [X]), One);
  }

  lemma OneEntersX()
    ensures Reached(One) && Step(One, Resume(0, true, true)) == OneAsked
    ensures Reached(OneAsked) && Step(OneAsked, Resume(0, true, true)) == OneInX
    ensures Reached(OneInX)
  {
    ReachedOne();
    OpeningAnswered(One, 0);
    Reach(One, Resume(0, true, true), OneAsked);
    OpeningEnters(OneAsked, 0, X, 1, l1, 0);
    assert At(OneAsked.spaces, X) + {1} == {1};
    assert Put(OneAsked.spaces, X, 1) == map[X := {1}];
    Reach(OneAsked, Resume(0, true, true), OneInX);
  }

  // ----- a closed socket left in a space -----

  const OneGone := One.(conns := map[], sets := map[setA := {}], live := {})
  const GoneAsked := OneGone.(tracked := {toA}, tasks := map[0 := Opening(1, l1, 0, false)])
  const OneBack := GoneAsked.(spaces := map[X := {1}], tracked := {toA, toX}, tasks := map[0 := Opening(1, l1, 1, false)])

  lemma OneClosesEarly()
    requires WellFormed(One)
    ensures Step(One, Close(1, 1, true)) == OneGone
  {
    CloseIsRemoval(One, 1, 1, true);
    assert {1} - {1} == {};
    assert Advance(One.spaces, One.tracked, [X], 0, 1, true) == Progress(map[], {}, 1, None, true);
  }

  lemma ReachedOneGone()
    ensures Reached(OneGone)
  {
    ReachedOne();
    OneClosesEarly();
    Reach(One, Close(1, 1, true), OneGone);
  }

  lemma ReachedGoneAsked()
    ensures Reached(GoneAsked)
  {
    ReachedOneGone();
    OpeningAnswered(OneGone, 0);
    Reach(OneGone, Resume(0, true, true), GoneAsked);
  }

  lemma ReachedOneBack()
    ensures Reached(OneBack)
  {
    ReachedGoneAsked();
    OpeningEnters(GoneAsked, 0, X, 1, l1, 0);
    assert At(GoneAsked.spaces, X) + {1} == {1};
    assert Put(GoneAsked.spaces, X, 1) == map[X := {1}];
    Reach(GoneAsked, Resume(0, true, true), OneBack);
  }

  /** A socket closes while its opening still waits; the opening then puts it into its space, where it stays. */
  lemma ClosedSocketIsLeft() returns (w: State)
    ensures Reachable(w) && w.tasks == map[] && 1 !in w.live && 1 in At(w.spaces, X)
  {
    ReachedOneBack();
    w := Then(OneBack, Resume(0, true, true));
  }

  // ----- a socket in a space its identity has left -----

  /** A leave handled while an opening still waits does nothing; the opening then enters the space all the same. */
  lemma LeaverStillEnters()
    ensures Reached(One) && Possible(One, MemberLeft(1, X, A, true)) && Step(One, MemberLeft(1, X, A, true)) == One
    ensures var events := [Resume(0, true, true), Resume(0, true, true)];
            Legal(One, events) && 1 in One.live && One.users[1].identity == A && 1 in At(Run(One, events).spaces, X)
  {
    OneEntersX();
    assert Legal(OneInX, []);
    Prepend(OneAsked, Resume(0, true, true), []);
    Prepend(One, Resume(0, true, true), [Resume(0, true, true)]);
    assert [Resume(0, true, true)] + [] == [Resume(0, true, true)];
    assert [Resume(0, true, true)] + [Resume(0, true, true)] == [Resume(0, true, true), Resume(0, true, true)];
  }

  // ----- a member that joined while its opening waits -----

  const Opened1 := One.(lists := map[l1 := []])
  const InX := Opened1.(spaces := map[X := {1}], lists := map[l1 := [X]], tracked := {toX})

  lemma ReachedInX()
    ensures Reached(InX)
  {
    var w := Begin();
    assert {} + {1} == {1};
    Reach(Start, Open(0, 1, A, []), Opened1);
    JoinsX();
    Reach(Opened1, MemberJoined(X, A), InX);
  }

  lemma JoinsX()
    requires WellFormed(Opened1)
    ensures Step(Opened1, MemberJoined(X, A)) == InX
  {
    assert Group(Opened1, A) == {1} && At(Opened1.spaces, X) + {1} == {1};
    assert Opened1.lists[l1] + [X] == [X];
    assert Step(Opened1, MemberJoined(X, A)).lists == map[l1 := [X]];
  }

  /** A closing whose one space is emptied waits there, for Redis when it is up. */
  lemma EmptyingWaits(st: State, t: nat, list: ListRef, up: bool)
    requires list in st.lists && st.lists[list] == [X] && st.spaces == map[X := {1}] && setA in st.sets && st.tracked == {toX}
    ensures CloseFrom(st, t, 1, setA, list, 0, up) ==
            st.(spaces := map[], tracked := if up then {toX} else {},
                tasks := st.tasks[t := Closing(1, setA, list, 1, if up then Some(toX) else None)])
  {
    assert {1} - {1} == {} && st.spaces - {X} == map[];
    assert Advance(st.spaces, st.tracked, [X], 0, 1, up)
        == Progress(map[], if up then {toX} else {}, 1, if up then Some(toX) else None, false);
  }

  // ----- a live space without a tracked channel -----

  const XEmptied := InX.(sets := map[setA := {}], spaces := map[], live := {},
                         tasks := InX.tasks[1 := Closing(1, setA, l1, 1, Some(toX))])
  const Another := XEmptied.(conns := map[A := setA, B := SetRef(B, 1)], sets := map[setA := {}, SetRef(B, 1) := {2}],
                             users := XEmptied.users[2 := Owner(B, l2)], lists := map[l1 := [X], l2 := []],
                             tasks := XEmptied.tasks[2 := Opening(2, l2, 0, true)], live := {2}, made := 2)

  const AnotherInX := Another.(spaces := map[X := {2}], lists := map[l1 := [X], l2 := [X]])

  lemma ReachedXEmptied()
    ensures Reached(XEmptied)
  {
    ReachedInX();
    CloseIsRemoval(InX, 1, 1, true);
    assert {1} - {1} == {};
    EmptyingWaits(InX.(sets := map[setA := {}], live := {}), 1, l1, true);
    Reach(InX, Close(1, 1, true), XEmptied);
  }

  lemma ReachedAnother()
    ensures Reached(Another)
  {
    ReachedXEmptied();
    assert {} + {2} == {2};
    Reach(XEmptied, Open(2, 2, B, []), Another);
  }

  lemma AnotherJoinsX()
    requires WellFormed(Another)
    ensures Step(Another, MemberJoined(X, B)) == AnotherInX
  {
    assert Group(Another, B) == {2} && At(Another.spaces, X) + {2} == {2} && {toX} + {toX} == {toX};
    assert Another.lists[l2] + [X] == [X];
    assert Step(Another, MemberJoined(X, B)).lists == map[l1 := [X], l2 := [X]];
  }

  lemma ReachedAnotherInX()
    ensures Reached(AnotherInX)
  {
    ReachedAnother();
    AnotherJoinsX();
    Reach(Another, MemberJoined(X, B), AnotherInX);
  }

  /**
   * The last listener of a space leaves and its unsubscribe waits; another identity's socket joins the space, finds
   * the channel still tracked, and then the answer stops the tracking: the space has a listener and no channel.
   */
  lemma LiveSpaceIsUntracked() returns (w: State)
    ensures Reachable(w) && 2 in w.live && 2 in At(w.spaces, X) && toX !in w.tracked
  {
    ReachedAnotherInX();
    w := Then(AnotherInX, Resume(1, true, true));
  }

  // ----- a live socket without a registration -----

  const Two := InX.(sets := map[setA := {1, 2}], users := InX.users[2 := Owner(A, l2)], lists := map[l1 := [X], l2 := []],
                    tasks := InX.tasks[1 := Opening(2, l2, 0, true)], live := {1, 2}, made := 2)
  const OneClosing := Two.(sets := map[setA := {2}], spaces := map[], tracked := {}, live := {2},
                           tasks := Two.tasks[2 := Closing(1, setA, l1, 1, None)])
  const NoneLeft := OneClosing.(conns := map[], sets := map[setA := {}], live := {})

  lemma ReachedTwo()
    ensures Reached(Two)
  {
    ReachedInX();
    assert {1} + {2} == {1, 2};
    Reach(InX, Open(1, 2, A, []), Two);
  }

  lemma ReachedOneClosing()
    ensures Reached(OneClosing)
  {
    ReachedTwo();
    CloseIsRemoval(Two, 2, 1, false);
    assert {1, 2} - {1} == {2};
    EmptyingWaits(Two.(sets := map[setA := {2}], live := {2}), 2, l1, false);
    Reach(Two, Close(2, 1, false), OneClosing);
  }

  /** A closing with no spaces to leave, of the last socket, deletes the identity at once. */
  lemma LastOneEnds(st: State, t: nat)
    requires l2 in st.lists && st.lists[l2] == [] && st.spaces == map[] && st.tracked == {} && t !in st.tasks
    requires setA in st.sets && st.sets[setA] == {} && st.conns == map[A := setA]
    ensures CloseFrom(st, t, 2, setA, l2, 0, false) == st.(conns := map[])
  {
    assert Advance(map[], {}, [], 0, 2, false) == Progress(map[], {}, 0, None, true);
    assert st.tasks - {t} == st.tasks && st.conns - {A} == map[];
  }

  lemma ReachedNoneLeft()
    ensures Reached(NoneLeft)
  {
    ReachedOneClosing();
    CloseIsRemoval(OneClosing, 3, 2, false);
    assert {2} - {2} == {};
    LastOneEnds(OneClosing.(sets := map[setA := {}], live := {}), 3);
    Reach(OneClosing, Close(3, 2, false), NoneLeft);
  }

  /**
   * A closing waits for a space, meanwhile the identity's other socket closes and deletes the identity, a third
   * opens, and the first closing ends and deletes it again: the third is live and reached by nothing.
   */
  lemma LiveSocketIsLost() returns (w: State)
    ensures Reachable(w) && 3 in w.live && 3 in w.users && w.users[3].identity == A && A !in w.conns
  {
    ReachedNoneLeft();
    w := Then(NoneLeft, Open(4, 3, A, []));
    assert w.tasks[2] == Closing(1, setA, l1, 1, None) && w.sets[setA] == {} && w.lists[l1] == [X];
    assert Advance(w.spaces, w.tracked, [X], 1, 1, false) == Progress(w.spaces, w.tracked, 1, None, true);
    w := Then(w, Resume(2, true, false));
  }
}
