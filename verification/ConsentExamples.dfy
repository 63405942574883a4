/** Runs from an empty desk in which overlapping calls do what they should not. */
module ConsentExamples {
  import opened Wrappers
  import opened TransferConsent
  import opened ConsentTheorems
  import opened ConsentOverlap

  // ---- Runs in pieces ----

  lemma FinalOne(d: Desk, a: Event)
    ensures Final(d, [a]) == Step(d, a)
  {
    hide Step;
    assert [a][1..] == [];
  }

  lemma {:induction false} FinalSplits(d: Desk, run: seq<Event>, rest: seq<Event>)
    ensures Final(d, run + rest) == Final(Final(d, run), rest)
    decreases |run|
  {
    hide Step;
    if run == [] {
      assert run + rest == rest;
    } else {
      assert (run + rest)[1..] == run[1..] + rest;
      FinalSplits(Step(d, run[0]), run[1..], rest);
    }
  }

  lemma FinalTwo(d: Desk, a: Event, b: Event)
    ensures Final(d, [a, b]) == Step(Step(d, a), b)
  {
    hide Step, Final;
    assert [a, b] == [a] + [b];
    FinalSplits(d, [a], [b]);
    FinalOne(d, a);
    FinalOne(Step(d, a), b);
  }

  lemma FinalThree(d: Desk, a: Event, b: Event, c: Event)
    ensures Final(d, [a, b, c]) == Step(Step(Step(d, a), b), c)
  {
    hide Step, Final;
    assert [a, b, c] == [a, b] + [c];
    FinalSplits(d, [a, b], [c]);
    FinalTwo(d, a, b);
    FinalOne(Step(Step(d, a), b), c);
  }

  // ---- An offer waiting for the user ----

  /** The offer arrives in room A, and its handler finds the room untrusted. */
  function Offered(session: string, h: Header): seq<Event> {
    [OfferArrives(session, h), AdvanceOffer(0), AdvanceOffer(0)]
  }

  function OneOffer(session: string, h: Header): Desk {
    Start(false, "A").(past := History([Arrival(Offer(session, h), "A")], [], [], 0), pending := Some(0))
  }

  lemma OneOfferIsReached(session: string, h: Header)
    requires ValidHeader(h)
    ensures Final(Start(false, "A"), Offered(session, h)) == OneOffer(session, h)
  {
    hide ValidHeader, Final;
    FinalThree(Start(false, "A"), OfferArrives(session, h), AdvanceOffer(0), AdvanceOffer(0));
    var d1 := Step(Start(false, "A"), OfferArrives(session, h));
    assert d1.past.offers == [Arrival(Offer(session, h), "A")];
    var d2 := Step(d1, AdvanceOffer(0));
    assert d2.autos == map[0 := Checking("A")];
    assert Step(d2, AdvanceOffer(0)).autos == map[];
  }

  /** The grant of a decision on the first offer. */
  function FirstGrant(session: string, h: Header): Grant { Grant(session, h, false, FromDecision(0), None) }

  // ---- Accepted and received ----

  /** The user accepts, the call runs to its end, and the archive comes in two chunks. */
  function AcceptedAndSent(session: string, h: Header, confirmed: bool, part: nat): seq<Event>
    requires part <= h.size
  {
    Offered(session, h)
      + [DecisionArrives(h.requestId, true, false, confirmed), AdvanceDecision(0), AdvanceDecision(0)]
      + [StreamOpens(7, session, h), Chunk(7, part), Chunk(7, h.size - part)] + [StreamEnds(7)]
  }

  /** Authorized by the first decision and waiting for its stream. */
  function Waiting(session: string, h: Header, confirmed: bool): Desk {
    OneOffer(session, h).(pending := None,
        past := History([Arrival(Offer(session, h), "A")], [Decision(0, true, false, confirmed)], [], 0),
        auths := map[(session, h.requestId) := 0],
        grants := [Grant(session, h, confirmed, FromDecision(0), None)])
  }

  lemma WaitingIsReached(session: string, h: Header, confirmed: bool)
    requires ValidHeader(h) && (h.executable ==> confirmed)
    ensures Final(OneOffer(session, h), [DecisionArrives(h.requestId, true, false, confirmed), AdvanceDecision(0),
                                         AdvanceDecision(0)]) == Waiting(session, h, confirmed)
  {
    hide ValidHeader, Final;
    var d := OneOffer(session, h);
    FinalThree(d, DecisionArrives(h.requestId, true, false, confirmed), AdvanceDecision(0), AdvanceDecision(0));
    var d1 := Step(d, DecisionArrives(h.requestId, true, false, confirmed));
    assert d1.decides == map[0 := Clearing] && d1.past.decisions == [Decision(0, true, false, confirmed)];
    var d2 := Step(d1, AdvanceDecision(0));
    assert d2.decides == map[0 := Granting];
    assert Step(d2, AdvanceDecision(0)).decides == map[];
  }

  lemma SentIsReached(session: string, h: Header, confirmed: bool, part: nat)
    requires ValidHeader(h) && part <= h.size
    ensures Final(Waiting(session, h, confirmed), [StreamOpens(7, session, h), Chunk(7, part), Chunk(7, h.size - part)])
      == Waiting(session, h, confirmed).(auths := map[], streams := map[7 := Stream(0, h.size)])
  {
    assert h.size <= MAX_TRANSFER_BYTES;
    hide ValidHeader, Final;
    var d := Waiting(session, h, confirmed);
    FinalThree(d, StreamOpens(7, session, h), Chunk(7, part), Chunk(7, h.size - part));
    var d1 := Step(d, StreamOpens(7, session, h));
    assert d1.auths == map[] && d1.streams == map[7 := Stream(0, 0)];
    var d2 := Step(d1, Chunk(7, part));
    assert d2.streams == map[7 := Stream(0, part)];
  }

  /** From an empty desk, an offer that is accepted, with confirmation if it holds executable content, and sent in
      full is received: one archive, of that offer, with its consent. */
  lemma AcceptedArchiveArrives(session: string, h: Header, confirmed: bool, part: nat)
    requires ValidHeader(h) && (h.executable ==> confirmed) && part <= h.size
    ensures Final(Start(false, "A"), AcceptedAndSent(session, h, confirmed, part)).received
      == [Receipt(0, session, h, confirmed, h.size)]
  {
    hide ValidHeader, Final;
    var accept := [DecisionArrives(h.requestId, true, false, confirmed), AdvanceDecision(0), AdvanceDecision(0)];
    var send := [StreamOpens(7, session, h), Chunk(7, part), Chunk(7, h.size - part)];
    FinalSplits(Start(false, "A"), Offered(session, h) + accept + send, [StreamEnds(7)]);
    FinalSplits(Start(false, "A"), Offered(session, h) + accept, send);
    FinalSplits(Start(false, "A"), Offered(session, h), accept);
    OneOfferIsReached(session, h);
    WaitingIsReached(session, h, confirmed);
    SentIsReached(session, h, confirmed, part);
    FinalOne(Waiting(session, h, confirmed).(auths := map[], streams := map[7 := Stream(0, h.size)]), StreamEnds(7));
  }

  // ---- Authorized twice ----

  /** Two accepting calls have both read the pending offer before either cleared it. */
  function BothAccepted(session: string, h: Header): Desk {
    var c := Decision(0, true, false, false);
    var d := OneOffer(session, h);
    d.(past := d.past.(decisions := [c, c]), decides := map[0 := Clearing, 1 := Clearing])
  }

  lemma BothAcceptedIsReached(session: string, h: Header)
    requires ValidHeader(h) && !h.executable
    ensures var accept := DecisionArrives(h.requestId, true, false, false);
            Final(Start(false, "A"), Offered(session, h) + [accept, accept]) == BothAccepted(session, h)
  {
    hide ValidHeader, Final;
    var accept := DecisionArrives(h.requestId, true, false, false);
    FinalSplits(Start(false, "A"), Offered(session, h), [accept, accept]);
    OneOfferIsReached(session, h);
    FinalTwo(OneOffer(session, h), accept, accept);
    var c := Decision(0, true, false, false);
    assert [c] + [c] == [c, c];
  }

  /** The first of them has granted and its archive stream has used the authorization. */
  function FirstUsed(session: string, h: Header): Desk {
    BothAccepted(session, h).(pending := None, decides := map[1 := Clearing], grants := [FirstGrant(session, h)],
        streams := map[0 := Stream(0, 0)])
  }

  lemma FirstUsedIsReached(session: string, h: Header)
    requires ValidHeader(h) && !h.executable
    ensures Final(BothAccepted(session, h), [AdvanceDecision(0), AdvanceDecision(0), StreamOpens(0, session, h)])
      == FirstUsed(session, h)
  {
    hide ValidHeader, Final;
    FinalThree(BothAccepted(session, h), AdvanceDecision(0), AdvanceDecision(0), StreamOpens(0, session, h));
    var d5 := Step(Step(BothAccepted(session, h), AdvanceDecision(0)), AdvanceDecision(0));
    assert d5.decides == map[1 := Clearing];
    assert d5.auths == map[(session, h.requestId) := 0] && d5.grants == [FirstGrant(session, h)];
    assert d5.auths - {(session, h.requestId)} == map[];
  }

  function TwiceAccepted(session: string, h: Header): seq<Event> {
    var accept := DecisionArrives(h.requestId, true, false, false);
    Offered(session, h) + [accept, accept]
      + [AdvanceDecision(0), AdvanceDecision(0), StreamOpens(0, session, h)] + [AdvanceDecision(1), AdvanceDecision(1)]
  }

  /** Accepted twice before the first answer clears it, an offer is authorized, used, and authorized again. */
  lemma OverlappingAcceptsAuthorizeTwice(session: string, h: Header)
    requires ValidHeader(h) && !h.executable
    ensures var d := Final(Start(false, "A"), TwiceAccepted(session, h));
            && |d.past.offers| == 1 && |d.grants| == 2 && !OnePerOffer(d.past.decisions, d.grants)
    ensures RepeatsDuring(Start(false, "A"), TwiceAccepted(session, h))
  {
    hide ValidHeader, Final, RepeatsDuring;
    var accept := DecisionArrives(h.requestId, true, false, false);
    var one := Offered(session, h) + [accept, accept];
    var two := [AdvanceDecision(0), AdvanceDecision(0), StreamOpens(0, session, h)];
    FinalSplits(Start(false, "A"), one + two, [AdvanceDecision(1), AdvanceDecision(1)]);
    FinalSplits(Start(false, "A"), one, two);
    BothAcceptedIsReached(session, h);
    FirstUsedIsReached(session, h);
    FinalTwo(FirstUsed(session, h), AdvanceDecision(1), AdvanceDecision(1));
    var d := Final(Start(false, "A"), TwiceAccepted(session, h));
    assert d.grants[0].source == FromDecision(0) && d.grants[1].source == FromDecision(1);
    assert OfferOf(d.past.decisions, d.grants[0].source) == OfferOf(d.past.decisions, d.grants[1].source);
    OneOfferOneAuthorizationIff(false, "A", TwiceAccepted(session, h));
  }

  // ---- Lost ----

  function LateClear(session: string, h1: Header, h2: Header): seq<Event> {
    Offered(session, h1) + [DecisionArrives(h1.requestId, false, false, false)]
      + [OfferArrives(session, h2), AdvanceDecision(0)] + [AdvanceOffer(1), AdvanceOffer(1)]
  }

  lemma RejectedUnderWay(session: string, h1: Header, h2: Header)
    requires ValidHeader(h1) && ValidHeader(h2)
    ensures var d := Final(Start(false, "A"),
        Offered(session, h1) + [DecisionArrives(h1.requestId, false, false, false)]
                + [OfferArrives(session, h2), AdvanceDecision(0)]);
            d == Start(false, "A").(autos := map[1 := Reading], past := History(
                [Arrival(Offer(session, h1), "A"), Arrival(Offer(session, h2), "A")],
                [Decision(0, false, false, false)], [], 0))
  {
    hide ValidHeader, Final;
    var reject := DecisionArrives(h1.requestId, false, false, false);
    FinalSplits(Start(false, "A"), Offered(session, h1) + [reject], [OfferArrives(session, h2), AdvanceDecision(0)]);
    FinalSplits(Start(false, "A"), Offered(session, h1), [reject]);
    OneOfferIsReached(session, h1);
    FinalOne(OneOffer(session, h1), reject);
    var d2 := Step(OneOffer(session, h1), reject);
    assert d2.past.decisions == [Decision(0, false, false, false)] && d2.decides == map[0 := Clearing];
    FinalTwo(d2, OfferArrives(session, h2), AdvanceDecision(0));
    var d3 := Step(d2, OfferArrives(session, h2));
    assert d3.past.offers == [Arrival(Offer(session, h1), "A"), Arrival(Offer(session, h2), "A")];
    assert Step(d3, AdvanceDecision(0)).decides == map[];
  }

  /** The user rejects one offer, the next arrives before the rejection clears the desk, and is lost: never
      answered and no longer pending. */
  lemma LateClearDropsNewOffer(session: string, h1: Header, h2: Header)
    requires ValidHeader(h1) && ValidHeader(h2)
    ensures var d := Final(Start(false, "A"), LateClear(session, h1, h2));
            && |d.past.offers| == 2 && d.past.offers[1].offer == Offer(session, h2) && Lost(d, 1)
    ensures LosesDuring(Start(false, "A"), LateClear(session, h1, h2), 1)
  {
    hide ValidHeader, Final, LosesDuring;
    var first := Offered(session, h1) + [DecisionArrives(h1.requestId, false, false, false)]
      + [OfferArrives(session, h2), AdvanceDecision(0)];
    FinalSplits(Start(false, "A"), first, [AdvanceOffer(1), AdvanceOffer(1)]);
    RejectedUnderWay(session, h1, h2);
    var d := Final(Start(false, "A"), first);
    FinalTwo(d, AdvanceOffer(1), AdvanceOffer(1));
    assert Step(d, AdvanceOffer(1)).autos == map[1 := Checking("A")];
    assert Lost(Step(Step(d, AdvanceOffer(1)), AdvanceOffer(1)), 1);
    OfferLostIff(false, "A", LateClear(session, h1, h2), 1);
  }

  // ---- Trust for another room ----

  /** An accepting, trusting decision that has granted and still has to read the room. */
  function TrustPending(session: string, h: Header, room: string): Desk {
    OneOffer(session, h).(room := room,
        past := History([Arrival(Offer(session, h), "A")], [Decision(0, true, true, false)], [], 0),
        pending := None, decides := map[0 := Naming], auths := map[(session, h.requestId) := 0],
        grants := [FirstGrant(session, h)])
  }

  function AcceptAndTrust(h: Header): seq<Event> {
    [DecisionArrives(h.requestId, true, true, false), AdvanceDecision(0), AdvanceDecision(0)]
  }

  /** From an offer that waits, whichever room is current by then. */
  lemma TrustPendingIsReached(session: string, h: Header, room: string)
    requires ValidHeader(h) && !h.executable
    ensures Final(OneOffer(session, h).(room := room), AcceptAndTrust(h)) == TrustPending(session, h, room)
  {
    hide ValidHeader, Final;
    var d := OneOffer(session, h).(room := room);
    FinalThree(d, DecisionArrives(h.requestId, true, true, false), AdvanceDecision(0), AdvanceDecision(0));
    var d2 := Step(d, DecisionArrives(h.requestId, true, true, false));
    assert d2.past == TrustPending(session, h, room).past && d2.decides == map[0 := Clearing];
    var d4 := Step(Step(d2, AdvanceDecision(0)), AdvanceDecision(0));
    assert d4.decides == map[0 := Naming] && d4.past == d2.past;
    assert d4.grants == [FirstGrant(session, h)] && d4.auths == map[(session, h.requestId) := 0];
  }

  /** Trust recorded for one room. */
  function Trusting(session: string, h: Header, room: string): Desk {
    var d := TrustPending(session, h, room);
    d.(decides := map[], trusted := {room}, past := d.past.(trusts := [Trust(0, room)]))
  }

  lemma TrustIsRecorded(session: string, h: Header, room: string)
    ensures Final(TrustPending(session, h, room), [AdvanceDecision(0), AdvanceDecision(0)])
      == Trusting(session, h, room)
  {
    hide Final;
    var d := TrustPending(session, h, room);
    FinalTwo(d, AdvanceDecision(0), AdvanceDecision(0));
    assert Step(d, AdvanceDecision(0)).decides == map[0 := DecideStep.Trusting(room)];
    assert Step(Step(d, AdvanceDecision(0)), AdvanceDecision(0)).decides == map[];
  }

  lemma TrustingElsewhere(session: string, h: Header)
    ensures !WellPlaced(Trusting(session, h, "B").past) && !AskedFor(Trusting(session, h, "B").past, "B")
  {
    assert Trust(0, "B") in Trusting(session, h, "B").past.trusts;
  }

  function TrustMoved(session: string, h: Header): seq<Event> {
    Offered(session, h) + AcceptAndTrust(h) + [RoomSet("B")] + [AdvanceDecision(0), AdvanceDecision(0)]
  }

  /** An offer of room A is accepted with trust, the room becomes B before the decision reads it, and room B
      is trusted, where nothing was ever offered. */
  lemma TrustLandsInCurrentRoom(session: string, h: Header)
    requires ValidHeader(h) && !h.executable
    ensures var d := Final(Start(false, "A"), TrustMoved(session, h));
            && d.trusted == {"B"} && d.past.offers == [Arrival(Offer(session, h), "A")]
            && !WellPlaced(d.past) && !AskedFor(d.past, "B")
    ensures MisplacesDuring(Start(false, "A"), TrustMoved(session, h))
  {
    hide ValidHeader, Final, MisplacesDuring, WellPlaced, AskedFor;
    var one := Offered(session, h) + AcceptAndTrust(h);
    FinalSplits(Start(false, "A"), one + [RoomSet("B")], [AdvanceDecision(0), AdvanceDecision(0)]);
    FinalSplits(Start(false, "A"), one, [RoomSet("B")]);
    FinalSplits(Start(false, "A"), Offered(session, h), AcceptAndTrust(h));
    OneOfferIsReached(session, h);
    TrustPendingIsReached(session, h, "A");
    FinalOne(TrustPending(session, h, "A"), RoomSet("B"));
    TrustIsRecorded(session, h, "B");
    TrustingElsewhere(session, h);
    TrustStaysInItsRoomIff(false, "A", TrustMoved(session, h));
  }

  function SnapshotFirst(session: string, h: Header): seq<Event> {
    Offered(session, h) + [RoomSet("B")] + AcceptAndTrust(h) + [AdvanceDecision(0), AdvanceDecision(0)]
  }

  /** The same without any overlap: a snapshot replaces the room while the offer waits, and the user's whole
      answer comes after it. */
  lemma SnapshotMovesTrust(session: string, h: Header)
    requires ValidHeader(h) && !h.executable
    ensures var d := Final(Start(false, "A"), SnapshotFirst(session, h));
            && d.trusted == {"B"} && d.past.offers == [Arrival(Offer(session, h), "A")]
            && !WellPlaced(d.past) && !AskedFor(d.past, "B")
    ensures MisplacesDuring(Start(false, "A"), SnapshotFirst(session, h))
  {
    hide ValidHeader, Final, MisplacesDuring, WellPlaced, AskedFor;
    var one := Offered(session, h) + [RoomSet("B")];
    FinalSplits(Start(false, "A"), one + AcceptAndTrust(h), [AdvanceDecision(0), AdvanceDecision(0)]);
    FinalSplits(Start(false, "A"), one, AcceptAndTrust(h));
    FinalSplits(Start(false, "A"), Offered(session, h), [RoomSet("B")]);
    OneOfferIsReached(session, h);
    FinalOne(OneOffer(session, h), RoomSet("B"));
    TrustPendingIsReached(session, h, "B");
    TrustIsRecorded(session, h, "B");
    TrustingElsewhere(session, h);
    TrustStaysInItsRoomIff(false, "A", SnapshotFirst(session, h));
  }

  // ---- In a trusted room ----

  function TrustGiven(session: string, h: Header): seq<Event> {
    Offered(session, h) + AcceptAndTrust(h) + [AdvanceDecision(0), AdvanceDecision(0)]
  }

  lemma TrustedRoomIsReached(session: string, h: Header)
    requires ValidHeader(h) && !h.executable
    ensures Final(Start(false, "A"), TrustGiven(session, h)) == Trusting(session, h, "A")
  {
    hide ValidHeader, Final;
    FinalSplits(Start(false, "A"), Offered(session, h) + AcceptAndTrust(h), [AdvanceDecision(0), AdvanceDecision(0)]);
    FinalSplits(Start(false, "A"), Offered(session, h), AcceptAndTrust(h));
    OneOfferIsReached(session, h);
    assert OneOffer(session, h).(room := "A") == OneOffer(session, h);
    TrustPendingIsReached(session, h, "A");
    TrustIsRecorded(session, h, "A");
  }

  /** A second offer whose handler has read room A and found it trusted. */
  function SecondChecked(session: string, h: Header, h2: Header, room: string): Desk {
    var d := Trusting(session, h, "A");
    d.(pending := Some(1), autos := map[1 := AutoGranting(Look("A", 0, 1))],
       past := d.past.(offers := [Arrival(Offer(session, h), "A"), Arrival(Offer(session, h2), room)]))
  }

  lemma SecondIsChecked(session: string, h: Header, h2: Header)
    requires ValidHeader(h2) && !h2.executable
    ensures Final(Trusting(session, h, "A"), [OfferArrives(session, h2), AdvanceOffer(1), AdvanceOffer(1)])
      == SecondChecked(session, h, h2, "A")
    ensures Final(Trusting(session, h, "A"), [RoomSet("B"), OfferArrives(session, h2), RoomSet("A")]
              + [AdvanceOffer(1), AdvanceOffer(1)]) == SecondChecked(session, h, h2, "B")
  {
    hide ValidHeader, Final;
    var d := Trusting(session, h, "A");
    FinalThree(d, OfferArrives(session, h2), AdvanceOffer(1), AdvanceOffer(1));
    SecondLooks(session, h, h2, "A");
    FinalSplits(d, [RoomSet("B"), OfferArrives(session, h2), RoomSet("A")], [AdvanceOffer(1), AdvanceOffer(1)]);
    FinalThree(d, RoomSet("B"), OfferArrives(session, h2), RoomSet("A"));
    var d3 := Step(Step(Step(d, RoomSet("B")), OfferArrives(session, h2)), RoomSet("A"));
    FinalTwo(d3, AdvanceOffer(1), AdvanceOffer(1));
    SecondLooks(session, h, h2, "B");
  }

  lemma SecondLooks(session: string, h: Header, h2: Header, room: string)
    requires ValidHeader(h2) && !h2.executable
    ensures var d := Step(Trusting(session, h, "A").(room := room), OfferArrives(session, h2)).(room := "A");
            Step(Step(d, AdvanceOffer(1)), AdvanceOffer(1)) == SecondChecked(session, h, h2, room)
  {
    hide ValidHeader;
    var d := Step(Trusting(session, h, "A").(room := room), OfferArrives(session, h2)).(room := "A");
    assert d.past == SecondChecked(session, h, h2, room).past && d.autos == map[1 := Reading];
    var d2 := Step(d, AdvanceOffer(1));
    assert d2.autos == map[1 := Checking("A")];
    assert Step(d2, AdvanceOffer(1)).autos == map[1 := AutoGranting(Look("A", 0, 1))];
  }

  function Strayed(session: string, h: Header, h2: Header): seq<Event> {
    TrustGiven(session, h) + ([RoomSet("B"), OfferArrives(session, h2), RoomSet("A")]
      + [AdvanceOffer(1), AdvanceOffer(1)]) + [AdvanceOffer(1)]
  }

  /** Room A is trusted. An offer arrives in room B, the room becomes A again before the offer's handler
      reads it, and the offer is authorized on the strength of room A. */
  lemma OfferGrantedForAnotherRoom(session: string, h: Header, h2: Header)
    requires ValidHeader(h) && !h.executable && ValidHeader(h2) && !h2.executable && h2.requestId != h.requestId
    ensures var d := Final(Start(false, "A"), Strayed(session, h, h2));
            && |d.past.offers| == 2 && d.past.offers[1].room == "B" && d.trusted == {"A"}
            && |d.grants| == 2 && d.grants[1].source == FromTrust(1) && !AllAtHome(d.past, d.grants)
    ensures StraysDuring(Start(false, "A"), Strayed(session, h, h2))
  {
    hide ValidHeader, Final, StraysDuring;
    var middle := [RoomSet("B"), OfferArrives(session, h2), RoomSet("A")] + [AdvanceOffer(1), AdvanceOffer(1)];
    FinalSplits(Start(false, "A"), TrustGiven(session, h) + middle, [AdvanceOffer(1)]);
    FinalSplits(Start(false, "A"), TrustGiven(session, h), middle);
    TrustedRoomIsReached(session, h);
    SecondIsChecked(session, h, h2);
    var d := SecondChecked(session, h, h2, "B");
    FinalOne(d, AdvanceOffer(1));
    var e := Step(d, AdvanceOffer(1));
    assert e.grants == d.grants + [AutoGrant(d.past, 1, Look("A", 0, 1))];
    assert e.grants[1] in e.grants && !AtHome(e.past, e.grants[1]);
    GrantsStayInTheirRoomIff(false, "A", Strayed(session, h, h2));
  }

  function AnsweredMeanwhile(session: string, h: Header, h2: Header): seq<Event> {
    TrustGiven(session, h) + [OfferArrives(session, h2), AdvanceOffer(1), AdvanceOffer(1)]
      + [DecisionArrives(h2.requestId, true, false, false), AdvanceDecision(1), AdvanceDecision(1)]
      + [StreamOpens(0, session, h2), AdvanceOffer(1)]
  }

  /** With no two decisions under way at once: the user accepts an offer while its handler is about to
      authorize it for the room's sake; the stream uses the first authorization and the handler gives a second. */
  lemma HandlerRepeatsDecision(session: string, h: Header, h2: Header)
    requires ValidHeader(h) && !h.executable && ValidHeader(h2) && !h2.executable && h2.requestId != h.requestId
    ensures var d := Final(Start(false, "A"), AnsweredMeanwhile(session, h, h2));
            && |d.grants| == 3 && d.grants[1].source == FromDecision(1) && d.grants[2].source == FromTrust(1)
            && !OnePerOffer(d.past.decisions, d.grants)
    ensures RepeatsDuring(Start(false, "A"), AnsweredMeanwhile(session, h, h2))
  {
    hide ValidHeader, Final, RepeatsDuring;
    var check := [OfferArrives(session, h2), AdvanceOffer(1), AdvanceOffer(1)];
    var answer := [DecisionArrives(h2.requestId, true, false, false), AdvanceDecision(1), AdvanceDecision(1)];
    var last := [StreamOpens(0, session, h2), AdvanceOffer(1)];
    FinalSplits(Start(false, "A"), TrustGiven(session, h) + check + answer, last);
    FinalSplits(Start(false, "A"), TrustGiven(session, h) + check, answer);
    FinalSplits(Start(false, "A"), TrustGiven(session, h), check);
    TrustedRoomIsReached(session, h);
    SecondIsChecked(session, h, h2);
    SecondIsAnswered(session, h, h2);
    var d := Final(SecondChecked(session, h, h2, "A"), answer);
    FinalTwo(d, StreamOpens(0, session, h2), AdvanceOffer(1));
    SecondIsGrantedAgain(session, h, h2, d);
    OneOfferOneAuthorizationIff(false, "A", AnsweredMeanwhile(session, h, h2));
  }

  lemma SecondIsAnswered(session: string, h: Header, h2: Header)
    requires ValidHeader(h2) && !h2.executable && h2.requestId != h.requestId
    ensures var s := SecondChecked(session, h, h2, "A");
            var d := Final(s, [DecisionArrives(h2.requestId, true, false, false), AdvanceDecision(1),
                AdvanceDecision(1)]);
            && d.past == s.past.(decisions := s.past.decisions + [Decision(1, true, false, false)])
            && d.autos == s.autos && d.streams == map[]
            && d.grants == [FirstGrant(session, h), Grant(session, h2, false, FromDecision(1), None)]
            && d.auths == map[(session, h.requestId) := 0, (session, h2.requestId) := 1]
  {
    hide ValidHeader, Final;
    var s := SecondChecked(session, h, h2, "A");
    var accept := DecisionArrives(h2.requestId, true, false, false);
    FinalThree(s, accept, AdvanceDecision(1), AdvanceDecision(1));
    var d1 := Step(s, accept);
    assert d1.decides == map[1 := Clearing] && d1.past.decisions[1] == Decision(1, true, false, false);
    var d2 := Step(d1, AdvanceDecision(1));
    assert d2.decides == map[1 := Granting] && d2.auths == s.auths;
    assert Key(DecidedGrant(d2.past, 1)) == (session, h2.requestId);
  }

  lemma SecondIsGrantedAgain(session: string, h: Header, h2: Header, d: Desk)
    requires ValidHeader(h2) && !h2.executable && h2.requestId != h.requestId
    requires var s := SecondChecked(session, h, h2, "A");
             && d.past == s.past.(decisions := s.past.decisions + [Decision(1, true, false, false)])
             && d.autos == s.autos && d.streams == map[]
    requires d.grants == [FirstGrant(session, h), Grant(session, h2, false, FromDecision(1), None)]
    requires d.auths == map[(session, h.requestId) := 0, (session, h2.requestId) := 1]
    ensures var e := Step(Step(d, StreamOpens(0, session, h2)), AdvanceOffer(1));
            && |e.grants| == 3 && e.grants[1].source == FromDecision(1) && e.grants[2].source == FromTrust(1)
            && !OnePerOffer(e.past.decisions, e.grants)
  {
    hide ValidHeader;
    var d1 := Step(d, StreamOpens(0, session, h2));
    assert d1 == d.(auths := d1.auths, streams := d1.streams) && (session, h2.requestId) !in d1.auths;
    var e := Step(d1, AdvanceOffer(1));
    assert e.grants == d.grants + [AutoGrant(d.past, 1, Look("A", 0, 1))];
    assert OfferOf(e.past.decisions, e.grants[1].source) == OfferOf(e.past.decisions, e.grants[2].source);
  }
}
