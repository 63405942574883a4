/** The consent state changed in place, one whole call at a time. */
module Transfers {
  import opened Wrappers
  import opened TransferConsent

  /** What an authorization remembers. */
  datatype Authorization = Authorization(header: Header, confirmed: bool)

  /** The handler of one offer, run without interruption. */
  function OfferCall(d: Desk, session: string, header: Header): Desk {
    var o := |d.past.offers|;
    OnAdvanceOffer(OnAdvanceOffer(OnAdvanceOffer(OnAdvanceOffer(OnOffer(d, session, header), o), o), o), o)
  }

  /** A decision, run without interruption. */
  function DecisionCall(d: Desk, requestId: string, accept: bool, trust: bool, confirmed: bool): Desk {
    var k := |d.past.decisions|;
    var cleared := OnAdvanceDecision(OnDecision(d, requestId, accept, trust, confirmed), k);
    OnAdvanceDecision(OnAdvanceDecision(OnAdvanceDecision(cleared, k), k), k)
  }

  /** Leaving, closing or resetting a room, run without interruption. */
  function LeaveCall(d: Desk, host: bool, room: string): Desk {
    var forgotten := Step(Step(Step(d, OfferDropped), TrustForgotten), GrantsForgotten);
    Step(Step(forgotten, HostSet(host)), RoomSet(room))
  }

  /** The authorization table stands for the grants of the history that are still waiting. */
  predicate Stands(d: Desk, table: map<(string, string), Authorization>) {
    && table.Keys == d.auths.Keys
    && forall k :: k in table
        ==> d.auths[k] < |d.grants|
            && table[k] == Authorization(d.grants[d.auths[k]].header, d.grants[d.auths[k]].confirmed)
  }

  lemma StandsAfterGrant(d: Desk, table: map<(string, string), Authorization>, g: Grant)
    requires Stands(d, table) && Authorize(d, g).1
    ensures Stands(Authorize(d, g).0, table[Key(g) := Authorization(g.header, g.confirmed)])
  {
    hide ValidHeader;
    var e, table' := Authorize(d, g).0, table[Key(g) := Authorization(g.header, g.confirmed)];
    assert table'.Keys == table.Keys + {Key(g)} && e.auths.Keys == d.auths.Keys + {Key(g)};
  }

  /** The offer written down and pending. */
  function Noted(d: Desk, session: string, header: Header): Desk {
    d.(past := d.past.(offers := d.past.offers + [Arriving(d, session, header)]), pending := Some(|d.past.offers|))
  }

  /** The decision written down and the offer taken off the desk. */
  function Taken(d: Desk, accept: bool, trust: bool, confirmed: bool): Desk
    requires d.pending.Some?
  {
    var c := Decision(d.pending.value, accept, trust, confirmed);
    d.(past := d.past.(decisions := d.past.decisions + [c]), pending := None)
  }

  /** The current room trusted on behalf of decision k. */
  function WithTrust(d: Desk, k: nat): Desk {
    d.(trusted := d.trusted + {d.room}, past := d.past.(trusts := d.past.trusts + [Trust(k, d.room)]))
  }

  /** The grant of an offer that found the current room trusted. */
  function TrustGrant(d: Desk, session: string, header: Header): Grant {
    Grant(session, header, false, FromTrust(|d.past.offers|), Some(Look(d.room, d.past.cleared, |d.past.trusts|)))
  }

  /** The grant of a decision on the pending offer. */
  function DecisionGrant(d: Desk, offer: Offer, confirmed: bool): Grant {
    Grant(offer.session, offer.header, confirmed, FromDecision(|d.past.decisions|), None)
  }

  /** An uninterrupted offer in a trusted room is granted on the spot or left pending. */
  lemma OfferCallResult(d: Desk, session: string, header: Header)
    requires d.autos == map[] && ValidHeader(header)
    ensures var noted, g := Noted(d, session, header), TrustGrant(d, session, header);
            OfferCall(d, session, header) == if d.room in d.trusted && !header.executable && Authorize(noted, g).1
                                             then Authorize(noted, g).0.(pending := None) else noted
  {
    hide ValidHeader, Authorize;
    var o := |d.past.offers|;
    var d1 := OnOffer(d, session, header);
    assert d1 == Noted(d, session, header).(autos := map[o := Reading]);
    var d2 := OnAdvanceOffer(d1, o);
    assert d2 == d1.(autos := map[o := Checking(d.room)]);
    var d3 := OnAdvanceOffer(d2, o);
    if d.room in d.trusted && !header.executable {
      var look := Look(d.room, d.past.cleared, |d.past.trusts|);
      assert d3 == d1.(autos := map[o := AutoGranting(look)]);
      OfferCallGrants(d, session, header, d3);
    } else {
      assert map[o := Checking(d.room)] - {o} == map[];
      assert d3 == Noted(d, session, header);
    }
  }

  lemma OfferCallGrants(d: Desk, session: string, header: Header, d3: Desk)
    requires d.autos == map[]
    requires var o := |d.past.offers|; var look := Look(d.room, d.past.cleared, |d.past.trusts|);
             d3 == Noted(d, session, header).(autos := map[o := AutoGranting(look)])
    ensures var o := |d.past.offers|; var noted, g := Noted(d, session, header), TrustGrant(d, session, header);
            OnAdvanceOffer(OnAdvanceOffer(d3, o), o)
              == if Authorize(noted, g).1 then Authorize(noted, g).0.(pending := None) else noted
  {
    hide ValidHeader;
    var o := |d.past.offers|;
    var look := Look(d.room, d.past.cleared, |d.past.trusts|);
    var noted, g := Noted(d, session, header), TrustGrant(d, session, header);
    assert AutoGrant(d3.past, o, look) == g;
    assert map[o := AutoGranting(look)] - {o} == map[] && map[o := AutoClearing] - {o} == map[];
    var d4 := OnAdvanceOffer(d3, o);
    if Authorize(noted, g).1 {
      assert d4 == Authorize(noted, g).0.(autos := map[o := AutoClearing]);
    } else {
      assert d4 == noted;
    }
  }

  /** An uninterrupted decision: the offer is taken, then granted, then the room is trusted. */
  lemma DecisionCallResult(d: Desk, requestId: string, accept: bool, trust: bool, confirmed: bool)
    requires d.decides == map[] && Accepts(d, requestId, accept, trust, confirmed)
    ensures var taken := Taken(d, accept, trust, confirmed);
            var g := DecisionGrant(d, d.past.offers[d.pending.value].offer, confirmed);
            DecisionCall(d, requestId, accept, trust, confirmed)
              == if !accept then taken
                 else if !Authorize(taken, g).1 then taken
                 else if trust then WithTrust(Authorize(taken, g).0, |d.past.decisions|) else Authorize(taken, g).0
  {
    hide ValidHeader, Authorize;
    var k := |d.past.decisions|;
    var d1 := OnDecision(d, requestId, accept, trust, confirmed);
    assert d1.decides == map[k := Clearing]
      && d1.past.decisions[k] == Decision(d.pending.value, accept, trust, confirmed);
    var d2 := OnAdvanceDecision(d1, k);
    var taken := Taken(d, accept, trust, confirmed);
    assert map[k := Clearing] - {k} == map[];
    if accept {
      assert d2 == taken.(decides := map[k := Granting]);
      DecisionCallGrants(d, accept, trust, confirmed, d2);
    } else {
      assert d2 == taken;
    }
  }

  lemma DecisionCallGrants(d: Desk, accept: bool, trust: bool, confirmed: bool, d2: Desk)
    requires d.decides == map[] && d.pending.Some? && d.pending.value < |d.past.offers|
    requires d2 == Taken(d, accept, trust, confirmed).(decides := map[|d.past.decisions| := Granting])
    ensures var k, taken := |d.past.decisions|, Taken(d, accept, trust, confirmed);
            var g := DecisionGrant(d, d.past.offers[d.pending.value].offer, confirmed);
            OnAdvanceDecision(OnAdvanceDecision(OnAdvanceDecision(d2, k), k), k)
              == if !Authorize(taken, g).1 then taken
                 else if trust then WithTrust(Authorize(taken, g).0, k) else Authorize(taken, g).0
  {
    hide ValidHeader;
    var k, taken := |d.past.decisions|, Taken(d, accept, trust, confirmed);
    var g := DecisionGrant(d, d.past.offers[d.pending.value].offer, confirmed);
    assert DecidedGrant(d2.past, k) == g;
    assert map[k := Granting] - {k} == map[];
    var d3 := OnAdvanceDecision(d2, k);
    AuthorizeTable(taken, g);
    hide OnAdvanceDecision, Authorize;
    if Authorize(taken, g).1 && trust {
      assert d3 == Authorize(taken, g).0.(decides := map[k := Naming]);
      TrustCall(Authorize(taken, g).0, k);
    } else {
      assert d3 == Authorize(taken, g).0;
      NoDecisionNoStep(d3, k);
    }
  }

  lemma TrustCall(d: Desk, k: nat)
    requires k < |d.past.decisions| && d.past.decisions[k].offer < |d.past.offers| && d.decides == map[]
    ensures OnAdvanceDecision(OnAdvanceDecision(d.(decides := map[k := Naming]), k), k) == WithTrust(d, k)
  {
    var d3 := d.(decides := map[k := Naming]);
    assert OnAdvanceDecision(d3, k) == d.(decides := map[k := Trusting(d.room)]);
    assert map[k := Trusting(d.room)] - {k} == map[];
  }

  lemma NoDecisionNoStep(d: Desk, k: nat)
    requires k !in d.decides
    ensures OnAdvanceDecision(d, k) == d
  {
  }

  lemma ConsumeResult(d: Desk, table: map<(string, string), Authorization>, stream: nat, session: string,
                      header: Header)
    requires Stands(d, table) && stream !in d.streams
    ensures var key := (session, header.requestId); var e := OnStream(d, stream, session, header);
            && e == d.(auths := e.auths, streams := e.streams)
            && (if !ValidHeader(header) || key !in table then e == d
                else Stands(e, table - {key}) && (stream in e.streams <==> table[key].header == header)
                     && (stream in e.streams
                         ==> e.streams[stream].grant < |d.grants|
                             && table[key].confirmed == d.grants[e.streams[stream].grant].confirmed))
  {
    hide ValidHeader;
  }

  class TransferDesk {
    var host: bool
    var room: string
    var pendingOffer: Option<Offer>
    var trustedRooms: set<string>
    var authorizations: map<(string, string), Authorization>
    ghost var desk: Desk

    constructor (h: bool, r: string)
      ensures Valid() && desk == Start(h, r)
    {
      host, room, pendingOffer, trustedRooms, authorizations := h, r, None, {}, map[];
      desk := Start(h, r);
    }

    /** Between calls: the fields stand for a desk with no handler under way. */
    ghost predicate Valid()
      reads this
    {
      && Inv(desk) && desk.autos == map[] && desk.decides == map[]
      && host == desk.host && room == desk.room && trustedRooms == desk.trusted
      && Stands(desk, authorizations)
      && pendingOffer == (if desk.pending.Some? then Some(desk.past.offers[desk.pending.value].offer) else None)
    }

    /** Grants exactly one incoming stream; refuses a second grant for the same request. */
    method AuthorizeIncoming(session: string, header: Header, confirmed: bool, ghost d: Desk, ghost g: Grant)
      returns (ok: bool)
      requires Stands(d, authorizations) && (g.session, g.header, g.confirmed) == (session, header, confirmed)
      modifies this`authorizations
      ensures ok == Authorize(d, g).1 && Stands(Authorize(d, g).0, authorizations)
    {
      hide ValidHeader;
      if !ValidHeader(header) || (header.executable && !confirmed) { return false; }
      var key := (session, header.requestId);
      if key in authorizations { return false; }
      StandsAfterGrant(d, authorizations, g);
      authorizations := authorizations[key := Authorization(header, confirmed)];
      return true;
    }

    /** The offer handler. The prompt is published unless the room is trusted for such an offer: not even when
        the request is already authorized, which ends the handler with an error and leaves the offer pending. */
    method ApplyOffer(session: string, header: Header) returns (publish: bool)
      requires Valid()
      modifies this`pendingOffer, this`authorizations, this`desk
      ensures Valid() && desk == OfferCall(old(desk), session, header)
      ensures publish <==> ValidHeader(header) && !(room in trustedRooms && !header.executable)
      ensures publish ==> desk.pending == Some(|old(desk.past.offers)|)
    {
      hide ValidHeader, Inv, Stands, OfferCall, DecisionCall, Authorize;
      ghost var d := desk;
      OfferCallKeepsInv(d, session, header);
      if !ValidHeader(header) { InvalidOfferCall(d, session, header); InvPending(d); return false; }
      OfferCallResult(d, session, header);
      ghost var noted, g := Noted(d, session, header), TrustGrant(d, session, header);
      SameTable(d, noted, authorizations);
      AuthorizeTable(noted, g);
      pendingOffer := Some(Offer(session, header));
      desk := OfferCall(d, session, header);
      publish := true;
      if room in trustedRooms && !header.executable {
        publish := false;
        var ok := AuthorizeIncoming(session, header, false, noted, g);
        SameTable(Authorize(noted, g).0, desk, authorizations);
        if ok { pendingOffer := None; }
      } else {
        SameTable(noted, desk, authorizations);
      }
    }

    method Decide(requestId: string, accept: bool, trust: bool, confirmed: bool) returns (ok: bool)
      requires Valid()
      modifies this`pendingOffer, this`trustedRooms, this`authorizations, this`desk
      ensures Valid() && desk == DecisionCall(old(desk), requestId, accept, trust, confirmed)
      ensures ok <==> Accepts(old(desk), requestId, accept, trust, confirmed)
                      && (accept ==> |desk.grants| == |old(desk.grants)| + 1)
    {
      hide ValidHeader, Inv, Stands, OfferCall, DecisionCall;
      ghost var d := desk;
      InvPending(d);
      DecisionCallKeepsInv(d, requestId, accept, trust, confirmed);
      if host || pendingOffer.None? || pendingOffer.value.header.requestId != requestId
         || (accept && pendingOffer.value.header.executable && !confirmed)
         || (trust && (!accept || pendingOffer.value.header.executable)) {
        RefusedDecision(d, requestId, accept, trust, confirmed);
        return false;
      }
      var offer := pendingOffer.value;
      DecisionCallResult(d, requestId, accept, trust, confirmed);
      ghost var taken, g := Taken(d, accept, trust, confirmed), DecisionGrant(d, offer, confirmed);
      AuthorizeTable(taken, g);
      SameTable(d, taken, authorizations);
      pendingOffer := None;
      desk := DecisionCall(d, requestId, accept, trust, confirmed);
      ok := true;
      if accept {
        ok := AuthorizeIncoming(offer.session, offer.header, confirmed, taken, g);
        SameTable(Authorize(taken, g).0, desk, authorizations);
        if !ok { return; }
      } else {
        SameTable(taken, desk, authorizations);
      }
      if trust { trustedRooms := trustedRooms + {room}; }
    }

    /** Checked before the receiver creates a file; spent even when the header does not match. */
    method Consume(stream: nat, session: string, header: Header) returns (granted: Option<Authorization>)
      requires Valid() && stream !in desk.streams
      modifies this`authorizations, this`desk
      ensures Valid() && desk == OnStream(old(desk), stream, session, header)
      ensures granted.Some? <==> stream in desk.streams
      ensures granted.Some?
        ==> granted.value.header == header
            && granted.value.confirmed == desk.grants[desk.streams[stream].grant].confirmed
    {
      hide ValidHeader, Inv, OnStream, Stands;
      ghost var d := desk;
      StreamKeepsInv(d, stream, session, header);
      InvPending(d);
      ConsumeResult(d, authorizations, stream, session, header);
      var key := (session, header.requestId);
      if !ValidHeader(header) || key !in authorizations { return None; }
      var found := authorizations[key];
      authorizations := authorizations - {key};
      desk := OnStream(d, stream, session, header);
      if found.header != header { return None; }
      return Some(found);
    }

    method DisconnectPeer(session: string)
      requires Valid()
      modifies this`authorizations, this`desk
      ensures Valid() && desk == OnDisconnect(old(desk), session)
      ensures forall k :: k in authorizations ==> k.0 != session
    {
      hide Inv;
      DisconnectKeepsInv(desk, session);
      InvPending(desk);
      authorizations := map k | k in authorizations && k.0 != session :: authorizations[k];
      desk := OnDisconnect(desk, session);
    }

    /** Leaving, closing or resetting the room forgets every offer, trust and authorization. */
    method Clear(h: bool, r: string)
      requires Valid()
      modifies this
      ensures Valid() && desk == LeaveCall(old(desk), h, r)
    {
      hide Inv;
      LeaveCallKeepsInv(desk, h, r);
      LeaveCallResult(desk, h, r);
      hide LeaveCall;
      host, room, pendingOffer, trustedRooms, authorizations := h, r, None, {}, map[];
      desk := LeaveCall(desk, h, r);
    }

    /** A snapshot from the host replaces the room, and nothing else that consent depends on. */
    method ReplaceRoom(r: string)
      requires Valid()
      modifies this`room, this`desk
      ensures Valid() && desk == Step(old(desk), RoomSet(r))
    {
      hide Inv;
      StepKeepsInv(desk, RoomSet(r));
      InvPending(desk);
      room := r;
      desk := Step(desk, RoomSet(r));
    }

    /** Hosting sets the room and the side without clearing anything. */
    method Host(r: string)
      requires Valid()
      modifies this`room, this`host, this`desk
      ensures Valid() && desk == Step(Step(old(desk), RoomSet(r)), HostSet(true))
    {
      hide Inv;
      StepKeepsInv(desk, RoomSet(r));
      StepKeepsInv(Step(desk, RoomSet(r)), HostSet(true));
      InvPending(desk);
      room, host := r, true;
      desk := Step(Step(desk, RoomSet(r)), HostSet(true));
    }
  }

  lemma AuthorizeTable(d: Desk, g: Grant)
    ensures Authorize(d, g).0 == d.(auths := Authorize(d, g).0.auths, grants := Authorize(d, g).0.grants)
    ensures Authorize(d, g).0.grants == (if Authorize(d, g).1 then d.grants + [g] else d.grants)
    ensures !Authorize(d, g).1 ==> Authorize(d, g).0 == d
  {
    hide ValidHeader;
  }

  lemma LeaveCallResult(d: Desk, h: bool, r: string)
    ensures LeaveCall(d, h, r) == d.(pending := None, trusted := {}, auths := map[], host := h, room := r,
        past := d.past.(cleared := |d.past.trusts|))
  {
    hide OnOffer, OnDecision, OnAdvanceOffer, OnAdvanceDecision, OnStream, OnChunk, OnStreamEnd, OnDisconnect;
  }

  lemma LeaveCallKeepsInv(d: Desk, h: bool, r: string)
    requires Inv(d)
    ensures Inv(LeaveCall(d, h, r))
  {
    hide Inv, Step;
    var d1 := Step(d, OfferDropped);
    var d2 := Step(d1, TrustForgotten);
    var d3 := Step(d2, GrantsForgotten);
    StepKeepsInv(d, OfferDropped);
    StepKeepsInv(d1, TrustForgotten);
    StepKeepsInv(d2, GrantsForgotten);
    StepKeepsInv(d3, HostSet(h));
    StepKeepsInv(Step(d3, HostSet(h)), RoomSet(r));
  }

  lemma SameTable(d: Desk, e: Desk, table: map<(string, string), Authorization>)
    requires Stands(d, table) && d.auths == e.auths && d.grants == e.grants
    ensures Stands(e, table)
  {
  }

  lemma InvPending(d: Desk)
    requires Inv(d)
    ensures d.pending.Some? ==> d.pending.value < |d.past.offers|
  {
  }

  lemma InvalidOfferCall(d: Desk, session: string, header: Header)
    requires d.autos == map[] && !ValidHeader(header)
    ensures OfferCall(d, session, header) == d
  {
    hide ValidHeader;
  }

  lemma RefusedDecision(d: Desk, requestId: string, accept: bool, trust: bool, confirmed: bool)
    requires d.decides == map[] && !Accepts(d, requestId, accept, trust, confirmed)
    ensures DecisionCall(d, requestId, accept, trust, confirmed) == d
  {
    hide ValidHeader;
  }

  lemma OfferCallKeepsInv(d: Desk, session: string, header: Header)
    requires Inv(d)
    ensures Inv(OfferCall(d, session, header))
  {
    hide Inv, OnOffer, OnAdvanceOffer;
    var o := |d.past.offers|;
    var d1 := OnOffer(d, session, header);
    var d2 := OnAdvanceOffer(d1, o);
    var d3 := OnAdvanceOffer(d2, o);
    OfferKeepsInv(d, session, header);
    AdvanceOfferKeepsInv(d1, o);
    AdvanceOfferKeepsInv(d2, o);
    AdvanceOfferKeepsInv(d3, o);
    AdvanceOfferKeepsInv(OnAdvanceOffer(d3, o), o);
  }

  lemma DecisionCallKeepsInv(d: Desk, requestId: string, accept: bool, trust: bool, confirmed: bool)
    requires Inv(d)
    ensures Inv(DecisionCall(d, requestId, accept, trust, confirmed))
  {
    hide Inv, OnDecision, OnAdvanceDecision;
    var k := |d.past.decisions|;
    var d1 := OnDecision(d, requestId, accept, trust, confirmed);
    var d2 := OnAdvanceDecision(d1, k);
    var d3 := OnAdvanceDecision(d2, k);
    DecisionKeepsInv(d, requestId, accept, trust, confirmed);
    AdvanceDecisionKeepsInv(d1, k);
    AdvanceDecisionKeepsInv(d2, k);
    AdvanceDecisionKeepsInv(d3, k);
    AdvanceDecisionKeepsInv(OnAdvanceDecision(d3, k), k);
  }
}
