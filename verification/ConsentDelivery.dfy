/** That consent is enough: exactly which steps store an offer, take a decision, authorize, open a stream and
    receive an archive, and that what was authorized and sent in full arrives. */
module ConsentDelivery {
  import opened Wrappers
  import opened TransferConsent

  // ---- Offers and decisions ----

  /** The limits on an offer's header. */
  predicate WithinLimits(h: Header) {
    && 1 <= |h.requestId| <= 80 && 1 <= |h.name| <= 256 && 1 <= h.size <= 1_073_741_824
    && |h.archive| == 64 && |h.chart| == 64
    && (forall i :: 0 <= i < 64 ==> h.archive[i] in "0123456789abcdef")
    && (forall i :: 0 <= i < 64 ==> h.chart[i] in "0123456789abcdef")
  }

  lemma DigestIff(s: string)
    ensures HexDigest(s) <==> |s| == 64 && forall i :: 0 <= i < 64 ==> s[i] in "0123456789abcdef"
  {
    var digits := "0123456789abcdef";
    forall c ensures '0' <= c <= '9' || 'a' <= c <= 'f' <==> c in digits {
      if '0' <= c <= '9' { assert digits[c as int - '0' as int] == c; }
      if 'a' <= c <= 'f' { assert digits[10 + (c as int - 'a' as int)] == c; }
    }
    if HexDigest(s) {
      forall i | 0 <= i < 64 ensures s[i] in digits { assert s[i] in s; }
    }
  }

  lemma LimitsIff(h: Header)
    ensures ValidHeader(h) <==> WithinLimits(h)
  {
    DigestIff(h.archive);
    DigestIff(h.chart);
  }

  /** An offer is stored, becomes the pending one and gets a handler exactly when it is within the limits and no
      handler is at work; otherwise it leaves no trace. */
  lemma StoredIff(d: Desk, session: string, h: Header)
    ensures var d' := Step(d, OfferArrives(session, h)); var o := |d.past.offers|;
            if WithinLimits(h) && d.autos == map[]
            then d' == d.(pending := Some(o), autos := map[o := Reading],
                          past := d.past.(offers := d.past.offers + [Arrival(Offer(session, h), d.room)]))
            else d' == d
  {
    LimitsIff(h);
    hide ValidHeader, WithinLimits;
  }

  /** A decision is taken exactly by a participant, on the pending offer of that request, confirmed if it accepts
      executable content, and trusting only together with accepting content that is not executable. */
  lemma TakenIff(d: Desk, requestId: string, accept: bool, trust: bool, confirmed: bool)
    requires Inv(d)
    ensures var d' := Step(d, DecisionArrives(requestId, accept, trust, confirmed)); var k := |d.past.decisions|;
            if !d.host && d.pending.Some?
               && (var h := d.past.offers[d.pending.value].offer.header;
                   h.requestId == requestId && (accept && h.executable ==> confirmed)
                   && (trust ==> accept && !h.executable))
            then d' == d.(decides := d.decides[k := Clearing],
                          past := d.past.(decisions := d.past.decisions
                                          + [Decision(d.pending.value, accept, trust, confirmed)]))
            else d' == d
  {
    hide HistoryOk, TasksOk, GrantsOk, Traced, Apart, TrustedOk;
  }

  // ---- What the tasks leave alone ----

  lemma ArrivalsSpare(d: Desk, e: Event)
    requires e.OfferArrives? || e.DecisionArrives?
    ensures var d' := Step(d, e);
            d'.streams == d.streams && d'.received == d.received && d'.grants == d.grants && d'.auths == d.auths
  {
    hide ValidHeader, Accepts;
  }

  lemma AdvanceOfferSpares(d: Desk, o: nat)
    ensures var d' := OnAdvanceOffer(d, o);
            d'.streams == d.streams && d'.received == d.received && d.grants <= d'.grants
  {
    hide ValidHeader, Passes;
  }

  lemma AdvanceDecisionSpares(d: Desk, k: nat)
    ensures var d' := OnAdvanceDecision(d, k);
            d'.streams == d.streams && d'.received == d.received && d.grants <= d'.grants
  {
    hide ValidHeader;
  }

  /** Only stream events and lost peers change the streams, and nothing takes an authorization off the record. */
  lemma TasksSpare(d: Desk, e: Event)
    requires !e.StreamOpens? && !e.Chunk? && !e.StreamEnds? && !e.StreamDies? && !e.Disconnected?
    ensures Step(d, e).streams == d.streams && Step(d, e).received == d.received && d.grants <= Step(d, e).grants
  {
    hide OnOffer, OnDecision, OnAdvanceOffer, OnAdvanceDecision;
    match e
    case AdvanceOffer(o) => AdvanceOfferSpares(d, o);
    case AdvanceDecision(k) => AdvanceDecisionSpares(d, k);
    case OfferArrives(_, _) => ArrivalsSpare(d, e);
    case DecisionArrives(_, _, _, _) => ArrivalsSpare(d, e);
    case _ =>
  }

  lemma StreamsSpareGrants(d: Desk, e: Event)
    requires e.StreamOpens? || e.Chunk? || e.StreamEnds? || e.StreamDies? || e.Disconnected?
    ensures Step(d, e).grants == d.grants
  {
    hide ValidHeader;
  }

  // ---- Authorizing ----

  /** The authorization an advancing task asks for, if its next step is to authorize. */
  function Asked(d: Desk, e: Event): Option<Grant> {
    match e
    case AdvanceOffer(o) =>
      if o in d.autos && o < |d.past.offers| && d.autos[o].AutoGranting?
      then Some(AutoGrant(d.past, o, d.autos[o].look)) else None
    case AdvanceDecision(k) =>
      if k in d.decides && k < |d.past.decisions| && d.past.decisions[k].offer < |d.past.offers|
         && d.decides[k] == Granting
      then Some(DecidedGrant(d.past, k)) else None
    case _ => None
  }

  /** What is asked for repeats its offer and has the consent it needs, so it is refused only if that request of
      that session is authorized already; nothing else issues an authorization. */
  lemma AuthorizedIff(d: Desk, e: Event)
    requires Inv(d)
    ensures var d' := Step(d, e); var g := Asked(d, e);
            if g.Some? && (g.value.session, g.value.header.requestId) !in d.auths
            then d'.grants == d.grants + [g.value]
                 && d'.auths == d.auths[(g.value.session, g.value.header.requestId) := |d.grants|]
            else d'.grants == d.grants && d'.auths.Keys <= d.auths.Keys
  {
    hide Inv, ValidHeader, Accepts, Passes;
    match e
    case AdvanceOffer(_) => if Asked(d, e).Some? { AskedIsConsented(d, e); }
    case AdvanceDecision(_) => if Asked(d, e).Some? { AskedIsConsented(d, e); }
    case OfferArrives(_, _) => ArrivalsSpare(d, e);
    case DecisionArrives(_, _, _, _) => ArrivalsSpare(d, e);
    case _ => StreamsShrinkAuths(d, e);
  }

  lemma StreamsShrinkAuths(d: Desk, e: Event)
    requires !e.AdvanceOffer? && !e.AdvanceDecision? && !e.OfferArrives? && !e.DecisionArrives?
    ensures Step(d, e).grants == d.grants && Step(d, e).auths.Keys <= d.auths.Keys
  {
    hide ValidHeader;
  }

  lemma AskedIsConsented(d: Desk, e: Event)
    requires Inv(d) && Asked(d, e).Some?
    ensures var g := Asked(d, e).value; ValidHeader(g.header) && (g.header.executable ==> g.confirmed)
  {
    hide ValidHeader, GrantsOk, Traced, Apart, TrustedOk, PendingOk, LookOk, Issued;
    match e
    case AdvanceOffer(o) =>
      assert AutoOk(d.past, d.grants, o, d.autos[o]);
      assert d.past.offers[o] in d.past.offers;
    case AdvanceDecision(k) =>
      assert DecideOk(d.past, d.grants, k, d.decides[k]);
      assert d.past.decisions[k] in d.past.decisions;
      assert d.past.offers[d.past.decisions[k].offer] in d.past.offers;
    case _ =>
  }

  // ---- Streams ----

  lemma GrantIsValid(d: Desk, g: nat)
    requires Inv(d) && g < |d.grants|
    ensures ValidHeader(d.grants[g].header)
  {
    hide ValidHeader, TasksOk, Traced, Apart, TrustedOk, PendingOk, LookOk, Spent;
    assert d.grants[g] in d.grants && Consented(d.past, d.grants[g]);
    match d.grants[g].source
    case FromDecision(k) => assert d.past.offers[d.past.decisions[k].offer] in d.past.offers;
    case FromTrust(o) => assert d.past.offers[o] in d.past.offers;
  }

  /** A stream opens exactly when an authorization waits for its session and request and repeats its header. */
  lemma OpensIff(d: Desk, n: nat, session: string, h: Header)
    requires Inv(d) && n !in d.streams
    ensures var d' := Step(d, StreamOpens(n, session, h)); var key := (session, h.requestId);
            if key in d.auths && d.grants[d.auths[key]].header == h
            then d' == d.(auths := d.auths - {key}, streams := d.streams[n := Stream(d.auths[key], 0)])
            else d'.streams == d.streams
  {
    hide Inv, ValidHeader;
    var key := (session, h.requestId);
    if key in d.auths {
      AuthTraced(d, session, h.requestId);
      GrantIsValid(d, d.auths[key]);
    }
  }

  /** A chunk that fits is added to what its stream has got; one that does not ends the stream. */
  lemma ChunkIff(d: Desk, n: nat, bytes: nat)
    requires Inv(d) && n in d.streams
    ensures var st := d.streams[n]; var d' := Step(d, Chunk(n, bytes));
            && st.grant < |d.grants|
            && d' == d.(streams := if st.got + bytes <= d.grants[st.grant].header.size
                                   then d.streams[n := Stream(st.grant, st.got + bytes)] else d.streams - {n})
  {
    StreamIsTraced(d, n);
    hide Inv;
    GrantIsValid(d, d.streams[n].grant);
  }

  lemma StreamIsTraced(d: Desk, n: nat)
    requires Inv(d) && n in d.streams
    ensures d.streams[n].grant < |d.grants|
  {
    hide HistoryOk, TasksOk, GrantsOk, Apart, TrustedOk, PendingOk;
  }

  /** Exactly the end of an open stream that has got every byte of its header, on a desk that is not hosting,
      receives an archive: one receipt, of the stream's own authorization. */
  lemma ReceivedIff(d: Desk, e: Event)
    requires Inv(d)
    ensures Step(d, e).received ==
            if e.StreamEnds? && e.stream in d.streams && d.streams[e.stream].grant < |d.grants| && !d.host
               && d.streams[e.stream].got == d.grants[d.streams[e.stream].grant].header.size
            then var g := d.streams[e.stream].grant;
                 d.received + [Receipt(g, d.grants[g].session, d.grants[g].header, d.grants[g].confirmed,
                                       d.grants[g].header.size)]
            else d.received
  {
    hide Inv, ValidHeader, OnOffer, OnDecision, OnAdvanceOffer, OnAdvanceDecision;
    if !(e.StreamOpens? || e.Chunk? || e.StreamEnds? || e.StreamDies? || e.Disconnected?) { TasksSpare(d, e); }
  }

  /** A lost peer takes exactly its own authorizations and streams along; a stream that dies, only itself. */
  lemma LostIff(d: Desk, session: string, n: nat)
    requires Inv(d)
    ensures var d' := Step(d, Disconnected(session));
            && d' == d.(auths := d'.auths, streams := d'.streams)
            && (forall k :: k in d'.auths <==> k in d.auths && k.0 != session)
            && (forall k :: k in d'.auths ==> d'.auths[k] == d.auths[k])
            && (forall m :: m in d'.streams <==> m in d.streams && d.grants[d.streams[m].grant].session != session)
            && (forall m :: m in d'.streams ==> d'.streams[m] == d.streams[m])
    ensures Step(d, StreamDies(n)) == d.(streams := d.streams - {n})
  {
    hide HistoryOk, TasksOk, GrantsOk, Apart, TrustedOk, PendingOk;
  }

  // ---- Whole streams ----

  /** The bytes a run feeds a stream. */
  function Fed(run: seq<Event>, n: nat): nat {
    if run == [] then 0 else Fed(run[..|run| - 1], n) + (if run[|run| - 1].Chunk? && run[|run| - 1].stream == n
                                                         then run[|run| - 1].bytes else 0)
  }

  /** The run neither opens nor ends the stream, nor does it die or lose its peer. */
  predicate LeavesAlone(e: Event, n: nat, session: string) {
    && !(e.StreamOpens? && e.stream == n) && e != StreamEnds(n) && e != StreamDies(n) && e != Disconnected(session)
  }

  /** Stream `n` has got this much under authorization `g`, or was ended for getting more than `size`. */
  predicate HasGot(d: Desk, n: nat, g: nat, fed: nat, size: nat) {
    if fed <= size then n in d.streams && d.streams[n] == Stream(g, fed) else n !in d.streams
  }

  lemma OtherStreams(d: Desk, e: Event, n: nat)
    requires (e.StreamOpens? || e.Chunk? || e.StreamEnds? || e.StreamDies?) && e.stream != n
    ensures n in Step(d, e).streams <==> n in d.streams
    ensures n in d.streams ==> Step(d, e).streams[n] == d.streams[n]
  {
    hide ValidHeader, OnOffer, OnDecision, OnAdvanceOffer, OnAdvanceDecision, OnDisconnect, OnForgetTrust;
  }

  lemma StreamStep(d: Desk, e: Event, n: nat, g: nat, fed: nat, session: string)
    requires Inv(d) && LeavesAlone(e, n, session)
    requires g < |d.grants| && d.grants[g].session == session && HasGot(d, n, g, fed, d.grants[g].header.size)
    ensures HasGot(Step(d, e), n, g, fed + (if e.Chunk? && e.stream == n then e.bytes else 0), d.grants[g].header.size)
  {
    hide Inv, Step;
    match e
    case Chunk(m, bytes) =>
      if m != n { OtherStreams(d, e, n); }
      else if n in d.streams { ChunkIff(d, n, bytes); }
      else { ClosedTakesNothing(d, n, bytes); }
    case StreamOpens(_, _, _) => OtherStreams(d, e, n);
    case StreamEnds(_) => OtherStreams(d, e, n);
    case StreamDies(_) => OtherStreams(d, e, n);
    case Disconnected(other) => LostIff(d, other, n);
    case _ => TasksSpare(d, e);
  }

  lemma ClosedTakesNothing(d: Desk, n: nat, bytes: nat)
    requires n !in d.streams
    ensures Step(d, Chunk(n, bytes)) == d
  {
  }

  lemma {:induction false} StreamRuns(d: Desk, run: seq<Event>, n: nat, g: nat, session: string)
    requires Inv(d) && forall e :: e in run ==> LeavesAlone(e, n, session)
    requires g < |d.grants| && d.grants[g].session == session && n in d.streams && d.streams[n] == Stream(g, 0)
    ensures var f := Final(d, run);
            && Inv(f) && d.grants <= f.grants && HasGot(f, n, g, Fed(run, n), d.grants[g].header.size)
    decreases |run|
  {
    hide Inv, Step, LeavesAlone, HasGot;
    if run == [] {
      assert HasGot(d, n, g, 0, d.grants[g].header.size) by { StartsEmpty(d, n, g); }
    } else {
      var k := |run| - 1;
      StreamRuns(d, run[..k], n, g, session);
      var f := Final(d, run[..k]);
      FinalLast(d, run);
      StepKeepsInv(f, run[k]);
      if run[k].StreamOpens? || run[k].Chunk? || run[k].StreamEnds? || run[k].StreamDies? || run[k].Disconnected? {
        StreamsSpareGrants(f, run[k]);
      } else {
        TasksSpare(f, run[k]);
      }
      assert f.grants[g] == d.grants[g] && run[k] in run;
      StreamStep(f, run[k], n, g, Fed(run[..k], n), session);
    }
  }

  lemma StartsEmpty(d: Desk, n: nat, g: nat)
    requires n in d.streams && d.streams[n] == Stream(g, 0) && g < |d.grants|
    ensures HasGot(d, n, g, 0, d.grants[g].header.size)
  {
  }

  lemma {:induction false} FinalLast(d: Desk, run: seq<Event>)
    requires run != []
    ensures Final(d, run) == Step(Final(d, run[..|run| - 1]), run[|run| - 1])
    decreases |run|
  {
    hide Step;
    if |run| > 1 {
      assert run[1..][..|run| - 2] == run[..|run| - 1][1..];
      FinalLast(Step(d, run[0]), run[1..]);
    }
  }

  /** A stream that is begun under an authorization and then left alone is received when it ends exactly if it was
      fed every byte of the header, not one more or less, and the desk is not hosting at that moment. */
  lemma AuthorizedStreamArrivesIff(d: Desk, n: nat, session: string, h: Header, run: seq<Event>)
    requires Inv(d) && n !in d.streams && (session, h.requestId) in d.auths
    requires d.grants[d.auths[(session, h.requestId)]].header == h
    requires forall e :: e in run ==> LeavesAlone(e, n, session)
    ensures var g := d.auths[(session, h.requestId)];
            var f := Final(Step(d, StreamOpens(n, session, h)), run);
            Step(f, StreamEnds(n)).received ==
            if Fed(run, n) == h.size && !f.host
            then f.received + [Receipt(g, session, h, d.grants[g].confirmed, h.size)]
            else f.received
  {
    hide Inv, Final, Fed, LeavesAlone, ValidHeader;
    var begun := Step(d, StreamOpens(n, session, h));
    var g := d.auths[(session, h.requestId)];
    AuthTraced(d, session, h.requestId);
    OpensIff(d, n, session, h);
    StepKeepsInv(d, StreamOpens(n, session, h));
    StreamRuns(begun, run, n, g, session);
    var f := Final(begun, run);
    hide Step;
    assert f.grants[g] == d.grants[g];
    ReceivedIff(f, StreamEnds(n));
  }

  lemma AuthTraced(d: Desk, session: string, requestId: string)
    requires Inv(d) && (session, requestId) in d.auths
    ensures var g := d.auths[(session, requestId)]; g < |d.grants| && d.grants[g].session == session
  {
    hide HistoryOk, TasksOk, GrantsOk, Apart, TrustedOk, PendingOk;
  }
}
