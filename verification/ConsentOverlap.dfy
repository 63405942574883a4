/** Calls that overlap: exactly when an offer is authorized twice, lost, or its trust lands elsewhere. */
module ConsentOverlap {
  import opened Wrappers
  import opened TransferConsent
  import opened ConsentTheorems

  // ---- One authorization per offer ----

  /** The offer an authorization is for. */
  function OfferOf(decisions: seq<Decision>, source: Source): Option<nat> {
    match source
    case FromTrust(o) => Some(o)
    case FromDecision(k) => if k < |decisions| then Some(decisions[k].offer) else None
  }

  predicate Used(decisions: seq<Decision>, grants: seq<Grant>, o: nat) {
    exists g :: g in grants && OfferOf(decisions, g.source) == Some(o)
  }

  predicate OnePerOffer(decisions: seq<Decision>, grants: seq<Grant>) {
    forall g, h :: 0 <= g < h < |grants|
      ==> OfferOf(decisions, grants[g].source) != OfferOf(decisions, grants[h].source)
  }

  /** The offer that a step is about to authorize, if its session and request are free. */
  function GrantedOffer(d: Desk, e: Event): Option<nat> {
    match e
    case AdvanceOffer(o) =>
      if o in d.autos && d.autos[o].AutoGranting? && o < |d.past.offers|
         && Key(AutoGrant(d.past, o, d.autos[o].look)) !in d.auths
      then Some(o) else None
    case AdvanceDecision(k) =>
      if k in d.decides && d.decides[k] == Granting
         && k < |d.past.decisions| && d.past.decisions[k].offer < |d.past.offers|
         && Key(DecidedGrant(d.past, k)) !in d.auths
      then Some(d.past.decisions[k].offer) else None
    case _ => None
  }

  /** The step authorizes an offer that already has an authorization, which a stream or a lost peer
      has taken out of the table. */
  predicate Repeats(d: Desk, e: Event) {
    GrantedOffer(d, e).Some? && Used(d.past.decisions, d.grants, GrantedOffer(d, e).value)
  }

  predicate RepeatsDuring(d: Desk, run: seq<Event>)
    decreases |run|
  {
    run != [] && (Repeats(d, run[0]) || RepeatsDuring(Step(d, run[0]), run[1..]))
  }

  lemma UsedAfterGrant(decisions: seq<Decision>, grants: seq<Grant>, g: Grant, o: nat)
    ensures Used(decisions, grants + [g], o) <==> Used(decisions, grants, o) || OfferOf(decisions, g.source) == Some(o)
  {
    if OfferOf(decisions, g.source) == Some(o) { assert g in grants + [g]; }
    if Used(decisions, grants, o) {
      var h :| h in grants && OfferOf(decisions, h.source) == Some(o);
      assert h in grants + [g];
    }
  }

  lemma UsedBefore(d: Desk, o: nat)
    requires Inv(d) && Used(d.past.decisions, d.grants, o)
    ensures o < |d.past.offers|
  {
    var g :| g in d.grants && OfferOf(d.past.decisions, g.source) == Some(o);
    assert Consented(d.past, g);
  }

  lemma DecisionsGrow(d: Desk, c: Decision)
    requires Inv(d)
    ensures forall g :: g in d.grants ==>
              OfferOf(d.past.decisions + [c], g.source) == OfferOf(d.past.decisions, g.source)
    ensures forall o :: Used(d.past.decisions + [c], d.grants, o) <==> Used(d.past.decisions, d.grants, o)
    ensures OnePerOffer(d.past.decisions + [c], d.grants) <==> OnePerOffer(d.past.decisions, d.grants)
  {
    hide HistoryOk, TasksOk, Traced, Apart, Spent, TrustedOk, PendingOk, InForce;
    forall g | g in d.grants
      ensures OfferOf(d.past.decisions + [c], g.source) == OfferOf(d.past.decisions, g.source)
    {
      assert Consented(d.past, g);
    }
    SameOffers(d.past.decisions, d.past.decisions + [c], d.grants);
  }

  lemma SameOffers(decisions: seq<Decision>, more: seq<Decision>, grants: seq<Grant>)
    requires forall g :: g in grants ==> OfferOf(more, g.source) == OfferOf(decisions, g.source)
    ensures forall o :: Used(more, grants, o) <==> Used(decisions, grants, o)
    ensures OnePerOffer(more, grants) <==> OnePerOffer(decisions, grants)
  {
    hide OfferOf;
    assert forall i :: 0 <= i < |grants| ==> grants[i] in grants;
  }

  lemma OneMoreForOffer(decisions: seq<Decision>, grants: seq<Grant>, g: Grant, o: nat)
    requires OfferOf(decisions, g.source) == Some(o)
    ensures OnePerOffer(decisions, grants + [g]) <==> OnePerOffer(decisions, grants) && !Used(decisions, grants, o)
  {
    hide OfferOf;
    var more := grants + [g];
    if Used(decisions, grants, o) {
      var h :| h in grants && OfferOf(decisions, h.source) == Some(o);
      var i :| 0 <= i < |grants| && grants[i] == h;
      assert more[i] == h && more[|grants|] == g;
    } else {
      forall i | 0 <= i < |grants| ensures OfferOf(decisions, grants[i].source) != Some(o) {
        assert grants[i] in grants;
      }
    }
    if OnePerOffer(decisions, more) {
      forall i, j | 0 <= i < j < |grants|
        ensures OfferOf(decisions, grants[i].source) != OfferOf(decisions, grants[j].source)
      {
        assert more[i] == grants[i] && more[j] == grants[j];
      }
    }
  }

  /** A handler or a decision grants exactly when its offer's session and request are free. */
  lemma GrantsWhenFree(d: Desk, e: Event) returns (g: Grant)
    requires Inv(d) && GrantedOffer(d, e).Some?
    ensures Step(d, e).past.decisions == d.past.decisions && Step(d, e).grants == d.grants + [g]
    ensures OfferOf(d.past.decisions, g.source) == GrantedOffer(d, e)
  {
    hide Inv, ValidHeader;
    match e
    case AdvanceOffer(o) =>
      AutoMayGrant(d, o);
      g := AutoGrant(d.past, o, d.autos[o].look);
    case AdvanceDecision(k) =>
      DecisionMayGrant(d, k);
      g := DecidedGrant(d.past, k);
  }

  lemma AutoMayGrant(d: Desk, o: nat)
    requires Inv(d) && o in d.autos
    ensures o < |d.past.offers|
    ensures var h := d.past.offers[o].offer.header;
            ValidHeader(h) && (d.autos[o].AutoGranting? ==> !h.executable)
  {
    hide DecisionOk, TrustOk, ValidHeader, LookOk, Issued, Traced, Apart, GrantsOk, PendingOk, TrustedOk;
    assert AutoOk(d.past, d.grants, o, d.autos[o]);
    assert d.past.offers[o] in d.past.offers;
  }

  lemma DecisionMayGrant(d: Desk, k: nat)
    requires Inv(d) && k in d.decides
    ensures k < |d.past.decisions| && d.past.decisions[k].offer < |d.past.offers|
    ensures var h := d.past.offers[d.past.decisions[k].offer].offer.header;
            ValidHeader(h) && (d.decides[k] != Clearing ==> h.executable ==> d.past.decisions[k].confirmed)
  {
    hide TrustOk, ValidHeader, InForce, Issued, Traced, Apart, GrantsOk, PendingOk, TrustedOk;
    assert DecideOk(d.past, d.grants, k, d.decides[k]);
    assert d.past.decisions[k] in d.past.decisions;
    assert d.past.offers[d.past.decisions[k].offer] in d.past.offers;
  }

  /** Steps of streams and lost peers. */
  predicate OfStreams(e: Event) {
    e.StreamOpens? || e.Chunk? || e.StreamEnds? || e.StreamDies? || e.Disconnected?
  }

  lemma StreamsTouchNoTask(d: Desk, e: Event)
    requires OfStreams(e)
    ensures var d' := Step(d, e); d' == d.(auths := d'.auths, streams := d'.streams, received := d'.received)
  {
    hide ValidHeader;
  }

  /** Every other step leaves the authorizations alone; a decision may be added. */
  lemma OthersGrantNothing(d: Desk, e: Event)
    requires GrantedOffer(d, e).None?
    ensures Step(d, e).grants == d.grants
    ensures Step(d, e).past.decisions == d.past.decisions
            || exists c :: Step(d, e).past.decisions == d.past.decisions + [c]
  {
    hide ValidHeader, OnStream, OnChunk, OnStreamEnd, OnDisconnect;
    if OfStreams(e) { StreamsTouchNoTask(d, e); }
  }

  /** A step breaks the rule exactly when it authorizes a used offer again; once broken it stays broken. */
  lemma RepeatIff(d: Desk, e: Event)
    requires Inv(d)
    ensures OnePerOffer(Step(d, e).past.decisions, Step(d, e).grants)
      <==> OnePerOffer(d.past.decisions, d.grants) && !Repeats(d, e)
  {
    hide Inv, Step, OnePerOffer, Used, OfferOf, GrantedOffer;
    if GrantedOffer(d, e).Some? {
      var g := GrantsWhenFree(d, e);
      OneMoreForOffer(d.past.decisions, d.grants, g, GrantedOffer(d, e).value);
    } else {
      OthersGrantNothing(d, e);
      if Step(d, e).past.decisions != d.past.decisions {
        var c :| Step(d, e).past.decisions == d.past.decisions + [c];
        DecisionsGrow(d, c);
      }
    }
  }

  /** In every run, an offer has two authorizations exactly when some step authorized a used offer again. */
  lemma {:induction false} RepeatRunIff(d: Desk, run: seq<Event>)
    requires Inv(d)
    ensures OnePerOffer(Final(d, run).past.decisions, Final(d, run).grants)
      <==> OnePerOffer(d.past.decisions, d.grants) && !RepeatsDuring(d, run)
    decreases |run|
  {
    hide Inv, Step, OnePerOffer, Repeats;
    if run != [] {
      StepKeepsInv(d, run[0]);
      RepeatIff(d, run[0]);
      RepeatRunIff(Step(d, run[0]), run[1..]);
    }
  }

  lemma OneOfferOneAuthorizationIff(host: bool, room: string, run: seq<Event>)
    ensures var d := Final(Start(host, room), run);
            OnePerOffer(d.past.decisions, d.grants) <==> !RepeatsDuring(Start(host, room), run)
  {
    hide Final, RepeatsDuring;
    StartIsInv(host, room);
    RepeatRunIff(Start(host, room), run);
  }

  // ---- Calls that do not overlap ----

  /** At most one handler is between its lock operations. */
  predicate OneCall(autos: map<nat, AutoStep>, decides: map<nat, DecideStep>) {
    && (autos == map[] || decides == map[])
    && (forall o, p :: o in autos && p in autos ==> o == p)
    && (forall k, l :: k in decides && l in decides ==> k == l)
  }

  predicate SerialInv(d: Desk) {
    && OneCall(d.autos, d.decides)
    && (d.pending.Some? && Used(d.past.decisions, d.grants, d.pending.value)
        ==> d.pending.value in d.autos && d.autos[d.pending.value] == AutoClearing)
    && (forall o :: o in d.autos && d.autos[o] != AutoClearing ==> !Used(d.past.decisions, d.grants, o))
    && (forall o :: o in d.autos ==> d.pending.None? || d.pending == Some(o))
    && (forall k :: k in d.decides && !Granted(d.decides[k])
         ==> k < |d.past.decisions| && !Used(d.past.decisions, d.grants, d.past.decisions[k].offer))
    && (forall k :: k in d.decides && d.decides[k] != Clearing ==> d.pending.None?)
  }

  predicate Serial(d: Desk, e: Event) {
    (e.OfferArrives? || e.DecisionArrives?) ==> d.autos == map[] && d.decides == map[]
  }

  predicate SerialRun(d: Desk, run: seq<Event>)
    decreases |run|
  {
    run != [] ==> Serial(d, run[0]) && SerialRun(Step(d, run[0]), run[1..])
  }

  lemma OfferKeepsSerial(d: Desk, session: string, header: Header)
    requires Inv(d) && SerialInv(d) && d.autos == map[] && d.decides == map[]
    ensures SerialInv(OnOffer(d, session, header))
  {
    hide Inv, ValidHeader, OfferOf;
    if Used(d.past.decisions, d.grants, |d.past.offers|) { UsedBefore(d, |d.past.offers|); }
  }

  lemma DecisionKeepsSerial(d: Desk, requestId: string, accept: bool, trust: bool, confirmed: bool)
    requires Inv(d) && SerialInv(d) && d.autos == map[] && d.decides == map[]
    ensures SerialInv(OnDecision(d, requestId, accept, trust, confirmed))
  {
    hide Inv, ValidHeader, Used, OnePerOffer;
    if Accepts(d, requestId, accept, trust, confirmed) {
      DecisionsGrow(d, Decision(d.pending.value, accept, trust, confirmed));
    }
  }

  lemma AuthorizeShape(d: Desk, g: Grant)
    ensures var (e, ok) := Authorize(d, g);
            && e == d.(auths := e.auths, grants := e.grants) && e.grants == if ok then d.grants + [g] else d.grants
  {
    hide ValidHeader;
  }

  lemma GrantUses(d: Desk, g: Grant, o: nat)
    requires OfferOf(d.past.decisions, g.source) == Some(o)
    ensures forall p :: Used(d.past.decisions, d.grants + [g], p) <==> Used(d.past.decisions, d.grants, p) || p == o
  {
    hide Used, OfferOf;
    forall p ensures Used(d.past.decisions, d.grants + [g], p) <==> Used(d.past.decisions, d.grants, p) || p == o {
      UsedAfterGrant(d.past.decisions, d.grants, g, p);
    }
  }

  lemma AdvanceOfferKeepsSerial(d: Desk, n: nat)
    requires Inv(d) && SerialInv(d)
    ensures SerialInv(OnAdvanceOffer(d, n))
  {
    hide Inv, Used, OnAdvanceOffer, Refused;
    if n in d.autos {
      HandlerStep(d, n);
      if d.autos[n].AutoGranting? { GrantUses(d, AutoGrant(d.past, n, d.autos[n].look), n); }
    } else {
      NoHandlerNoStep(d, n);
    }
  }

  lemma AdvanceDecisionKeepsSerial(d: Desk, n: nat)
    requires Inv(d) && SerialInv(d)
    ensures SerialInv(OnAdvanceDecision(d, n))
  {
    hide Inv, ValidHeader, Used, Authorize;
    if n in d.decides && d.decides[n] == Granting && n < |d.past.decisions|
       && d.past.decisions[n].offer < |d.past.offers| {
      var g := DecidedGrant(d.past, n);
      GrantUses(d, g, d.past.decisions[n].offer);
      AuthorizeShape(d, g);
    }
  }

  /** Streams and lost peers touch nothing that decides who may grant. */
  lemma UnrelatedKeepsSerial(d: Desk, e: Desk)
    requires SerialInv(d) && e.autos == d.autos && e.decides == d.decides && e.past.decisions == d.past.decisions
      && e.grants == d.grants
    requires e.pending == d.pending || e.pending.None?
    ensures SerialInv(e)
  {
    hide Used, OneCall;
  }

  lemma StepKeepsSerial(d: Desk, e: Event)
    requires Inv(d) && SerialInv(d) && Serial(d, e)
    ensures SerialInv(Step(d, e)) && !Repeats(d, e)
  {
    hide Inv, SerialInv, OnOffer, OnDecision, OnAdvanceOffer, OnAdvanceDecision, OnStream, OnChunk, OnStreamEnd, Used;
    assert !Repeats(d, e) by { SerialNeverRepeats(d, e); }
    match e
    case OfferArrives(session, header) => OfferKeepsSerial(d, session, header);
    case DecisionArrives(requestId, accept, trust, confirmed) =>
      DecisionKeepsSerial(d, requestId, accept, trust, confirmed);
    case AdvanceOffer(o) => AdvanceOfferKeepsSerial(d, o);
    case AdvanceDecision(k) => AdvanceDecisionKeepsSerial(d, k);
    case _ =>
      if OfStreams(e) { StreamsTouchNoTask(d, e); }
      UnrelatedKeepsSerial(d, Step(d, e));
  }

  lemma SerialNeverRepeats(d: Desk, e: Event)
    requires SerialInv(d)
    ensures !Repeats(d, e)
  {
    hide Used, OneCall;
  }

  lemma {:induction false} SerialRunNeverRepeats(d: Desk, run: seq<Event>)
    requires Inv(d) && SerialInv(d) && SerialRun(d, run)
    ensures !RepeatsDuring(d, run)
    decreases |run|
  {
    hide Inv, SerialInv, Step, Serial, Repeats;
    if run != [] {
      StepKeepsInv(d, run[0]);
      StepKeepsSerial(d, run[0]);
      SerialRunNeverRepeats(Step(d, run[0]), run[1..]);
    }
  }

  /** When calls do not overlap, one offer yields at most one authorization, by whatever path. */
  lemma OneOfferOneAuthorization(host: bool, room: string, run: seq<Event>)
    requires SerialRun(Start(host, room), run)
    ensures var d := Final(Start(host, room), run); OnePerOffer(d.past.decisions, d.grants)
  {
    hide Final, SerialRun, RepeatsDuring;
    StartIsInv(host, room);
    SerialRunNeverRepeats(Start(host, room), run);
    OneOfferOneAuthorizationIff(host, room, run);
  }

  // ---- Offers that are lost ----

  /** An offer is answered by a decision on it or by the authorization of a trusted room. */
  predicate Answered(d: Desk, o: nat) {
    || (exists k: nat :: k < |d.past.decisions| && d.past.decisions[k].offer == o)
    || Issued(d.grants, FromTrust(o))
  }

  /** An offer that nobody answered, and that no longer waits for anyone. */
  predicate Lost(d: Desk, o: nat) {
    o < |d.past.offers| && !Answered(d, o) && d.pending != Some(o) && o !in d.autos
  }

  /** The handler finds its room untrusted, its offer executable, or the request already authorized. */
  predicate Refused(d: Desk, o: nat, step: AutoStep)
    requires o < |d.past.offers|
  {
    match step
    case Checking(room) => !Passes(d, o, room)
    case AutoGranting(look) => Key(AutoGrant(d.past, o, look)) in d.auths
    case _ => false
  }

  /** The steps that drop an unanswered offer: a newer offer, a handler that ends without an authorization
      after its offer was cleared, the clearing step of a decision, and leaving the room. */
  predicate Loses(d: Desk, e: Event, o: nat) {
    && !Answered(d, o)
    && match e
       case OfferArrives(_, header) => d.autos == map[] && ValidHeader(header) && d.pending == Some(o)
       case AdvanceOffer(p) =>
         p == o && o in d.autos && o < |d.past.offers| && Refused(d, o, d.autos[o]) && d.pending != Some(o)
       case AdvanceDecision(k) =>
         k in d.decides && d.decides[k] == Clearing && d.pending == Some(o) && o !in d.autos
       case OfferDropped => d.pending == Some(o) && o !in d.autos
       case _ => false
  }

  predicate LosesDuring(d: Desk, run: seq<Event>, o: nat)
    decreases |run|
  {
    run != [] && (Loses(d, run[0], o) || LosesDuring(Step(d, run[0]), run[1..], o))
  }

  lemma PendingKnown(d: Desk, o: nat)
    requires Inv(d)
    ensures d.pending == Some(o) || o in d.autos ==> o < |d.past.offers|
    ensures o in d.autos ==> d.pending.None? || d.pending == Some(o)
    ensures o in d.autos && d.autos[o] == AutoClearing ==> Answered(d, o)
  {
    hide HistoryOk, TrustedOk, GrantsOk, Traced, Apart, InForce, Issued;
    if o in d.autos { assert AutoOk(d.past, d.grants, o, d.autos[o]); }
  }

  lemma OfferLossIff(d: Desk, session: string, header: Header, o: nat)
    requires Inv(d)
    ensures Lost(OnOffer(d, session, header), o) <==> Lost(d, o) || Loses(d, OfferArrives(session, header), o)
  {
    hide Inv, ValidHeader, Issued;
    PendingKnown(d, o);
  }

  lemma DecisionLossIff(d: Desk, requestId: string, accept: bool, trust: bool, confirmed: bool, o: nat)
    requires Inv(d)
    ensures Lost(OnDecision(d, requestId, accept, trust, confirmed), o) <==> Lost(d, o)
  {
    hide Inv, ValidHeader, Issued;
    var e := OnDecision(d, requestId, accept, trust, confirmed);
    if Accepts(d, requestId, accept, trust, confirmed) {
      assert e.past.decisions[|d.past.decisions|].offer == d.pending.value;
      if k: nat :| k < |d.past.decisions| && d.past.decisions[k].offer == o { assert e.past.decisions[k].offer == o; }
      if Answered(e, o) && !Answered(d, o) {
        assert d.pending == Some(o);
      }
    }
  }

  /** Where a handler is after its next step, if it goes on. */
  function Next(d: Desk, p: nat, step: AutoStep): Option<AutoStep>
    requires p < |d.past.offers|
  {
    match step
    case Reading => Some(Checking(d.room))
    case Checking(room) =>
      if Refused(d, p, step) then None else Some(AutoGranting(Look(room, d.past.cleared, |d.past.trusts|)))
    case AutoGranting(_) => if Refused(d, p, step) then None else Some(AutoClearing)
    case AutoClearing => None
  }

  /** A handler's step moves or ends it, and grants or clears nothing else. */
  lemma HandlerStep(d: Desk, p: nat)
    requires Inv(d) && p in d.autos
    ensures p < |d.past.offers|
    ensures var e, next := OnAdvanceOffer(d, p), Next(d, p, d.autos[p]);
            && e.past == d.past && e.decides == d.decides
            && e.pending == (if d.autos[p] == AutoClearing then None else d.pending)
            && e.autos == (if next.Some? then d.autos[p := next.value] else d.autos - {p})
            && e.grants == (if d.autos[p].AutoGranting? && !Refused(d, p, d.autos[p])
                            then d.grants + [AutoGrant(d.past, p, d.autos[p].look)] else d.grants)
  {
    hide Inv, Authorize, Passes;
    AutoMayGrant(d, p);
    if d.autos[p].AutoGranting? { AuthorizeWhenFree(d, p, d.autos[p].look); }
  }

  lemma AuthorizeWhenFree(d: Desk, p: nat, look: Look)
    requires p < |d.past.offers|
    requires var h := d.past.offers[p].offer.header; ValidHeader(h) && !h.executable
    ensures var (e, ok) := Authorize(d, AutoGrant(d.past, p, look));
            && ok == !Refused(d, p, AutoGranting(look)) && e == d.(auths := e.auths, grants := e.grants)
            && e.grants == (if ok then d.grants + [AutoGrant(d.past, p, look)] else d.grants)
  {
    hide ValidHeader;
  }

  lemma HandlerLossIff(d: Desk, p: nat, o: nat)
    requires Inv(d)
    ensures Lost(OnAdvanceOffer(d, p), o) <==> Lost(d, o) || Loses(d, AdvanceOffer(p), o)
  {
    hide Inv, OnAdvanceOffer, Refused, Issued;
    PendingKnown(d, o);
    PendingKnown(d, p);
    if p in d.autos {
      HandlerStep(d, p);
      if d.autos[p].AutoGranting? { IssuedGrows(d.grants, AutoGrant(d.past, p, d.autos[p].look), FromTrust(o)); }
      if d.autos[p].AutoClearing? || d.autos[p].Reading? { PlainIsNotRefused(d, p); }
    } else {
      NoHandlerNoStep(d, p);
    }
  }

  lemma PlainIsNotRefused(d: Desk, p: nat)
    requires p < |d.past.offers|
    ensures !Refused(d, p, AutoClearing) && !Refused(d, p, Reading)
  {
  }

  lemma NoHandlerNoStep(d: Desk, p: nat)
    requires p !in d.autos
    ensures OnAdvanceOffer(d, p) == d
  {
  }

  lemma ClearingLossIff(d: Desk, k: nat, o: nat)
    requires Inv(d)
    ensures Lost(OnAdvanceDecision(d, k), o) <==> Lost(d, o) || Loses(d, AdvanceDecision(k), o)
  {
    hide Inv, ValidHeader, Issued;
    PendingKnown(d, o);
    if k in d.decides {
      DecisionMayGrant(d, k);
      IssuedGrows(d.grants, DecidedGrant(d.past, k), FromTrust(o));
    }
  }

  lemma UnrelatedLosesNothing(d: Desk, e: Desk, o: nat)
    requires e.past.offers == d.past.offers && e.past.decisions == d.past.decisions && e.grants == d.grants
    requires e.pending == d.pending && e.autos == d.autos
    ensures Lost(e, o) <==> Lost(d, o)
  {
    hide Issued;
  }

  /** A step loses an offer exactly under these guards, and a lost offer is never found again. */
  lemma LossIff(d: Desk, e: Event, o: nat)
    requires Inv(d)
    ensures Lost(Step(d, e), o) <==> Lost(d, o) || Loses(d, e, o)
  {
    hide Inv, OnOffer, OnDecision, OnAdvanceOffer, OnAdvanceDecision, OnStream, OnChunk, OnStreamEnd;
    match e
    case OfferArrives(session, header) => OfferLossIff(d, session, header, o);
    case DecisionArrives(requestId, accept, trust, confirmed) =>
      DecisionLossIff(d, requestId, accept, trust, confirmed, o);
    case AdvanceOffer(p) => HandlerLossIff(d, p, o);
    case AdvanceDecision(k) => ClearingLossIff(d, k, o);
    case OfferDropped => PendingKnown(d, o);
    case _ =>
      if OfStreams(e) { StreamsTouchNoTask(d, e); }
      UnrelatedLosesNothing(d, Step(d, e), o);
  }

  lemma {:induction false} LossRunIff(d: Desk, run: seq<Event>, o: nat)
    requires Inv(d)
    ensures Lost(Final(d, run), o) <==> Lost(d, o) || LosesDuring(d, run, o)
    decreases |run|
  {
    hide Inv, Step, Lost, Loses;
    if run != [] {
      StepKeepsInv(d, run[0]);
      LossIff(d, run[0], o);
      LossRunIff(Step(d, run[0]), run[1..], o);
    }
  }

  /** Over every run, an offer ends lost exactly when one of those steps met it unanswered. */
  lemma OfferLostIff(host: bool, room: string, run: seq<Event>, o: nat)
    ensures Lost(Final(Start(host, room), run), o) <==> LosesDuring(Start(host, room), run, o)
  {
    hide Final, LosesDuring;
    StartIsInv(host, room);
    LossRunIff(Start(host, room), run, o);
  }

  /** A decision that clears the desk drops an unanswered offer exactly when the offer pending by then
      is not the one it decided on. */
  lemma ClearingDropsIff(d: Desk, k: nat, o: nat)
    requires Inv(d) && k in d.decides && d.decides[k] == Clearing && !Answered(d, o) && o !in d.autos
    ensures Lost(OnAdvanceDecision(d, k), o) && !Lost(d, o)
      <==> d.pending == Some(o) && k < |d.past.decisions| && d.past.decisions[k].offer != o
  {
    hide Inv, Lost;
    DecisionMayGrant(d, k);
    ClearingLossIff(d, k, o);
    assert d.past.decisions[k].offer != o;
    assert d.pending == Some(o) ==> !Lost(d, o) by { WaitingIsNotLost(d, o); }
  }

  lemma WaitingIsNotLost(d: Desk, o: nat)
    ensures d.pending == Some(o) ==> !Lost(d, o)
  {
  }

  // ---- Trust for another room ----

  /** The entry names the room in which the offer of its decision had arrived. */
  predicate AtOfferRoom(h: History, t: Trust) {
    && t.decision < |h.decisions| && h.decisions[t.decision].offer < |h.offers|
    && t.room == h.offers[h.decisions[t.decision].offer].room
  }

  predicate WellPlaced(h: History) {
    forall t :: t in h.trusts ==> AtOfferRoom(h, t)
  }

  /** A decision records trust, and the room it read was not the one its offer had arrived in. */
  predicate Misplaces(d: Desk, e: Event) {
    && e.AdvanceDecision? && e.decision in d.decides && d.decides[e.decision].Trusting?
    && e.decision < |d.past.decisions| && d.past.decisions[e.decision].offer < |d.past.offers|
    && d.decides[e.decision].room != d.past.offers[d.past.decisions[e.decision].offer].room
  }

  predicate MisplacesDuring(d: Desk, run: seq<Event>)
    decreases |run|
  {
    run != [] && (Misplaces(d, run[0]) || MisplacesDuring(Step(d, run[0]), run[1..]))
  }

  lemma GrowingKeepsPlaces(h: History, grants: seq<Grant>, h': History)
    requires HistoryOk(h, grants) && Grows(h, h') && h'.trusts == h.trusts
    ensures WellPlaced(h') <==> WellPlaced(h)
  {
    hide Issued;
    forall t | t in h.trusts ensures AtOfferRoom(h', t) <==> AtOfferRoom(h, t) {
      assert TrustOk(h, grants, t);
      assert h.decisions[t.decision] in h.decisions && DecisionOk(h, h.decisions[t.decision]);
      assert h'.decisions[t.decision] == h.decisions[t.decision];
      assert h'.offers[h.decisions[t.decision].offer] == h.offers[h.decisions[t.decision].offer];
    }
  }

  lemma NewTrustKeepsPlaces(h: History, t: Trust)
    ensures WellPlaced(h.(trusts := h.trusts + [t])) <==> WellPlaced(h) && AtOfferRoom(h, t)
  {
    var h' := h.(trusts := h.trusts + [t]);
    assert t in h'.trusts;
    assert forall x :: x in h.trusts ==> x in h'.trusts;
    assert forall x :: AtOfferRoom(h', x) <==> AtOfferRoom(h, x);
  }

  /** Only recording trust adds an entry; offers and decisions only grow. */
  lemma TrustsKeptElsewhere(d: Desk, e: Event)
    requires !(e.AdvanceDecision? && e.decision in d.decides && d.decides[e.decision].Trusting?)
    ensures Step(d, e).past.trusts == d.past.trusts && Grows(d.past, Step(d, e).past)
  {
    hide ValidHeader, OnStream, OnChunk, OnStreamEnd, OnDisconnect;
    if OfStreams(e) { StreamsTouchNoTask(d, e); }
  }

  lemma MisplacedIff(d: Desk, e: Event)
    requires Inv(d)
    ensures WellPlaced(Step(d, e).past) <==> WellPlaced(d.past) && !Misplaces(d, e)
  {
    hide WellPlaced, HistoryOk, TrustedOk, TasksOk, GrantsOk, PendingOk, Traced, Apart, Step, Grows;
    if e.AdvanceDecision? && e.decision in d.decides && d.decides[e.decision].Trusting? {
      DecisionMayGrant(d, e.decision);
      TrustingStep(d, e.decision);
      NewTrustKeepsPlaces(d.past, Trust(e.decision, d.decides[e.decision].room));
    } else {
      TrustsKeptElsewhere(d, e);
      GrowingKeepsPlaces(d.past, d.grants, Step(d, e).past);
    }
  }

  lemma TrustingStep(d: Desk, k: nat)
    requires k in d.decides && d.decides[k].Trusting?
    requires k < |d.past.decisions| && d.past.decisions[k].offer < |d.past.offers|
    ensures Step(d, AdvanceDecision(k)).past
      == d.past.(trusts := d.past.trusts + [Trust(k, d.decides[k].room)])
  {
  }

  lemma {:induction false} MisplacedRunIff(d: Desk, run: seq<Event>)
    requires Inv(d)
    ensures WellPlaced(Final(d, run).past) <==> WellPlaced(d.past) && !MisplacesDuring(d, run)
    decreases |run|
  {
    hide Inv, Step, WellPlaced, Misplaces;
    if run != [] {
      StepKeepsInv(d, run[0]);
      MisplacedIff(d, run[0]);
      MisplacedRunIff(Step(d, run[0]), run[1..]);
    }
  }

  /** A user trusted a transfer that had been offered in the room. */
  predicate AskedFor(h: History, room: string) {
    exists c :: c in h.decisions && c.trust && c.accept && c.offer < |h.offers| && h.offers[c.offer].room == room
  }

  /** Over every run, trust stays with the rooms of the accepted offers exactly when no decision recorded it
      for another room; each trusted room is then one that a user asked to trust. */
  lemma TrustStaysInItsRoomIff(host: bool, room: string, run: seq<Event>)
    ensures var d := Final(Start(host, room), run);
            && (WellPlaced(d.past) <==> !MisplacesDuring(Start(host, room), run))
            && (WellPlaced(d.past) ==> forall r :: r in d.trusted ==> AskedFor(d.past, r))
  {
    hide Final, MisplacesDuring, WellPlaced, AskedFor;
    StartIsInv(host, room);
    RunKeepsInv(Start(host, room), run);
    MisplacedRunIff(Start(host, room), run);
    var d := Final(Start(host, room), run);
    assert WellPlaced(Start(host, room).past) by { NothingPlaced(host, room); }
    if WellPlaced(d.past) {
      forall r | r in d.trusted ensures AskedFor(d.past, r) { TrustedRoomAskedFor(d, r); }
    }
  }

  lemma NothingPlaced(host: bool, room: string)
    ensures WellPlaced(Start(host, room).past)
  {
  }

  lemma TrustedRoomAskedFor(d: Desk, room: string)
    requires Inv(d) && WellPlaced(d.past) && room in d.trusted
    ensures AskedFor(d.past, room)
  {
    hide TasksOk, GrantsOk, PendingOk, Traced, Apart, TrustOk, AtOfferRoom, AskedFor;
    var h := d.past;
    assert InForce(h.trusts, h.cleared, |h.trusts|, room);
    var t: nat :| h.cleared <= t < |h.trusts| && h.trusts[t].room == room;
    assert h.trusts[t] in h.trusts;
    EntryAskedFor(h, d.grants, h.trusts[t]);
  }

  lemma EntryAskedFor(h: History, grants: seq<Grant>, t: Trust)
    requires TrustOk(h, grants, t) && AtOfferRoom(h, t)
    ensures AskedFor(h, t.room)
  {
    hide Issued;
    assert h.decisions[t.decision] in h.decisions;
  }

  // ---- Offers granted for another room's sake ----

  /** The handler that was authorized had read the room in which its offer arrived. */
  predicate AtHome(h: History, g: Grant) {
    g.source.FromTrust? ==>
      g.source.offer < |h.offers| && g.look.Some? && g.look.value.room == h.offers[g.source.offer].room
  }

  predicate AllAtHome(h: History, grants: seq<Grant>) {
    forall g :: g in grants ==> AtHome(h, g)
  }

  /** A handler is authorized although the room it read, and found trusted, was not its offer's. */
  predicate Strays(d: Desk, e: Event) {
    && e.AdvanceOffer? && GrantedOffer(d, e).Some?
    && d.autos[e.offer].look.room != d.past.offers[e.offer].room
  }

  predicate StraysDuring(d: Desk, run: seq<Event>)
    decreases |run|
  {
    run != [] && (Strays(d, run[0]) || StraysDuring(Step(d, run[0]), run[1..]))
  }

  lemma GrowingKeepsHome(h: History, h': History, grants: seq<Grant>)
    requires Grows(h, h') && forall g :: g in grants ==> Consented(h, g)
    ensures AllAtHome(h', grants) <==> AllAtHome(h, grants)
  {
    hide LookOk;
    forall g | g in grants ensures AtHome(h', g) <==> AtHome(h, g) { assert Consented(h, g); }
  }

  lemma OneMoreAtHome(h: History, grants: seq<Grant>, g: Grant)
    ensures AllAtHome(h, grants + [g]) <==> AllAtHome(h, grants) && AtHome(h, g)
  {
    hide AtHome;
    var more := grants + [g];
    assert g in more && forall x :: x in grants ==> x in more;
  }

  lemma GrantsConsented(d: Desk, g: Grant)
    requires Inv(d) && g in d.grants
    ensures Consented(d.past, g)
  {
  }

  lemma StepGrows(d: Desk, e: Event)
    ensures Grows(d.past, Step(d, e).past)
  {
    hide ValidHeader, OnStream, OnChunk, OnStreamEnd, OnDisconnect;
    if OfStreams(e) { StreamsTouchNoTask(d, e); }
  }

  /** A handler's step changes nothing in the history. */
  lemma HandlerKeepsPast(d: Desk, o: nat)
    ensures OnAdvanceOffer(d, o).past == d.past
  {
    hide ValidHeader;
  }

  lemma StrayIff(d: Desk, e: Event)
    requires Inv(d)
    ensures AllAtHome(Step(d, e).past, Step(d, e).grants) <==> AllAtHome(d.past, d.grants) && !Strays(d, e)
  {
    hide Inv, AllAtHome, Grows, Consented, OnAdvanceOffer, OnAdvanceDecision, OnOffer, OnDecision;
    StepGrows(d, e);
    forall g | g in d.grants ensures Consented(d.past, g) { GrantsConsented(d, g); }
    GrowingKeepsHome(d.past, Step(d, e).past, d.grants);
    if GrantedOffer(d, e).Some? {
      var g := GrantsWhenFree(d, e);
      OneMoreAtHome(Step(d, e).past, d.grants, g);
      if e.AdvanceOffer? { HandlerKeepsPast(d, e.offer); }
      GrantAtHomeIff(d, e, g);
    } else {
      OthersGrantNothing(d, e);
    }
  }

  lemma GrantAtHomeIff(d: Desk, e: Event, g: Grant)
    requires Inv(d) && GrantedOffer(d, e).Some? && Step(d, e).grants == d.grants + [g]
    ensures AtHome(Step(d, e).past, g) <==> !Strays(d, e)
  {
    hide Inv, ValidHeader;
    assert Step(d, e).grants[|d.grants|] == g;
  }

  lemma {:induction false} StrayRunIff(d: Desk, run: seq<Event>)
    requires Inv(d)
    ensures AllAtHome(Final(d, run).past, Final(d, run).grants)
      <==> AllAtHome(d.past, d.grants) && !StraysDuring(d, run)
    decreases |run|
  {
    hide Inv, Step, AllAtHome, Strays;
    if run != [] {
      StepKeepsInv(d, run[0]);
      StrayIff(d, run[0]);
      StrayRunIff(Step(d, run[0]), run[1..]);
    }
  }

  /** Over every run, each automatic authorization looked up the room of its own offer exactly when no step
      strayed. If trust was never misplaced either, a user had asked to trust that room. */
  lemma GrantsStayInTheirRoomIff(host: bool, room: string, run: seq<Event>)
    ensures var d := Final(Start(host, room), run);
            && (AllAtHome(d.past, d.grants) <==> !StraysDuring(Start(host, room), run))
            && (AllAtHome(d.past, d.grants) && WellPlaced(d.past) ==>
                  forall g :: g in d.grants && g.source.FromTrust? ==>
                    g.source.offer < |d.past.offers| && AskedFor(d.past, d.past.offers[g.source.offer].room))
  {
    hide Final, StraysDuring, WellPlaced, AskedFor, Inv, AllAtHome;
    StartIsInv(host, room);
    RunKeepsInv(Start(host, room), run);
    StrayRunIff(Start(host, room), run);
    var d := Final(Start(host, room), run);
    assert AllAtHome(Start(host, room).past, []) by { NoneAway(host, room); }
    if AllAtHome(d.past, d.grants) && WellPlaced(d.past) {
      forall g | g in d.grants && g.source.FromTrust?
        ensures g.source.offer < |d.past.offers| && AskedFor(d.past, d.past.offers[g.source.offer].room)
      {
        HomeGrantAskedFor(d, g);
      }
    }
  }

  lemma NoneAway(host: bool, room: string)
    ensures AllAtHome(Start(host, room).past, [])
  {
  }

  lemma HomeGrantAskedFor(d: Desk, g: Grant)
    requires Inv(d) && g in d.grants && g.source.FromTrust? && AllAtHome(d.past, d.grants) && WellPlaced(d.past)
    ensures g.source.offer < |d.past.offers| && AskedFor(d.past, d.past.offers[g.source.offer].room)
  {
    hide Inv, TrustOk, AskedFor, AtOfferRoom;
    var t := TrustGoesBack(d, g);
    assert d.past.trusts[t] in d.past.trusts && AtHome(d.past, g);
    EntryAskedFor(d.past, d.grants, d.past.trusts[t]);
  }
}
