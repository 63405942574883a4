/** Consent to incoming chart transfers, at the grain of its lock operations: offers, decisions,
    trusted rooms, one-shot authorizations and the archive streams that consume them. */
module TransferConsent {
  import opened Wrappers

  const MAX_REQUEST_ID: nat := 80
  const MAX_NAME: nat := 256
  const MAX_TRANSFER_BYTES: nat := 1024 * 1024 * 1024

  datatype Header = Header(requestId: string, name: string, size: nat, archive: string, chart: string, executable: bool)

  predicate HexDigest(s: string) {
    |s| == 64 && forall c :: c in s ==> '0' <= c <= '9' || 'a' <= c <= 'f'
  }

  predicate ValidHeader(h: Header) {
    && 1 <= |h.requestId| <= MAX_REQUEST_ID
    && 1 <= |h.name| <= MAX_NAME
    && 1 <= h.size <= MAX_TRANSFER_BYTES
    && HexDigest(h.archive) && HexDigest(h.chart)
  }

  datatype Offer = Offer(session: string, header: Header)

  /** An offer with the room that was current when it arrived. */
  datatype Arrival = Arrival(offer: Offer, room: string)

  /** What an offer handler saw: the room it had read, and the trust entries in force when it looked the room
      up, from `since`, where the last clear cut them off, up to `upto`. */
  datatype Look = Look(room: string, since: nat, upto: nat)

  datatype Decision = Decision(offer: nat, accept: bool, trust: bool, confirmed: bool)

  /** A room written into the trusted set, by the decision that asked for it. */
  datatype Trust = Trust(decision: nat, room: string)

  /** Where an authorization came from: a user's decision, or the handler of an offer in a trusted room. */
  datatype Source = FromDecision(decision: nat) | FromTrust(offer: nat)

  datatype Grant = Grant(session: string, header: Header, confirmed: bool, source: Source, look: Option<Look>)

  /** The lock operations an offer handler still has to do: read the room, look it up, authorize, clear. */
  datatype AutoStep = Reading | Checking(room: string) | AutoGranting(look: Look) | AutoClearing

  /** Those a decision still has to do: clear the offer, authorize, read the room, trust it. */
  datatype DecideStep = Clearing | Granting | Naming | Trusting(room: string)

  datatype Stream = Stream(grant: nat, got: nat)

  datatype Receipt = Receipt(grant: nat, session: string, header: Header, confirmed: bool, bytes: nat)

  /** What was offered, decided and trusted so far; the first `cleared` trust entries are forgotten. */
  datatype History = History(offers: seq<Arrival>, decisions: seq<Decision>, trusts: seq<Trust>, cleared: nat)

  /** The state of a participant, with the history and with what was granted and received. */
  datatype Desk = Desk(
    host: bool, room: string,
    pending: Option<nat>, trusted: set<string>, auths: map<(string, string), nat>,
    autos: map<nat, AutoStep>, decides: map<nat, DecideStep>, streams: map<nat, Stream>,
    past: History, grants: seq<Grant>, received: seq<Receipt>)

  function Start(host: bool, room: string): Desk {
    Desk(host, room, None, {}, map[], map[], map[], map[], History([], [], [], 0), [], [])
  }

  datatype Event =
    | OfferArrives(session: string, header: Header)
    | AdvanceOffer(offer: nat)
    | DecisionArrives(requestId: string, accept: bool, trust: bool, confirmed: bool)
    | AdvanceDecision(decision: nat)
    | StreamOpens(stream: nat, session: string, header: Header)
    | Chunk(stream: nat, bytes: nat)
    | StreamEnds(stream: nat)
    | StreamDies(stream: nat)
    | Disconnected(session: string)
    | OfferDropped
    | TrustForgotten
    | GrantsForgotten
    | RoomSet(room: string)
    | HostSet(host: bool)

  // ---- The lock operations ----

  function Key(g: Grant): (string, string) { (g.session, g.header.requestId) }

  /** One authorization per session and request at a time; a second one is refused. */
  function Authorize(d: Desk, g: Grant): (Desk, bool) {
    if !ValidHeader(g.header) || (g.header.executable && !g.confirmed) || Key(g) in d.auths then (d, false)
    else (d.(auths := d.auths[Key(g) := |d.grants|], grants := d.grants + [g]), true)
  }

  function Arriving(d: Desk, session: string, header: Header): Arrival {
    Arrival(Offer(session, header), d.room)
  }

  /** The single consumer of network events handles one offer at a time. */
  function OnOffer(d: Desk, session: string, header: Header): Desk {
    if d.autos != map[] || !ValidHeader(header) then d
    else
      var o := |d.past.offers|;
      d.(past := d.past.(offers := d.past.offers + [Arriving(d, session, header)]), pending := Some(o),
         autos := map[o := Reading])
  }

  /** The authorization an offer in a trusted room, or a decision, asks for. */
  function AutoGrant(h: History, o: nat, look: Look): Grant
    requires o < |h.offers|
  {
    Grant(h.offers[o].offer.session, h.offers[o].offer.header, false, FromTrust(o), Some(look))
  }

  function DecidedGrant(h: History, k: nat): Grant
    requires k < |h.decisions| && h.decisions[k].offer < |h.offers|
  {
    var offer := h.offers[h.decisions[k].offer].offer;
    Grant(offer.session, offer.header, h.decisions[k].confirmed, FromDecision(k), None)
  }

  /** The handler goes on only in a trusted room and with an offer that holds nothing executable. */
  predicate Passes(d: Desk, o: nat, room: string)
    requires o < |d.past.offers|
  {
    room in d.trusted && !d.past.offers[o].offer.header.executable
  }

  function OnAdvanceOffer(d: Desk, o: nat): Desk {
    if o !in d.autos || o >= |d.past.offers| then d
    else match d.autos[o]
      case Reading => d.(autos := d.autos[o := Checking(d.room)])
      case Checking(room) =>
        if Passes(d, o, room)
        then d.(autos := d.autos[o := AutoGranting(Look(room, d.past.cleared, |d.past.trusts|))])
        else d.(autos := d.autos - {o})
      case AutoGranting(look) =>
        var (granted, ok) := Authorize(d, AutoGrant(d.past, o, look));
        if ok then granted.(autos := d.autos[o := AutoClearing]) else d.(autos := d.autos - {o})
      case AutoClearing => d.(pending := None, autos := d.autos - {o})
  }

  /** The checks a decision passes before it touches anything. */
  predicate Accepts(d: Desk, requestId: string, accept: bool, trust: bool, confirmed: bool) {
    && !d.host
    && d.pending.Some? && d.pending.value < |d.past.offers|
    && var h := d.past.offers[d.pending.value].offer.header;
       && h.requestId == requestId
       && (accept && h.executable ==> confirmed)
       && (trust ==> accept && !h.executable)
  }

  function OnDecision(d: Desk, requestId: string, accept: bool, trust: bool, confirmed: bool): Desk {
    if !Accepts(d, requestId, accept, trust, confirmed) then d
    else
      var c := Decision(d.pending.value, accept, trust, confirmed);
      d.(past := d.past.(decisions := d.past.decisions + [c]), decides := d.decides[|d.past.decisions| := Clearing])
  }

  function OnAdvanceDecision(d: Desk, k: nat): Desk {
    if k !in d.decides || k >= |d.past.decisions| || d.past.decisions[k].offer >= |d.past.offers| then d
    else
      var decision := d.past.decisions[k];
      match d.decides[k]
      case Clearing =>
        d.(pending := None, decides := if decision.accept then d.decides[k := Granting] else d.decides - {k})
      case Granting =>
        var (granted, ok) := Authorize(d, DecidedGrant(d.past, k));
        granted.(decides := if ok && decision.trust then d.decides[k := Naming] else d.decides - {k})
      case Naming => d.(decides := d.decides[k := Trusting(d.room)])
      case Trusting(room) =>
        d.(trusted := d.trusted + {room}, decides := d.decides - {k},
           past := d.past.(trusts := d.past.trusts + [Trust(k, room)]))
  }

  /** The authorization is used up even when the stream's header differs from the accepted one. */
  function OnStream(d: Desk, stream: nat, session: string, header: Header): Desk {
    if stream in d.streams || !ValidHeader(header) || (session, header.requestId) !in d.auths then d
    else
      var g := d.auths[(session, header.requestId)];
      var used := d.(auths := d.auths - {(session, header.requestId)});
      if g < |d.grants| && d.grants[g].header == header then used.(streams := d.streams[stream := Stream(g, 0)])
        else used
  }

  function OnChunk(d: Desk, stream: nat, bytes: nat): Desk {
    if stream !in d.streams || d.streams[stream].grant >= |d.grants| then d
    else
      var st := d.streams[stream];
      var got := st.got + bytes;
      if got > d.grants[st.grant].header.size || got > MAX_TRANSFER_BYTES then d.(streams := d.streams - {stream})
      else d.(streams := d.streams[stream := st.(got := got)])
  }

  /** A host removes what it receives; a participant installs it. */
  function OnStreamEnd(d: Desk, stream: nat): Desk {
    if stream !in d.streams || d.streams[stream].grant >= |d.grants| then d
    else
      var st := d.streams[stream];
      var g := d.grants[st.grant];
      var closed := d.(streams := d.streams - {stream});
      if st.got == g.header.size && !d.host
        then closed.(received := d.received + [Receipt(st.grant, g.session, g.header, g.confirmed, st.got)])
      else closed
  }

  /** A lost peer takes its authorizations and its open streams along. */
  function OnDisconnect(d: Desk, session: string): Desk {
    d.(auths := map k | k in d.auths && k.0 != session :: d.auths[k],
       streams := map n | n in d.streams
         && !(d.streams[n].grant < |d.grants| && d.grants[d.streams[n].grant].session == session) :: d.streams[n])
  }

  function OnForgetTrust(d: Desk): Desk {
    d.(trusted := {}, past := d.past.(cleared := |d.past.trusts|))
  }

  function Step(d: Desk, e: Event): Desk {
    match e
    case OfferArrives(session, header) => OnOffer(d, session, header)
    case AdvanceOffer(o) => OnAdvanceOffer(d, o)
    case DecisionArrives(requestId, accept, trust, confirmed) => OnDecision(d, requestId, accept, trust, confirmed)
    case AdvanceDecision(k) => OnAdvanceDecision(d, k)
    case StreamOpens(stream, session, header) => OnStream(d, stream, session, header)
    case Chunk(stream, bytes) => OnChunk(d, stream, bytes)
    case StreamEnds(stream) => OnStreamEnd(d, stream)
    case StreamDies(stream) => d.(streams := d.streams - {stream})
    case Disconnected(session) => OnDisconnect(d, session)
    case OfferDropped => d.(pending := None)
    case TrustForgotten => OnForgetTrust(d)
    case GrantsForgotten => d.(auths := map[])
    case RoomSet(room) => d.(room := room)
    case HostSet(host) => d.(host := host)
  }

  function Final(d: Desk, run: seq<Event>): Desk
    decreases |run|
  {
    if run == [] then d else Final(Step(d, run[0]), run[1..])
  }

  // ---- The invariant ----

  predicate Issued(grants: seq<Grant>, source: Source) {
    exists g :: g in grants && g.source == source
  }

  /** A decision names an offer and carries the consent the offer needs. */
  predicate DecisionOk(h: History, c: Decision) {
    && c.offer < |h.offers|
    && (c.accept && h.offers[c.offer].offer.header.executable ==> c.confirmed)
    && (c.trust ==> c.accept && !h.offers[c.offer].offer.header.executable)
  }

  /** A trust entry was written by an accepting, trusting decision that had been authorized. */
  predicate TrustOk(h: History, grants: seq<Grant>, t: Trust) {
    && t.decision < |h.decisions| && h.decisions[t.decision].accept && h.decisions[t.decision].trust
    && Issued(grants, FromDecision(t.decision))
  }

  /** Some entry between two points of the trust log names the room. */
  predicate InForce(trusts: seq<Trust>, since: nat, upto: nat, room: string) {
    exists t: nat :: since <= t < upto && t < |trusts| && trusts[t].room == room
  }

  /** The room a handler looked up was trusted by an entry in force at that moment. */
  predicate LookOk(h: History, look: Look) {
    look.since <= look.upto <= |h.trusts| && InForce(h.trusts, look.since, look.upto, look.room)
  }

  predicate HistoryOk(h: History, grants: seq<Grant>) {
    && h.cleared <= |h.trusts|
    && (forall a :: a in h.offers ==> ValidHeader(a.offer.header))
    && (forall c :: c in h.decisions ==> DecisionOk(h, c))
    && (forall t :: t in h.trusts ==> TrustOk(h, grants, t))
  }

  /** A room is trusted exactly when an entry since the last clear names it. */
  ghost predicate TrustedOk(h: History, trusted: set<string>) {
    forall room :: room in trusted <==> InForce(h.trusts, h.cleared, |h.trusts|, room)
  }

  /** An authorization repeats an offer word for word and has the consent it needs: an accepting
      decision on that offer, or a room that was trusted when the offer's handler looked it up. */
  predicate Consented(h: History, g: Grant) {
    match g.source
    case FromDecision(k) =>
      && k < |h.decisions| && h.decisions[k].accept && h.decisions[k].offer < |h.offers|
      && h.offers[h.decisions[k].offer].offer == Offer(g.session, g.header) && g.confirmed == h.decisions[k].confirmed
      && (g.header.executable ==> g.confirmed)
    case FromTrust(o) =>
      && o < |h.offers| && h.offers[o].offer == Offer(g.session, g.header)
      && !g.header.executable && !g.confirmed && g.look.Some? && LookOk(h, g.look.value)
  }

  /** A decision past its authorization. */
  predicate Granted(step: DecideStep) { step.Naming? || step.Trusting? }

  /** A source that has issued its authorization will not issue another. */
  predicate Spent(autos: map<nat, AutoStep>, decides: map<nat, DecideStep>, source: Source) {
    match source
    case FromDecision(k) => k in decides ==> Granted(decides[k])
    case FromTrust(o) => o in autos ==> autos[o] == AutoClearing
  }

  predicate AutoOk(h: History, grants: seq<Grant>, o: nat, step: AutoStep) {
    && o < |h.offers|
    && (step.AutoGranting? ==> !h.offers[o].offer.header.executable && LookOk(h, step.look))
    && (step == AutoClearing ==> Issued(grants, FromTrust(o)))
  }

  predicate DecideOk(h: History, grants: seq<Grant>, k: nat, step: DecideStep) {
    && k < |h.decisions| && (step != Clearing ==> h.decisions[k].accept)
    && (Granted(step) ==> h.decisions[k].trust && Issued(grants, FromDecision(k)))
  }

  predicate TasksOk(h: History, grants: seq<Grant>, autos: map<nat, AutoStep>, decides: map<nat, DecideStep>) {
    && (forall o :: o in autos ==> AutoOk(h, grants, o, autos[o]))
    && (forall k :: k in decides ==> DecideOk(h, grants, k, decides[k]))
  }

  predicate GrantsOk(h: History, autos: map<nat, AutoStep>, decides: map<nat, DecideStep>, grants: seq<Grant>) {
    && (forall g :: g in grants ==> Consented(h, g) && Spent(autos, decides, g.source))
    && (forall g, h :: 0 <= g < h < |grants| ==> grants[g].source != grants[h].source)
  }

  /** A decision on a pending offer has yet to clear it, and so has a handler that has granted it. */
  predicate PendingOk(pending: Option<nat>, h: History, autos: map<nat, AutoStep>, decides: map<nat, DecideStep>,
                      grants: seq<Grant>) {
    && (pending.Some? ==>
          var o := pending.value;
          && o < |h.offers|
          && (forall k: nat :: k < |h.decisions| && h.decisions[k].offer == o ==>
                k in decides && decides[k] == Clearing)
          && (Issued(grants, FromTrust(o)) ==> o in autos && autos[o] == AutoClearing))
    && (forall o :: o in autos ==> pending.None? || pending == Some(o))
  }

  predicate ReceiptOk(grants: seq<Grant>, r: Receipt) {
    && r.grant < |grants|
    && r.session == grants[r.grant].session && r.header == grants[r.grant].header
      && r.confirmed == grants[r.grant].confirmed
    && r.bytes == r.header.size
  }

  predicate Traced(grants: seq<Grant>, auths: map<(string, string), nat>, streams: map<nat, Stream>,
                   received: seq<Receipt>) {
    && (forall k :: k in auths ==> auths[k] < |grants| && Key(grants[auths[k]]) == k)
    && (forall n :: n in streams
         ==> streams[n].grant < |grants| && streams[n].got <= grants[streams[n].grant].header.size)
    && (forall r :: r in received ==> ReceiptOk(grants, r))
  }

  predicate InStream(streams: map<nat, Stream>, g: nat) {
    exists n :: n in streams && streams[n].grant == g
  }

  predicate InReceived(received: seq<Receipt>, g: nat) {
    exists r :: r in received && r.grant == g
  }

  /** No authorization is in two places: waiting, being streamed, received. */
  predicate Apart(auths: map<(string, string), nat>, streams: map<nat, Stream>, received: seq<Receipt>) {
    && (forall k :: k in auths ==> !InStream(streams, auths[k]) && !InReceived(received, auths[k]))
    && (forall n :: n in streams ==> !InReceived(received, streams[n].grant))
    && (forall n, m :: n in streams && m in streams && n != m ==> streams[n].grant != streams[m].grant)
    && (forall i, j :: 0 <= i < j < |received| ==> received[i].grant != received[j].grant)
  }

  ghost predicate Inv(d: Desk) {
    && HistoryOk(d.past, d.grants)
    && TrustedOk(d.past, d.trusted)
    && TasksOk(d.past, d.grants, d.autos, d.decides)
    && GrantsOk(d.past, d.autos, d.decides, d.grants)
    && PendingOk(d.pending, d.past, d.autos, d.decides, d.grants)
    && Traced(d.grants, d.auths, d.streams, d.received)
    && Apart(d.auths, d.streams, d.received)
  }

  // ---- Growing histories ----

  /** More offers, decisions and trust entries, and the same or a later clear. */
  predicate Grows(h: History, h': History) {
    h.offers <= h'.offers && h.decisions <= h'.decisions && h.trusts <= h'.trusts
  }

  lemma InForceGrows(trusts: seq<Trust>, trusts': seq<Trust>, since: nat, upto: nat, room: string)
    requires trusts <= trusts' && upto <= |trusts|
    ensures InForce(trusts', since, upto, room) <==> InForce(trusts, since, upto, room)
  {
    assert forall t: nat :: t < |trusts| ==> trusts'[t] == trusts[t];
  }

  lemma LookGrows(h: History, h': History, look: Look)
    requires h.trusts <= h'.trusts && LookOk(h, look)
    ensures LookOk(h', look)
  {
    hide InForce;
    InForceGrows(h.trusts, h'.trusts, look.since, look.upto, look.room);
  }

  /** What was consented to stays consented to. */
  lemma ConsentGrows(h: History, h': History, g: Grant)
    requires Grows(h, h') && Consented(h, g)
    ensures Consented(h', g)
  {
    hide LookOk;
    match g.source
    case FromDecision(k) =>
      assert h'.decisions[k] == h.decisions[k];
      assert h'.offers[h.decisions[k].offer] == h.offers[h.decisions[k].offer];
    case FromTrust(o) => LookGrows(h, h', g.look.value);
  }

  lemma GrowingKeepsGrants(h: History, h': History, autos: map<nat, AutoStep>, decides: map<nat, DecideStep>,
                           grants: seq<Grant>)
    requires Grows(h, h') && GrantsOk(h, autos, decides, grants)
    ensures GrantsOk(h', autos, decides, grants)
  {
    hide Consented, Spent, Grows;
    forall g | g in grants ensures Consented(h', g) { ConsentGrows(h, h', g); }
  }

  lemma GrowingKeepsTasks(h: History, h': History, autos: map<nat, AutoStep>, decides: map<nat, DecideStep>,
                          grants: seq<Grant>)
    requires Grows(h, h') && TasksOk(h, grants, autos, decides)
    ensures TasksOk(h', grants, autos, decides)
  {
    hide LookOk, Issued;
    forall o | o in autos ensures AutoOk(h', grants, o, autos[o]) {
      assert AutoOk(h, grants, o, autos[o]);
      assert h'.offers[o] == h.offers[o];
      if autos[o].AutoGranting? { LookGrows(h, h', autos[o].look); }
    }
    forall k | k in decides ensures DecideOk(h', grants, k, decides[k]) {
      assert DecideOk(h, grants, k, decides[k]);
      assert h'.decisions[k] == h.decisions[k];
    }
  }

  lemma DecisionGrows(h: History, h': History, c: Decision)
    requires Grows(h, h') && DecisionOk(h, c)
    ensures DecisionOk(h', c)
  {
    assert h'.offers[c.offer] == h.offers[c.offer];
  }

  lemma TrustGrows(h: History, h': History, grants: seq<Grant>, t: Trust)
    requires Grows(h, h') && TrustOk(h, grants, t)
    ensures TrustOk(h', grants, t)
  {
    hide Issued;
    assert h'.decisions[t.decision] == h.decisions[t.decision];
  }

  /** Adding one arrival, one decision or one trust entry, or clearing. */
  lemma GrowingKeepsHistory(h: History, h': History, grants: seq<Grant>)
    requires HistoryOk(h, grants) && Grows(h, h') && h'.cleared <= |h'.trusts|
    requires forall a :: a in h'.offers ==> a in h.offers || ValidHeader(a.offer.header)
    requires forall c :: c in h'.decisions ==> c in h.decisions || DecisionOk(h', c)
    requires forall t :: t in h'.trusts ==> t in h.trusts || TrustOk(h', grants, t)
    ensures HistoryOk(h', grants)
  {
    hide DecisionOk, TrustOk, ValidHeader;
    forall c | c in h'.decisions ensures DecisionOk(h', c) { if c in h.decisions { DecisionGrows(h, h', c); } }
    forall t | t in h'.trusts ensures TrustOk(h', grants, t) { if t in h.trusts { TrustGrows(h, h', grants, t); } }
  }

  lemma IssuedGrows(grants: seq<Grant>, g: Grant, source: Source)
    ensures Issued(grants + [g], source) <==> Issued(grants, source) || g.source == source
  {
    if Issued(grants, source) { var x :| x in grants && x.source == source; assert x in grants + [g]; }
    if g.source == source { assert g in grants + [g]; }
  }

  // ---- Tasks and grants ----

  /** Tasks only move past their grant. */
  predicate Moves(autos: map<nat, AutoStep>, decides: map<nat, DecideStep>, autos': map<nat, AutoStep>,
                  decides': map<nat, DecideStep>) {
    && (forall o :: o in autos' ==> o in autos && (autos[o] == AutoClearing ==> autos'[o] == AutoClearing))
    && (forall k :: k in decides' ==> k in decides && (Granted(decides[k]) ==> Granted(decides'[k])))
  }

  lemma MovingKeepsGrants(h: History, grants: seq<Grant>, autos: map<nat, AutoStep>, decides: map<nat, DecideStep>,
                          autos': map<nat, AutoStep>, decides': map<nat, DecideStep>)
    requires GrantsOk(h, autos, decides, grants) && Moves(autos, decides, autos', decides')
    ensures GrantsOk(h, autos', decides', grants)
  {
    hide Consented;
    forall g | g in grants ensures Spent(autos', decides', g.source) { assert Spent(autos, decides, g.source); }
  }

  /** A source whose task is still before its grant has not issued any. */
  lemma FreshSource(h: History, autos: map<nat, AutoStep>, decides: map<nat, DecideStep>, grants: seq<Grant>,
                    source: Source)
    requires GrantsOk(h, autos, decides, grants) && !Spent(autos, decides, source)
    ensures !Issued(grants, source)
  {
    hide Consented, Spent;
  }

  lemma OneMoreGrant(h: History, autos: map<nat, AutoStep>, decides: map<nat, DecideStep>, grants: seq<Grant>, g: Grant)
    requires GrantsOk(h, autos, decides, grants) && Consented(h, g) && Spent(autos, decides, g.source)
    requires !Issued(grants, g.source)
    ensures GrantsOk(h, autos, decides, grants + [g])
  {
    hide Consented, Spent;
    forall i | 0 <= i < |grants| ensures grants[i].source != g.source { assert grants[i] in grants; }
  }

  lemma OneMoreGrantKeepsRest(h: History, autos: map<nat, AutoStep>, decides: map<nat, DecideStep>, grants: seq<Grant>,
                              g: Grant)
    requires HistoryOk(h, grants) && TasksOk(h, grants, autos, decides)
    ensures HistoryOk(h, grants + [g]) && TasksOk(h, grants + [g], autos, decides)
  {
    hide InForce, DecisionOk, Issued;
    forall t | t in h.trusts ensures TrustOk(h, grants + [g], t) {
      assert TrustOk(h, grants, t);
      IssuedGrows(grants, g, FromDecision(t.decision));
    }
    forall o | o in autos ensures AutoOk(h, grants + [g], o, autos[o]) {
      assert AutoOk(h, grants, o, autos[o]);
      IssuedGrows(grants, g, FromTrust(o));
    }
    forall k | k in decides ensures DecideOk(h, grants + [g], k, decides[k]) {
      assert DecideOk(h, grants, k, decides[k]);
      IssuedGrows(grants, g, FromDecision(k));
    }
  }

  // ---- Places ----

  lemma AuthorizeKeepsPlaces(grants: seq<Grant>, auths: map<(string, string), nat>, streams: map<nat, Stream>,
                             received: seq<Receipt>, g: Grant)
    requires Traced(grants, auths, streams, received) && Apart(auths, streams, received) && Key(g) !in auths
    ensures Traced(grants + [g], auths[Key(g) := |grants|], streams, received)
      && Apart(auths[Key(g) := |grants|], streams, received)
  {
    var more := grants + [g];
    forall r | r in received ensures ReceiptOk(more, r) { assert ReceiptOk(grants, r); }
  }

  lemma OpenKeepsPlaces(grants: seq<Grant>, auths: map<(string, string), nat>, streams: map<nat, Stream>,
                        received: seq<Receipt>, key: (string, string), n: nat)
    requires Traced(grants, auths, streams, received) && Apart(auths, streams, received) && key in auths
      && n !in streams
    ensures var g := auths[key];
            && Traced(grants, auths - {key}, streams, received) && Apart(auths - {key}, streams, received)
            && Traced(grants, auths - {key}, streams[n := Stream(g, 0)], received)
              && Apart(auths - {key}, streams[n := Stream(g, 0)], received)
  {
    hide ReceiptOk, InReceived;
    var g := auths[key];
    var more := streams[n := Stream(g, 0)];
    forall k | k in auths && k != key ensures !InStream(more, auths[k]) {
      assert Key(grants[auths[k]]) == k && Key(grants[g]) == key;
      assert !InStream(streams, auths[k]);
    }
    forall m | m in streams ensures streams[m].grant != g { assert !InStream(streams, g); }
  }

  lemma GrowKeepsPlaces(grants: seq<Grant>, auths: map<(string, string), nat>, streams: map<nat, Stream>,
                        received: seq<Receipt>, n: nat, got: nat)
    requires Traced(grants, auths, streams, received) && Apart(auths, streams, received) && n in streams
      && got <= grants[streams[n].grant].header.size
    ensures Traced(grants, auths, streams[n := Stream(streams[n].grant, got)], received)
      && Apart(auths, streams[n := Stream(streams[n].grant, got)], received)
  {
    hide ReceiptOk, InReceived;
    var more := streams[n := Stream(streams[n].grant, got)];
    forall k | k in auths ensures !InStream(more, auths[k]) {
      assert !InStream(streams, auths[k]);
    }
  }

  /** Closing any set of streams and withdrawing any set of authorizations. */
  lemma ShrinkKeepsPlaces(grants: seq<Grant>, auths: map<(string, string), nat>, streams: map<nat, Stream>,
                          received: seq<Receipt>, auths': map<(string, string), nat>, streams': map<nat, Stream>)
    requires Traced(grants, auths, streams, received) && Apart(auths, streams, received)
    requires forall k :: k in auths' ==> k in auths && auths'[k] == auths[k]
    requires forall n :: n in streams' ==> n in streams && streams'[n] == streams[n]
    ensures Traced(grants, auths', streams', received) && Apart(auths', streams', received)
  {
    hide ReceiptOk, InReceived;
    forall k | k in auths' ensures !InStream(streams', auths'[k]) { assert !InStream(streams, auths[k]); }
  }

  lemma ReceiveKeepsPlaces(grants: seq<Grant>, auths: map<(string, string), nat>, streams: map<nat, Stream>,
                           received: seq<Receipt>, n: nat, r: Receipt)
    requires Traced(grants, auths, streams, received) && Apart(auths, streams, received) && n in streams
    requires r.grant == streams[n].grant && ReceiptOk(grants, r)
    ensures Traced(grants, auths, streams - {n}, received + [r]) && Apart(auths, streams - {n}, received + [r])
  {
    hide ReceiptOk;
    ShrinkKeepsPlaces(grants, auths, streams, received, auths, streams - {n});
    assert !InReceived(received, r.grant);
    forall k | k in auths ensures auths[k] != r.grant { assert !InStream(streams, auths[k]); }
    forall i | 0 <= i < |received| ensures received[i].grant != r.grant { assert received[i] in received; }
  }

  // ---- Every step ----

  lemma OfferKeepsInv(d: Desk, session: string, header: Header)
    requires Inv(d)
    ensures Inv(OnOffer(d, session, header))
  {
    hide HistoryOk, TasksOk, GrantsOk, PendingOk, Traced, Apart, ValidHeader, TrustedOk;
    if d.autos == map[] && ValidHeader(header) {
      var h' := d.past.(offers := d.past.offers + [Arriving(d, session, header)]);
      assert Grows(d.past, h');
      ClearedBound(d.past, d.grants);
      GrowingKeepsHistory(d.past, h', d.grants);
      GrowingKeepsTasks(d.past, h', d.autos, d.decides, d.grants);
      GrowingKeepsGrants(d.past, h', d.autos, d.decides, d.grants);
      SameTrusts(d.past, h', d.trusted);
      NewOfferPending(d.past, h', d.decides, d.grants);
      NewAutoTask(h', |d.past.offers|, d.decides, d.grants);
    }
  }

  lemma ClearedBound(h: History, grants: seq<Grant>)
    requires HistoryOk(h, grants)
    ensures h.cleared <= |h.trusts|
  {
  }

  lemma SameTrusts(h: History, h': History, trusted: set<string>)
    requires TrustedOk(h, trusted) && h'.trusts == h.trusts && h'.cleared == h.cleared
    ensures TrustedOk(h', trusted)
  {
    hide InForce;
  }

  /** Nothing can already answer an offer that has only just arrived. */
  lemma NewOfferPending(h: History, h': History, decides: map<nat, DecideStep>, grants: seq<Grant>)
    requires HistoryOk(h, grants) && GrantsOk(h, map[], decides, grants)
    requires h'.decisions == h.decisions && |h'.offers| == |h.offers| + 1
    ensures PendingOk(Some(|h.offers|), h', map[|h.offers| := Reading], decides, grants)
    ensures !Issued(grants, FromTrust(|h.offers|))
  {
    hide LookOk, TrustOk, Spent;
    var o := |h.offers|;
    forall k: nat | k < |h.decisions| ensures h.decisions[k].offer != o { assert DecisionOk(h, h.decisions[k]); }
    forall g | g in grants ensures g.source != FromTrust(o) { assert Consented(h, g); }
  }

  /** The handler of a new offer starts. */
  lemma NewAutoTask(h: History, o: nat, decides: map<nat, DecideStep>, grants: seq<Grant>)
    requires TasksOk(h, grants, map[], decides) && GrantsOk(h, map[], decides, grants)
    requires o < |h.offers| && !Issued(grants, FromTrust(o))
    ensures TasksOk(h, grants, map[o := Reading], decides) && GrantsOk(h, map[o := Reading], decides, grants)
  {
    hide Consented, DecideOk;
    assert AutoOk(h, grants, o, Reading);
    forall g | g in grants ensures Spent(map[o := Reading], decides, g.source) {
      assert Spent(map[], decides, g.source) && g.source != FromTrust(o);
    }
  }

  lemma DecisionKeepsInv(d: Desk, requestId: string, accept: bool, trust: bool, confirmed: bool)
    requires Inv(d)
    ensures Inv(OnDecision(d, requestId, accept, trust, confirmed))
  {
    hide HistoryOk, TasksOk, GrantsOk, PendingOk, Traced, Apart, TrustedOk;
    if Accepts(d, requestId, accept, trust, confirmed) {
      var c := Decision(d.pending.value, accept, trust, confirmed);
      var h' := d.past.(decisions := d.past.decisions + [c]);
      assert Grows(d.past, h');
      assert DecisionOk(h', c);
      ClearedBound(d.past, d.grants);
      GrowingKeepsHistory(d.past, h', d.grants);
      GrowingKeepsTasks(d.past, h', d.autos, d.decides, d.grants);
      GrowingKeepsGrants(d.past, h', d.autos, d.decides, d.grants);
      SameTrusts(d.past, h', d.trusted);
      NewDecideTask(d.past, c, d.pending, d.autos, d.decides, d.grants);
    }
  }

  lemma NewDecideTask(h: History, c: Decision, pending: Option<nat>, autos: map<nat, AutoStep>,
                      decides: map<nat, DecideStep>, grants: seq<Grant>)
    requires HistoryOk(h, grants) && GrantsOk(h, autos, decides, grants)
      && PendingOk(pending, h, autos, decides, grants)
    requires var h' := h.(decisions := h.decisions + [c]);
             TasksOk(h', grants, autos, decides) && GrantsOk(h', autos, decides, grants)
    ensures var h', decides' := h.(decisions := h.decisions + [c]), decides[|h.decisions| := Clearing];
            && TasksOk(h', grants, autos, decides') && GrantsOk(h', autos, decides', grants)
            && PendingOk(pending, h', autos, decides', grants)
  {
    hide InForce, HistoryOk, AutoOk;
    var k := |h.decisions|;
    forall g | g in grants ensures Spent(autos, decides[k := Clearing], g.source) {
      assert Consented(h, g) && Spent(autos, decides, g.source);
    }
  }

  /** A task that only finishes, or only moves past its grant, leaves everything sound. */
  lemma MoveKeepsInv(d: Desk, pending: Option<nat>, autos: map<nat, AutoStep>, decides: map<nat, DecideStep>)
    requires Inv(d) && Moves(d.autos, d.decides, autos, decides) && TasksOk(d.past, d.grants, autos, decides)
    requires PendingOk(pending, d.past, autos, decides, d.grants)
    ensures Inv(d.(pending := pending, autos := autos, decides := decides))
  {
    hide Moves, HistoryOk, TasksOk, GrantsOk, PendingOk, Traced, Apart, TrustedOk;
    MovingKeepsGrants(d.past, d.grants, d.autos, d.decides, autos, decides);
  }

  lemma AdvanceOfferKeepsInv(d: Desk, o: nat)
    requires Inv(d)
    ensures Inv(OnAdvanceOffer(d, o))
  {
    hide Authorize, Inv, Passes, AutoOk;
    if o in d.autos && o < |d.past.offers| {
      OfferTaskEnds(d, o);
      match d.autos[o]
      case Reading =>
        assert AutoOk(d.past, d.grants, o, Checking(d.room)) by { PlainStepOk(d.past, d.grants, o); }
        OfferTaskMoves(d, o, Checking(d.room));
      case Checking(room) =>
        if Passes(d, o, room) {
          LookingFindsTrust(d, o, room);
          OfferTaskMoves(d, o, AutoGranting(Look(room, d.past.cleared, |d.past.trusts|)));
        } else {
          MoveKeepsInv(d, d.pending, d.autos - {o}, d.decides);
        }
      case AutoGranting(look) => AutoGrantKeepsInv(d, o, look);
      case AutoClearing => MoveKeepsInv(d, None, d.autos - {o}, d.decides);
    }
  }

  lemma PlainStepOk(h: History, grants: seq<Grant>, o: nat)
    requires o < |h.offers|
    ensures forall room :: AutoOk(h, grants, o, Checking(room))
  {
  }

  /** A room found in the trusted set is trusted by an entry in force. */
  lemma LookingFindsTrust(d: Desk, o: nat, room: string)
    requires Inv(d) && o < |d.past.offers| && Passes(d, o, room)
    ensures AutoOk(d.past, d.grants, o, AutoGranting(Look(room, d.past.cleared, |d.past.trusts|)))
  {
    hide InForce, TasksOk, GrantsOk, PendingOk, Traced, Apart, DecisionOk, TrustOk;
  }

  /** Dropping an offer handler that has not granted, and clearing behind one that has. */
  lemma OfferTaskEnds(d: Desk, o: nat)
    requires Inv(d) && o in d.autos
    ensures Moves(d.autos, d.decides, d.autos - {o}, d.decides) && TasksOk(d.past, d.grants, d.autos - {o}, d.decides)
    ensures PendingOk(None, d.past, d.autos - {o}, d.decides, d.grants)
    ensures d.autos[o] != AutoClearing ==> PendingOk(d.pending, d.past, d.autos - {o}, d.decides, d.grants)
  {
    hide HistoryOk, Traced, Apart, TrustedOk, AutoOk, DecideOk, Issued, Consented;
    if d.autos[o] != AutoClearing { FreshSource(d.past, d.autos, d.decides, d.grants, FromTrust(o)); }
  }

  /** A handler that moves on ahead of its authorization. */
  lemma OfferTaskMoves(d: Desk, o: nat, step: AutoStep)
    requires Inv(d) && o in d.autos && d.autos[o] != AutoClearing && step != AutoClearing
    requires AutoOk(d.past, d.grants, o, step)
    ensures Inv(d.(autos := d.autos[o := step]))
  {
    hide HistoryOk, Traced, Apart, TrustedOk, AutoOk, DecideOk, Issued, Consented;
    FreshSource(d.past, d.autos, d.decides, d.grants, FromTrust(o));
    MoveKeepsInv(d, d.pending, d.autos[o := step], d.decides);
  }

  lemma AutoGrantKeepsInv(d: Desk, o: nat, look: Look)
    requires Inv(d) && o in d.autos && o < |d.past.offers| && d.autos[o] == AutoGranting(look)
    ensures Inv(OnAdvanceOffer(d, o))
  {
    hide HistoryOk, TasksOk, GrantsOk, PendingOk, Traced, Apart, TrustedOk, ValidHeader, LookOk;
    var g := AutoGrant(d.past, o, look);
    OfferTaskEnds(d, o);
    MoveKeepsInv(d, d.pending, d.autos - {o}, d.decides);
    if Authorize(d, g).1 {
      AutoGrantBooks(d.past, d.pending, d.autos, d.decides, d.grants, o, look);
      AuthorizeKeepsPlaces(d.grants, d.auths, d.streams, d.received, g);
    }
  }

  lemma AutoGrantBooks(h: History, pending: Option<nat>, autos: map<nat, AutoStep>, decides: map<nat, DecideStep>,
                       grants: seq<Grant>, o: nat, look: Look)
    requires HistoryOk(h, grants) && TasksOk(h, grants, autos, decides) && GrantsOk(h, autos, decides, grants)
    requires PendingOk(pending, h, autos, decides, grants)
    requires o in autos && o < |h.offers| && autos[o] == AutoGranting(look)
    ensures var g, autos' := AutoGrant(h, o, look), autos[o := AutoClearing];
            && HistoryOk(h, grants + [g]) && TasksOk(h, grants + [g], autos', decides)
            && GrantsOk(h, autos', decides, grants + [g]) && PendingOk(pending, h, autos', decides, grants + [g])
  {
    hide LookOk, HistoryOk, Issued, DecideOk;
    var g, autos' := AutoGrant(h, o, look), autos[o := AutoClearing];
    assert AutoOk(h, grants, o, AutoGranting(look));
    FreshSource(h, autos, decides, grants, FromTrust(o));
    MovingKeepsGrants(h, grants, autos, decides, autos', decides);
    OneMoreGrant(h, autos', decides, grants, g);
    OneMoreGrantKeepsRest(h, autos, decides, grants, g);
    IssuedGrows(grants, g, FromTrust(o));
    assert AutoOk(h, grants + [g], o, AutoClearing);
    if pending.Some? { IssuedGrows(grants, g, FromTrust(pending.value)); }
  }

  lemma AdvanceDecisionKeepsInv(d: Desk, k: nat)
    requires Inv(d)
    ensures Inv(OnAdvanceDecision(d, k))
  {
    hide Inv, Authorize;
    if k in d.decides && k < |d.past.decisions| && d.past.decisions[k].offer < |d.past.offers| {
      DecisionTaskEnds(d, k);
      match d.decides[k]
      case Clearing => MoveKeepsInv(d, None, d.autos, OnAdvanceDecision(d, k).decides);
      case Granting => DecideGrantKeepsInv(d, k);
      case Naming => DecisionNames(d, k);
      case Trusting(room) => TrustingKeepsInv(d, k, room);
    }
  }

  /** Dropping a decision, and clearing the pending offer for one. */
  lemma DecisionTaskEnds(d: Desk, k: nat)
    requires Inv(d) && k in d.decides
    ensures k < |d.past.decisions|
    ensures Moves(d.autos, d.decides, d.autos, d.decides - {k}) && TasksOk(d.past, d.grants, d.autos, d.decides - {k})
    ensures PendingOk(None, d.past, d.autos, d.decides - {k}, d.grants)
    ensures d.decides[k] != Clearing ==> PendingOk(d.pending, d.past, d.autos, d.decides - {k}, d.grants)
    ensures d.past.decisions[k].accept && d.decides[k] == Clearing ==>
      && Moves(d.autos, d.decides, d.autos, d.decides[k := Granting])
      && TasksOk(d.past, d.grants, d.autos, d.decides[k := Granting])
      && PendingOk(None, d.past, d.autos, d.decides[k := Granting], d.grants)
  {
    hide HistoryOk, GrantsOk, Traced, Apart, TrustedOk, AutoOk, Issued;
    assert DecideOk(d.past, d.grants, k, d.decides[k]);
  }

  lemma DecisionNames(d: Desk, k: nat)
    requires Inv(d) && k in d.decides && d.decides[k] == Naming
    ensures Inv(d.(decides := d.decides[k := Trusting(d.room)]))
  {
    hide HistoryOk, GrantsOk, Traced, Apart, TrustedOk, AutoOk, Issued;
    assert DecideOk(d.past, d.grants, k, Naming);
    MoveKeepsInv(d, d.pending, d.autos, d.decides[k := Trusting(d.room)]);
  }

  lemma DecideGrantKeepsInv(d: Desk, k: nat)
    requires Inv(d) && k in d.decides && d.decides[k] == Granting
    ensures Inv(OnAdvanceDecision(d, k))
  {
    hide HistoryOk, TasksOk, GrantsOk, PendingOk, Traced, Apart, TrustedOk, ValidHeader;
    DecisionTaskEnds(d, k);
    DecisionsAreOk(d, k);
    MoveKeepsInv(d, d.pending, d.autos, d.decides - {k});
    var g := DecidedGrant(d.past, k);
    if Authorize(d, g).1 {
      DecideGrantBooks(d.past, d.pending, d.autos, d.decides, d.grants, k);
      AuthorizeKeepsPlaces(d.grants, d.auths, d.streams, d.received, g);
    }
  }

  lemma DecisionsAreOk(d: Desk, k: nat)
    requires Inv(d) && k < |d.past.decisions|
    ensures DecisionOk(d.past, d.past.decisions[k])
  {
    assert d.past.decisions[k] in d.past.decisions;
  }

  lemma DecideGrantBooks(h: History, pending: Option<nat>, autos: map<nat, AutoStep>,
                         decides: map<nat, DecideStep>, grants: seq<Grant>, k: nat)
    requires HistoryOk(h, grants) && TasksOk(h, grants, autos, decides) && GrantsOk(h, autos, decides, grants)
    requires PendingOk(pending, h, autos, decides, grants)
    requires k in decides && decides[k] == Granting && k < |h.decisions| && DecisionOk(h, h.decisions[k])
    ensures var g := DecidedGrant(h, k);
            var decides' := if h.decisions[k].trust then decides[k := Naming] else decides - {k};
            && HistoryOk(h, grants + [g]) && TasksOk(h, grants + [g], autos, decides')
            && GrantsOk(h, autos, decides', grants + [g]) && PendingOk(pending, h, autos, decides', grants + [g])
  {
    hide InForce, HistoryOk, Issued, AutoOk;
    var g := DecidedGrant(h, k);
    var decides' := if h.decisions[k].trust then decides[k := Naming] else decides - {k};
    assert DecideOk(h, grants, k, Granting);
    FreshSource(h, autos, decides, grants, FromDecision(k));
    MovingKeepsGrants(h, grants, autos, decides, autos, decides');
    OneMoreGrant(h, autos, decides', grants, g);
    OneMoreGrantKeepsRest(h, autos, decides, grants, g);
    IssuedGrows(grants, g, FromDecision(k));
    assert DecideOk(h, grants + [g], k, if h.decisions[k].trust then Naming else Granting);
    if pending.Some? { IssuedGrows(grants, g, FromTrust(pending.value)); }
  }

  /** Trust is recorded for the room that was read, by a decision that was authorized. */
  lemma TrustingKeepsInv(d: Desk, k: nat, room: string)
    requires Inv(d) && k in d.decides && d.decides[k] == Trusting(room)
    ensures Inv(OnAdvanceDecision(d, k))
  {
    hide HistoryOk, GrantsOk, Traced, Apart, TrustedOk, AutoOk, Issued, PendingOk, TasksOk;
    DecisionTaskEnds(d, k);
    DecisionsAreOk(d, k);
    MoveKeepsInv(d, d.pending, d.autos, d.decides - {k});
    var h' := d.past.(trusts := d.past.trusts + [Trust(k, room)]);
    assert Grows(d.past, h');
    ClearedBound(d.past, d.grants);
    assert TrustOk(h', d.grants, Trust(k, room)) by {
      TrustingOk(d, k);
      assert DecideOk(d.past, d.grants, k, Trusting(room));
    }
    GrowingKeepsHistory(d.past, h', d.grants);
    GrowingKeepsTasks(d.past, h', d.autos, d.decides - {k}, d.grants);
    GrowingKeepsGrants(d.past, h', d.autos, d.decides - {k}, d.grants);
    OneMoreTrust(d.past, d.trusted, Trust(k, room));
    SamePending(d.pending, d.past, h', d.autos, d.decides - {k}, d.grants);
  }

  lemma TrustingOk(d: Desk, k: nat)
    requires Inv(d) && k in d.decides
    ensures DecideOk(d.past, d.grants, k, d.decides[k])
  {
  }

  lemma OneMoreTrust(h: History, trusted: set<string>, t: Trust)
    requires TrustedOk(h, trusted) && h.cleared <= |h.trusts|
    ensures TrustedOk(h.(trusts := h.trusts + [t]), trusted + {t.room})
  {
    var more := h.trusts + [t];
    forall room ensures room in trusted + {t.room} <==> InForce(more, h.cleared, |more|, room) {
      if InForce(h.trusts, h.cleared, |h.trusts|, room) {
        var i: nat :| h.cleared <= i < |h.trusts| && h.trusts[i].room == room;
        assert more[i].room == room;
      }
      if room == t.room { assert more[|h.trusts|].room == room; }
      if InForce(more, h.cleared, |more|, room) && room != t.room {
        var i: nat :| h.cleared <= i < |more| && more[i].room == room;
        assert h.trusts[i].room == room;
      }
    }
  }

  lemma SamePending(pending: Option<nat>, h: History, h': History, autos: map<nat, AutoStep>,
                    decides: map<nat, DecideStep>, grants: seq<Grant>)
    requires PendingOk(pending, h, autos, decides, grants) && h'.offers == h.offers && h'.decisions == h.decisions
    ensures PendingOk(pending, h', autos, decides, grants)
  {
    hide Issued;
  }

  lemma StreamKeepsInv(d: Desk, stream: nat, session: string, header: Header)
    requires Inv(d)
    ensures Inv(OnStream(d, stream, session, header))
  {
    hide HistoryOk, TrustedOk, TasksOk, GrantsOk, PendingOk, Apart, ValidHeader, ReceiptOk;
    if stream !in d.streams && (session, header.requestId) in d.auths {
      OpenKeepsPlaces(d.grants, d.auths, d.streams, d.received, (session, header.requestId), stream);
    }
  }

  lemma StreamTraced(d: Desk, n: nat)
    requires Traced(d.grants, d.auths, d.streams, d.received) && n in d.streams
    ensures d.streams[n].grant < |d.grants|
  {
  }

  lemma ChunkKeepsInv(d: Desk, stream: nat, bytes: nat)
    requires Inv(d)
    ensures Inv(OnChunk(d, stream, bytes))
  {
    hide HistoryOk, TrustedOk, TasksOk, GrantsOk, PendingOk, Apart, Traced;
    if stream in d.streams {
      assert d.streams[stream].grant < |d.grants| by { StreamTraced(d, stream); }
      ShrinkKeepsPlaces(d.grants, d.auths, d.streams, d.received, d.auths, d.streams - {stream});
      if d.streams[stream].got + bytes <= d.grants[d.streams[stream].grant].header.size {
        GrowKeepsPlaces(d.grants, d.auths, d.streams, d.received, stream, d.streams[stream].got + bytes);
      }
    }
  }

  lemma EndKeepsInv(d: Desk, stream: nat)
    requires Inv(d)
    ensures Inv(OnStreamEnd(d, stream)) && Inv(d.(streams := d.streams - {stream}))
  {
    hide HistoryOk, TrustedOk, TasksOk, GrantsOk, PendingOk, Apart;
    ShrinkKeepsPlaces(d.grants, d.auths, d.streams, d.received, d.auths, d.streams - {stream});
    if stream in d.streams {
      var st := d.streams[stream];
      var g := d.grants[st.grant];
      if st.got == g.header.size {
        ReceiveKeepsPlaces(d.grants, d.auths, d.streams, d.received, stream,
            Receipt(st.grant, g.session, g.header, g.confirmed, st.got));
      }
    }
  }

  lemma DisconnectKeepsInv(d: Desk, session: string)
    requires Inv(d)
    ensures Inv(OnDisconnect(d, session))
  {
    hide HistoryOk, TrustedOk, TasksOk, GrantsOk, PendingOk, Apart, Traced;
    var e := OnDisconnect(d, session);
    ShrinkKeepsPlaces(d.grants, d.auths, d.streams, d.received, e.auths, e.streams);
  }

  lemma ForgetTrustKeepsInv(d: Desk)
    requires Inv(d)
    ensures Inv(OnForgetTrust(d))
  {
    hide HistoryOk, TasksOk, GrantsOk, Apart, Traced, PendingOk;
    var h' := d.past.(cleared := |d.past.trusts|);
    assert Grows(d.past, h');
    GrowingKeepsHistory(d.past, h', d.grants);
    GrowingKeepsTasks(d.past, h', d.autos, d.decides, d.grants);
    GrowingKeepsGrants(d.past, h', d.autos, d.decides, d.grants);
    SamePending(d.pending, d.past, h', d.autos, d.decides, d.grants);
  }

  /** Dropping the offer, forgetting the grants, and changing the room or the side, each by itself. */
  lemma SingleFieldsKeepInv(d: Desk, room: string, host: bool)
    requires Inv(d)
    ensures Inv(d.(pending := None)) && Inv(d.(auths := map[])) && Inv(d.(room := room)) && Inv(d.(host := host))
  {
    hide HistoryOk, TasksOk, GrantsOk, Apart, Traced, TrustedOk;
    ShrinkKeepsPlaces(d.grants, d.auths, d.streams, d.received, map[], d.streams);
  }

  lemma StepKeepsInv(d: Desk, e: Event)
    requires Inv(d)
    ensures Inv(Step(d, e))
  {
    hide Inv, OnOffer, OnAdvanceOffer, OnDecision, OnAdvanceDecision, OnStream, OnChunk, OnStreamEnd, OnDisconnect,
        OnForgetTrust;
    match e
    case OfferArrives(session, header) => OfferKeepsInv(d, session, header);
    case AdvanceOffer(o) => AdvanceOfferKeepsInv(d, o);
    case DecisionArrives(requestId, accept, trust, confirmed) => DecisionKeepsInv(d, requestId, accept, trust,
        confirmed);
    case AdvanceDecision(k) => AdvanceDecisionKeepsInv(d, k);
    case StreamOpens(stream, session, header) => StreamKeepsInv(d, stream, session, header);
    case Chunk(stream, bytes) => ChunkKeepsInv(d, stream, bytes);
    case StreamEnds(stream) => EndKeepsInv(d, stream);
    case StreamDies(stream) => EndKeepsInv(d, stream);
    case Disconnected(session) => DisconnectKeepsInv(d, session);
    case TrustForgotten => ForgetTrustKeepsInv(d);
    case OfferDropped => SingleFieldsKeepInv(d, d.room, d.host);
    case GrantsForgotten => SingleFieldsKeepInv(d, d.room, d.host);
    case RoomSet(room) => SingleFieldsKeepInv(d, room, d.host);
    case HostSet(host) => SingleFieldsKeepInv(d, d.room, host);
  }

  lemma {:induction false} RunKeepsInv(d: Desk, run: seq<Event>)
    requires Inv(d)
    ensures Inv(Final(d, run))
    decreases |run|
  {
    hide Inv, Step;
    if run != [] {
      StepKeepsInv(d, run[0]);
      RunKeepsInv(Step(d, run[0]), run[1..]);
    }
  }
}
