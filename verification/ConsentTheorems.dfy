/** What consent guarantees for every run. */
module ConsentTheorems {
  import opened Wrappers
  import opened TransferConsent

  lemma StartIsInv(host: bool, room: string)
    ensures Inv(Start(host, room))
  {
  }

  /** A trust entry in force when a handler looked names the room it had read, and was written by an
      accepting, trusting decision that had been authorized. */
  predicate TrustedBy(h: History, grants: seq<Grant>, g: Grant, t: nat) {
    && g.look.Some? && g.look.value.since <= t < g.look.value.upto <= |h.trusts|
    && h.trusts[t].room == g.look.value.room && TrustOk(h, grants, h.trusts[t])
  }

  /** An authorization of a trusted room goes back to an entry of the room its handler had read. */
  lemma TrustGoesBack(d: Desk, g: Grant) returns (t: nat)
    requires Inv(d) && g in d.grants && g.source.FromTrust?
    ensures TrustedBy(d.past, d.grants, g, t)
  {
    hide TrustOk, TasksOk, PendingOk, Traced, Apart, TrustedOk, Spent;
    var h := d.past;
    assert Consented(h, g);
    var look := g.look.value;
    t :| look.since <= t < look.upto && t < |h.trusts| && h.trusts[t].room == look.room;
    assert h.trusts[t] in h.trusts;
  }

  /** Each archive received repeats, word for word and byte for byte in length, an offer that was
      consented to, and used up an authorization of its own: an accepting decision on that offer, or
      an entry trusting the room that its handler had read. */
  lemma ArchiveHasItsOwnConsent(host: bool, room: string, run: seq<Event>, i: nat) returns (t: nat)
    requires i < |Final(Start(host, room), run).received|
    ensures var d := Final(Start(host, room), run); var r := d.received[i];
            && r.grant < |d.grants| && r.session == d.grants[r.grant].session && r.header == d.grants[r.grant].header
            && r.confirmed == d.grants[r.grant].confirmed && r.bytes == r.header.size
            && Consented(d.past, d.grants[r.grant])
            && (d.grants[r.grant].source.FromTrust? ==> TrustedBy(d.past, d.grants, d.grants[r.grant], t))
            && forall j :: 0 <= j < |d.received| && j != i ==> d.received[j].grant != r.grant
  {
    hide Final, Consented, HistoryOk, TasksOk, TrustedOk, PendingOk, TrustedBy;
    var d := Final(Start(host, room), run);
    StartIsInv(host, room);
    RunKeepsInv(Start(host, room), run);
    assert Inv(d);
    assert d.received[i] in d.received && ReceiptOk(d.grants, d.received[i]);
    var g := d.grants[d.received[i].grant];
    assert g in d.grants;
    t := 0;
    if g.source.FromTrust? { t := TrustGoesBack(d, g); }
    forall j | 0 <= j < |d.received| && j != i ensures d.received[j].grant != d.received[i].grant {
      if j < i { assert d.received[j].grant != d.received[i].grant; }
    }
  }

  /** Executable content arrives only on a confirmation given for that very offer, and no two
      archives share one. */
  lemma ExecutableNeedsItsOwnConfirmation(host: bool, room: string, run: seq<Event>, i: nat) returns (k: nat)
    requires i < |Final(Start(host, room), run).received| && Final(Start(host, room), run).received[i].header.executable
    ensures var d := Final(Start(host, room), run); var r := d.received[i]; var h := d.past;
            && k < |h.decisions| && h.decisions[k].accept && h.decisions[k].confirmed && r.confirmed
            && h.decisions[k].offer < |h.offers| && h.offers[h.decisions[k].offer].offer == Offer(r.session, r.header)
            && r.grant < |d.grants| && d.grants[r.grant].source == FromDecision(k)
            && forall j :: 0 <= j < |d.received| && j != i
                ==> d.received[j].grant < |d.grants| && d.grants[d.received[j].grant].source != FromDecision(k)
  {
    hide Final, HistoryOk, TasksOk, Spent, Apart, TrustedOk, PendingOk, InForce, TrustedBy;
    var d := Final(Start(host, room), run);
    StartIsInv(host, room);
    RunKeepsInv(Start(host, room), run);
    assert Inv(d);
    var _ := ArchiveHasItsOwnConsent(host, room, run, i);
    var g := d.grants[d.received[i].grant];
    k := g.source.decision;
    forall j | 0 <= j < |d.received| && j != i
      ensures d.received[j].grant < |d.grants| && d.grants[d.received[j].grant].source != FromDecision(k)
    {
      var _ := ArchiveHasItsOwnConsent(host, room, run, j);
      var a, b := d.received[i].grant, d.received[j].grant;
      assert a != b;
      if a < b { assert d.grants[a].source != d.grants[b].source; }
      else { assert d.grants[b].source != d.grants[a].source; }
    }
  }

  /** A stream that differs from the accepted header in anything gets nothing, and the
      authorization it named is spent all the same. */
  lemma MismatchSpendsAuthorization(d: Desk, stream: nat, session: string, header: Header)
    requires Inv(d) && stream !in d.streams && ValidHeader(header) && (session, header.requestId) in d.auths
    requires d.grants[d.auths[(session, header.requestId)]].header != header
    ensures var e := OnStream(d, stream, session, header);
            && e.streams == d.streams && (session, header.requestId) !in e.auths
            && forall again: nat, h: Header :: h.requestId == header.requestId ==> OnStream(e, again, session, h) == e
  {
    hide ValidHeader, HistoryOk, TasksOk, GrantsOk, Apart, TrustedOk, PendingOk;
  }

  /** An offer whose handler runs without interruption in a trusted room is granted exactly when it holds no
      executable content and its request is not already authorized; otherwise it stays pending for the user. */
  lemma TrustedOfferIff(d: Desk, session: string, h: Header)
    requires ValidHeader(h) && d.autos == map[] && d.room in d.trusted
    ensures var o := |d.past.offers|; var look := Look(d.room, d.past.cleared, |d.past.trusts|);
            var d2 := OnAdvanceOffer(OnAdvanceOffer(OnOffer(d, session, h), o), o);
            var e := OnAdvanceOffer(OnAdvanceOffer(d2, o), o);
            if !h.executable && (session, h.requestId) !in d.auths
            then e.pending == None && e.grants == d.grants + [Grant(session, h, false, FromTrust(o), Some(look))]
            else e.pending == Some(o) && e.grants == d.grants && e.auths == d.auths
  {
    hide ValidHeader;
    var o := |d.past.offers|;
    var d1 := OnAdvanceOffer(OnOffer(d, session, h), o);
    assert d1.autos == map[o := Checking(d.room)] && d1.past.offers[o] == Arriving(d, session, h);
    var d2 := OnAdvanceOffer(d1, o);
    if !h.executable {
      assert d2.autos == map[o := AutoGranting(Look(d.room, d.past.cleared, |d.past.trusts|))];
    } else {
      assert d2.autos == map[];
    }
  }
}
