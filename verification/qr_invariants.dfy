// What every run of the QR protocol keeps. `Compatible` is the trace property: it relates each event of a run
// to every later one. `Holds` is what a past event still says about the stored keys, and `Explained` what a
// stored key says about the past; together they carry the trace property through every action.
module QrInvariants {
  import opened Wrappers
  import opened QrProtocol

  ghost predicate SameShown(a: Snapshot, b: Snapshot) {
    a.status == b.status && a.scannedAt == b.scannedAt && a.approvedAt == b.approvedAt
  }

  predicate Rejects(e: Event) { e.Published? && e.status == REJECTED }

  predicate Approves(e: Event) { e.Approved? || e.Granted? || e.Delivered? }

  // `e` happened before `f`.
  ghost predicate Compatible(cfg: Config, e: Event, f: Event) {
    && (f.Created? ==> !Names(e, f.tid))
    && (e.Created? && f.Verified? && e.tid == f.tid ==> cfg.challengeOf(f.verifier) == e.challenge)
    && (e.Created? && f.Approved? && e.tid == f.tid ==> f.at <= e.expiresAt)
    && (e.Created? && f.GrantExchanged? && e.tid == f.grant.tid ==> f.at <= e.expiresAt + 1000 * cfg.grantTtl)
    && (e.Created? && f.DeliveryExchanged? && e.tid == f.delivery.tid ==> f.at <= e.expiresAt)
    && (e.Created? && f.Granted? && e.tid == f.grant.tid ==> f.grant.kind == e.kind && f.grant.webSessionId == e.web)
    && (e.Created? && f.Delivered? && e.tid == f.delivery.tid ==> e.web == Some(f.delivery.webSessionId))
    && (e.Approved? && f.Approved? ==> e.tid != f.tid)
    && (Rejects(e) && Approves(f) ==> !Names(f, e.tid))
    && (Approves(e) && Rejects(f) ==> !Names(e, f.tid))
    && (e.Granted? && f.Granted? ==> e.token != f.token && e.grant.tid != f.grant.tid)
    && (e.Delivered? && f.Delivered? ==> e.delivery.tid != f.delivery.tid)
    && (e.GrantExchanged? && f.GrantExchanged? ==> e.token != f.token && e.grant.tid != f.grant.tid)
    && (e.DeliveryExchanged? && f.DeliveryExchanged? ==> e.delivery.tid != f.delivery.tid)
    && (e.GrantExchanged? && f.DeliveryExchanged? ==> e.grant.tid != f.delivery.tid)
    && (e.Published? && f.Published? && e.tid == f.tid ==> e.version < f.version)
    && (e.Polled? && f.Published? && e.tid == f.tid ==> e.snapshot.version < f.version)
    && (e.Published? && f.Polled? && e.tid == f.tid ==> e.version <= f.snapshot.version)
    && (e.Polled? && f.Polled? && e.tid == f.tid ==>
          && e.snapshot.version <= f.snapshot.version
          && (e.snapshot.version == f.snapshot.version ==> SameShown(e.snapshot, f.snapshot)))
  }

  ghost predicate Ordered(cfg: Config, log: seq<Event>) {
    forall i, j :: 0 <= i < j < |log| ==> Compatible(cfg, log[i], log[j])
  }

  // The stored ticket, whether its key still lives or not.
  ghost predicate Has(db: Db, tid: string) {
    TicketKey(tid) in db && db[TicketKey(tid)].value.TicketV?
  }

  ghost function Of(db: Db, tid: string): Ticket
    requires Has(db, tid)
  {
    db[TicketKey(tid)].value.ticket
  }

  ghost predicate Closed(db: Db, tid: string) {
    Has(db, tid) ==> Of(db, tid).status in {APPROVED, USED, EXPIRED}
  }

  ghost predicate Spent(db: Db, tid: string) {
    Has(db, tid) ==> Of(db, tid).status in {USED, EXPIRED}
  }

  ghost predicate Refused(db: Db, tid: string) {
    Has(db, tid) ==> Of(db, tid).status in {REJECTED, EXPIRED}
  }

  predicate RejectedIn(log: seq<Event>, tid: string) { exists e :: e in log && Rejects(e) && e.tid == tid }

  ghost predicate AtLeast(db: Db, tid: string, version: int) {
    Has(db, tid) ==> version <= Of(db, tid).version
  }

  // What an event of the past still says about the store.
  ghost predicate Holds(cfg: Config, s: State, e: Event) {
    match e
    case Created(tid, kind, web, challenge, expiresAt) =>
      Has(s.db, tid) ==>
        && Of(s.db, tid).tid == tid && Of(s.db, tid).kind == kind && Of(s.db, tid).webSessionId == web
        && Of(s.db, tid).codeChallenge == challenge && Of(s.db, tid).expiresAt == expiresAt
    case Verified(tid, verifier) => Closed(s.db, tid)
    case Approved(tid, _, _) => Closed(s.db, tid)
    case Granted(token, g) =>
      && Closed(s.db, g.tid)
      && g.expiresAt == g.createdAt + 1000 * cfg.grantTtl
      && Approved(g.tid, g.userId, g.createdAt) in s.log
    case Delivered(d) =>
      && Closed(s.db, d.tid)
      && exists userId :: Approved(d.tid, userId, d.createdAt) in s.log
    case GrantExchanged(token, g, at) =>
      && GrantKey(token) !in s.db
      && Spent(s.db, g.tid)
      && at <= g.expiresAt
      && Granted(token, g) in s.log
    case DeliveryExchanged(d, _) => DeliveryKey(d.tid) !in s.db && Spent(s.db, d.tid) && Delivered(d) in s.log
    case Published(tid, status, version) => AtLeast(s.db, tid, version) && (status == REJECTED ==> Refused(s.db, tid))
    case Polled(tid, sn) =>
      && AtLeast(s.db, tid, sn.version)
      && (Has(s.db, tid) && sn.version == Of(s.db, tid).version && s.now <= Of(s.db, tid).expiresAt ==>
            SameShown(sn, SnapshotOf(Of(s.db, tid), s.now)))
  }

  // What a stored key says about the past.
  ghost predicate Explained(s: State, k: Key)
    requires k in s.db
  {
    match k
    case TicketKey(tid) =>
      && Has(s.db, tid)
      && var t := Of(s.db, tid);
         t.tid == tid && Created(tid, t.kind, t.webSessionId, t.codeChallenge, t.expiresAt) in s.log
    case GrantKey(token) =>
      s.db[k].value.GrantV? && Granted(token, s.db[k].value.grant) in s.log
    case DeliveryKey(tid) =>
      s.db[k].value.DeliveryV? && s.db[k].value.delivery.tid == tid && Delivered(s.db[k].value.delivery) in s.log
  }

  ghost predicate Inv(cfg: Config, s: State) {
    && (forall k :: k in s.db ==> Explained(s, k))
    && (forall e :: e in s.log ==> Holds(cfg, s, e))
    && Ordered(cfg, s.log)
  }

  lemma OrderedAppend(cfg: Config, log: seq<Event>, more: seq<Event>)
    requires Ordered(cfg, log) && Ordered(cfg, more)
    requires forall e, f :: e in log && f in more ==> Compatible(cfg, e, f)
    ensures Ordered(cfg, log + more)
  {
    forall i, j | 0 <= i < j < |log + more| ensures Compatible(cfg, (log + more)[i], (log + more)[j]) {
      if j >= |log| && i < |log| {
        assert log[i] in log && more[j - |log|] in more;
      }
    }
  }

  // Two logged events are in one order or the other.
  lemma EitherOrder(cfg: Config, log: seq<Event>, e: Event, f: Event)
    requires Ordered(cfg, log) && e in log && f in log && e != f
    ensures Compatible(cfg, e, f) || Compatible(cfg, f, e)
  {
    var i :| 0 <= i < |log| && log[i] == e;
    var j :| 0 <= j < |log| && log[j] == f;
  }

  // One store of a ticket under its own id that stays true to what the log says about it.
  ghost predicate Succeeds(s: State, tid: string, t: Ticket) {
    && Has(s.db, tid)
    && var was := Of(s.db, tid);
       && t.tid == was.tid && t.kind == was.kind && t.webSessionId == was.webSessionId
       && t.codeChallenge == was.codeChallenge && t.expiresAt == was.expiresAt
       && (RejectedIn(s.log, tid) ==> t.status in {REJECTED, EXPIRED})
       && t.version >= was.version
       && (was.status in {APPROVED, USED, EXPIRED} ==> t.status in {APPROVED, USED, EXPIRED})
       && (was.status in {USED, EXPIRED} ==> t.status in {USED, EXPIRED})
       && (t.version == was.version ==> s.now > t.expiresAt || t == was)
  }

  // A ticket that is neither REJECTED nor EXPIRED has not been rejected.
  lemma NotRejected(cfg: Config, s: State, tid: string)
    requires Inv(cfg, s) && Has(s.db, tid) && Of(s.db, tid).status !in {REJECTED, EXPIRED}
    ensures !RejectedIn(s.log, tid)
  {
    forall e | e in s.log && Rejects(e)
      ensures e.tid != tid
    {
      assert Holds(cfg, s, e);
    }
  }

  // Nor has one that a grant was issued for.
  lemma GrantedNotRejected(cfg: Config, s: State, token: string, g: Grant)
    requires Inv(cfg, s) && Granted(token, g) in s.log
    ensures !RejectedIn(s.log, g.tid)
  {
    forall e | e in s.log && Rejects(e)
      ensures e.tid != g.tid
    {
      EitherOrder(cfg, s.log, e, Granted(token, g));
    }
  }

  lemma PutKeepsEvent(cfg: Config, s: State, tid: string, t: Ticket, e: Event)
    requires Succeeds(s, tid, t) && Holds(cfg, s, e) && e in s.log
    ensures Holds(cfg, PutTicket(cfg, s, tid, t), e)
  {
    var s' := PutTicket(cfg, s, tid, t);
    assert Of(s'.db, tid) == t;
    assert forall other :: other != tid ==> Has(s'.db, other) == Has(s.db, other);
    assert forall other :: other != tid && Has(s.db, other) ==> Of(s'.db, other) == Of(s.db, other);
  }

  lemma PutKeeps(cfg: Config, s: State, tid: string, t: Ticket)
    requires Inv(cfg, s) && Succeeds(s, tid, t)
    ensures Inv(cfg, PutTicket(cfg, s, tid, t))
  {
    var s' := PutTicket(cfg, s, tid, t);
    forall e | e in s'.log ensures Holds(cfg, s', e) {
      PutKeepsEvent(cfg, s, tid, t, e);
    }
    assert Explained(s, TicketKey(tid));
    forall k | k in s'.db ensures Explained(s', k) {
      assert k != TicketKey(tid) ==> Explained(s, k);
    }
  }

  lemma DropKeeps(cfg: Config, s: State, k: Key)
    requires Inv(cfg, s)
    ensures Inv(cfg, s.(db := s.db - {k}))
  {
    var s' := s.(db := s.db - {k});
    forall e | e in s'.log ensures Holds(cfg, s', e) {
      assert Holds(cfg, s, e);
    }
    forall x | x in s'.db ensures Explained(s', x) {
      assert Explained(s, x);
    }
  }

  lemma TickKeeps(cfg: Config, s: State, ms: nat)
    requires Inv(cfg, s)
    ensures Inv(cfg, s.(now := s.now + ms))
  {
  }

  // Appending events that fit the past and are true of the present.
  lemma LogKeeps(cfg: Config, s: State, more: seq<Event>)
    requires Inv(cfg, s) && Ordered(cfg, more)
    requires forall e, f :: e in s.log && f in more ==> Compatible(cfg, e, f)
    requires forall f :: f in more ==> Holds(cfg, Logged(s, more), f)
    ensures Inv(cfg, Logged(s, more))
  {
    var s' := Logged(s, more);
    OrderedAppend(cfg, s.log, more);
    forall e | e in s'.log ensures Holds(cfg, s', e) {
      if e in s.log {
        HoldsInLongerLog(cfg, s, more, e);
      }
    }
    forall k | k in s'.db ensures Explained(s', k) {
      assert Explained(s, k);
    }
  }

  lemma HoldsInLongerLog(cfg: Config, s: State, more: seq<Event>, e: Event)
    requires Holds(cfg, s, e)
    ensures Holds(cfg, Logged(s, more), e)
  {
    if e.Delivered? {
      var userId :| Approved(e.delivery.tid, userId, e.delivery.createdAt) in s.log;
      assert Approved(e.delivery.tid, userId, e.delivery.createdAt) in Logged(s, more).log;
    }
  }

  lemma StoreGrantKeeps(cfg: Config, s: State, token: string, g: Grant)
    requires Inv(cfg, s) && Granted(token, g) in s.log
    requires forall e :: e in s.log && e.GrantExchanged? ==> e.token != token
    ensures Inv(cfg, WithGrant(cfg, s, token, g))
  {
    var s' := WithGrant(cfg, s, token, g);
    forall e | e in s'.log ensures Holds(cfg, s', e) {
      assert Holds(cfg, s, e);
    }
    forall k | k in s'.db ensures Explained(s', k) {
      assert k != GrantKey(token) ==> Explained(s, k);
    }
  }

  lemma StoreDeliveryKeeps(cfg: Config, s: State, tid: string, d: Delivery)
    requires Inv(cfg, s) && Delivered(d) in s.log && d.tid == tid
    requires forall e :: e in s.log && e.DeliveryExchanged? ==> e.delivery.tid != tid
    ensures Inv(cfg, WithDelivery(cfg, s, tid, d))
  {
    var s' := WithDelivery(cfg, s, tid, d);
    forall e | e in s'.log ensures Holds(cfg, s', e) {
      assert Holds(cfg, s, e);
    }
    forall k | k in s'.db ensures Explained(s', k) {
      assert k != DeliveryKey(tid) ==> Explained(s, k);
    }
  }

  lemma LoadKeeps(cfg: Config, s: State, tid: string)
    requires Inv(cfg, s)
    ensures var (s1, r) := LoadChecked(cfg, s, tid);
            && Inv(cfg, s1) && s1.now == s.now && s1.log == s.log
            && (forall k :: k != TicketKey(tid) ==> (k in s1.db <==> k in s.db) && (k in s.db ==> s1.db[k] == s.db[k]))
            && (r.Ok? ==> Has(s1.db, tid) && Of(s1.db, tid) == r.value)
            && (r.Ok? && r.value.status != EXPIRED ==> s1 == s && s.now <= r.value.expiresAt)
  {
    var found := FindTicket(s.db, tid, s.now);
    if found.Some? && s.now > found.value.expiresAt {
      PutKeeps(cfg, s, tid, found.value.(status := EXPIRED));
    }
  }

  lemma CreateKeeps(cfg: Config, s: State, tid: string, kind: string, verifier: string, web: Option<string>)
    requires Inv(cfg, s) && Fresh(s, DoCreate(tid, kind, verifier, web))
    ensures Inv(cfg, Create(cfg, s, tid, kind, verifier, web))
  {
    var t := Ticket(tid, kind, PENDING, cfg.challengeOf(verifier), web, s.now, s.now + 1000 * cfg.ticketTtl,
                    None, None, None, None, 1);
    var s1 := PutTicket(cfg, s, tid, t);
    var s' := Create(cfg, s, tid, kind, verifier, web);
    var created := Created(tid, kind, web, t.codeChallenge, t.expiresAt);
    assert s'.log == s.log + [created] && s'.db == s1.db;
    OrderedAppend(cfg, s.log, [created]);
    forall e | e in s'.log ensures Holds(cfg, s', e) {
      if e in s.log {
        UnnamedHolds(cfg, s, tid, t, e);
        HoldsInLongerLog(cfg, s1, [created], e);
      }
    }
    forall k | k in s'.db ensures Explained(s', k) {
      assert k != TicketKey(tid) ==> Explained(s, k);
      assert created in s'.log;
    }
  }

  lemma UnnamedHolds(cfg: Config, s: State, tid: string, t: Ticket, e: Event)
    requires Holds(cfg, s, e) && !Names(e, tid)
    ensures Holds(cfg, PutTicket(cfg, s, tid, t), e)
  {
    var s' := PutTicket(cfg, s, tid, t);
    assert forall other :: other != tid ==> Has(s'.db, other) == Has(s.db, other);
    assert forall other :: other != tid && Has(s.db, other) ==> Of(s'.db, other) == Of(s.db, other);
  }

  lemma BumpFitsPast(cfg: Config, s: State, tid: string, t: Ticket, e: Event)
    requires Has(s.db, tid) && t.version > Of(s.db, tid).version && Holds(cfg, s, e)
    requires t.status == REJECTED ==> Of(s.db, tid).status in {PENDING, SCANNED}
    ensures Compatible(cfg, e, Published(tid, t.status, t.version))
  {
  }

  // A transition that bumps the version may announce it.
  lemma PublishKeeps(cfg: Config, s: State, tid: string, t: Ticket)
    requires Inv(cfg, s) && Succeeds(s, tid, t) && t.version > Of(s.db, tid).version
    requires t.status == REJECTED ==> Of(s.db, tid).status in {PENDING, SCANNED}
    ensures Inv(cfg, Logged(PutTicket(cfg, s, tid, t), [Published(tid, t.status, t.version)]))
  {
    PutKeeps(cfg, s, tid, t);
    var s1 := PutTicket(cfg, s, tid, t);
    forall e | e in s1.log ensures Compatible(cfg, e, Published(tid, t.status, t.version)) {
      BumpFitsPast(cfg, s, tid, t, e);
    }
    LogKeeps(cfg, s1, [Published(tid, t.status, t.version)]);
  }

  // An open ticket some time after it was loaded: in time, or to be stored as EXPIRED.
  lemma LaterKeeps(cfg: Config, s: State, tid: string, t: Ticket, lag: nat)
    requires Inv(cfg, s) && Has(s.db, tid) && Of(s.db, tid) == t && t.status in {PENDING, SCANNED}
    ensures Inv(cfg, Later(s, lag)) && Has(Later(s, lag).db, tid) && Of(Later(s, lag).db, tid) == t
    ensures Later(s, lag).now > t.expiresAt ==> Inv(cfg, PutTicket(cfg, Later(s, lag), tid, t.(status := EXPIRED)))
  {
    TickKeeps(cfg, s, lag);
    if Later(s, lag).now > t.expiresAt {
      assert Succeeds(Later(s, lag), tid, t.(status := EXPIRED));
      PutKeeps(cfg, Later(s, lag), tid, t.(status := EXPIRED));
    }
  }

  function ScannedTicket(t: Ticket, userId: string, now: int): Ticket {
    t.(status := SCANNED, scannedBy := Some(userId), scannedAt := Some(now), version := t.version + 1)
  }

  lemma ScanShape(cfg: Config, s: State, tid: string, userId: string, lag: nat)
    ensures var (s1, r) := LoadChecked(cfg, s, tid);
            Scan(cfg, s, tid, userId, lag).0 ==
              if r.Err? || r.value.status != PENDING then s1
              else if Later(s1, lag).now > r.value.expiresAt then PutTicket(cfg, Later(s1, lag), tid, r.value.(status := EXPIRED))
              else
                var t := ScannedTicket(r.value, userId, Later(s1, lag).now);
                Logged(PutTicket(cfg, Later(s1, lag), tid, t), [Published(tid, t.status, t.version)])
  {
  }

  lemma ScanKeeps(cfg: Config, s: State, tid: string, userId: string, lag: nat)
    requires Inv(cfg, s)
    ensures Inv(cfg, Scan(cfg, s, tid, userId, lag).0)
  {
    LoadKeeps(cfg, s, tid);
    ScanShape(cfg, s, tid, userId, lag);
    hide Inv, LoadChecked, Scan;
    var (s1, r) := LoadChecked(cfg, s, tid);
    if r.Ok? && r.value.status == PENDING {
      var s2 := Later(s1, lag);
      LaterKeeps(cfg, s1, tid, r.value, lag);
      if s2.now <= r.value.expiresAt {
        var t := ScannedTicket(r.value, userId, s2.now);
        NotRejected(cfg, s2, tid);
        assert Succeeds(s2, tid, t);
        PublishKeeps(cfg, s2, tid, t);
      }
    }
  }

  lemma RejectKeeps(cfg: Config, s: State, tid: string, userId: string)
    requires Inv(cfg, s)
    ensures Inv(cfg, Reject(cfg, s, tid, userId).0)
  {
    LoadKeeps(cfg, s, tid);
    var (s1, r) := LoadChecked(cfg, s, tid);
    if r.Ok? && (r.value.status == PENDING || r.value.status == SCANNED) {
      var t' := r.value.(status := REJECTED, version := r.value.version + 1);
      assert Succeeds(s1, tid, t');
      PublishKeeps(cfg, s1, tid, t');
      assert Reject(cfg, s, tid, userId).0 == Logged(PutTicket(cfg, s1, tid, t'), [Published(tid, t'.status, t'.version)]);
    } else {
      assert Reject(cfg, s, tid, userId).0 == s1;
    }
  }

  // The ticket a poll answers with: bumped and EXPIRED once its time is over.
  function Shown(t: Ticket, now: int): Ticket {
    if now > t.expiresAt then t.(status := EXPIRED, version := t.version + 1) else t
  }

  lemma PollFitsPast(cfg: Config, s: State, tid: string, e: Event)
    requires Has(s.db, tid) && Holds(cfg, s, e)
    ensures Compatible(cfg, e, Polled(tid, SnapshotOf(Shown(Of(s.db, tid), s.now), s.now)))
  {
  }

  lemma PolledHolds(cfg: Config, s: State, tid: string)
    requires Has(s.db, tid)
    ensures Holds(cfg, s, Polled(tid, SnapshotOf(Of(s.db, tid), s.now)))
  {
  }

  lemma ShownKeeps(cfg: Config, s: State, tid: string)
    requires Inv(cfg, s) && Has(s.db, tid) && s.now > Of(s.db, tid).expiresAt
    ensures Inv(cfg, PutTicket(cfg, s, tid, Shown(Of(s.db, tid), s.now)))
  {
    assert Succeeds(s, tid, Shown(Of(s.db, tid), s.now));
    PutKeeps(cfg, s, tid, Shown(Of(s.db, tid), s.now));
  }

  // `s1` is the store a poll leaves, with the shown ticket in it.
  lemma PolledKeeps(cfg: Config, s: State, s1: State, tid: string)
    requires forall e :: e in s.log ==> Holds(cfg, s, e)
    requires Inv(cfg, s1) && s1.now == s.now && s1.log == s.log
    requires Has(s.db, tid) && Has(s1.db, tid) && Of(s1.db, tid) == Shown(Of(s.db, tid), s.now)
    ensures Inv(cfg, Logged(s1, [Polled(tid, SnapshotOf(Of(s1.db, tid), s.now))]))
  {
    var polled := Polled(tid, SnapshotOf(Of(s1.db, tid), s.now));
    forall e | e in s1.log ensures Compatible(cfg, e, polled) {
      PollFitsPast(cfg, s, tid, e);
    }
    PolledHolds(cfg, Logged(s1, [polled]), tid);
    LogKeeps(cfg, s1, [polled]);
  }

  lemma PollShape(cfg: Config, s: State, tid: string)
    requires FindTicket(s.db, tid, s.now).Some?
    ensures var s1 := if s.now > Of(s.db, tid).expiresAt then PutTicket(cfg, s, tid, Shown(Of(s.db, tid), s.now)) else s;
            && Has(s.db, tid) && Has(s1.db, tid) && Of(s1.db, tid) == Shown(Of(s.db, tid), s.now)
            && Poll(cfg, s, tid).0 == Logged(s1, [Polled(tid, SnapshotOf(Of(s1.db, tid), s.now))])
  {
  }

  lemma PollKeeps(cfg: Config, s: State, tid: string)
    requires Inv(cfg, s)
    ensures Inv(cfg, Poll(cfg, s, tid).0)
  {
    if FindTicket(s.db, tid, s.now).Some? {
      PollShape(cfg, s, tid);
      if s.now > Of(s.db, tid).expiresAt {
        ShownKeeps(cfg, s, tid);
        PolledKeeps(cfg, s, PutTicket(cfg, s, tid, Shown(Of(s.db, tid), s.now)), tid);
      } else {
        PolledKeeps(cfg, s, s, tid);
      }
    }
  }

  lemma CleanupKeeps(cfg: Config, s: State)
    requires Inv(cfg, s)
    ensures Inv(cfg, Cleanup(s))
  {
    var s' := Cleanup(s);
    forall e | e in s'.log ensures Holds(cfg, s', e) {
      assert Holds(cfg, s, e);
    }
    forall k | k in s'.db ensures Explained(s', k) {
      assert Explained(s, k);
    }
  }

  lemma ConsumeKeeps(cfg: Config, s: State, tid: string, code: string)
    requires Inv(cfg, s)
    ensures var (s1, consumed) := ConsumeDelivery(s, tid, code);
            && Inv(cfg, s1) && s1.now == s.now && s1.log == s.log
            && (consumed.Some? ==>
                  && DeliveryKey(tid) in s.db && s1.db == s.db - {DeliveryKey(tid)}
                  && consumed.value.tid == tid && Delivered(consumed.value) in s.log)
  {
    DropKeeps(cfg, s, DeliveryKey(tid));
    if DeliveryKey(tid) in s.db {
      assert Explained(s, DeliveryKey(tid));
    }
  }

  lemma TryGetKeeps(cfg: Config, s: State, tid: string, web: string)
    requires Inv(cfg, s)
    ensures Inv(cfg, TryGetDelivery(s, tid, web).0)
  {
    DropKeeps(cfg, s, DeliveryKey(tid));
  }

  // Marking a ticket USED keeps the invariant when the exchange fits the past and is true of the new store.
  lemma SpendKeeps(cfg: Config, s: State, tid: string, ev: Event)
    requires Inv(cfg, s) && Has(s.db, tid) && !RejectedIn(s.log, tid)
    requires ev.GrantExchanged? || ev.DeliveryExchanged?
    requires forall e :: e in s.log ==> Compatible(cfg, e, ev)
    requires Holds(cfg, PutTicket(cfg, s, tid, Used(Of(s.db, tid))), ev)
    ensures Inv(cfg, Logged(PutTicket(cfg, s, tid, Used(Of(s.db, tid))), [ev, Published(tid, USED, Used(Of(s.db, tid)).version)]))
  {
    var t := Used(Of(s.db, tid));
    var s1, published := PutTicket(cfg, s, tid, t), Published(tid, USED, t.version);
    assert Succeeds(s, tid, t);
    PutKeeps(cfg, s, tid, t);
    forall e | e in s.log ensures Compatible(cfg, e, published) {
      BumpFitsPast(cfg, s, tid, t, e);
    }
    HoldsInLongerLog(cfg, s1, [ev, published], ev);
    SpendingHolds(cfg, s, tid, t, ev, published);
    hide Inv, Holds, Compatible;
    LogKeeps(cfg, s1, [ev, published]);
  }

  lemma SpendingHolds(cfg: Config, s: State, tid: string, t: Ticket, ev: Event, published: Event)
    requires published == Published(tid, USED, t.version) && (ev.GrantExchanged? || ev.DeliveryExchanged?)
    ensures Holds(cfg, Logged(PutTicket(cfg, s, tid, t), [ev, published]), published)
    ensures Ordered(cfg, [ev, published])
  {
  }

  // A past event fits a delivery exchange of a ticket that is still APPROVED and whose code is still stored.
  lemma DeliveryFitsPast(cfg: Config, s: State, tid: string, d: Delivery, e: Event)
    requires DeliveryKey(tid) in s.db && d.tid == tid
    requires Has(s.db, tid) && Of(s.db, tid).status == APPROVED && s.now <= Of(s.db, tid).expiresAt
    requires Holds(cfg, s, e)
    ensures Compatible(cfg, e, DeliveryExchanged(d, s.now))
  {
  }

  lemma ExchangeDeliveryKeeps(cfg: Config, s: State, tid: string, code: string)
    requires Inv(cfg, s)
    ensures Inv(cfg, ExchangeDelivery(cfg, s, tid, code).0)
  {
    hide Compatible, ConsumeDelivery, LoadChecked;
    ConsumeKeeps(cfg, s, tid, code);
    var (s1, consumed) := ConsumeDelivery(s, tid, code);
    if consumed.None? {
      assert ExchangeDelivery(cfg, s, tid, code).0 == s1;
      return;
    }
    LoadKeeps(cfg, s1, tid);
    var (s2, r) := LoadChecked(cfg, s1, tid);
    if r.Err? || r.value.status != APPROVED {
      assert ExchangeDelivery(cfg, s, tid, code).0 == s2;
      return;
    }
    var ev := DeliveryExchanged(consumed.value, s.now);
    forall e | e in s2.log ensures Compatible(cfg, e, ev) {
      DeliveryFitsPast(cfg, s, tid, consumed.value, e);
    }
    NotRejected(cfg, s2, tid);
    SpendKeeps(cfg, s2, tid, ev);
    assert ExchangeDelivery(cfg, s, tid, code).0 ==
           Logged(PutTicket(cfg, s2, tid, Used(r.value)), [ev, Published(tid, USED, Used(r.value).version)]);
  }

  // A grant that is stored was issued by an approval no later than its ticket's expiry.
  lemma GrantedInTime(cfg: Config, s: State, token: string, g: Grant, created: Event)
    requires Inv(cfg, s) && Granted(token, g) in s.log && created in s.log && created.Created? && created.tid == g.tid
    ensures g.expiresAt <= created.expiresAt + 1000 * cfg.grantTtl
  {
    assert Holds(cfg, s, Granted(token, g));
    EitherOrder(cfg, s.log, created, Approved(g.tid, g.userId, g.createdAt));
  }

  lemma GrantFitsPast(cfg: Config, s: State, token: string, g: Grant, e: Event)
    requires Inv(cfg, s) && e in s.log
    requires GrantKey(token) in s.db && Granted(token, g) in s.log && s.now <= g.expiresAt
    ensures Compatible(cfg, e, GrantExchanged(token, g, s.now))
  {
    if e.Created? && e.tid == g.tid {
      GrantedInTime(cfg, s, token, g, e);
    }
    if e.GrantExchanged? {
      assert Holds(cfg, s, e);
      EitherOrder(cfg, s.log, Granted(token, g), Granted(e.token, e.grant));
    }
  }

  lemma ExchangeGrantKeeps(cfg: Config, s: State, token: string)
    requires Inv(cfg, s)
    ensures Inv(cfg, ExchangeGrant(cfg, s, token).0)
  {
    var found := FindGrant(s.db, token, s.now);
    if found.None? || s.now > found.value.expiresAt {
      assert ExchangeGrant(cfg, s, token).0 == s;
      return;
    }
    var g := found.value;
    assert Explained(s, GrantKey(token));
    LoadKeeps(cfg, s, g.tid);
    var (s1, r) := LoadChecked(cfg, s, g.tid);
    if r.Err? {
      assert ExchangeGrant(cfg, s, token).0 == s1;
      return;
    }
    var ev := GrantExchanged(token, g, s.now);
    forall e | e in s1.log ensures Compatible(cfg, e, ev) {
      GrantFitsPast(cfg, s1, token, g, e);
    }
    DropKeeps(cfg, s1, GrantKey(token));
    var s2 := s1.(db := s1.db - {GrantKey(token)});
    assert Of(s2.db, g.tid) == r.value;
    GrantedNotRejected(cfg, s2, token, g);
    SpendKeeps(cfg, s2, g.tid, ev);
    UseThenDrop(cfg, s1, token, g, r.value);
    assert ExchangeGrant(cfg, s, token).0 ==
           Logged(PutTicket(cfg, s2, g.tid, Used(r.value)), [ev, Published(g.tid, USED, Used(r.value).version)]);
  }

  // Storing the ticket and deleting the grant commute.
  lemma UseThenDrop(cfg: Config, s: State, token: string, g: Grant, t: Ticket)
    ensures PutTicket(cfg, s, g.tid, Used(t)).(db := PutTicket(cfg, s, g.tid, Used(t)).db - {GrantKey(token)}) ==
            PutTicket(cfg, s.(db := s.db - {GrantKey(token)}), g.tid, Used(t))
  {
    assert PutTicket(cfg, s, g.tid, Used(t)).db - {GrantKey(token)} ==
           PutTicket(cfg, s.(db := s.db - {GrantKey(token)}), g.tid, Used(t)).db;
  }

  // A past event fits the approval of a ticket that is still PENDING or SCANNED, with a token not yet seen.
  lemma ApprovalFitsPast(cfg: Config, s: State, tid: string, verifier: string, token: string, e: Event, f: Event)
    requires Has(s.db, tid) && Of(s.db, tid).status in {PENDING, SCANNED} && s.now <= Of(s.db, tid).expiresAt
    requires cfg.challengeOf(verifier) == Of(s.db, tid).codeChallenge
    requires forall g :: Granted(token, g) !in s.log
    requires e in s.log && Holds(cfg, s, e)
    requires || f == Verified(tid, verifier)
             || (f.Approved? && f.tid == tid && f.at == s.now)
             || (f.Granted? && f.token == token && f.grant.tid == tid
                 && f.grant.kind == Of(s.db, tid).kind && f.grant.webSessionId == Of(s.db, tid).webSessionId)
             || (f.Delivered? && f.delivery.tid == tid && Some(f.delivery.webSessionId) == Of(s.db, tid).webSessionId)
             || (f.Published? && f.tid == tid && f.version > Of(s.db, tid).version && f.status == APPROVED)
    ensures Compatible(cfg, e, f)
  {
  }

  // The events of a successful approval, in order.
  function ApprovalEvents(cfg: Config, t: Ticket, tid: string, userId: string, verifier: string, token: string, code: string, now: int)
    : seq<Event>
  {
    var granted := [Verified(tid, verifier), Approved(tid, userId, now), Granted(token, GrantFor(cfg, t, tid, userId, now))];
    granted
    + (if HasSession(t) then [Delivered(DeliveryFor(cfg, t, tid, code, now))] else [])
    + [Published(tid, APPROVED, t.version)]
  }

  lemma ApprovalEventsFit(cfg: Config, s: State, tid: string, t: Ticket, userId: string, verifier: string, token: string, code: string)
    requires forall e :: e in s.log ==> Holds(cfg, s, e)
    requires Has(s.db, tid) && Of(s.db, tid).status in {PENDING, SCANNED} && s.now <= Of(s.db, tid).expiresAt
    requires cfg.challengeOf(verifier) == Of(s.db, tid).codeChallenge
    requires forall g :: Granted(token, g) !in s.log
    requires t.version > Of(s.db, tid).version && t.kind == Of(s.db, tid).kind && t.webSessionId == Of(s.db, tid).webSessionId
    ensures forall e, f :: e in s.log && f in ApprovalEvents(cfg, t, tid, userId, verifier, token, code, s.now) ==> Compatible(cfg, e, f)
  {
    forall e, f | e in s.log && f in ApprovalEvents(cfg, t, tid, userId, verifier, token, code, s.now)
      ensures Compatible(cfg, e, f)
    {
      ApprovalFitsPast(cfg, s, tid, verifier, token, e, f);
    }
  }

  lemma ApprovalLogged(cfg: Config, s: State, tid: string, t: Ticket, userId: string, verifier: string, token: string, code: string)
    requires Inv(cfg, s) && Has(s.db, tid) && Of(s.db, tid).status in {PENDING, SCANNED} && s.now <= Of(s.db, tid).expiresAt
    requires cfg.challengeOf(verifier) == Of(s.db, tid).codeChallenge
    requires forall g :: Granted(token, g) !in s.log
    requires t == Of(s.db, tid).(status := APPROVED, approvedBy := Some(userId), approvedAt := Some(s.now),
                                 version := Of(s.db, tid).version + 1)
    ensures Inv(cfg, Logged(PutTicket(cfg, s, tid, t), ApprovalEvents(cfg, t, tid, userId, verifier, token, code, s.now)))
  {
    var s1, more := PutTicket(cfg, s, tid, t), ApprovalEvents(cfg, t, tid, userId, verifier, token, code, s.now);
    NotRejected(cfg, s, tid);
    assert Succeeds(s, tid, t);
    PutKeeps(cfg, s, tid, t);
    ApprovalEventsFit(cfg, s, tid, t, userId, verifier, token, code);
    ApprovalEventsHold(cfg, Logged(s1, more), t, tid, userId, verifier, token, code, s.now);
    LogKeeps(cfg, s1, more);
  }

  lemma ApprovalEventsHold(cfg: Config, s: State, t: Ticket, tid: string, userId: string, verifier: string, token: string,
                           code: string, now: int)
    requires Has(s.db, tid) && Of(s.db, tid) == t && t.status == APPROVED
    requires forall f :: f in ApprovalEvents(cfg, t, tid, userId, verifier, token, code, now) ==> f in s.log
    ensures forall f :: f in ApprovalEvents(cfg, t, tid, userId, verifier, token, code, now) ==> Holds(cfg, s, f)
    ensures Ordered(cfg, ApprovalEvents(cfg, t, tid, userId, verifier, token, code, now))
  {
    var more := ApprovalEvents(cfg, t, tid, userId, verifier, token, code, now);
    assert more[1] == Approved(tid, userId, now) && more[1] in more;
  }

  lemma NothingExchangedYet(cfg: Config, s: State, tid: string, token: string)
    requires Inv(cfg, s) && Has(s.db, tid) && Of(s.db, tid).status in {PENDING, SCANNED}
    requires forall g :: Granted(token, g) !in s.log
    ensures forall e :: e in s.log && e.GrantExchanged? ==> e.token != token
    ensures forall e :: e in s.log && e.DeliveryExchanged? ==> e.delivery.tid != tid
  {
    forall e | e in s.log && (e.GrantExchanged? || e.DeliveryExchanged?)
      ensures if e.GrantExchanged? then e.token != token else e.delivery.tid != tid
    {
      assert Holds(cfg, s, e);
    }
  }

  lemma ApprovalIssues(cfg: Config, t: Ticket, tid: string, userId: string, verifier: string, token: string, code: string, now: int)
    ensures var more := ApprovalEvents(cfg, t, tid, userId, verifier, token, code, now);
            && Granted(token, GrantFor(cfg, t, tid, userId, now)) in more
            && (HasSession(t) ==> Delivered(DeliveryFor(cfg, t, tid, code, now)) in more)
            && (forall f :: f in more ==> !f.GrantExchanged? && !f.DeliveryExchanged?)
  {
    var more := ApprovalEvents(cfg, t, tid, userId, verifier, token, code, now);
    assert more[2] == Granted(token, GrantFor(cfg, t, tid, userId, now));
    assert HasSession(t) ==> more[3] == Delivered(DeliveryFor(cfg, t, tid, code, now));
  }

  // The grant and, with a web session, the delivery code that an approval stores.
  function Issued(cfg: Config, s: State, tid: string, t: Ticket, userId: string, token: string, code: string): State {
    var s1 := WithGrant(cfg, s, token, GrantFor(cfg, t, tid, userId, s.now));
    if HasSession(t) then WithDelivery(cfg, s1, tid, DeliveryFor(cfg, t, tid, code, s.now)) else s1
  }

  lemma IssuedKeeps(cfg: Config, s: State, tid: string, t: Ticket, userId: string, token: string, code: string)
    requires Inv(cfg, s)
    requires Granted(token, GrantFor(cfg, t, tid, userId, s.now)) in s.log
    requires HasSession(t) ==> Delivered(DeliveryFor(cfg, t, tid, code, s.now)) in s.log
    requires forall e :: e in s.log && e.GrantExchanged? ==> e.token != token
    requires forall e :: e in s.log && e.DeliveryExchanged? ==> e.delivery.tid != tid
    ensures Inv(cfg, Issued(cfg, s, tid, t, userId, token, code))
  {
    var g := GrantFor(cfg, t, tid, userId, s.now);
    StoreGrantKeeps(cfg, s, token, g);
    if HasSession(t) {
      StoreDeliveryKeeps(cfg, WithGrant(cfg, s, token, g), tid, DeliveryFor(cfg, t, tid, code, s.now));
    }
  }

  // The ticket as a verified approval stores it.
  function ApprovedTicket(t: Ticket, userId: string, now: int): Ticket {
    t.(status := APPROVED, approvedBy := Some(userId), approvedAt := Some(now), version := t.version + 1)
  }

  lemma ApproveShape(cfg: Config, s: State, tid: string, t: Ticket, userId: string, verifier: string, token: string, code: string)
    requires cfg.challengeOf(verifier) == t.codeChallenge
    ensures var t' := ApprovedTicket(t, userId, s.now);
            && ApproveOpen(cfg, s, tid, t, userId, verifier, false, token, code).0 == PutTicket(cfg, s, tid, t'.(status := PENDING))
            && ApproveOpen(cfg, s, tid, t, userId, verifier, true, token, code).0 ==
               Issued(cfg, Logged(PutTicket(cfg, s, tid, t'), ApprovalEvents(cfg, t', tid, userId, verifier, token, code, s.now)),
                      tid, t', userId, token, code)
  {
    var t' := ApprovedTicket(t, userId, s.now);
    var granted := [Verified(tid, verifier), Approved(tid, userId, s.now), Granted(token, GrantFor(cfg, t', tid, userId, s.now))];
    assert granted + [] == granted;
  }

  lemma ApproveOpenKeeps(cfg: Config, s: State, tid: string, t: Ticket, userId: string, verifier: string, actionOk: bool, token: string, code: string)
    requires Inv(cfg, s) && Has(s.db, tid) && Of(s.db, tid) == t && t.status in {PENDING, SCANNED} && s.now <= t.expiresAt
    requires forall g :: Granted(token, g) !in s.log
    ensures Inv(cfg, ApproveOpen(cfg, s, tid, t, userId, verifier, actionOk, token, code).0)
  {
    if cfg.challengeOf(verifier) == t.codeChallenge {
      var t' := ApprovedTicket(t, userId, s.now);
      ApproveShape(cfg, s, tid, t, userId, verifier, token, code);
      if !actionOk {
        NotRejected(cfg, s, tid);
        assert Succeeds(s, tid, t'.(status := PENDING));
        PutKeeps(cfg, s, tid, t'.(status := PENDING));
      } else {
        ApproveOkKeeps(cfg, s, tid, t', userId, verifier, token, code);
      }
    }
  }

  lemma ApproveKeeps(cfg: Config, s: State, tid: string, userId: string, verifier: string, actionOk: bool, token: string, code: string, lag: nat)
    requires Inv(cfg, s) && Fresh(s, DoApprove(tid, userId, verifier, actionOk, token, code, lag))
    ensures Inv(cfg, Approve(cfg, s, tid, userId, verifier, actionOk, token, code, lag).0)
  {
    LoadKeeps(cfg, s, tid);
    var (s1, r) := LoadChecked(cfg, s, tid);
    if r.Ok? && r.value.status in {PENDING, SCANNED} {
      var s2 := Later(s1, lag);
      LaterKeeps(cfg, s1, tid, r.value, lag);
      if s2.now <= r.value.expiresAt {
        ApproveOpenKeeps(cfg, s2, tid, r.value, userId, verifier, actionOk, token, code);
        assert Approve(cfg, s, tid, userId, verifier, actionOk, token, code, lag).0 ==
               ApproveOpen(cfg, s2, tid, r.value, userId, verifier, actionOk, token, code).0;
      } else {
        assert Approve(cfg, s, tid, userId, verifier, actionOk, token, code, lag).0 ==
               PutTicket(cfg, s2, tid, r.value.(status := EXPIRED));
      }
    } else {
      assert Approve(cfg, s, tid, userId, verifier, actionOk, token, code, lag).0 == s1;
    }
  }

  lemma ApproveOkKeeps(cfg: Config, s: State, tid: string, t: Ticket, userId: string, verifier: string, token: string, code: string)
    requires Inv(cfg, s) && Has(s.db, tid) && Of(s.db, tid).status in {PENDING, SCANNED} && s.now <= Of(s.db, tid).expiresAt
    requires cfg.challengeOf(verifier) == Of(s.db, tid).codeChallenge
    requires forall g :: Granted(token, g) !in s.log
    requires t == ApprovedTicket(Of(s.db, tid), userId, s.now)
    ensures Inv(cfg, Issued(cfg, Logged(PutTicket(cfg, s, tid, t), ApprovalEvents(cfg, t, tid, userId, verifier, token, code, s.now)),
                            tid, t, userId, token, code))
  {
    ApprovalLogged(cfg, s, tid, t, userId, verifier, token, code);
    NothingExchangedYet(cfg, s, tid, token);
    ApprovalIssues(cfg, t, tid, userId, verifier, token, code, s.now);
    IssuedKeeps(cfg, Logged(PutTicket(cfg, s, tid, t), ApprovalEvents(cfg, t, tid, userId, verifier, token, code, s.now)),
                tid, t, userId, token, code);
  }

  lemma ApplyKeeps(cfg: Config, s: State, a: Action)
    requires Inv(cfg, s) && Fresh(s, a)
    ensures Inv(cfg, Apply(cfg, s, a))
  {
    match a
    case Tick(ms) => TickKeeps(cfg, s, ms);
    case DoCreate(tid, kind, verifier, web) => CreateKeeps(cfg, s, tid, kind, verifier, web);
    case DoGet(tid) => LoadKeeps(cfg, s, tid);
    case DoScan(tid, userId, lag) => ScanKeeps(cfg, s, tid, userId, lag);
    case DoApprove(tid, userId, verifier, actionOk, token, code, lag) =>
      ApproveKeeps(cfg, s, tid, userId, verifier, actionOk, token, code, lag);
    case DoReject(tid, userId) => RejectKeeps(cfg, s, tid, userId);
    case DoExchangeGrant(token) => ExchangeGrantKeeps(cfg, s, token);
    case DoExchangeDelivery(tid, code) => ExchangeDeliveryKeeps(cfg, s, tid, code);
    case DoPoll(tid) => PollKeeps(cfg, s, tid);
    case DoTryGetDelivery(tid, session) => TryGetKeeps(cfg, s, tid, session);
    case DoCleanup => CleanupKeeps(cfg, s);
  }
}
