// What each step of the QR protocol means for the steps after it: when it goes through, what the next poll shows,
// and how long a grant and a delivery code are good for. All of it from any state of the store.
module QrLifecycle {
  import opened Wrappers
  import opened CacheStore
  import opened QrProtocol
  import opened QrInvariants

  // ----- When a step goes through -----

  // A stored ticket with a valid id, in time.
  predicate Open(s: State, tid: string) {
    IsValidTicketId(tid) && FindTicket(s.db, tid, s.now).Some? && s.now <= FindTicket(s.db, tid, s.now).value.expiresAt
  }

  lemma OpenLoads(cfg: Config, s: State, tid: string)
    requires Open(s, tid)
    ensures LoadChecked(cfg, s, tid) == (s, Ok(FindTicket(s.db, tid, s.now).value))
  {
  }

  lemma ScanIff(cfg: Config, s: State, tid: string, userId: string, lag: nat)
    ensures Scan(cfg, s, tid, userId, lag).1.Ok? <==>
            Open(s, tid) && FindTicket(s.db, tid, s.now).value.status == PENDING &&
            s.now + lag <= FindTicket(s.db, tid, s.now).value.expiresAt
  {
  }

  lemma ApproveIff(cfg: Config, s: State, tid: string, userId: string, verifier: string, actionOk: bool, token: string, code: string, lag: nat)
    ensures Approve(cfg, s, tid, userId, verifier, actionOk, token, code, lag).1.Ok? <==>
            && Open(s, tid)
            && var t := FindTicket(s.db, tid, s.now).value;
               (t.status == PENDING || t.status == SCANNED) && s.now + lag <= t.expiresAt && cfg.challengeOf(verifier) == t.codeChallenge && actionOk
  {
  }

  lemma RejectIff(cfg: Config, s: State, tid: string, userId: string)
    ensures Reject(cfg, s, tid, userId).1.Ok? <==>
            Open(s, tid) && (FindTicket(s.db, tid, s.now).value.status == PENDING || FindTicket(s.db, tid, s.now).value.status == SCANNED)
  {
  }

  lemma ExchangeDeliveryIff(cfg: Config, s: State, tid: string, code: string)
    ensures ExchangeDelivery(cfg, s, tid, code).1.Ok? <==>
            && Open(s, tid) && FindTicket(s.db, tid, s.now).value.status == APPROVED
            && var d := FindDelivery(s.db, tid, s.now); d.Some? && s.now <= d.value.expiresAt && d.value.deliveryCode == code
  {
  }

  // A ticket past its deadline is marked EXPIRED by whoever loads it, under the version that it has, and every step
  // is refused.
  lemma LateLoads(cfg: Config, s: State, tid: string)
    requires cfg.ticketTtl > 0 && IsValidTicketId(tid) && FindTicket(s.db, tid, s.now).Some?
    requires s.now > FindTicket(s.db, tid, s.now).value.expiresAt
    ensures var (a, loaded) := LoadChecked(cfg, s, tid);
            var t := FindTicket(s.db, tid, s.now).value;
            && loaded.Ok? && loaded.value == t.(status := EXPIRED) && loaded.value.version == t.version
            && FindTicket(a.db, tid, a.now) == Some(loaded.value) && a.log == s.log
    ensures forall user, lag :: Scan(cfg, s, tid, user, lag).1 == Err(WrongStatus(EXPIRED))
    ensures forall user, verifier, ok, token, code, lag ::
              Approve(cfg, s, tid, user, verifier, ok, token, code, lag).1 == Err(WrongStatus(EXPIRED))
    ensures forall user :: Reject(cfg, s, tid, user).1 == Err(WrongStatus(EXPIRED))
  {
  }

  // So does a step that finds the deadline passed by its own test only.
  lemma LateAtLast(cfg: Config, s: State, tid: string, userId: string, verifier: string, ok: bool, token: string, code: string, lag: nat)
    requires cfg.ticketTtl > 0 && Open(s, tid) && FindTicket(s.db, tid, s.now).value.status == PENDING
    requires s.now + lag > FindTicket(s.db, tid, s.now).value.expiresAt
    ensures var t := FindTicket(s.db, tid, s.now).value;
            var (a, scanned) := Scan(cfg, s, tid, userId, lag);
            var (b, approved) := Approve(cfg, s, tid, userId, verifier, ok, token, code, lag);
            && scanned == Err(TicketExpired) && approved == Err(TicketExpired) && a == b && a.log == s.log
            && FindTicket(a.db, tid, a.now) == Some(t.(status := EXPIRED))
  {
  }

  // ----- What a poll shows -----

  // A ticket shows as it is stored while it is in time, and EXPIRED with a version more after that.
  lemma PollShows(cfg: Config, s: State, tid: string)
    ensures var t, shown := FindTicket(s.db, tid, s.now), Poll(cfg, s, tid).1;
            && (shown.Some? <==> t.Some?)
            && (shown.Some? ==>
                  var late := s.now > t.value.expiresAt;
                  && shown.value.status == (if late then EXPIRED else t.value.status)
                  && shown.value.version == t.value.version + (if late then 1 else 0)
                  && shown.value.expiresAt == t.value.expiresAt && shown.value.webSessionId == t.value.webSessionId
                  && shown.value.scannedAt == t.value.scannedAt && shown.value.approvedAt == t.value.approvedAt)
  {
  }

  // A new ticket shows PENDING until its deadline, which is when its key goes too.
  lemma CreatedThenPolled(cfg: Config, s: State, tid: string, kind: string, verifier: string, web: Option<string>, ms: nat)
    requires cfg.ticketTtl > 0
    ensures Poll(cfg, Later(Create(cfg, s, tid, kind, verifier, web), ms), tid).1 ==
            if ms <= 1000 * cfg.ticketTtl then Some(Snapshot(PENDING, s.now + 1000 * cfg.ticketTtl, 1, None, None, None, None, web)) else None
  {
  }

  // Some time after a step that stored a ticket: as stored until its deadline, EXPIRED after that, and gone
  // after a whole TTL.
  lemma StoredThenFound(cfg: Config, s: State, tid: string, t: Ticket, ms: nat)
    requires cfg.ticketTtl > 0
    ensures FindTicket(Later(PutTicket(cfg, s, tid, t), ms).db, tid, s.now + ms) == if ms <= 1000 * cfg.ticketTtl then Some(t) else None
  {
  }

  // After a scan polls show SCANNED since the scan, and nobody else can scan, but the ticket can be approved.
  lemma ScannedThen(cfg: Config, s: State, tid: string, userId: string, lag: nat, ms: nat)
    requires cfg.ticketTtl > 0 && Scan(cfg, s, tid, userId, lag).1.Ok?
    requires var t := FindTicket(s.db, tid, s.now).value; s.now + lag + ms <= t.expiresAt && ms <= 1000 * cfg.ticketTtl
    ensures var t, b := FindTicket(s.db, tid, s.now).value, Later(Scan(cfg, s, tid, userId, lag).0, ms);
            && Poll(cfg, b, tid).1 ==
               Some(Snapshot(SCANNED, t.expiresAt, t.version + 1, Some(s.now + lag), t.approvedAt, None, None, t.webSessionId))
            && FindTicket(b.db, tid, b.now).value.scannedBy == Some(userId)
            && (forall other, later :: Scan(cfg, b, tid, other, later).1 == Err(WrongStatus(SCANNED)))
            && (forall user, verifier, token, code :: cfg.challengeOf(verifier) == t.codeChallenge ==>
                  Approve(cfg, b, tid, user, verifier, true, token, code, 0).1.Ok?)
  {
  }

  // After a rejection polls show REJECTED, and every other step is refused.
  lemma RejectedThen(cfg: Config, s: State, tid: string, userId: string, ms: nat)
    requires cfg.ticketTtl > 0 && Reject(cfg, s, tid, userId).1.Ok?
    requires s.now + ms <= FindTicket(s.db, tid, s.now).value.expiresAt && ms <= 1000 * cfg.ticketTtl
    ensures var t, b := FindTicket(s.db, tid, s.now).value, Later(Reject(cfg, s, tid, userId).0, ms);
            && Poll(cfg, b, tid).1 ==
               Some(Snapshot(REJECTED, t.expiresAt, t.version + 1, t.scannedAt, t.approvedAt, Some(b.now), None, t.webSessionId))
            && (forall user, lag :: Scan(cfg, b, tid, user, lag).1 == Err(WrongStatus(REJECTED)))
            && (forall user, verifier, ok, token, code, lag ::
                  Approve(cfg, b, tid, user, verifier, ok, token, code, lag).1 == Err(WrongStatus(REJECTED)))
            && (forall user :: Reject(cfg, b, tid, user).1 == Err(WrongStatus(REJECTED)))
  {
  }

  // A wrong verifier changes nothing at all.
  lemma WrongVerifier(cfg: Config, s: State, tid: string, userId: string, verifier: string, actionOk: bool, token: string, code: string)
    requires Open(s, tid) && FindTicket(s.db, tid, s.now).value.status in {PENDING, SCANNED}
    requires cfg.challengeOf(verifier) != FindTicket(s.db, tid, s.now).value.codeChallenge
    ensures Approve(cfg, s, tid, userId, verifier, actionOk, token, code, 0) == (s, Err(InvalidCodeVerifier))
  {
    assert Later(s, 0) == s;
  }

  // A failed action answers an error, issues nothing, and leaves the ticket PENDING, to be approved again.
  lemma FailedThen(cfg: Config, s: State, tid: string, userId: string, verifier: string, token: string, code: string, ms: nat)
    requires cfg.ticketTtl > 0 && Open(s, tid) && FindTicket(s.db, tid, s.now).value.status in {PENDING, SCANNED}
    requires var t := FindTicket(s.db, tid, s.now).value;
             cfg.challengeOf(verifier) == t.codeChallenge && s.now + ms <= t.expiresAt && ms <= 1000 * cfg.ticketTtl
    ensures var (a, answer) := Approve(cfg, s, tid, userId, verifier, false, token, code, 0);
            var t, b := FindTicket(s.db, tid, s.now).value, Later(a, ms);
            && answer == Err(ActionFailed) && a.log == s.log
            && (forall k :: k != TicketKey(tid) ==> (k in a.db <==> k in s.db) && (k in s.db ==> a.db[k] == s.db[k]))
            && Poll(cfg, b, tid).1.Some? && Poll(cfg, b, tid).1.value.status == PENDING && Poll(cfg, b, tid).1.value.version == t.version + 1
            && Approve(cfg, b, tid, userId, verifier, true, token, code, 0).1 == Ok(token)
  {
  }

  // ----- How long an approval is good for -----

  // What an approval stores.
  lemma ApprovalStores(cfg: Config, s: State, tid: string, userId: string, verifier: string, token: string, code: string, lag: nat)
    requires Approve(cfg, s, tid, userId, verifier, true, token, code, lag).1.Ok?
    ensures var a, at := Approve(cfg, s, tid, userId, verifier, true, token, code, lag).0, s.now + lag;
            var t := ApprovedTicket(FindTicket(s.db, tid, s.now).value, userId, at);
            && a.now == at
            && TicketKey(tid) in a.db && a.db[TicketKey(tid)] == Stored(TicketV(t), cfg.ticketTtl, at)
            && GrantKey(token) in a.db && a.db[GrantKey(token)] == Stored(GrantV(GrantFor(cfg, t, tid, userId, at)), cfg.grantTtl, at)
            && (HasSession(t) ==>
                  && DeliveryKey(tid) in a.db
                  && a.db[DeliveryKey(tid)] == Stored(DeliveryV(DeliveryFor(cfg, t, tid, code, at)), cfg.grantTtl, at))
            && (!HasSession(t) ==> (DeliveryKey(tid) in a.db <==> DeliveryKey(tid) in s.db))
  {
  }

  // The grant can be exchanged for the approver during its whole TTL, as long as the ticket is stored, and not after.
  lemma ApprovedThenGrant(cfg: Config, s: State, tid: string, userId: string, verifier: string, token: string, code: string, lag: nat, ms: nat)
    requires cfg.ticketTtl > 0 && cfg.grantTtl > 0 && Approve(cfg, s, tid, userId, verifier, true, token, code, lag).1.Ok?
    ensures var t, at := FindTicket(s.db, tid, s.now).value, s.now + lag;
            var b := Later(Approve(cfg, s, tid, userId, verifier, true, token, code, lag).0, ms);
            ExchangeGrant(cfg, b, token).1 ==
              if ms > 1000 * cfg.grantTtl then Err(GrantNotFound)
              else if ms > 1000 * cfg.ticketTtl then Err(TicketNotFound)
              else Ok(Grant(tid, t.kind, t.webSessionId, userId, at, at + 1000 * cfg.grantTtl))
  {
    hide Approve;
    ApprovalStores(cfg, s, tid, userId, verifier, token, code, lag);
    ApproveIff(cfg, s, tid, userId, verifier, true, token, code, lag);
  }

  // The delivery code can be exchanged for the approver while it and the ticket are in time, and not after.
  lemma ApprovedThenCode(cfg: Config, s: State, tid: string, userId: string, verifier: string, token: string, code: string, lag: nat, ms: nat)
    requires cfg.ticketTtl > 0 && cfg.grantTtl > 0 && Approve(cfg, s, tid, userId, verifier, true, token, code, lag).1.Ok?
    requires HasSession(FindTicket(s.db, tid, s.now).value)
    ensures var t := FindTicket(s.db, tid, s.now).value;
            var b := Later(Approve(cfg, s, tid, userId, verifier, true, token, code, lag).0, ms);
            ExchangeDelivery(cfg, b, tid, code).1 ==
              if ms > 1000 * cfg.grantTtl then Err(InvalidDeliveryCode)
              else if ms > 1000 * cfg.ticketTtl then Err(TicketNotFound)
              else if b.now > t.expiresAt then Err(WrongStatus(EXPIRED))
              else Ok(Grant(t.tid, t.kind, t.webSessionId, userId, b.now, b.now + 1000 * cfg.grantTtl))
  {
    hide Approve;
    ApprovalStores(cfg, s, tid, userId, verifier, token, code, lag);
    ApproveIff(cfg, s, tid, userId, verifier, true, token, code, lag);
  }

  // A wrong code is refused and uses nothing up.
  lemma WrongCode(cfg: Config, s: State, tid: string, code: string)
    requires var d := FindDelivery(s.db, tid, s.now); d.Some? && s.now <= d.value.expiresAt && d.value.deliveryCode != code
    ensures ExchangeDelivery(cfg, s, tid, code) == (s, Err(InvalidDeliveryCode))
  {
  }

  // Either exchange leaves a ticket that shows USED, and the code it used up is gone.
  lemma ExchangedThen(cfg: Config, s: State, tid: string, code: string, ms: nat)
    requires cfg.ticketTtl > 0 && ExchangeDelivery(cfg, s, tid, code).1.Ok?
    requires s.now + ms <= FindTicket(s.db, tid, s.now).value.expiresAt && ms <= 1000 * cfg.ticketTtl
    ensures var t, b := FindTicket(s.db, tid, s.now).value, Later(ExchangeDelivery(cfg, s, tid, code).0, ms);
            && Poll(cfg, b, tid).1 ==
               Some(Snapshot(USED, t.expiresAt, t.version + 1, t.scannedAt, t.approvedAt, None, Some(b.now), t.webSessionId))
            && (forall other :: ExchangeDelivery(cfg, b, tid, other).1 == Err(InvalidDeliveryCode))
  {
    hide LoadChecked;
    ExchangeDeliveryIff(cfg, s, tid, code);
    OpenLoads(cfg, s.(db := s.db - {DeliveryKey(tid)}), tid);
  }

  lemma GrantExchangedThen(cfg: Config, s: State, token: string, ms: nat)
    requires cfg.ticketTtl > 0 && ExchangeGrant(cfg, s, token).1.Ok?
    requires var tid := FindGrant(s.db, token, s.now).value.tid;
             Open(s, tid) && s.now + ms <= FindTicket(s.db, tid, s.now).value.expiresAt && ms <= 1000 * cfg.ticketTtl
    ensures var tid := FindGrant(s.db, token, s.now).value.tid;
            var t, b := FindTicket(s.db, tid, s.now).value, Later(ExchangeGrant(cfg, s, token).0, ms);
            && Poll(cfg, b, tid).1 ==
               Some(Snapshot(USED, t.expiresAt, t.version + 1, t.scannedAt, t.approvedAt, None, Some(b.now), t.webSessionId))
            && ExchangeGrant(cfg, b, token).1 == Err(GrantNotFound)
  {
    hide LoadChecked;
    OpenLoads(cfg, s, FindGrant(s.db, token, s.now).value.tid);
  }

  // The code goes out to the web session of the ticket and to no other, during its whole TTL.
  lemma ApprovedThenOffered(cfg: Config, s: State, tid: string, userId: string, verifier: string, token: string, code: string, lag: nat, ms: nat,
                            web: string)
    requires cfg.ticketTtl > 0 && cfg.grantTtl > 0 && Approve(cfg, s, tid, userId, verifier, true, token, code, lag).1.Ok?
    requires HasSession(FindTicket(s.db, tid, s.now).value)
    ensures var b := Later(Approve(cfg, s, tid, userId, verifier, true, token, code, lag).0, ms);
            TryGetDelivery(b, tid, web).1 ==
              if ms <= 1000 * cfg.grantTtl && FindTicket(s.db, tid, s.now).value.webSessionId == Some(web) then Some(code) else None
  {
    hide Approve;
    ApprovalStores(cfg, s, tid, userId, verifier, token, code, lag);
  }

  // ----- Clean-up -----

  // A clean-up takes exactly the tickets and grants past their own deadline. None of those is left, and whatever
  // is in time is found as before, as is every delivery code.
  lemma CleanedUp(s: State, tid: string, token: string)
    ensures var after := Cleanup(s);
            && after.now == s.now && after.log == s.log
            && FindTicket(after.db, tid, s.now) ==
               (var t := FindTicket(s.db, tid, s.now); if t.Some? && s.now <= t.value.expiresAt then t else None)
            && FindGrant(after.db, token, s.now) ==
               (var g := FindGrant(s.db, token, s.now); if g.Some? && s.now <= g.value.expiresAt then g else None)
            && FindDelivery(after.db, tid, s.now) == FindDelivery(s.db, tid, s.now)
  {
  }

  // So nobody who polls, scans, approves or exchanges in time can notice it.
  lemma CleanupUnnoticed(cfg: Config, s: State, tid: string, userId: string, verifier: string, actionOk: bool, token: string, code: string, lag: nat)
    requires Open(s, tid)
    requires var g := FindGrant(s.db, token, s.now); g.Some? ==> g.value.tid == tid && s.now <= g.value.expiresAt
    ensures Poll(cfg, Cleanup(s), tid).1 == Poll(cfg, s, tid).1
    ensures Scan(cfg, Cleanup(s), tid, userId, lag).1 == Scan(cfg, s, tid, userId, lag).1
    ensures Approve(cfg, Cleanup(s), tid, userId, verifier, actionOk, token, code, lag).1 ==
            Approve(cfg, s, tid, userId, verifier, actionOk, token, code, lag).1
    ensures ExchangeGrant(cfg, Cleanup(s), token).1 == ExchangeGrant(cfg, s, token).1
    ensures ExchangeDelivery(cfg, Cleanup(s), tid, code).1 == ExchangeDelivery(cfg, s, tid, code).1
  {
    CleanedUp(s, tid, token);
    hide Cleanup, LoadChecked, FindTicket, FindGrant, FindDelivery;
    var after := Cleanup(s);
    OpenLoads(cfg, s, tid);
    OpenLoads(cfg, after, tid);
    var (x, y) := (s.(db := s.db - {DeliveryKey(tid)}), after.(db := after.db - {DeliveryKey(tid)}));
    WithoutCode(s, tid);
    WithoutCode(after, tid);
    OpenLoads(cfg, x, tid);
    OpenLoads(cfg, y, tid);
  }

  lemma WithoutCode(s: State, tid: string)
    ensures var x := s.(db := s.db - {DeliveryKey(tid)});
            FindTicket(x.db, tid, x.now) == FindTicket(s.db, tid, s.now)
  {
  }
}
