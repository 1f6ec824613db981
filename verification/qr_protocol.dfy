// The QR ticket protocol as functions on one Redis key space: what each handler of QrService and
// QrPollingService does to the stored tickets, grants and delivery codes, and what it answers.
module QrProtocol {
  import opened Wrappers
  import opened CacheStore

  datatype Status = PENDING | SCANNED | APPROVED | REJECTED | EXPIRED | USED

  datatype Ticket = Ticket(
    tid: string, kind: string, status: Status, codeChallenge: string, webSessionId: Option<string>,
    createdAt: int, expiresAt: int, scannedBy: Option<string>, scannedAt: Option<int>,
    approvedBy: Option<string>, approvedAt: Option<int>, version: nat)

  datatype Grant = Grant(tid: string, kind: string, webSessionId: Option<string>, userId: string, createdAt: int, expiresAt: int)

  datatype Delivery = Delivery(deliveryCode: string, tid: string, webSessionId: string, createdAt: int, expiresAt: int)

  // The key names QR:TICKET:<tid>, QR:GRANT:<token> and QR:DELIVERY:<tid>.
  datatype Key = TicketKey(tid: string) | GrantKey(token: string) | DeliveryKey(tid: string)

  datatype Value = TicketV(ticket: Ticket) | GrantV(grant: Grant) | DeliveryV(delivery: Delivery)

  type Db = map<Key, Entry<Value>>

  datatype Config = Config(ticketTtl: int, grantTtl: int, challengeOf: string -> string)

  datatype Snapshot = Snapshot(
    status: Status, expiresAt: int, version: nat, scannedAt: Option<int>, approvedAt: Option<int>,
    rejectedAt: Option<int>, usedAt: Option<int>, webSessionId: Option<string>)

  // What a run did, in order: successful transitions, messages on the status channel, and poll snapshots.
  datatype Event =
    | Created(tid: string, kind: string, web: Option<string>, challenge: string, expiresAt: int)
    | Verified(tid: string, verifier: string)
    | Approved(tid: string, userId: string, at: int)
    | Granted(token: string, grant: Grant)
    | Delivered(delivery: Delivery)
    | GrantExchanged(token: string, grant: Grant, at: int)
    | DeliveryExchanged(delivery: Delivery, at: int)
    | Published(tid: string, status: Status, version: nat)
    | Polled(tid: string, snapshot: Snapshot)

  datatype State = State(now: int, db: Db, log: seq<Event>)

  datatype Error =
    | InvalidTicketId | TicketNotFound | WrongStatus(status: Status) | TicketExpired | InvalidCodeVerifier | ActionFailed
    | GrantNotFound | GrantExpired | InvalidDeliveryCode

  // /^[A-Za-z0-9\-_]{16,64}$/
  predicate IsValidTicketId(tid: string) {
    16 <= |tid| <= 64 && forall i :: 0 <= i < |tid| ==> IsUrlSafe(tid[i])
  }

  predicate IsUrlSafe(c: char) {
    'A' <= c <= 'Z' || 'a' <= c <= 'z' || '0' <= c <= '9' || c == '-' || c == '_'
  }

  function FindTicket(db: Db, tid: string, now: int): Option<Ticket> {
    var held: Option<Value> := Lookup(db, TicketKey(tid), now);
    if held.Some? && held.value.TicketV? then Some(held.value.ticket) else None
  }

  function FindGrant(db: Db, token: string, now: int): Option<Grant> {
    var held: Option<Value> := Lookup(db, GrantKey(token), now);
    if held.Some? && held.value.GrantV? then Some(held.value.grant) else None
  }

  function FindDelivery(db: Db, tid: string, now: int): Option<Delivery> {
    var held: Option<Value> := Lookup(db, DeliveryKey(tid), now);
    if held.Some? && held.value.DeliveryV? then Some(held.value.delivery) else None
  }

  function PutTicket(cfg: Config, s: State, tid: string, t: Ticket): State {
    s.(db := s.db[TicketKey(tid) := Stored(TicketV(t), cfg.ticketTtl, s.now)])
  }

  function Logged(s: State, events: seq<Event>): State { s.(log := s.log + events) }

  function Create(cfg: Config, s: State, tid: string, kind: string, verifier: string, web: Option<string>): State {
    var t := Ticket(tid, kind, PENDING, cfg.challengeOf(verifier), web, s.now, s.now + 1000 * cfg.ticketTtl,
                    None, None, None, None, 1);
    Logged(PutTicket(cfg, s, tid, t), [Created(tid, kind, web, t.codeChallenge, t.expiresAt)])
  }

  // getTicket: a ticket past its time becomes EXPIRED and is stored again, its version unchanged.
  function Load(cfg: Config, s: State, tid: string): (State, Option<Ticket>) {
    match FindTicket(s.db, tid, s.now)
    case None => (s, None)
    case Some(t) =>
      if s.now > t.expiresAt then (PutTicket(cfg, s, tid, t.(status := EXPIRED)), Some(t.(status := EXPIRED)))
      else (s, Some(t))
  }

  // The id check, the load, and the not-found error that every handler starts with.
  function LoadChecked(cfg: Config, s: State, tid: string): (State, Result<Ticket, Error>) {
    if !IsValidTicketId(tid) then (s, Err(InvalidTicketId))
    else
      var (s1, found) := Load(cfg, s, tid);
      (s1, if found.None? then Err(TicketNotFound) else Ok(found.value))
  }

  function Later(s: State, ms: nat): State { s.(now := s.now + ms) }

  // `lag` is the time between the two expiry tests of a handler, getTicket's and its own.
  function Scan(cfg: Config, s: State, tid: string, userId: string, lag: nat): (State, Result<bool, Error>) {
    var (s1, r) := LoadChecked(cfg, s, tid);
    match r
    case Err(e) => (s1, Err(e))
    case Ok(t) =>
      if t.status != PENDING then (s1, Err(WrongStatus(t.status)))
      else
        var s2 := Later(s1, lag);
        if s2.now > t.expiresAt then (PutTicket(cfg, s2, tid, t.(status := EXPIRED)), Err(TicketExpired))
        else
          var t' := t.(status := SCANNED, scannedBy := Some(userId), scannedAt := Some(s2.now), version := t.version + 1);
          (Logged(PutTicket(cfg, s2, tid, t'), [Published(tid, SCANNED, t'.version)]), Ok(true))
  }

  function GrantFor(cfg: Config, t: Ticket, tid: string, userId: string, now: int): Grant {
    Grant(tid, t.kind, t.webSessionId, userId, now, now + 1000 * cfg.grantTtl)
  }

  predicate HasSession(t: Ticket) { t.webSessionId.Some? && t.webSessionId.value != "" }

  function DeliveryFor(cfg: Config, t: Ticket, tid: string, code: string, now: int): Delivery
    requires HasSession(t)
  {
    Delivery(code, tid, t.webSessionId.value, now, now + 1000 * cfg.grantTtl)
  }

  function WithGrant(cfg: Config, s: State, token: string, g: Grant): State {
    s.(db := s.db[GrantKey(token) := Stored(GrantV(g), cfg.grantTtl, s.now)])
  }

  function WithDelivery(cfg: Config, s: State, tid: string, d: Delivery): State {
    s.(db := s.db[DeliveryKey(tid) := Stored(DeliveryV(d), cfg.grantTtl, s.now)])
  }

  // approveTicket: `actionOk` is the outcome of the executed action; a failed one reverts the status only.
  function Approve(cfg: Config, s: State, tid: string, userId: string, verifier: string, actionOk: bool, token: string, code: string, lag: nat)
    : (State, Result<string, Error>)
  {
    var (s1, r) := LoadChecked(cfg, s, tid);
    match r
    case Err(e) => (s1, Err(e))
    case Ok(t) =>
      if t.status != PENDING && t.status != SCANNED then (s1, Err(WrongStatus(t.status)))
      else
        var s2 := Later(s1, lag);
        if s2.now > t.expiresAt then (PutTicket(cfg, s2, tid, t.(status := EXPIRED)), Err(TicketExpired))
        else ApproveOpen(cfg, s2, tid, t, userId, verifier, actionOk, token, code)
  }

  // The rest of it, for a ticket that is open and in time.
  function ApproveOpen(cfg: Config, s: State, tid: string, t: Ticket, userId: string, verifier: string, actionOk: bool, token: string, code: string)
    : (State, Result<string, Error>)
  {
    if cfg.challengeOf(verifier) != t.codeChallenge then (s, Err(InvalidCodeVerifier))
    else
      var t' := t.(status := APPROVED, approvedBy := Some(userId), approvedAt := Some(s.now), version := t.version + 1);
      if !actionOk then (PutTicket(cfg, s, tid, t'.(status := PENDING)), Err(ActionFailed))
      else
        var g := GrantFor(cfg, t', tid, userId, s.now);
        var s2 := WithGrant(cfg, PutTicket(cfg, s, tid, t'), token, g);
        var granted := [Verified(tid, verifier), Approved(tid, userId, s.now), Granted(token, g)];
        var published := [Published(tid, APPROVED, t'.version)];
        if !HasSession(t') then (Logged(s2, granted + published), Ok(token))
        else
          var d := DeliveryFor(cfg, t', tid, code, s.now);
          (Logged(WithDelivery(cfg, s2, tid, d), granted + [Delivered(d)] + published), Ok(token))
  }

  function Reject(cfg: Config, s: State, tid: string, userId: string): (State, Result<bool, Error>) {
    var (s1, r) := LoadChecked(cfg, s, tid);
    match r
    case Err(e) => (s1, Err(e))
    case Ok(t) =>
      if t.status != PENDING && t.status != SCANNED then (s1, Err(WrongStatus(t.status)))
      else
        var t' := t.(status := REJECTED, version := t.version + 1);
        (Logged(PutTicket(cfg, s1, tid, t'), [Published(tid, REJECTED, t'.version)]), Ok(true))
  }

  function Used(t: Ticket): Ticket { t.(status := USED, version := t.version + 1) }

  // exchangeGrant: the status of the ticket is not looked at.
  function ExchangeGrant(cfg: Config, s: State, token: string): (State, Result<Grant, Error>) {
    match FindGrant(s.db, token, s.now)
    case None => (s, Err(GrantNotFound))
    case Some(g) =>
      if s.now > g.expiresAt then (s, Err(GrantExpired))
      else
        var (s1, r) := LoadChecked(cfg, s, g.tid);
        match r
        case Err(e) => (s1, Err(e))
        case Ok(t) =>
          var s2 := PutTicket(cfg, s1, g.tid, Used(t));
          var s3 := s2.(db := s2.db - {GrantKey(token)});
          (Logged(s3, [GrantExchanged(token, g, s.now), Published(g.tid, USED, Used(t).version)]), Ok(g))
  }

  // validateAndConsumeDeliveryCode: an expired code is dropped, a wrong one is left, a right one is consumed.
  function ConsumeDelivery(s: State, tid: string, code: string): (State, Option<Delivery>) {
    match FindDelivery(s.db, tid, s.now)
    case None => (s, None)
    case Some(d) =>
      var gone := s.(db := s.db - {DeliveryKey(tid)});
      if s.now > d.expiresAt then (gone, None)
      else if d.deliveryCode != code then (s, None)
      else (gone, Some(d))
  }

  function ExchangeDelivery(cfg: Config, s: State, tid: string, code: string): (State, Result<Grant, Error>) {
    var (s1, consumed) := ConsumeDelivery(s, tid, code);
    if consumed.None? then (s1, Err(InvalidDeliveryCode))
    else
      var (s2, r) := LoadChecked(cfg, s1, tid);
      match r
      case Err(e) => (s2, Err(e))
      case Ok(t) =>
        if t.status != APPROVED then (s2, Err(WrongStatus(t.status)))
        else
          var g := Grant(t.tid, t.kind, t.webSessionId, if t.approvedBy.Some? then t.approvedBy.value else "",
                         s.now, s.now + 1000 * cfg.grantTtl);
          (Logged(PutTicket(cfg, s2, tid, Used(t)), [DeliveryExchanged(consumed.value, s.now), Published(tid, USED, Used(t).version)]), Ok(g))
  }

  function SnapshotOf(t: Ticket, now: int): Snapshot {
    Snapshot(t.status, t.expiresAt, t.version, t.scannedAt, t.approvedAt,
             if t.status == REJECTED then Some(now) else None,
             if t.status == USED then Some(now) else None, t.webSessionId)
  }

  // readTicketSnapshot: every read after expiry bumps the version again.
  function Poll(cfg: Config, s: State, tid: string): (State, Option<Snapshot>) {
    match FindTicket(s.db, tid, s.now)
    case None => (s, None)
    case Some(t) =>
      var t' := if s.now > t.expiresAt then t.(status := EXPIRED, version := t.version + 1) else t;
      var s1 := if s.now > t.expiresAt then PutTicket(cfg, s, tid, t') else s;
      (Logged(s1, [Polled(tid, SnapshotOf(t', s.now))]), Some(SnapshotOf(t', s.now)))
  }

  function TryGetDelivery(s: State, tid: string, web: string): (State, Option<string>) {
    match FindDelivery(s.db, tid, s.now)
    case None => (s, None)
    case Some(d) =>
      if s.now > d.expiresAt then (s.(db := s.db - {DeliveryKey(tid)}), None)
      else if d.webSessionId != web then (s, None)
      else (s, Some(d.deliveryCode))
  }

  // cleanupExpired removes a stored ticket or grant that is past its own deadline.
  predicate Stale(db: Db, k: Key, now: int) {
    match k
    case TicketKey(tid) => FindTicket(db, tid, now).Some? && now > FindTicket(db, tid, now).value.expiresAt
    case GrantKey(token) => FindGrant(db, token, now).Some? && now > FindGrant(db, token, now).value.expiresAt
    case DeliveryKey(_) => false
  }

  function Cleanup(s: State): State {
    s.(db := map k | k in s.db && !Stale(s.db, k, s.now) :: s.db[k])
  }

  datatype Action =
    | Tick(ms: nat)
    | DoCreate(tid: string, kind: string, verifier: string, web: Option<string>)
    | DoGet(tid: string)
    | DoScan(tid: string, userId: string, lag: nat)
    | DoApprove(tid: string, userId: string, verifier: string, actionOk: bool, token: string, code: string, lag: nat)
    | DoReject(tid: string, userId: string)
    | DoExchangeGrant(token: string)
    | DoExchangeDelivery(tid: string, code: string)
    | DoPoll(tid: string)
    | DoTryGetDelivery(tid: string, session: string)
    | DoCleanup

  function Apply(cfg: Config, s: State, a: Action): State {
    match a
    case Tick(ms) => Later(s, ms)
    case DoCreate(tid, kind, verifier, web) => Create(cfg, s, tid, kind, verifier, web)
    case DoGet(tid) => LoadChecked(cfg, s, tid).0
    case DoScan(tid, userId, lag) => Scan(cfg, s, tid, userId, lag).0
    case DoApprove(tid, userId, verifier, actionOk, token, code, lag) =>
      Approve(cfg, s, tid, userId, verifier, actionOk, token, code, lag).0
    case DoReject(tid, userId) => Reject(cfg, s, tid, userId).0
    case DoExchangeGrant(token) => ExchangeGrant(cfg, s, token).0
    case DoExchangeDelivery(tid, code) => ExchangeDelivery(cfg, s, tid, code).0
    case DoPoll(tid) => Poll(cfg, s, tid).0
    case DoTryGetDelivery(tid, web) => TryGetDelivery(s, tid, web).0
    case DoCleanup => Cleanup(s)
  }

  predicate Names(e: Event, tid: string) {
    match e
    case Created(t, _, _, _, _) => t == tid
    case Verified(t, _) => t == tid
    case Approved(t, _, _) => t == tid
    case Granted(_, g) => g.tid == tid
    case Delivered(d) => d.tid == tid
    case GrantExchanged(_, g, _) => g.tid == tid
    case DeliveryExchanged(d, _) => d.tid == tid
    case Published(t, _, _) => t == tid
    case Polled(t, _) => t == tid
  }

  // Ticket ids and grant tokens are random: a new one has not been seen before.
  ghost predicate Fresh(s: State, a: Action) {
    match a
    case DoCreate(tid, _, _, _) => forall e :: e in s.log ==> !Names(e, tid)
    case DoApprove(_, _, _, _, token, _, _) => forall g :: Granted(token, g) !in s.log
    case _ => true
  }

  // The state after a run from an empty store; the clock only moves forward.
  function Run(cfg: Config, start: int, actions: seq<Action>): State {
    if actions == [] then State(start, map[], [])
    else Apply(cfg, Run(cfg, start, actions[..|actions| - 1]), actions[|actions| - 1])
  }

  ghost predicate FreshRun(cfg: Config, start: int, actions: seq<Action>) {
    forall i :: 0 <= i < |actions| ==> Fresh(Run(cfg, start, actions[..i]), actions[i])
  }
}
