// The handlers of QrPollingService and QrService over the shared cache, each proved equal to its function in
// QrProtocol. A handler is one atomic step; where it tests the deadline twice, `lag` is the time in between.
// `log` records what the handlers did.
module QrService {
  import opened Wrappers
  import opened CacheStore
  import opened QrProtocol

  class QrPollingService {
    const cache: CacheService<Key, Value>
    const cfg: Config
    ghost var log: seq<Event>

    constructor (cache: CacheService<Key, Value>, cfg: Config)
      ensures this.cache == cache && this.cfg == cfg && log == []
    {
      this.cache := cache;
      this.cfg := cfg;
      log := [];
    }

    ghost function View(): State
      reads this`log, cache
    {
      State(cache.now, cache.db, log)
    }

    // JSON read back at a type: a value of another shape is not a ticket.
    method GetTicketValue(tid: string) returns (ticket: Option<Ticket>)
      ensures ticket == FindTicket(cache.db, tid, cache.now)
    {
      var held := cache.Get(TicketKey(tid));
      ticket := if held.Some? && held.value.TicketV? then Some(held.value.ticket) else None;
    }

    method SetTicketValue(tid: string, ticket: Ticket)
      requires cfg.ticketTtl > 0
      modifies cache`db
      ensures View() == PutTicket(cfg, old(View()), tid, ticket)
    {
      var _ := cache.Set(TicketKey(tid), TicketV(ticket), cfg.ticketTtl);
    }

    method ReadTicketSnapshot(tid: string) returns (snapshot: Option<Snapshot>)
      requires cfg.ticketTtl > 0
      modifies cache`db, this`log
      ensures (View(), snapshot) == Poll(cfg, old(View()), tid)
    {
      var found := GetTicketValue(tid);
      if found.None? {
        return None;
      }
      var ticket := found.value;
      if cache.now > ticket.expiresAt {
        ticket := ticket.(status := EXPIRED);
        ticket := ticket.(version := ticket.version + 1);
        SetTicketValue(tid, ticket);
      }
      var shown := SnapshotOf(ticket, cache.now);
      log := log + [Polled(tid, shown)];
      snapshot := Some(shown);
    }

    method TryGetDeliveryCode(tid: string, webSessionId: string) returns (code: Option<string>)
      modifies cache`db
      ensures (View(), code) == TryGetDelivery(old(View()), tid, webSessionId)
    {
      var held := cache.Get(DeliveryKey(tid));
      if held.None? || !held.value.DeliveryV? {
        return None;
      }
      var delivery := held.value.delivery;
      if cache.now > delivery.expiresAt {
        cache.Delete(DeliveryKey(tid));
        return None;
      }
      if delivery.webSessionId != webSessionId {
        return None;
      }
      code := Some(delivery.deliveryCode);
    }

    method CreateDeliveryCode(tid: string, webSessionId: string, code: string)
      requires cfg.grantTtl > 0
      modifies cache`db, this`log
      ensures var d := Delivery(code, tid, webSessionId, cache.now, cache.now + 1000 * cfg.grantTtl);
              View() == Logged(WithDelivery(cfg, old(View()), tid, d), [Delivered(d)])
    {
      var delivery := Delivery(code, tid, webSessionId, cache.now, cache.now + cfg.grantTtl * 1000);
      var _ := cache.Set(DeliveryKey(tid), DeliveryV(delivery), cfg.grantTtl);
      log := log + [Delivered(delivery)];
    }

    method PublishStatusChange(tid: string, status: Status, version: nat)
      modifies this`log
      ensures View() == Logged(old(View()), [Published(tid, status, version)])
    {
      log := log + [Published(tid, status, version)];
    }

    method ValidateAndConsumeDeliveryCode(tid: string, code: string) returns (valid: bool, ghost delivery: Option<Delivery>)
      modifies cache`db
      ensures (View(), delivery) == ConsumeDelivery(old(View()), tid, code) && valid == delivery.Some?
    {
      delivery := None;
      var held := cache.Get(DeliveryKey(tid));
      if held.None? || !held.value.DeliveryV? {
        return false, None;
      }
      if cache.now > held.value.delivery.expiresAt {
        cache.Delete(DeliveryKey(tid));
        return false, None;
      }
      if held.value.delivery.deliveryCode != code {
        return false, None;
      }
      cache.Delete(DeliveryKey(tid));
      valid, delivery := true, Some(held.value.delivery);
    }
  }

  datatype TicketCreated = TicketCreated(ticketId: string, codeChallenge: string, qrContent: string, status: Status)

  // APP_URL and encodeURIComponent.
  datatype Link = Link(baseUrl: string, encode: string -> string)

  // generateDeepLink with the options of createTicket: the app link and its HTTPS fallback.
  function GenerateDeepLink(link: Link, tid: string, challenge: string): string {
    var query := "tid=" + link.encode(tid) + "&cc=" + link.encode(challenge);
    "app://qr?" + query + "|" + link.baseUrl + "/qr/mobile/open?" + query
  }

  class QrService {
    const polling: QrPollingService
    const link: Link

    constructor (polling: QrPollingService, link: Link)
      requires polling.cfg.ticketTtl > 0 && polling.cfg.grantTtl > 0
      ensures this.polling == polling && this.link == link && Configured()
    {
      this.polling := polling;
      this.link := link;
    }

    // The configuration schema bounds both TTLs from below.
    ghost predicate Configured() {
      polling.cfg.ticketTtl > 0 && polling.cfg.grantTtl > 0
    }

    ghost function View(): State
      reads polling, polling.cache
    {
      polling.View()
    }

    // `tid` and `codeVerifier` are the random values drawn; the verifier is not handed out.
    method CreateTicket(tid: string, kind: string, codeVerifier: string, webSessionId: Option<string>) returns (r: TicketCreated)
      requires Configured()
      modifies polling, polling.cache`db
      ensures View() == Apply(polling.cfg, old(View()), DoCreate(tid, kind, codeVerifier, webSessionId))
      ensures var challenge := polling.cfg.challengeOf(codeVerifier);
              r == TicketCreated(tid, challenge, GenerateDeepLink(link, tid, challenge), PENDING)
    {
      var cache := polling.cache;
      var ticket := Ticket(tid, kind, PENDING, polling.cfg.challengeOf(codeVerifier), webSessionId, cache.now,
                           cache.now + polling.cfg.ticketTtl * 1000, None, None, None, None, 1);
      polling.SetTicketValue(tid, ticket);
      polling.log := polling.log + [Created(tid, kind, webSessionId, ticket.codeChallenge, ticket.expiresAt)];
      r := TicketCreated(tid, ticket.codeChallenge, GenerateDeepLink(link, tid, ticket.codeChallenge), ticket.status);
    }

    method GetTicket(ticketId: string) returns (r: Result<Option<Ticket>, Error>)
      requires Configured()
      modifies polling.cache`db
      ensures View() == Apply(polling.cfg, old(View()), DoGet(ticketId))
      ensures r == if !IsValidTicketId(ticketId) then Err(InvalidTicketId) else Ok(Load(polling.cfg, old(View()), ticketId).1)
    {
      if !IsValidTicketId(ticketId) {
        return Err(InvalidTicketId);
      }
      var found := polling.GetTicketValue(ticketId);
      if found.None? {
        return Ok(None);
      }
      var ticket := found.value;
      if polling.cache.now > ticket.expiresAt {
        ticket := ticket.(status := EXPIRED);
        polling.SetTicketValue(ticketId, ticket);
      }
      r := Ok(Some(ticket));
    }

    // The start of every handler: getTicket, then the not-found error.
    method RequireTicket(ticketId: string) returns (r: Result<Ticket, Error>)
      requires Configured()
      modifies polling.cache`db
      ensures (View(), r) == LoadChecked(polling.cfg, old(View()), ticketId)
    {
      var got := GetTicket(ticketId);
      if got.Err? {
        return Err(got.error);
      }
      if got.value.None? {
        return Err(TicketNotFound);
      }
      r := Ok(got.value.value);
    }

    // `lag` is the time that passes between the expiry test of getTicket and the handler's own.
    method ScanTicket(ticketId: string, userId: string, lag: nat) returns (r: Result<bool, Error>)
      requires Configured()
      modifies polling, polling.cache
      ensures (View(), r) == Scan(polling.cfg, old(View()), ticketId, userId, lag)
    {
      var got := RequireTicket(ticketId);
      if got.Err? {
        return Err(got.error);
      }
      var ticket := got.value;
      if ticket.status != PENDING {
        return Err(WrongStatus(ticket.status));
      }
      polling.cache.Advance(lag);
      if polling.cache.now > ticket.expiresAt {
        polling.SetTicketValue(ticketId, ticket.(status := EXPIRED));
        return Err(TicketExpired);
      }
      ticket := ticket.(status := SCANNED, scannedBy := Some(userId), scannedAt := Some(polling.cache.now));
      ticket := ticket.(version := ticket.version + 1);
      polling.SetTicketValue(ticketId, ticket);
      polling.PublishStatusChange(ticketId, SCANNED, ticket.version);
      r := Ok(true);
    }

    // `actionOk` is the outcome of the executed action, `grantToken` and `code` the random values drawn.
    method ApproveTicket(ticketId: string, userId: string, codeVerifier: string, actionOk: bool, grantToken: string, code: string,
                         lag: nat)
      returns (r: Result<string, Error>)
      requires Configured()
      modifies polling, polling.cache
      ensures (View(), r) == Approve(polling.cfg, old(View()), ticketId, userId, codeVerifier, actionOk, grantToken, code, lag)
    {
      var got := RequireTicket(ticketId);
      if got.Err? {
        return Err(got.error);
      }
      var ticket := got.value;
      if ticket.status !in {PENDING, SCANNED} {
        return Err(WrongStatus(ticket.status));
      }
      polling.cache.Advance(lag);
      if polling.cache.now > ticket.expiresAt {
        polling.SetTicketValue(ticketId, ticket.(status := EXPIRED));
        return Err(TicketExpired);
      }
      r := ApproveOpenTicket(ticketId, ticket, userId, codeVerifier, actionOk, grantToken, code);
    }

    // The rest of approveTicket.
    method ApproveOpenTicket(ticketId: string, open: Ticket, userId: string, codeVerifier: string, actionOk: bool, grantToken: string, code: string)
      returns (r: Result<string, Error>)
      requires Configured()
      modifies polling, polling.cache`db
      ensures (View(), r) == ApproveOpen(polling.cfg, old(View()), ticketId, open, userId, codeVerifier, actionOk, grantToken, code)
    {
      if polling.cfg.challengeOf(codeVerifier) != open.codeChallenge {
        return Err(InvalidCodeVerifier);
      }
      var cache := polling.cache;
      var ticket := open.(status := APPROVED, approvedBy := Some(userId), approvedAt := Some(cache.now));
      ticket := ticket.(version := ticket.version + 1);
      polling.SetTicketValue(ticketId, ticket);
      if !actionOk {
        ticket := ticket.(status := PENDING);
        polling.SetTicketValue(ticketId, ticket);
        assert View() == PutTicket(polling.cfg, old(View()), ticketId, ticket);
        return Err(ActionFailed);
      }
      var grant := Grant(ticketId, ticket.kind, ticket.webSessionId, userId, cache.now, cache.now + polling.cfg.grantTtl * 1000);
      var _ := cache.Set(GrantKey(grantToken), GrantV(grant), polling.cfg.grantTtl);
      ghost var granted := [Verified(ticketId, codeVerifier), Approved(ticketId, userId, cache.now), Granted(grantToken, grant)];
      polling.log := polling.log + granted;
      if HasSession(ticket) {
        polling.CreateDeliveryCode(ticketId, ticket.webSessionId.value, code);
      }
      polling.PublishStatusChange(ticketId, APPROVED, ticket.version);
      r := Ok(grantToken);
      assert View().log == ApproveOpen(polling.cfg, old(View()), ticketId, open, userId, codeVerifier, actionOk, grantToken, code).0.log;
    }

    method RejectTicket(ticketId: string, userId: string) returns (r: Result<bool, Error>)
      requires Configured()
      modifies polling, polling.cache`db
      ensures (View(), r) == Reject(polling.cfg, old(View()), ticketId, userId)
    {
      var got := RequireTicket(ticketId);
      if got.Err? {
        return Err(got.error);
      }
      var ticket := got.value;
      if ticket.status !in {PENDING, SCANNED} {
        return Err(WrongStatus(ticket.status));
      }
      ticket := ticket.(status := REJECTED, version := ticket.version + 1);
      polling.SetTicketValue(ticketId, ticket);
      polling.PublishStatusChange(ticketId, REJECTED, ticket.version);
      r := Ok(true);
    }

    method ExchangeGrant(grantToken: string) returns (r: Result<Grant, Error>)
      requires Configured()
      modifies polling, polling.cache`db
      ensures (View(), r) == QrProtocol.ExchangeGrant(polling.cfg, old(View()), grantToken)
    {
      var cache := polling.cache;
      var held := cache.Get(GrantKey(grantToken));
      if held.None? || !held.value.GrantV? {
        return Err(GrantNotFound);
      }
      var grant := held.value.grant;
      if cache.now > grant.expiresAt {
        return Err(GrantExpired);
      }
      var got := RequireTicket(grant.tid);
      if got.Err? {
        return Err(got.error);
      }
      var ticket := got.value.(status := USED, version := got.value.version + 1);
      polling.SetTicketValue(grant.tid, ticket);
      cache.Delete(GrantKey(grantToken));
      polling.log := polling.log + [GrantExchanged(grantToken, grant, cache.now)];
      polling.PublishStatusChange(grant.tid, USED, ticket.version);
      assert polling.log == old(polling.log) + [GrantExchanged(grantToken, grant, cache.now), Published(grant.tid, USED, ticket.version)];
      r := Ok(grant);
    }

    method ExchangeDeliveryCode(tid: string, deliveryCode: string) returns (r: Result<Grant, Error>)
      requires Configured()
      modifies polling, polling.cache`db
      ensures (View(), r) == ExchangeDelivery(polling.cfg, old(View()), tid, deliveryCode)
    {
      var cache := polling.cache;
      var isValid, consumed := polling.ValidateAndConsumeDeliveryCode(tid, deliveryCode);
      if !isValid {
        return Err(InvalidDeliveryCode);
      }
      var got := RequireTicket(tid);
      if got.Err? {
        return Err(got.error);
      }
      var ticket := got.value;
      if ticket.status != APPROVED {
        return Err(WrongStatus(ticket.status));
      }
      var grant := Grant(ticket.tid, ticket.kind, ticket.webSessionId,
                         if ticket.approvedBy.Some? then ticket.approvedBy.value else "",
                         cache.now, cache.now + polling.cfg.grantTtl * 1000);
      ticket := ticket.(status := USED, version := ticket.version + 1);
      polling.SetTicketValue(tid, ticket);
      polling.log := polling.log + [DeliveryExchanged(consumed.value, cache.now)];
      polling.PublishStatusChange(tid, USED, ticket.version);
      assert polling.log == old(polling.log) + [DeliveryExchanged(consumed.value, cache.now), Published(tid, USED, ticket.version)];
      r := Ok(grant);
    }

    // One sweep of cleanupExpired over the keys a SCAN returned. A key returned twice is counted once.
    method Sweep(keys: seq<Key>) returns (cleaned: nat)
      modifies polling.cache`db
      ensures var stale := StaleAmong(old(polling.cache.db), keys, polling.cache.now);
              polling.cache.db == old(polling.cache.db) - stale && cleaned == |stale|
    {
      hide Stale, PastDeadline;
      var cache := polling.cache;
      ghost var was := cache.db;
      cleaned := 0;
      var i := 0;
      while i < |keys|
        invariant 0 <= i <= |keys|
        invariant cache.db == was - StaleAmong(was, keys[..i], cache.now)
        invariant cleaned == |StaleAmong(was, keys[..i], cache.now)|
      {
        var key := keys[i];
        var held := cache.Get(key);
        var expired := PastDeadline(key, held, cache.now);
        StaleNext(was, keys, i, cache.now);
        PastDeadlineIsStale(was, StaleAmong(was, keys[..i], cache.now), key, cache.now);
        if expired {
          cache.Delete(key);
          cleaned := cleaned + 1;
        }
        i := i + 1;
      }
      assert keys[..i] == keys;
    }

    method CleanupExpired() returns (tickets: nat, grants: nat)
      modifies polling.cache`db
      ensures View() == Apply(polling.cfg, old(View()), DoCleanup)
      ensures tickets == |StaleTickets(old(polling.cache.db), polling.cache.now)|
      ensures grants == |StaleGrants(old(polling.cache.db), polling.cache.now)|
    {
      var cache := polling.cache;
      ghost var was := cache.db;
      var ticketKeys := cache.FindKeysByPattern((k: Key) => k.TicketKey?);
      tickets := Sweep(ticketKeys);
      assert StaleAmong(was, ticketKeys, cache.now) == StaleTickets(was, cache.now);
      var grantKeys := cache.FindKeysByPattern((k: Key) => k.GrantKey?);
      TicketSweepKeepsGrants(was, cache.db, grantKeys, cache.now);
      grants := Sweep(grantKeys);
      TwoSweeps(was, cache.now);
    }
  }

  predicate PastDeadline(key: Key, held: Option<Value>, now: int) {
    match held
    case Some(TicketV(t)) => key.TicketKey? && now > t.expiresAt
    case Some(GrantV(g)) => key.GrantKey? && now > g.expiresAt
    case _ => false
  }

  lemma PastDeadlineIsStale(was: Db, gone: set<Key>, key: Key, now: int)
    ensures PastDeadline(key, Lookup(was - gone, key, now), now) <==> key in was && Stale(was, key, now) && key !in gone
  {
    assert key in was - gone <==> key in was && key !in gone;
  }

  ghost function StaleAmong(db: Db, keys: seq<Key>, now: int): set<Key> {
    set k | k in keys && k in db && Stale(db, k, now)
  }

  ghost function StaleTickets(db: Db, now: int): set<Key> {
    set k | k in db && k.TicketKey? && Stale(db, k, now)
  }

  ghost function StaleGrants(db: Db, now: int): set<Key> {
    set k | k in db && k.GrantKey? && Stale(db, k, now)
  }

  lemma StaleNext(db: Db, keys: seq<Key>, i: nat, now: int)
    requires i < |keys|
    ensures StaleAmong(db, keys[..i + 1], now) ==
            StaleAmong(db, keys[..i], now) + if keys[i] in db && Stale(db, keys[i], now) then {keys[i]} else {}
  {
    assert keys[..i + 1] == keys[..i] + [keys[i]];
  }

  lemma TicketSweepKeepsGrants(was: Db, mid: Db, keys: seq<Key>, now: int)
    requires mid == was - StaleTickets(was, now)
    requires forall k :: k in keys ==> k.GrantKey?
    requires forall k :: k in mid && k.GrantKey? ==> k in keys
    ensures StaleAmong(mid, keys, now) == StaleGrants(was, now)
  {
    forall k: Key | k.GrantKey? ensures k in mid <==> k in was {
    }
  }

  lemma TwoSweeps(was: Db, now: int)
    ensures was - StaleTickets(was, now) - StaleGrants(was, now) == map k | k in was && !Stale(was, k, now) :: was[k]
  {
  }
}
