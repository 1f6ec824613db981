// When is an exchange of a grant the second redemption of one approval? exchangeGrant does not look at the
// ticket's status; this is what the status would have told it.
module QrRedemption {
  import opened Wrappers
  import opened CacheStore
  import opened QrProtocol
  import opened QrInvariants
  import opened QrTheorems

  predicate Redeems(e: Event, tid: string) {
    (e.GrantExchanged? && e.grant.tid == tid) || (e.DeliveryExchanged? && e.delivery.tid == tid)
  }

  // Some grant or delivery code of the ticket has been exchanged.
  predicate Redeemed(log: seq<Event>, tid: string) { exists e :: e in log && Redeems(e, tid) }

  // An approval by the user and at the moment that the ticket names.
  predicate Vouched(log: seq<Event>, tid: string, t: Ticket) {
    t.approvedBy.Some? && t.approvedAt.Some? && Approved(tid, t.approvedBy.value, t.approvedAt.value) in log
  }

  // What the stored status tells: USED only after an exchange, EXPIRED only past the deadline, APPROVED only by
  // an approval of the user it names.
  ghost predicate Told(s: State, tid: string) {
    Has(s.db, tid) ==>
      && (Of(s.db, tid).status == USED ==> Redeemed(s.log, tid))
      && (Of(s.db, tid).status == EXPIRED ==> s.now > Of(s.db, tid).expiresAt)
      && (Of(s.db, tid).status == APPROVED ==> Vouched(s.log, tid, Of(s.db, tid)))
  }

  // Time passes and events are added, the ticket stays as it is.
  lemma ToldLater(s: State, s': State, tid: string)
    requires Told(s, tid) && s.now <= s'.now && (forall e :: e in s.log ==> e in s'.log)
    requires Has(s'.db, tid) ==> Has(s.db, tid) && Of(s'.db, tid) == Of(s.db, tid)
    ensures Told(s', tid)
  {
  }

  lemma PutTells(cfg: Config, s: State, id: string, t: Ticket, tid: string)
    requires Told(s, tid)
    requires t.status == USED ==> Redeemed(s.log, id)
    requires t.status == EXPIRED ==> s.now > t.expiresAt
    requires t.status == APPROVED ==> Vouched(s.log, id, t)
    ensures Told(PutTicket(cfg, s, id, t), tid)
  {
    if tid != id {
      ToldLater(s, PutTicket(cfg, s, id, t), tid);
    }
  }

  lemma LoggedTells(s: State, more: seq<Event>, tid: string)
    requires Told(s, tid)
    ensures Told(Logged(s, more), tid)
  {
    ToldLater(s, Logged(s, more), tid);
  }

  lemma LoadTells(cfg: Config, s: State, id: string, tid: string)
    requires Told(s, tid) && Told(s, id)
    ensures var s1 := LoadChecked(cfg, s, id).0;
            Told(s1, tid) && s1.now == s.now && s1.log == s.log
    ensures var (s1, r) := LoadChecked(cfg, s, id);
            r.Ok? && r.value.status == USED ==> Redeemed(s1.log, id)
    ensures var (s1, r) := LoadChecked(cfg, s, id);
            r.Ok? && r.value.status == EXPIRED ==> s1.now > r.value.expiresAt
  {
    var found := FindTicket(s.db, id, s.now);
    if found.Some? && s.now > found.value.expiresAt {
      PutTells(cfg, s, id, found.value.(status := EXPIRED), tid);
    }
  }

  lemma CreateTells(cfg: Config, s: State, id: string, kind: string, verifier: string, web: Option<string>, tid: string)
    requires Told(s, tid)
    ensures Told(Create(cfg, s, id, kind, verifier, web), tid)
  {
    var t := Ticket(id, kind, PENDING, cfg.challengeOf(verifier), web, s.now, s.now + 1000 * cfg.ticketTtl,
                    None, None, None, None, 1);
    PutTells(cfg, s, id, t, tid);
    LoggedTells(PutTicket(cfg, s, id, t), [Created(id, kind, web, t.codeChallenge, t.expiresAt)], tid);
  }

  lemma ScanTells(cfg: Config, s: State, id: string, userId: string, lag: nat, tid: string)
    requires Told(s, tid) && Told(s, id)
    ensures Told(Scan(cfg, s, id, userId, lag).0, tid)
  {
    LoadTells(cfg, s, id, tid);
    var (s1, r) := LoadChecked(cfg, s, id);
    if r.Ok? && r.value.status == PENDING {
      var t, s2 := r.value, Later(s1, lag);
      ToldLater(s1, s2, tid);
      if s2.now > t.expiresAt {
        PutTells(cfg, s2, id, t.(status := EXPIRED), tid);
      } else {
        var t' := t.(status := SCANNED, scannedBy := Some(userId), scannedAt := Some(s2.now), version := t.version + 1);
        PutTells(cfg, s2, id, t', tid);
        LoggedTells(PutTicket(cfg, s2, id, t'), [Published(id, SCANNED, t'.version)], tid);
      }
    }
  }

  lemma RejectTells(cfg: Config, s: State, id: string, userId: string, tid: string)
    requires Told(s, tid) && Told(s, id)
    ensures Told(Reject(cfg, s, id, userId).0, tid)
  {
    LoadTells(cfg, s, id, tid);
    var (s1, r) := LoadChecked(cfg, s, id);
    if r.Ok? && r.value.status in {PENDING, SCANNED} {
      var t' := r.value.(status := REJECTED, version := r.value.version + 1);
      PutTells(cfg, s1, id, t', tid);
      LoggedTells(PutTicket(cfg, s1, id, t'), [Published(id, REJECTED, t'.version)], tid);
    }
  }

  lemma IssuedTells(cfg: Config, s: State, id: string, t: Ticket, userId: string, token: string, code: string, tid: string)
    requires Told(s, tid)
    ensures Told(Issued(cfg, s, id, t, userId, token, code), tid)
  {
    ToldLater(s, Issued(cfg, s, id, t, userId, token, code), tid);
  }

  lemma ApproveOpenTells(cfg: Config, s: State, id: string, t: Ticket, userId: string, verifier: string, actionOk: bool,
                         token: string, code: string, tid: string)
    requires Told(s, tid)
    ensures Told(ApproveOpen(cfg, s, id, t, userId, verifier, actionOk, token, code).0, tid)
  {
    if cfg.challengeOf(verifier) == t.codeChallenge {
      var t' := ApprovedTicket(t, userId, s.now);
      ApproveShape(cfg, s, id, t, userId, verifier, token, code);
      PutTells(cfg, s, id, t'.(status := PENDING), tid);
      var more := ApprovalEvents(cfg, t', id, userId, verifier, token, code, s.now);
      LoggedTells(s, more, tid);
      assert Logged(s, more).log[|s.log| + 1] == more[1] == Approved(id, userId, s.now);
      assert Logged(s, more).log[|s.log| + 1] in Logged(s, more).log;
      PutTells(cfg, Logged(s, more), id, t', tid);
      assert Logged(PutTicket(cfg, s, id, t'), more) == PutTicket(cfg, Logged(s, more), id, t');
      IssuedTells(cfg, Logged(PutTicket(cfg, s, id, t'), more), id, t', userId, token, code, tid);
    }
  }

  lemma ApproveTells(cfg: Config, s: State, id: string, userId: string, verifier: string, actionOk: bool, token: string,
                     code: string, lag: nat, tid: string)
    requires Told(s, tid) && Told(s, id)
    ensures Told(Approve(cfg, s, id, userId, verifier, actionOk, token, code, lag).0, tid)
  {
    LoadTells(cfg, s, id, tid);
    var (s1, r) := LoadChecked(cfg, s, id);
    if r.Ok? && r.value.status in {PENDING, SCANNED} {
      var s2 := Later(s1, lag);
      ToldLater(s1, s2, tid);
      if s2.now > r.value.expiresAt {
        PutTells(cfg, s2, id, r.value.(status := EXPIRED), tid);
      } else {
        ApproveOpenTells(cfg, s2, id, r.value, userId, verifier, actionOk, token, code, tid);
      }
    }
  }

  // Storing the ticket as USED together with the event of the exchange.
  lemma SpentTells(cfg: Config, s: State, id: string, t: Ticket, ev: Event, last: Event, tid: string)
    requires Told(s, tid) && Redeems(ev, id)
    ensures Told(Logged(PutTicket(cfg, s, id, Used(t)), [ev, last]), tid)
  {
    var s' := Logged(PutTicket(cfg, s, id, Used(t)), [ev, last]);
    if tid != id {
      ToldLater(s, s', tid);
    } else {
      assert s'.log[|s.log|] == ev;
      assert ev in s'.log && Redeems(ev, tid);
    }
  }

  lemma ExchangeGrantTells(cfg: Config, s: State, token: string, tid: string)
    requires Told(s, tid) && (FindGrant(s.db, token, s.now).Some? ==> Told(s, FindGrant(s.db, token, s.now).value.tid))
    ensures Told(ExchangeGrant(cfg, s, token).0, tid)
  {
    var found := FindGrant(s.db, token, s.now);
    if found.Some? && s.now <= found.value.expiresAt {
      var g := found.value;
      LoadTells(cfg, s, g.tid, tid);
      var (s1, r) := LoadChecked(cfg, s, g.tid);
      if r.Ok? {
        var ev, last := GrantExchanged(token, g, s.now), Published(g.tid, USED, Used(r.value).version);
        SpentTells(cfg, s1, g.tid, r.value, ev, last, tid);
        ToldLater(Logged(PutTicket(cfg, s1, g.tid, Used(r.value)), [ev, last]), ExchangeGrant(cfg, s, token).0, tid);
      }
    }
  }

  lemma ExchangeDeliveryTells(cfg: Config, s: State, id: string, code: string, tid: string)
    requires Inv(cfg, s) && Told(s, tid) && Told(s, id)
    ensures Told(ExchangeDelivery(cfg, s, id, code).0, tid)
  {
    ConsumeKeeps(cfg, s, id, code);
    var (s1, consumed) := ConsumeDelivery(s, id, code);
    ToldLater(s, s1, tid);
    ToldLater(s, s1, id);
    if consumed.Some? {
      LoadTells(cfg, s1, id, tid);
      var (s2, r) := LoadChecked(cfg, s1, id);
      if r.Ok? && r.value.status == APPROVED {
        SpentTells(cfg, s2, id, r.value, DeliveryExchanged(consumed.value, s.now), Published(id, USED, Used(r.value).version), tid);
      }
    }
  }

  lemma PollTells(cfg: Config, s: State, id: string, tid: string)
    requires Told(s, tid) && Told(s, id)
    ensures Told(Poll(cfg, s, id).0, tid)
  {
    if FindTicket(s.db, id, s.now).Some? {
      PollShape(cfg, s, id);
      var s1 := if s.now > Of(s.db, id).expiresAt then PutTicket(cfg, s, id, Shown(Of(s.db, id), s.now)) else s;
      if s.now > Of(s.db, id).expiresAt {
        PutTells(cfg, s, id, Shown(Of(s.db, id), s.now), tid);
      }
      LoggedTells(s1, [Polled(id, SnapshotOf(Of(s1.db, id), s.now))], tid);
    }
  }

  lemma ApplyTells(cfg: Config, s: State, a: Action, tid: string)
    requires Inv(cfg, s) && forall id :: Told(s, id)
    ensures Told(Apply(cfg, s, a), tid)
  {
    match a {
      case Tick(ms) => ToldLater(s, Apply(cfg, s, a), tid);
      case DoCreate(id, kind, verifier, web) => CreateTells(cfg, s, id, kind, verifier, web, tid);
      case DoGet(id) => LoadTells(cfg, s, id, tid);
      case DoScan(id, userId, lag) => ScanTells(cfg, s, id, userId, lag, tid);
      case DoApprove(id, userId, verifier, actionOk, token, code, lag) =>
        ApproveTells(cfg, s, id, userId, verifier, actionOk, token, code, lag, tid);
      case DoReject(id, userId) => RejectTells(cfg, s, id, userId, tid);
      case DoExchangeGrant(token) => ExchangeGrantTells(cfg, s, token, tid);
      case DoExchangeDelivery(id, code) => ExchangeDeliveryTells(cfg, s, id, code, tid);
      case DoPoll(id) => PollTells(cfg, s, id, tid);
      case DoTryGetDelivery(id, web) => ToldLater(s, Apply(cfg, s, a), tid);
      case DoCleanup => ToldLater(s, Apply(cfg, s, a), tid);
    }
  }

  lemma FreshPrefix(cfg: Config, start: int, actions: seq<Action>)
    requires FreshRun(cfg, start, actions) && actions != []
    ensures FreshRun(cfg, start, actions[..|actions| - 1])
  {
    var before := actions[..|actions| - 1];
    forall i | 0 <= i < |before|
      ensures Fresh(Run(cfg, start, before[..i]), before[i])
    {
      assert before[..i] == actions[..i];
    }
  }

  lemma {:induction false} RunTells(cfg: Config, start: int, actions: seq<Action>, tid: string)
    requires FreshRun(cfg, start, actions)
    ensures Told(Run(cfg, start, actions), tid)
    decreases |actions|
  {
    if actions != [] {
      var before := actions[..|actions| - 1];
      FreshPrefix(cfg, start, actions);
      forall id ensures Told(Run(cfg, start, before), id) {
        RunTells(cfg, start, before, id);
      }
      RunKeeps(cfg, start, before);
      ApplyTells(cfg, Run(cfg, start, before), actions[|actions| - 1], tid);
    }
  }

  // While it is stored a rejected ticket shows REJECTED to every poll in time, and nobody can approve it.
  lemma RejectedStays(cfg: Config, start: int, actions: seq<Action>, tid: string, version: nat)
    requires FreshRun(cfg, start, actions) && Published(tid, REJECTED, version) in Run(cfg, start, actions).log
    ensures var s := Run(cfg, start, actions);
            var shown := Poll(cfg, s, tid).1;
            && (shown.Some? && s.now <= shown.value.expiresAt ==> shown.value.status == REJECTED && shown.value.version >= version)
            && (forall userId, verifier, actionOk, token, code, lag ::
                  Approve(cfg, s, tid, userId, verifier, actionOk, token, code, lag).1.Err?)
  {
    RunKeeps(cfg, start, actions);
    RunTells(cfg, start, actions, tid);
    var s := Run(cfg, start, actions);
    assert Holds(cfg, s, Published(tid, REJECTED, version));
  }

  // Whose grant the delivery exchange answers: the approver's, for the kind and the web session that the ticket
  // was created with, which is the session that the code was issued to.
  lemma DeliveryNamesApprover(cfg: Config, start: int, actions: seq<Action>, tid: string, code: string)
    requires FreshRun(cfg, start, actions)
    requires ExchangeDelivery(cfg, Run(cfg, start, actions), tid, code).1.Ok?
    ensures var s := Run(cfg, start, actions);
            var g, d := ExchangeDelivery(cfg, s, tid, code).1.value, FindDelivery(s.db, tid, s.now);
            && g.tid == tid
            && (exists at :: Approved(tid, g.userId, at) in s.log)
            && (exists challenge, expiresAt :: Created(tid, g.kind, g.webSessionId, challenge, expiresAt) in s.log)
            && d.Some? && d.value.deliveryCode == code && g.webSessionId == Some(d.value.webSessionId)
            && g.createdAt == s.now && g.expiresAt == s.now + 1000 * cfg.grantTtl
  {
    hide Run, FreshRun, Compatible;
    var s := Run(cfg, start, actions);
    RunKeeps(cfg, start, actions);
    RunTells(cfg, start, actions, tid);
    var t, d := FindTicket(s.db, tid, s.now).value, FindDelivery(s.db, tid, s.now).value;
    assert Explained(s, TicketKey(tid)) && Explained(s, DeliveryKey(tid));
    assert Vouched(s.log, tid, t);
    var created := Created(tid, t.kind, t.webSessionId, t.codeChallenge, t.expiresAt);
    CreatedFirst(cfg, s.log, created, Delivered(d));
  }

  lemma CreatedFirst(cfg: Config, log: seq<Event>, created: Event, e: Event)
    requires Ordered(cfg, log) && created in log && e in log && created.Created? && Names(e, created.tid) && e != created
    ensures Compatible(cfg, created, e)
  {
    EitherOrder(cfg, log, created, e);
  }

  // The grant itself is the approver's too, with the kind and the web session of the ticket.
  lemma GrantNamesApprover(cfg: Config, start: int, actions: seq<Action>, token: string)
    requires FreshRun(cfg, start, actions)
    requires ExchangeGrant(cfg, Run(cfg, start, actions), token).1.Ok?
    ensures var s := Run(cfg, start, actions);
            var g := ExchangeGrant(cfg, s, token).1.value;
            && Granted(token, g) in s.log && Approved(g.tid, g.userId, g.createdAt) in s.log
            && g.expiresAt == g.createdAt + 1000 * cfg.grantTtl
            && (exists challenge, expiresAt :: Created(g.tid, g.kind, g.webSessionId, challenge, expiresAt) in s.log)
  {
    hide Run, FreshRun, Compatible;
    var s := Run(cfg, start, actions);
    RunKeeps(cfg, start, actions);
    var g := ExchangeGrant(cfg, s, token).1.value;
    assert Explained(s, GrantKey(token)) && Explained(s, TicketKey(g.tid));
    assert Holds(cfg, s, Granted(token, g));
    var t := FindTicket(s.db, g.tid, s.now).value;
    var created := Created(g.tid, t.kind, t.webSessionId, t.codeChallenge, t.expiresAt);
    CreatedGrants(cfg, s.log, created, token, g);
  }

  lemma CreatedGrants(cfg: Config, log: seq<Event>, created: Event, token: string, g: Grant)
    requires Ordered(cfg, log) && created in log && Granted(token, g) in log && created.Created? && created.tid == g.tid
    ensures g.kind == created.kind && g.webSessionId == created.web
  {
    CreatedFirst(cfg, log, created, Granted(token, g));
  }

  // A live grant of a redeemed ticket: it was the delivery code that redeemed it.
  lemma RedeemedByCode(cfg: Config, s: State, token: string, e: Event)
    requires Inv(cfg, s) && FindGrant(s.db, token, s.now).Some?
    requires e in s.log && Redeems(e, FindGrant(s.db, token, s.now).value.tid)
    ensures e.DeliveryExchanged?
  {
    var g := FindGrant(s.db, token, s.now).value;
    assert Explained(s, GrantKey(token));
    assert Holds(cfg, s, e);
    if e.GrantExchanged? && Granted(token, g) != Granted(e.token, e.grant) {
      EitherOrder(cfg, s.log, Granted(token, g), Granted(e.token, e.grant));
    }
  }

  predicate CodeExchanged(log: seq<Event>, tid: string) {
    exists e :: e in log && e.DeliveryExchanged? && e.delivery.tid == tid
  }

  // An exchange of a grant redeems its approval a second time exactly when the delivery code was exchanged
  // before. While the ticket is in time that is exactly when its stored status is USED: the test that
  // exchangeGrant leaves out. The status tells it as long as it is not overwritten by EXPIRED, and that
  // happens past the deadline only.
  lemma SecondRedemptionIff(cfg: Config, start: int, actions: seq<Action>, token: string)
    requires FreshRun(cfg, start, actions)
    requires ExchangeGrant(cfg, Run(cfg, start, actions), token).1.Ok?
    ensures var s := Run(cfg, start, actions);
            var tid := FindGrant(s.db, token, s.now).value.tid;
            && Has(s.db, tid) && Of(s.db, tid).status in {APPROVED, USED, EXPIRED}
            && (Redeemed(s.log, tid) <==> CodeExchanged(s.log, tid))
            && (Of(s.db, tid).status != EXPIRED ==> (CodeExchanged(s.log, tid) <==> Of(s.db, tid).status == USED))
            && (s.now <= Of(s.db, tid).expiresAt ==> (CodeExchanged(s.log, tid) <==> Of(s.db, tid).status == USED))
  {
    hide Run, FreshRun, ExchangeGrant, Inv, Told, Redeemed, CodeExchanged, Closed;
    var s := Run(cfg, start, actions);
    GrantExchangeIgnoresStatus(cfg, s, token);
    RunKeeps(cfg, start, actions);
    RunTells(cfg, start, actions, FindGrant(s.db, token, s.now).value.tid);
    LiveGrantMeansClosedTicket(cfg, start, actions, token);
    StatusTells(cfg, s, token);
  }

  lemma CodeExchangedSpends(cfg: Config, s: State, tid: string)
    requires Inv(cfg, s) && CodeExchanged(s.log, tid)
    ensures Spent(s.db, tid) && Redeemed(s.log, tid)
  {
    var e :| e in s.log && e.DeliveryExchanged? && e.delivery.tid == tid;
    assert Redeems(e, tid) && Holds(cfg, s, e);
  }

  lemma StatusTells(cfg: Config, s: State, token: string)
    requires Inv(cfg, s) && FindGrant(s.db, token, s.now).Some?
    requires var tid := FindGrant(s.db, token, s.now).value.tid; Told(s, tid) && Closed(s.db, tid) && Has(s.db, tid)
    ensures var tid := FindGrant(s.db, token, s.now).value.tid;
            && Of(s.db, tid).status in {APPROVED, USED, EXPIRED}
            && (Redeemed(s.log, tid) <==> CodeExchanged(s.log, tid))
            && (Of(s.db, tid).status != EXPIRED ==> (CodeExchanged(s.log, tid) <==> Of(s.db, tid).status == USED))
            && (s.now <= Of(s.db, tid).expiresAt ==> (CodeExchanged(s.log, tid) <==> Of(s.db, tid).status == USED))
  {
    hide Inv, Holds;
    var tid := FindGrant(s.db, token, s.now).value.tid;
    if Redeemed(s.log, tid) {
      var e :| e in s.log && Redeems(e, tid);
      RedeemedByCode(cfg, s, token, e);
    }
    if CodeExchanged(s.log, tid) {
      CodeExchangedSpends(cfg, s, tid);
    }
  }

  // ----- Past the deadline -----

  // An approved ticket at the last moment of its time, its grant and its code good for a moment longer.
  ghost predicate AtTheBrink(cfg: Config, s: State, tid: string, token: string, code: string) {
    && IsValidTicketId(tid) && cfg.ticketTtl > 0
    && Redeemable(cfg, s, tid, token, code)
    && FindTicket(s.db, tid, s.now).value.expiresAt == s.now
    && FindTicket(s.db, tid, s.now + 1).Some?
    && FindGrant(s.db, token, s.now + 1).Some? && s.now < FindGrant(s.db, token, s.now).value.expiresAt
    && FindDelivery(s.db, tid, s.now + 1).Some? && s.now < FindDelivery(s.db, tid, s.now).value.expiresAt
  }

  function Lapsed(t: Ticket): Ticket { t.(status := EXPIRED, version := t.version + 1) }

  // The store when the ticket has lapsed and the code is gone.
  function LapsedDb(cfg: Config, s: State, tid: string, t: Ticket): Db {
    (s.db - {DeliveryKey(tid)})[TicketKey(tid) := Stored(TicketV(Lapsed(t)), cfg.ticketTtl, s.now + 1)]
  }

  // One way there: the code is exchanged in time, then the ticket is read too late.
  lemma ExchangedThenRead(cfg: Config, s: State, tid: string, token: string, code: string)
    requires AtTheBrink(cfg, s, tid, token, code)
    ensures var t, d := FindTicket(s.db, tid, s.now).value, FindDelivery(s.db, tid, s.now).value;
            var a := LoadChecked(cfg, Later(ExchangeDelivery(cfg, s, tid, code).0, 1), tid).0;
            && a.now == s.now + 1 && a.db == LapsedDb(cfg, s, tid, t)
            && a.log == s.log + [DeliveryExchanged(d, s.now), Published(tid, USED, t.version + 1)]
  {
    var t := FindTicket(s.db, tid, s.now).value;
    var used := ExchangeDelivery(cfg, s, tid, code).0;
    assert used.db == (s.db - {DeliveryKey(tid)})[TicketKey(tid) := Stored(TicketV(Used(t)), cfg.ticketTtl, s.now)];
    assert FindTicket(used.db, tid, s.now + 1) == Some(Used(t));
    assert LoadChecked(cfg, Later(used, 1), tid).0.db == LapsedDb(cfg, s, tid, t);
  }

  // The other: nobody exchanges in time, a poll expires the ticket, and the code is spent on a late attempt.
  lemma PolledThenTooLate(cfg: Config, s: State, tid: string, token: string, code: string)
    requires AtTheBrink(cfg, s, tid, token, code)
    ensures var t := FindTicket(s.db, tid, s.now).value;
            var polled := Poll(cfg, Later(s, 1), tid);
            var b := ExchangeDelivery(cfg, polled.0, tid, code).0;
            && polled.1.Some?
            && b.now == s.now + 1 && b.db == LapsedDb(cfg, s, tid, t)
            && b.log == s.log + [Polled(tid, polled.1.value)]
  {
    var t := FindTicket(s.db, tid, s.now).value;
    var polled := Poll(cfg, Later(s, 1), tid).0;
    assert polled.db == s.db[TicketKey(tid) := Stored(TicketV(Lapsed(t)), cfg.ticketTtl, s.now + 1)];
    assert FindDelivery(polled.db, tid, s.now + 1) == FindDelivery(s.db, tid, s.now);
    var gone := ConsumeDelivery(polled, tid, code).0;
    assert FindTicket(gone.db, tid, s.now + 1) == Some(Lapsed(t));
    assert ExchangeDelivery(cfg, polled, tid, code).0.db == LapsedDb(cfg, s, tid, t);
  }

  lemma CodeExchangedAfter(log: seq<Event>, more: seq<Event>, tid: string)
    ensures CodeExchanged(log + more, tid) <==> CodeExchanged(log, tid) || CodeExchanged(more, tid)
  {
    assert forall e :: e in log + more <==> e in log || e in more;
  }

  lemma BrinkSplits(cfg: Config, s: State, tid: string, token: string, code: string)
    requires AtTheBrink(cfg, s, tid, token, code) && !CodeExchanged(s.log, tid) && FindDelivery(s.db, tid, s.now).value.tid == tid
    ensures var a := LoadChecked(cfg, Later(ExchangeDelivery(cfg, s, tid, code).0, 1), tid).0;
            var b := ExchangeDelivery(cfg, Poll(cfg, Later(s, 1), tid).0, tid, code).0;
            && a.db == b.db && a.now == b.now
            && CodeExchanged(a.log, tid) && !CodeExchanged(b.log, tid)
            && ExchangeGrant(cfg, a, token).1.Ok? && ExchangeGrant(cfg, b, token).1.Ok?
  {
    ExchangedThenRead(cfg, s, tid, token, code);
    PolledThenTooLate(cfg, s, tid, token, code);
    var a := LoadChecked(cfg, Later(ExchangeDelivery(cfg, s, tid, code).0, 1), tid).0;
    var b := ExchangeDelivery(cfg, Poll(cfg, Later(s, 1), tid).0, tid, code).0;
    var exchanged := DeliveryExchanged(FindDelivery(s.db, tid, s.now).value, s.now);
    assert exchanged in a.log;
    CodeExchangedAfter(s.log, [Polled(tid, Poll(cfg, Later(s, 1), tid).1.value)], tid);
    GrantStays(cfg, s, tid, token, code, a);
    GrantStays(cfg, s, tid, token, code, b);
  }

  lemma GrantStays(cfg: Config, s: State, tid: string, token: string, code: string, later: State)
    requires AtTheBrink(cfg, s, tid, token, code) && later.now == s.now + 1
    requires later.db == LapsedDb(cfg, s, tid, FindTicket(s.db, tid, s.now).value)
    ensures ExchangeGrant(cfg, later, token).1.Ok?
  {
    assert FindGrant(later.db, token, later.now) == FindGrant(s.db, token, s.now);
    assert FindTicket(later.db, tid, later.now).Some?;
    GrantExchangeIgnoresStatus(cfg, later, token);
  }

  lemma OneMoreAction(cfg: Config, start: int, actions: seq<Action>, a: Action)
    ensures Run(cfg, start, actions + [a]) == Apply(cfg, Run(cfg, start, actions), a)
    ensures FreshRun(cfg, start, actions) && Fresh(Run(cfg, start, actions), a) ==> FreshRun(cfg, start, actions + [a])
  {
    var more := actions + [a];
    assert more[..|more| - 1] == actions;
    if FreshRun(cfg, start, actions) && Fresh(Run(cfg, start, actions), a) {
      forall i | 0 <= i < |more|
        ensures Fresh(Run(cfg, start, more[..i]), more[i])
      {
        assert i < |actions| ==> more[..i] == actions[..i];
      }
    }
  }

  // A ticket approved at the last moment of its time.
  function LateApproval(cfg: Config, tid: string, verifier: string, session: string): seq<Action>
    requires cfg.ticketTtl > 0
  {
    [DoCreate(tid, "LOGIN", verifier, Some(session)), Tick(1000 * cfg.ticketTtl)] +
    [DoApprove(tid, "user", verifier, true, "token", "code", 0)]
  }

  lemma LateApprovalState(cfg: Config, start: int, tid: string, verifier: string, session: string)
    requires IsValidTicketId(tid) && session != "" && cfg.ticketTtl > 0 && cfg.grantTtl > 0
    ensures var s := Run(cfg, start, LateApproval(cfg, tid, verifier, session));
            AtTheBrink(cfg, s, tid, "token", "code") && !CodeExchanged(s.log, tid) && FindDelivery(s.db, tid, s.now).value.tid == tid
    ensures FreshRun(cfg, start, LateApproval(cfg, tid, verifier, session))
  {
    hide AtTheBrink, CodeExchanged, Create, Approve, IsValidTicketId;
    var create, wait := DoCreate(tid, "LOGIN", verifier, Some(session)), Tick(1000 * cfg.ticketTtl);
    var approve := DoApprove(tid, "user", verifier, true, "token", "code", 0);
    var empty := State(start, map[], []);
    assert Run(cfg, start, []) == empty;
    OneMoreAction(cfg, start, [], create);
    assert [] + [create] == [create] && [create] + [wait] == [create, wait];
    OneMoreAction(cfg, start, [create], wait);
    OneMoreAction(cfg, start, [create, wait], approve);
    CreatedLog(cfg, empty, tid, verifier, session);
    ApprovedLate(cfg, empty, tid, verifier, session);
  }

  lemma CreatedLog(cfg: Config, s: State, tid: string, verifier: string, session: string)
    requires s.log == []
    ensures forall e :: e in Create(cfg, s, tid, "LOGIN", verifier, Some(session)).log ==> e.Created?
  {
  }

  // The store of a late approval.
  lemma BrinkStore(cfg: Config, s: State, tid: string, t: Ticket, token: string, code: string, was: Db)
    requires IsValidTicketId(tid) && cfg.ticketTtl > 0 && cfg.grantTtl > 0
    requires t.status == APPROVED && t.expiresAt == s.now && HasSession(t)
    requires s.db == was[TicketKey(tid) := Stored(TicketV(t), cfg.ticketTtl, s.now)]
                        [GrantKey(token) := Stored(GrantV(GrantFor(cfg, t, tid, "user", s.now)), cfg.grantTtl, s.now)]
                        [DeliveryKey(tid) := Stored(DeliveryV(DeliveryFor(cfg, t, tid, code, s.now)), cfg.grantTtl, s.now)]
    ensures AtTheBrink(cfg, s, tid, token, code) && FindDelivery(s.db, tid, s.now).value.tid == tid
  {
    hide IsValidTicketId;
    assert s.db[TicketKey(tid)] == Stored(TicketV(t), cfg.ticketTtl, s.now);
    assert FindTicket(s.db, tid, s.now) == Some(t) && FindTicket(s.db, tid, s.now + 1) == Some(t);
  }

  lemma ApprovedLate(cfg: Config, s: State, tid: string, verifier: string, session: string)
    requires IsValidTicketId(tid) && session != "" && cfg.ticketTtl > 0 && cfg.grantTtl > 0 && s.log == []
    ensures var waited := Later(Create(cfg, s, tid, "LOGIN", verifier, Some(session)), 1000 * cfg.ticketTtl);
            var late := Approve(cfg, waited, tid, "user", verifier, true, "token", "code", 0).0;
            && AtTheBrink(cfg, late, tid, "token", "code")
            && !CodeExchanged(late.log, tid) && FindDelivery(late.db, tid, late.now).value.tid == tid
  {
    hide Create, ApproveOpen, LoadChecked, ApprovalEvents, IsValidTicketId, AtTheBrink;
    var waited := Later(Create(cfg, s, tid, "LOGIN", verifier, Some(session)), 1000 * cfg.ticketTtl);
    FreshTicket(cfg, s, tid, verifier, session, 1000 * cfg.ticketTtl);
    CreatedNow(cfg, s, tid, verifier, session);
    var t := FindTicket(waited.db, tid, waited.now).value;
    var t' := ApprovedTicket(t, "user", waited.now);
    ApprovedDb(cfg, waited, tid, t, "user", verifier, "token", "code");
    var late := Approve(cfg, waited, tid, "user", verifier, true, "token", "code", 0).0;
    assert late == ApproveOpen(cfg, waited, tid, t, "user", verifier, true, "token", "code").0;
    BrinkStore(cfg, late, tid, t', "token", "code", waited.db);
    ApprovalIssues(cfg, t', tid, "user", verifier, "token", "code", waited.now);
    CreatedLog(cfg, s, tid, verifier, session);
  }

  lemma CreatedNow(cfg: Config, s: State, tid: string, verifier: string, session: string)
    ensures Create(cfg, s, tid, "LOGIN", verifier, Some(session)).now == s.now
  {
  }

  lemma OnceRun(cfg: Config, start: int, before: seq<Action>, tid: string)
    requires FreshRun(cfg, start, before)
    ensures var once := before + [Tick(1)] + [DoPoll(tid)] + [DoExchangeDelivery(tid, "code")];
            && FreshRun(cfg, start, once)
            && Run(cfg, start, once) == ExchangeDelivery(cfg, Poll(cfg, Later(Run(cfg, start, before), 1), tid).0, tid, "code").0
  {
    hide FreshRun, Run, ExchangeDelivery, Poll;
    OneMoreAction(cfg, start, before, Tick(1));
    OneMoreAction(cfg, start, before + [Tick(1)], DoPoll(tid));
    OneMoreAction(cfg, start, before + [Tick(1)] + [DoPoll(tid)], DoExchangeDelivery(tid, "code"));
  }

  lemma TwiceRun(cfg: Config, start: int, before: seq<Action>, tid: string)
    requires FreshRun(cfg, start, before)
    ensures var twice := before + [DoExchangeDelivery(tid, "code")] + [Tick(1)] + [DoGet(tid)];
            && FreshRun(cfg, start, twice)
            && Run(cfg, start, twice) == LoadChecked(cfg, Later(ExchangeDelivery(cfg, Run(cfg, start, before), tid, "code").0, 1), tid).0
  {
    hide FreshRun, Run, ExchangeDelivery, LoadChecked;
    OneMoreAction(cfg, start, before, DoExchangeDelivery(tid, "code"));
    OneMoreAction(cfg, start, before + [DoExchangeDelivery(tid, "code")], Tick(1));
    OneMoreAction(cfg, start, before + [DoExchangeDelivery(tid, "code")] + [Tick(1)], DoGet(tid));
  }

  // Past the deadline no test of the store could tell: two runs end in the same store at the same moment, and
  // the same exchange of the grant is the first redemption after one and the second after the other. The approver
  // presents the verifier that createTicket drew and did not hand out.
  lemma ExpiryForgets(cfg: Config, start: int, tid: string, verifier: string, session: string)
    requires IsValidTicketId(tid) && session != "" && cfg.ticketTtl > 0 && cfg.grantTtl > 0
    ensures var before := LateApproval(cfg, tid, verifier, session);
            var once := before + [Tick(1)] + [DoPoll(tid)] + [DoExchangeDelivery(tid, "code")];
            var twice := before + [DoExchangeDelivery(tid, "code")] + [Tick(1)] + [DoGet(tid)];
            var a, b := Run(cfg, start, twice), Run(cfg, start, once);
            && FreshRun(cfg, start, once) && FreshRun(cfg, start, twice)
            && a.db == b.db && a.now == b.now
            && ExchangeGrant(cfg, a, "token").1.Ok? && ExchangeGrant(cfg, b, "token").1.Ok?
            && CodeExchanged(a.log, tid) && !CodeExchanged(b.log, tid)
  {
    hide AtTheBrink, CodeExchanged, FreshRun, Run, Apply, LoadChecked, ExchangeDelivery, Poll, ExchangeGrant;
    var before := LateApproval(cfg, tid, verifier, session);
    LateApprovalState(cfg, start, tid, verifier, session);
    OnceRun(cfg, start, before, tid);
    TwiceRun(cfg, start, before, tid);
    BrinkSplits(cfg, Run(cfg, start, before), tid, "token", "code");
  }
}
