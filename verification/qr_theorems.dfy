// The promises of the QR protocol, over every run from an empty store with fresh ids and tokens.
module QrTheorems {
  import opened Wrappers
  import opened CacheStore
  import opened QrProtocol
  import opened QrInvariants

  lemma {:induction false} RunKeeps(cfg: Config, start: int, actions: seq<Action>)
    requires FreshRun(cfg, start, actions)
    ensures Inv(cfg, Run(cfg, start, actions))
  {
    if actions != [] {
      var n := |actions| - 1;
      forall i | 0 <= i < n ensures Fresh(Run(cfg, start, actions[..n][..i]), actions[..n][i]) {
        assert actions[..n][..i] == actions[..i];
        assert Fresh(Run(cfg, start, actions[..i]), actions[i]);
      }
      RunKeeps(cfg, start, actions[..n]);
      ApplyKeeps(cfg, Run(cfg, start, actions[..n]), actions[n]);
    }
  }

  // A ticket is approved at most once, so it has at most one grant and one delivery code, and each is
  // exchanged at most once; once the grant is exchanged the delivery code never is.
  lemma OneApprovalOneRedemptionEach(cfg: Config, start: int, actions: seq<Action>, i: nat, j: nat)
    requires FreshRun(cfg, start, actions)
    requires i < j < |Run(cfg, start, actions).log|
    ensures var e, f := Run(cfg, start, actions).log[i], Run(cfg, start, actions).log[j];
            && (e.Approved? && f.Approved? ==> e.tid != f.tid)
            && (e.Granted? && f.Granted? ==> e.grant.tid != f.grant.tid)
            && (e.Delivered? && f.Delivered? ==> e.delivery.tid != f.delivery.tid)
            && (e.GrantExchanged? && f.GrantExchanged? ==> e.grant.tid != f.grant.tid && e.token != f.token)
            && (e.DeliveryExchanged? && f.DeliveryExchanged? ==> e.delivery.tid != f.delivery.tid)
            && (e.GrantExchanged? && f.DeliveryExchanged? ==> e.grant.tid != f.delivery.tid)
  {
    RunKeeps(cfg, start, actions);
    assert Compatible(cfg, Run(cfg, start, actions).log[i], Run(cfg, start, actions).log[j]);
  }

  // Every exchange goes back to an issued grant or code, that to an approval, and all of them are in time:
  // the Redis TTL is renewed by every write, the ticket's own deadline is not.
  lemma ExchangesAreInTime(cfg: Config, start: int, actions: seq<Action>, created: Event, e: Event)
    requires FreshRun(cfg, start, actions)
    requires e in Run(cfg, start, actions).log && created in Run(cfg, start, actions).log && created.Created?
    requires e.GrantExchanged? ==> created.tid == e.grant.tid
    requires e.DeliveryExchanged? ==> created.tid == e.delivery.tid
    ensures var log := Run(cfg, start, actions).log;
            && (e.GrantExchanged? ==>
                  && Granted(e.token, e.grant) in log
                  && Approved(e.grant.tid, e.grant.userId, e.grant.createdAt) in log
                  && e.at <= created.expiresAt + 1000 * cfg.grantTtl)
            && (e.DeliveryExchanged? ==>
                  && Delivered(e.delivery) in log
                  && (exists userId :: Approved(e.delivery.tid, userId, e.delivery.createdAt) in log)
                  && e.at <= created.expiresAt)
  {
    RunKeeps(cfg, start, actions);
    var s := Run(cfg, start, actions);
    assert Holds(cfg, s, e);
    if e.GrantExchanged? {
      assert Holds(cfg, s, Granted(e.token, e.grant));
      EitherOrder(cfg, s.log, created, e);
    }
    if e.DeliveryExchanged? {
      assert Holds(cfg, s, Delivered(e.delivery));
      EitherOrder(cfg, s.log, created, e);
    }
  }

  // A rejection is final: no approval, grant or delivery code of the ticket comes after it, nor before it.
  lemma RejectionIsFinal(cfg: Config, start: int, actions: seq<Action>, e: Event, f: Event)
    requires FreshRun(cfg, start, actions)
    requires e in Run(cfg, start, actions).log && f in Run(cfg, start, actions).log && Rejects(e) && Approves(f)
    ensures !Names(f, e.tid)
  {
    RunKeeps(cfg, start, actions);
    EitherOrder(cfg, Run(cfg, start, actions).log, e, f);
  }

  // A stored grant or delivery code belongs to a ticket that is APPROVED, USED or EXPIRED, if still stored.
  lemma LiveGrantMeansClosedTicket(cfg: Config, start: int, actions: seq<Action>, token: string)
    requires FreshRun(cfg, start, actions)
    ensures var s := Run(cfg, start, actions);
            var g := FindGrant(s.db, token, s.now);
            g.Some? ==> Closed(s.db, g.value.tid)
  {
    RunKeeps(cfg, start, actions);
    var s := Run(cfg, start, actions);
    var g := FindGrant(s.db, token, s.now);
    if g.Some? {
      assert Explained(s, GrantKey(token));
      assert Holds(cfg, s, Granted(token, g.value));
    }
  }

  lemma LiveCodeMeansClosedTicket(cfg: Config, start: int, actions: seq<Action>, tid: string)
    requires FreshRun(cfg, start, actions)
    ensures var s := Run(cfg, start, actions);
            FindDelivery(s.db, tid, s.now).Some? ==> Closed(s.db, tid)
  {
    RunKeeps(cfg, start, actions);
    var s := Run(cfg, start, actions);
    var d := FindDelivery(s.db, tid, s.now);
    if d.Some? {
      assert Explained(s, DeliveryKey(tid));
      assert Holds(cfg, s, Delivered(d.value));
    }
  }

  // PKCE: an approval goes through only with a verifier of the challenge the ticket was created with, in its lifetime.
  lemma ApprovalNeedsVerifier(cfg: Config, start: int, actions: seq<Action>, tid: string, userId: string, verifier: string,
                              actionOk: bool, token: string, code: string, lag: nat, created: Event)
    requires FreshRun(cfg, start, actions) && created.Created? && created.tid == tid
    requires var s := Run(cfg, start, actions);
             created in s.log && Approve(cfg, s, tid, userId, verifier, actionOk, token, code, lag).1.Ok?
    ensures cfg.challengeOf(verifier) == created.challenge && Run(cfg, start, actions).now + lag <= created.expiresAt
  {
    RunKeeps(cfg, start, actions);
    var s := Run(cfg, start, actions);
    assert Holds(cfg, s, created);
    LoadKeeps(cfg, s, tid);
  }

  // ETag soundness: two snapshots of one ticket with one version show one status and the same times.
  lemma EqualVersionsShowTheSame(cfg: Config, start: int, actions: seq<Action>, tid: string, a: Snapshot, b: Snapshot)
    requires FreshRun(cfg, start, actions)
    requires Polled(tid, a) in Run(cfg, start, actions).log && Polled(tid, b) in Run(cfg, start, actions).log
    ensures a.version == b.version ==> SameShown(a, b)
  {
    RunKeeps(cfg, start, actions);
    if a != b {
      EitherOrder(cfg, Run(cfg, start, actions).log, Polled(tid, a), Polled(tid, b));
    }
  }

  // The ticket of one id before and after a step: it never goes back.
  ghost predicate Forward(db: Db, db': Db, tid: string) {
    Has(db, tid) && Has(db', tid) ==>
      && Of(db, tid).version <= Of(db', tid).version
      && Of(db, tid).expiresAt == Of(db', tid).expiresAt
      && (Of(db, tid).status in {APPROVED, USED, EXPIRED} ==> Of(db', tid).status in {APPROVED, USED, EXPIRED})
  }

  lemma ForwardTwice(a: Db, b: Db, c: Db, tid: string)
    requires Forward(a, b, tid) && Forward(b, c, tid) && (Has(a, tid) && Has(c, tid) ==> Has(b, tid))
    ensures Forward(a, c, tid)
  {
  }

  lemma PutForward(cfg: Config, s: State, id: string, t: Ticket, tid: string)
    requires Has(s.db, id) ==>
               && Of(s.db, id).version <= t.version && Of(s.db, id).expiresAt == t.expiresAt
               && (Of(s.db, id).status in {APPROVED, USED, EXPIRED} ==> t.status in {APPROVED, USED, EXPIRED})
    ensures Forward(s.db, PutTicket(cfg, s, id, t).db, tid) && Has(PutTicket(cfg, s, id, t).db, id)
    ensures Has(s.db, tid) ==> Has(PutTicket(cfg, s, id, t).db, tid)
  {
  }

  lemma LoadForward(cfg: Config, s: State, id: string, tid: string)
    ensures var (s1, r) := LoadChecked(cfg, s, id);
            && Forward(s.db, s1.db, tid) && s1.now == s.now
            && (Has(s.db, tid) ==> Has(s1.db, tid))
            && (r.Ok? ==> Has(s1.db, id) && Of(s1.db, id) == r.value)
  {
    var found := FindTicket(s.db, id, s.now);
    if found.Some? && s.now > found.value.expiresAt {
      PutForward(cfg, s, id, found.value.(status := EXPIRED), tid);
    }
  }

  // Tickets that are not written stay.
  lemma SameForward(db: Db, db': Db, tid: string)
    requires TicketKey(tid) in db' ==> TicketKey(tid) in db && db'[TicketKey(tid)] == db[TicketKey(tid)]
    ensures Forward(db, db', tid)
  {
  }

  lemma ScanForward(cfg: Config, s: State, id: string, userId: string, lag: nat, tid: string)
    ensures Forward(s.db, Scan(cfg, s, id, userId, lag).0.db, tid)
  {
    LoadForward(cfg, s, id, tid);
    ScanShape(cfg, s, id, userId, lag);
    hide Forward, LoadChecked, Scan;
    var (s1, r) := LoadChecked(cfg, s, id);
    if r.Ok? && r.value.status == PENDING {
      var s2 := Later(s1, lag);
      var t := if s2.now > r.value.expiresAt then r.value.(status := EXPIRED) else ScannedTicket(r.value, userId, s2.now);
      PutForward(cfg, s2, id, t, tid);
      ForwardTwice(s.db, s2.db, PutTicket(cfg, s2, id, t).db, tid);
    }
  }

  lemma ApproveOpenForward(cfg: Config, s: State, id: string, t: Ticket, userId: string, verifier: string, actionOk: bool, token: string,
                           code: string, tid: string)
    requires Has(s.db, id) && Of(s.db, id) == t && t.status in {PENDING, SCANNED}
    ensures Forward(s.db, ApproveOpen(cfg, s, id, t, userId, verifier, actionOk, token, code).0.db, tid)
  {
    if cfg.challengeOf(verifier) == t.codeChallenge {
      var t' := ApprovedTicket(t, userId, s.now);
      ApproveShape(cfg, s, id, t, userId, verifier, token, code);
      PutForward(cfg, s, id, t', tid);
      PutForward(cfg, s, id, t'.(status := PENDING), tid);
      var s1 := Logged(PutTicket(cfg, s, id, t'), ApprovalEvents(cfg, t', id, userId, verifier, token, code, s.now));
      hide ApproveOpen, ApprovalEvents;
      SameForward(s1.db, Issued(cfg, s1, id, t', userId, token, code).db, tid);
      hide Forward;
      ForwardTwice(s.db, s1.db, Issued(cfg, s1, id, t', userId, token, code).db, tid);
    }
  }

  lemma ApproveForward(cfg: Config, s: State, id: string, userId: string, verifier: string, actionOk: bool, token: string,
                       code: string, lag: nat, tid: string)
    ensures Forward(s.db, Approve(cfg, s, id, userId, verifier, actionOk, token, code, lag).0.db, tid)
  {
    LoadForward(cfg, s, id, tid);
    hide LoadChecked, ApproveOpen, Forward;
    var (s1, r) := LoadChecked(cfg, s, id);
    if r.Ok? && r.value.status in {PENDING, SCANNED} {
      var s2 := Later(s1, lag);
      ApproveOpenForward(cfg, s2, id, r.value, userId, verifier, actionOk, token, code, tid);
      PutForward(cfg, s2, id, r.value.(status := EXPIRED), tid);
      var after := Approve(cfg, s, id, userId, verifier, actionOk, token, code, lag).0;
      ForwardTwice(s.db, s2.db, after.db, tid);
    }
  }

  lemma RejectForward(cfg: Config, s: State, id: string, userId: string, tid: string)
    ensures Forward(s.db, Reject(cfg, s, id, userId).0.db, tid)
  {
    LoadForward(cfg, s, id, tid);
    hide LoadChecked, Forward;
    var (s1, r) := LoadChecked(cfg, s, id);
    if r.Ok? && r.value.status in {PENDING, SCANNED} {
      var t := r.value.(status := REJECTED, version := r.value.version + 1);
      PutForward(cfg, s1, id, t, tid);
      ForwardTwice(s.db, s1.db, PutTicket(cfg, s1, id, t).db, tid);
    }
  }

  lemma ExchangeGrantForward(cfg: Config, s: State, token: string, tid: string)
    ensures Forward(s.db, ExchangeGrant(cfg, s, token).0.db, tid)
  {
    var found := FindGrant(s.db, token, s.now);
    if found.Some? && s.now <= found.value.expiresAt {
      var id := found.value.tid;
      LoadForward(cfg, s, id, tid);
      var (s1, r) := LoadChecked(cfg, s, id);
      if r.Ok? {
        var s2 := PutTicket(cfg, s1, id, Used(r.value));
        PutForward(cfg, s1, id, Used(r.value), tid);
        SameForward(s2.db, s2.db - {GrantKey(token)}, tid);
      }
    }
  }

  lemma ExchangeDeliveryForward(cfg: Config, s: State, id: string, code: string, tid: string)
    ensures Forward(s.db, ExchangeDelivery(cfg, s, id, code).0.db, tid)
  {
    var (s1, consumed) := ConsumeDelivery(s, id, code);
    SameForward(s.db, s1.db, tid);
    if consumed.Some? {
      LoadForward(cfg, s1, id, tid);
      var (s2, r) := LoadChecked(cfg, s1, id);
      if r.Ok? && r.value.status == APPROVED {
        PutForward(cfg, s2, id, Used(r.value), tid);
      }
    }
  }

  lemma PollForward(cfg: Config, s: State, id: string, tid: string)
    ensures Forward(s.db, Poll(cfg, s, id).0.db, tid)
  {
    if FindTicket(s.db, id, s.now).Some? {
      PollShape(cfg, s, id);
      PutForward(cfg, s, id, Shown(Of(s.db, id), s.now), tid);
    }
  }

  lemma ApplyForward(cfg: Config, s: State, a: Action, tid: string)
    requires a.DoCreate? ==> !Has(s.db, a.tid)
    ensures Forward(s.db, Apply(cfg, s, a).db, tid)
  {
    match a {
      case Tick(_) => SameForward(s.db, s.db, tid);
      case DoCreate(id, kind, verifier, web) => SameOrNew(cfg, s, a, tid);
      case DoGet(id) => LoadForward(cfg, s, id, tid);
      case DoScan(id, userId, lag) => ScanForward(cfg, s, id, userId, lag, tid);
      case DoApprove(id, userId, verifier, actionOk, token, code, lag) =>
        ApproveForward(cfg, s, id, userId, verifier, actionOk, token, code, lag, tid);
      case DoReject(id, userId) => RejectForward(cfg, s, id, userId, tid);
      case DoExchangeGrant(token) => ExchangeGrantForward(cfg, s, token, tid);
      case DoExchangeDelivery(id, code) => ExchangeDeliveryForward(cfg, s, id, code, tid);
      case DoPoll(id) => PollForward(cfg, s, id, tid);
      case DoTryGetDelivery(id, web) => SameForward(s.db, TryGetDelivery(s, id, web).0.db, tid);
      case DoCleanup => SameForward(s.db, Cleanup(s).db, tid);
    }
  }

  lemma SameOrNew(cfg: Config, s: State, a: Action, tid: string)
    requires a.DoCreate? && !Has(s.db, a.tid)
    ensures Forward(s.db, Apply(cfg, s, a).db, tid)
  {
    if tid != a.tid {
      SameForward(s.db, Apply(cfg, s, a).db, tid);
    }
  }

  // A stored ticket's version never falls, and a status that can no longer be approved stays so.
  lemma VersionsNeverFall(cfg: Config, start: int, actions: seq<Action>, a: Action, tid: string)
    requires FreshRun(cfg, start, actions) && Fresh(Run(cfg, start, actions), a)
    ensures Forward(Run(cfg, start, actions).db, Apply(cfg, Run(cfg, start, actions), a).db, tid)
  {
    RunKeeps(cfg, start, actions);
    var s := Run(cfg, start, actions);
    if a.DoCreate? {
      assert TicketKey(a.tid) in s.db ==> Explained(s, TicketKey(a.tid));
    }
    ApplyForward(cfg, s, a, tid);
  }

  // Long poll: published versions strictly increase, and a poll after a publication answers at least its version.
  // So a waiter woken by a version above its own gets an answer above its own.
  lemma WokenPollIsNewer(cfg: Config, start: int, actions: seq<Action>, tid: string, status: Status, version: nat, since: int)
    requires FreshRun(cfg, start, actions)
    requires Published(tid, status, version) in Run(cfg, start, actions).log && version > since
    ensures var answer := Poll(cfg, Run(cfg, start, actions), tid).1;
            answer.Some? ==> answer.value.version > since
  {
    RunKeeps(cfg, start, actions);
    assert Holds(cfg, Run(cfg, start, actions), Published(tid, status, version));
  }

  lemma PublishedVersionsIncrease(cfg: Config, start: int, actions: seq<Action>, i: nat, j: nat)
    requires FreshRun(cfg, start, actions)
    requires i < j < |Run(cfg, start, actions).log|
    ensures var e, f := Run(cfg, start, actions).log[i], Run(cfg, start, actions).log[j];
            e.Published? && f.Published? && e.tid == f.tid ==> e.version < f.version
  {
    RunKeeps(cfg, start, actions);
    assert Compatible(cfg, Run(cfg, start, actions).log[i], Run(cfg, start, actions).log[j]);
  }

  // What does not hold: exchangeGrant looks at no status. It succeeds exactly when the grant is live and the
  // ticket is stored, so one approval can be redeemed twice, first by the delivery code and then by the grant.
  lemma GrantExchangeIgnoresStatus(cfg: Config, s: State, token: string)
    ensures var g := FindGrant(s.db, token, s.now);
            ExchangeGrant(cfg, s, token).1.Ok? <==>
              && g.Some? && s.now <= g.value.expiresAt
              && IsValidTicketId(g.value.tid) && FindTicket(s.db, g.value.tid, s.now).Some?
  {
  }

  ghost predicate Redeemable(cfg: Config, s: State, tid: string, token: string, code: string) {
    var t, g, d := FindTicket(s.db, tid, s.now), FindGrant(s.db, token, s.now), FindDelivery(s.db, tid, s.now);
    && t.Some? && t.value.status == APPROVED && s.now <= t.value.expiresAt
    && g.Some? && g.value.tid == tid && s.now <= g.value.expiresAt
    && d.Some? && d.value.deliveryCode == code && s.now <= d.value.expiresAt
  }

  // What a successful approval of a ticket with a web session leaves in the store and adds to the log.
  lemma ApprovedDb(cfg: Config, s: State, tid: string, t: Ticket, userId: string, verifier: string, token: string, code: string)
    requires cfg.challengeOf(verifier) == t.codeChallenge && HasSession(t)
    ensures var late, t' := ApproveOpen(cfg, s, tid, t, userId, verifier, true, token, code).0, ApprovedTicket(t, userId, s.now);
            && late.now == s.now
            && late.db == s.db[TicketKey(tid) := Stored(TicketV(t'), cfg.ticketTtl, s.now)]
                              [GrantKey(token) := Stored(GrantV(GrantFor(cfg, t', tid, userId, s.now)), cfg.grantTtl, s.now)]
                              [DeliveryKey(tid) := Stored(DeliveryV(DeliveryFor(cfg, t', tid, code, s.now)), cfg.grantTtl, s.now)]
            && late.log == s.log + ApprovalEvents(cfg, t', tid, userId, verifier, token, code, s.now)
  {
    ApproveShape(cfg, s, tid, t, userId, verifier, token, code);
  }

  lemma FreshTicket(cfg: Config, s: State, tid: string, verifier: string, session: string, ms: nat)
    requires IsValidTicketId(tid) && cfg.ticketTtl > 0 && ms <= 1000 * cfg.ticketTtl
    ensures var waited := Later(Create(cfg, s, tid, "LOGIN", verifier, Some(session)), ms);
            var t := Ticket(tid, "LOGIN", PENDING, cfg.challengeOf(verifier), Some(session), s.now, s.now + 1000 * cfg.ticketTtl,
                            None, None, None, None, 1);
            && FindTicket(waited.db, tid, waited.now) == Some(t)
            && LoadChecked(cfg, waited, tid) == (waited, Ok(t))
            && Later(waited, 0) == waited
  {
  }

  lemma ApprovalMakesRedeemable(cfg: Config, s: State, tid: string, verifier: string, session: string, token: string, code: string)
    requires IsValidTicketId(tid) && session != "" && cfg.ticketTtl > 0 && cfg.grantTtl > 0
    ensures var created := Create(cfg, s, tid, "LOGIN", verifier, Some(session));
            Redeemable(cfg, Approve(cfg, created, tid, "user", verifier, true, token, code, 0).0, tid, token, code)
  {
    var created := Create(cfg, s, tid, "LOGIN", verifier, Some(session));
    FreshTicket(cfg, s, tid, verifier, session, 0);
    assert Later(created, 0) == created;
    var t := FindTicket(created.db, tid, created.now).value;
    ApprovedDb(cfg, created, tid, t, "user", verifier, token, code);
    hide Create, ApproveOpen, LoadChecked;
    assert Approve(cfg, created, tid, "user", verifier, true, token, code, 0) ==
           ApproveOpen(cfg, created, tid, t, "user", verifier, true, token, code);
  }

  lemma RedeemedTwice(cfg: Config, s: State, tid: string, token: string, code: string)
    requires IsValidTicketId(tid) && cfg.ticketTtl > 0 && Redeemable(cfg, s, tid, token, code)
    ensures var (s1, first) := ExchangeDelivery(cfg, s, tid, code);
            first.Ok? && ExchangeGrant(cfg, s1, token).1.Ok?
  {
    var s1 := ExchangeDelivery(cfg, s, tid, code).0;
    assert FindGrant(s1.db, token, s1.now) == FindGrant(s.db, token, s.now);
    assert FindTicket(s1.db, tid, s1.now).Some?;
    GrantExchangeIgnoresStatus(cfg, s1, token);
  }

  // One approval, redeemed twice. As in every run that gets a ticket approved, the approver presents a verifier of
  // the ticket's challenge; createTicket draws one and hands out the challenge only, so that this one has to come
  // from elsewhere.
  lemma GrantAfterDelivery(cfg: Config, start: int, tid: string, verifier: string, session: string)
    requires IsValidTicketId(tid) && session != "" && cfg.ticketTtl > 0 && cfg.grantTtl > 0
    ensures var run := [DoCreate(tid, "LOGIN", verifier, Some(session)), DoApprove(tid, "user", verifier, true, "token", "code", 0)];
            && FreshRun(cfg, start, run)
            && var (s, first) := ExchangeDelivery(cfg, Run(cfg, start, run), tid, "code");
               first.Ok? && ExchangeGrant(cfg, s, "token").1.Ok?
  {
    var create, approve := DoCreate(tid, "LOGIN", verifier, Some(session)), DoApprove(tid, "user", verifier, true, "token", "code", 0);
    var run := [create, approve];
    assert run[..1] == [create] && run[..1][..0] == run[..0] == [];
    assert Run(cfg, start, run[..1]) == Apply(cfg, Run(cfg, start, []), create);
    assert Run(cfg, start, run) == Apply(cfg, Run(cfg, start, run[..1]), approve);
    ApprovalMakesRedeemable(cfg, Run(cfg, start, []), tid, verifier, session, "token", "code");
    RedeemedTwice(cfg, Run(cfg, start, run), tid, "token", "code");
  }
}
