// The poll endpoints of QrController: ETags, If-None-Match, short and long polling.
module QrController {
  import opened Wrappers
  import opened QrProtocol
  import opened QrInvariants
  import opened QrTheorems
  import opened QrLifecycle
  import Service = QrService

  function Decimal(n: nat): (s: string)
    ensures |s| > 0 && forall i :: 0 <= i < |s| ==> '0' <= s[i] <= '9'
  {
    (if n < 10 then [] else Decimal(n / 10)) + [('0' as int + n % 10) as char]
  }

  // Number() of a run of digits, without the rounding JavaScript applies past 2^53.
  function NumberOf(s: string): nat
    requires forall i :: 0 <= i < |s| ==> '0' <= s[i] <= '9'
  {
    if s == [] then 0 else 10 * NumberOf(s[..|s| - 1]) + (s[|s| - 1] as int - '0' as int)
  }

  lemma {:induction false} DecimalReadsBack(n: nat)
    ensures NumberOf(Decimal(n)) == n
  {
    var s := Decimal(n);
    if n >= 10 {
      DecimalReadsBack(n / 10);
      assert s[..|s| - 1] == Decimal(n / 10);
    } else {
      assert s[..|s| - 1] == [];
    }
  }

  function MakeEtag(tid: string, version: nat): string {
    "W/\"" + tid + ":" + Decimal(version) + "\""
  }

  function FirstColon(s: string): (c: nat)
    ensures c <= |s|
    ensures forall i :: 0 <= i < c ==> s[i] != ':'
    ensures c < |s| ==> s[c] == ':'
  {
    if s == [] || s[0] == ':' then 0 else 1 + FirstColon(s[1..])
  }

  predicate AllDigits(s: string) {
    forall i :: 0 <= i < |s| ==> '0' <= s[i] <= '9'
  }

  // ([^:"]+):(\d+) between the quotes.
  function ParseBody(body: string): Option<(string, nat)> {
    var c := FirstColon(body);
    if c == |body| then None
    else
      var tid, digits := body[..c], body[c + 1..];
      if tid == "" || '"' in tid || digits == "" || !AllDigits(digits) then None else Some((tid, NumberOf(digits)))
  }

  // The regular expression ^W\/"([^:"]+):(\d+)"$ on headers of at most 1000 characters.
  function ParseIfNoneMatch(header: Option<string>): Option<(string, nat)> {
    if header.None? || header.value == "" || |header.value| > 1000 then None
    else
      var h := header.value;
      if |h| < 4 || h[..3] != "W/\"" || h[|h| - 1] != '"' then None else ParseBody(h[3..|h| - 1])
  }

  lemma FirstColonFound(front: string, back: string)
    requires ':' !in front
    ensures FirstColon(front + ":" + back) == |front|
  {
    var s := front + ":" + back;
    assert s[|front|] == ':';
    assert forall i :: 0 <= i < |front| ==> s[i] == front[i];
  }

  lemma BodyReadsBack(tid: string, digits: string)
    requires tid != "" && ':' !in tid && '"' !in tid
    requires digits != "" && AllDigits(digits)
    ensures ParseBody(tid + ":" + digits) == Some((tid, NumberOf(digits)))
  {
    var body := tid + ":" + digits;
    FirstColonFound(tid, digits);
    assert body[..|tid|] == tid && body[|tid| + 1..] == digits;
  }

  lemma QuotedReadsBack(body: string)
    requires |body| <= 996
    ensures ParseIfNoneMatch(Some("W/\"" + body + "\"")) == ParseBody(body)
  {
    var h := "W/\"" + body + "\"";
    assert h[..3] == "W/\"" && h[3..|h| - 1] == body;
  }

  lemma ValidIdIsClean(tid: string)
    requires IsValidTicketId(tid)
    ensures tid != "" && ':' !in tid && '"' !in tid
  {
    forall i | 0 <= i < |tid| ensures tid[i] != ':' && tid[i] != '"' {
      assert IsUrlSafe(tid[i]);
    }
  }

  lemma EtagParses(tid: string, digits: string)
    requires |tid| + |digits| <= 995
    ensures ParseIfNoneMatch(Some("W/\"" + tid + ":" + digits + "\"")) == ParseBody(tid + ":" + digits)
  {
    QuotedReadsBack(tid + ":" + digits);
    assert "W/\"" + (tid + ":" + digits) + "\"" == "W/\"" + tid + ":" + digits + "\"";
  }

  // An ETag handed out for a well-formed ticket id reads back as that id and version.
  lemma EtagReadsBack(tid: string, version: nat)
    requires IsValidTicketId(tid) && |MakeEtag(tid, version)| <= 1000
    ensures ParseIfNoneMatch(Some(MakeEtag(tid, version))) == Some((tid, version))
  {
    var digits := Decimal(version);
    ValidIdIsClean(tid);
    BodyReadsBack(tid, digits);
    EtagParses(tid, digits);
    DecimalReadsBack(version);
  }

  lemma EtagsDiffer(tid: string, a: nat, b: nat)
    requires MakeEtag(tid, a) == MakeEtag(tid, b)
    ensures a == b
  {
    var front, x, y := "W/\"" + tid + ":", Decimal(a), Decimal(b);
    assert MakeEtag(tid, a)[|front|..|MakeEtag(tid, a)| - 1] == x;
    assert MakeEtag(tid, b)[|front|..|MakeEtag(tid, b)| - 1] == y;
    DecimalReadsBack(a);
    DecimalReadsBack(b);
  }

  datatype Answer =
    | BadRequest
    | NotModified
    | Body(etag: string, snapshot: Snapshot, deliveryCode: Option<string>)

  // 304 is honest: whoever holds the ETag of an earlier answer and gets NotModified misses no change of
  // status, scannedAt or approvedAt.
  lemma NotModifiedIsHonest(cfg: Config, start: int, actions: seq<Action>, tid: string, earlier: Snapshot)
    requires FreshRun(cfg, start, actions)
    requires Polled(tid, earlier) in Run(cfg, start, actions).log
    ensures var now := Poll(cfg, Run(cfg, start, actions), tid).1;
            now.Some? && MakeEtag(tid, now.value.version) == MakeEtag(tid, earlier.version) ==>
              SameShown(earlier, now.value)
  {
    var s := Run(cfg, start, actions);
    var now := Poll(cfg, s, tid).1;
    if now.Some? && MakeEtag(tid, now.value.version) == MakeEtag(tid, earlier.version) {
      EtagsDiffer(tid, now.value.version, earlier.version);
      RunKeeps(cfg, start, actions);
      assert Holds(cfg, s, Polled(tid, earlier));
      PollFitsPast(cfg, s, tid, Polled(tid, earlier));
    }
  }

  datatype Outcome = CHANGED | TIMEOUT

  // What can reach a waiter: its timer, a failure, a message whose version may be missing or unreadable, or the
  // end of its own clean-up.
  datatype Signal = Timer | Failure | Message(channel: string, version: Option<nat>) | CleanedUp

  predicate Wakes(signal: Signal, channel: string, since: int) {
    signal.Message? && signal.channel == channel && signal.version.Some? && signal.version.value > since
  }

  predicate Ends(signal: Signal, channel: string, since: int) {
    signal.Timer? || signal.Failure? || Wakes(signal, channel, since)
  }

  predicate Settles(signal: Signal, channel: string, since: int) {
    signal.CleanedUp? || signal.Failure? || Wakes(signal, channel, since)
  }

  // Signal i is the first that ends the wait.
  predicate FirstEnd(signals: seq<Signal>, channel: string, since: int, i: nat) {
    i < |signals| && Ends(signals[i], channel, since) && forall k :: 0 <= k < i ==> !Ends(signals[k], channel, since)
  }

  predicate TimedOut(signals: seq<Signal>, channel: string, since: int, i: nat) {
    FirstEnd(signals, channel, since, i) && signals[i].Timer?
  }

  // Signal i ends the wait and starts the clean-up; signal j is the first after it that settles the answer.
  predicate Settled(signals: seq<Signal>, channel: string, since: int, i: nat, j: nat) {
    && FirstEnd(signals, channel, since, i) && !signals[i].Timer?
    && i < j < |signals| && Settles(signals[j], channel, since) && forall k :: i < k < j ==> !Settles(signals[k], channel, since)
  }

  // The signal that the answer goes by.
  function Deciding(signals: seq<Signal>, i: nat, j: nat): Signal
    requires i < |signals| && j < |signals|
  {
    if signals[j].CleanedUp? then signals[i] else signals[j]
  }

  lemma OneSettled(signals: seq<Signal>, channel: string, since: int, i: nat, j: nat)
    requires Settled(signals, channel, since, i, j)
    ensures forall x, y :: Settled(signals, channel, since, x, y) ==> x == i && y == j
    ensures forall x: nat :: !TimedOut(signals, channel, since, x)
  {
  }

  lemma NoneSettled(signals: seq<Signal>, channel: string, since: int, i: nat)
    requires TimedOut(signals, channel, since, i)
    ensures forall x, y :: !Settled(signals, channel, since, x, y)
  {
  }

  // A timer answers TIMEOUT at once. A failure or a newer version only starts the clean-up, and the answer is
  // decided by what comes next: its end, another newer version, which answers CHANGED even if a failure came
  // first, or another failure, which answers TIMEOUT even if a newer version came first.
  method WaitForChangeOrTimeout(channel: string, sinceVersion: int, signals: seq<Signal>) returns (outcome: Option<Outcome>)
    ensures outcome == Some(CHANGED) <==>
            exists i, j :: Settled(signals, channel, sinceVersion, i, j) && Wakes(Deciding(signals, i, j), channel, sinceVersion)
    ensures outcome == Some(TIMEOUT) <==>
            || (exists i: nat :: TimedOut(signals, channel, sinceVersion, i))
            || (exists i, j :: Settled(signals, channel, sinceVersion, i, j) && Deciding(signals, i, j).Failure?)
  {
    var cleaning: Option<Outcome> := None;
    outcome := None;
    ghost var first: nat := 0;
    var i := 0;
    while i < |signals| && outcome.None?
      invariant 0 <= i <= |signals|
      invariant outcome.None? && cleaning.None? ==> forall k :: 0 <= k < i ==> !Ends(signals[k], channel, sinceVersion)
      invariant cleaning.Some? ==> first < i && FirstEnd(signals, channel, sinceVersion, first) && !signals[first].Timer?
      invariant cleaning.Some? ==> cleaning.value == if Wakes(signals[first], channel, sinceVersion) then CHANGED else TIMEOUT
      invariant cleaning.Some? && outcome.None? ==> forall k :: first < k < i ==> !Settles(signals[k], channel, sinceVersion)
      invariant cleaning.None? && outcome.Some? ==>
                  0 < i && TimedOut(signals, channel, sinceVersion, i - 1) && outcome == Some(TIMEOUT)
      invariant cleaning.Some? && outcome.Some? ==>
                  && Settled(signals, channel, sinceVersion, first, i - 1)
                  && outcome.value == if Wakes(Deciding(signals, first, i - 1), channel, sinceVersion) then CHANGED else TIMEOUT
    {
      match signals[i] {
        case Timer =>
          if cleaning.None? {
            outcome := Some(TIMEOUT);
          }
        case Failure =>
          if cleaning.None? {
            first := i;
            cleaning := Some(TIMEOUT);
          } else {
            outcome := Some(TIMEOUT);
          }
        case Message(received, version) =>
          if received == channel && version.Some? && version.value > sinceVersion {
            if cleaning.None? {
              first := i;
              cleaning := Some(CHANGED);
            } else {
              outcome := Some(CHANGED);
            }
          }
        case CleanedUp =>
          outcome := cleaning;
      }
      i := i + 1;
    }
    if cleaning.Some? && outcome.Some? {
      OneSettled(signals, channel, sinceVersion, first, i - 1);
    } else if outcome.Some? {
      NoneSettled(signals, channel, sinceVersion, i - 1);
    }
  }

  // A waiter hears only what was published. Woken, its answer is newer than the version it asked about.
  lemma LongPollAdvances(cfg: Config, start: int, actions: seq<Action>, tid: string, channel: string, since: int,
                         signals: seq<Signal>, i: nat)
    requires FreshRun(cfg, start, actions)
    requires i < |signals| && Wakes(signals[i], channel, since)
    requires forall k :: 0 <= k < |signals| && signals[k].Message? && signals[k].channel == channel && signals[k].version.Some? ==>
               exists status :: Published(tid, status, signals[k].version.value) in Run(cfg, start, actions).log
    ensures var answer := Poll(cfg, Run(cfg, start, actions), tid).1;
            answer.Some? ==> answer.value.version > since
  {
    var status :| Published(tid, status, signals[i].version.value) in Run(cfg, start, actions).log;
    WokenPollIsNewer(cfg, start, actions, tid, status, signals[i].version.value, since);
  }

  datatype LongPoll = Answered(answer: Answer) | MustWait(since: nat)

  // The delivery code that an answer carries: with an APPROVED snapshot, to the code's own web session, in time.
  function OfferedCode(s: State, tid: string, snapshot: Snapshot, web: string): Option<string> {
    var d := FindDelivery(s.db, tid, s.now);
    if snapshot.status == APPROVED && d.Some? && s.now <= d.value.expiresAt && d.value.webSessionId == web && d.value.deliveryCode != ""
    then Some(d.value.deliveryCode)
    else None
  }

  // Looking for the code of an approved ticket drops one that is past its time.
  function AfterOffer(s: State, tid: string, snapshot: Snapshot): State {
    var d := FindDelivery(s.db, tid, s.now);
    if snapshot.status == APPROVED && d.Some? && s.now > d.value.expiresAt then s.(db := s.db - {DeliveryKey(tid)}) else s
  }

  function ResponseTo(s: State, tid: string, snapshot: Snapshot, web: string): Answer {
    Body(MakeEtag(tid, snapshot.version), snapshot, OfferedCode(s, tid, snapshot, web))
  }

  // In any run a code goes out only to the web session that the ticket was created for, and only after an
  // approval; during the code's TTL it does go out to it.
  lemma OfferedToCreator(cfg: Config, start: int, actions: seq<Action>, tid: string, snapshot: Snapshot, web: string)
    requires FreshRun(cfg, start, actions) && OfferedCode(Run(cfg, start, actions), tid, snapshot, web).Some?
    ensures var s := Run(cfg, start, actions);
            && (exists userId, at :: Approved(tid, userId, at) in s.log)
            && (forall created :: created in s.log && created.Created? && created.tid == tid ==> created.web == Some(web))
  {
    hide Run, FreshRun;
    var s := Run(cfg, start, actions);
    RunKeeps(cfg, start, actions);
    var d := FindDelivery(s.db, tid, s.now).value;
    assert Explained(s, DeliveryKey(tid)) && Holds(cfg, s, Delivered(d));
    forall created | created in s.log && created.Created? && created.tid == tid
      ensures created.web == Some(web)
    {
      EitherOrder(cfg, s.log, created, Delivered(d));
    }
  }

  lemma ApprovedThenResponse(cfg: Config, s: State, tid: string, userId: string, verifier: string, token: string, code: string, ms: nat, web: string)
    requires cfg.ticketTtl > 0 && cfg.grantTtl > 0 && Approve(cfg, s, tid, userId, verifier, true, token, code, 0).1.Ok?
    requires HasSession(FindTicket(s.db, tid, s.now).value) && code != ""
    requires s.now + ms <= FindTicket(s.db, tid, s.now).value.expiresAt && ms <= 1000 * cfg.ticketTtl
    ensures var t, b := FindTicket(s.db, tid, s.now).value, Later(Approve(cfg, s, tid, userId, verifier, true, token, code, 0).0, ms);
            var shown := Snapshot(APPROVED, t.expiresAt, t.version + 1, t.scannedAt, Some(s.now), None, None, t.webSessionId);
            && Poll(cfg, b, tid).1 == Some(shown)
            && ResponseTo(Poll(cfg, b, tid).0, tid, shown, web) ==
               Body(MakeEtag(tid, t.version + 1), shown, if ms <= 1000 * cfg.grantTtl && t.webSessionId == Some(web) then Some(code) else None)
  {
    hide Approve;
    ApprovalStores(cfg, s, tid, userId, verifier, token, code, 0);
  }

  // Answering a poll drops a code that is past its time and nothing else, so no exchange can tell.
  lemma OfferLeaves(s: State, tid: string, snapshot: Snapshot, k: Key)
    ensures var t := AfterOffer(s, tid, snapshot);
            && t.now == s.now && t.log == s.log && (k in t.db ==> k in s.db && t.db[k] == s.db[k])
            && (k in s.db && k !in t.db <==>
                  && k == DeliveryKey(tid) && snapshot.status == APPROVED
                  && FindDelivery(s.db, tid, s.now).Some? && s.now > FindDelivery(s.db, tid, s.now).value.expiresAt)
  {
  }

  lemma OfferUnnoticed(cfg: Config, s: State, tid: string, snapshot: Snapshot, code: string, token: string, web: string)
    ensures var t := AfterOffer(s, tid, snapshot);
            && ExchangeDelivery(cfg, t, tid, code).1 == ExchangeDelivery(cfg, s, tid, code).1
            && ExchangeGrant(cfg, t, token).1 == ExchangeGrant(cfg, s, token).1
            && Poll(cfg, t, tid).1 == Poll(cfg, s, tid).1
            && OfferedCode(t, tid, snapshot, web) == OfferedCode(s, tid, snapshot, web)
  {
  }

  // The version a long poll asks about.
  function Since(ifNoneMatch: Option<string>): nat {
    var parsed := ParseIfNoneMatch(ifNoneMatch);
    if parsed.Some? then parsed.value.1 else 0
  }

  // Asked with the ETag of an earlier answer, a long poll waits for a newer version than that answer's; without
  // one, for any.
  lemma SinceEtag(tid: string, version: nat)
    requires IsValidTicketId(tid) && |MakeEtag(tid, version)| <= 1000
    ensures Since(Some(MakeEtag(tid, version))) == version && Since(None) == 0
  {
    EtagReadsBack(tid, version);
  }

  class QrController {
    const polling: Service.QrPollingService

    constructor (polling: Service.QrPollingService)
      requires polling.cfg.ticketTtl > 0
      ensures this.polling == polling
    {
      this.polling := polling;
    }

    method BuildPollResponse(ticketId: string, snapshot: Snapshot, webSessionId: string) returns (answer: Answer)
      modifies polling.cache`db
      ensures answer == ResponseTo(old(polling.View()), ticketId, snapshot, webSessionId)
      ensures polling.View() == AfterOffer(old(polling.View()), ticketId, snapshot)
    {
      var etag := MakeEtag(ticketId, snapshot.version);
      var deliveryCode: Option<string> := None;
      var grantReady := false;
      if snapshot.status == APPROVED {
        deliveryCode := polling.TryGetDeliveryCode(ticketId, webSessionId);
        grantReady := deliveryCode.Some? && deliveryCode.value != "";
      }
      answer := Body(etag, snapshot, if grantReady then deliveryCode else None);
    }

    // 400 without a web session or a ticket, 304 for the ETag of the ticket as it is now, else the ticket.
    method PollTicket(ticketId: string, webSessionId: string, ifNoneMatch: Option<string>) returns (answer: Answer)
      requires polling.cfg.ticketTtl > 0
      modifies polling.cache`db, polling`log
      ensures webSessionId == "" ==> answer == BadRequest && polling.View() == old(polling.View())
      ensures webSessionId != "" ==>
                var (s, shown) := Poll(polling.cfg, old(polling.View()), ticketId);
                if shown.None? then answer == BadRequest && polling.View() == s
                else if ifNoneMatch == Some(MakeEtag(ticketId, shown.value.version)) then answer == NotModified && polling.View() == s
                else
                  answer == ResponseTo(s, ticketId, shown.value, webSessionId) && polling.View() == AfterOffer(s, ticketId, shown.value)
    {
      if webSessionId == "" {
        return BadRequest;
      }
      var snapshot := polling.ReadTicketSnapshot(ticketId);
      if snapshot.None? {
        return BadRequest;
      }
      if ifNoneMatch == Some(MakeEtag(ticketId, snapshot.value.version)) {
        return NotModified;
      }
      answer := BuildPollResponse(ticketId, snapshot.value, webSessionId);
    }

    // The first half of longPollTicket: answer at once when the version has moved on, else wait.
    method LongPollStart(ticketId: string, webSessionId: string, ifNoneMatch: Option<string>) returns (r: LongPoll)
      requires polling.cfg.ticketTtl > 0
      modifies polling.cache`db, polling`log
      ensures webSessionId == "" ==> r == Answered(BadRequest) && polling.View() == old(polling.View())
      ensures webSessionId != "" ==>
                var (s, shown) := Poll(polling.cfg, old(polling.View()), ticketId);
                if shown.None? then r == Answered(BadRequest) && polling.View() == s
                else if shown.value.version <= Since(ifNoneMatch) then r == MustWait(Since(ifNoneMatch)) && polling.View() == s
                else
                  && r == Answered(ResponseTo(s, ticketId, shown.value, webSessionId))
                  && polling.View() == AfterOffer(s, ticketId, shown.value)
    {
      if webSessionId == "" {
        return Answered(BadRequest);
      }
      var parsed := ParseIfNoneMatch(ifNoneMatch);
      var sinceVersion := if parsed.Some? then parsed.value.1 else 0;
      var snapshot := polling.ReadTicketSnapshot(ticketId);
      if snapshot.None? {
        return Answered(BadRequest);
      }
      if snapshot.value.version <= sinceVersion {
        return MustWait(sinceVersion);
      }
      var answer := BuildPollResponse(ticketId, snapshot.value, webSessionId);
      r := Answered(answer);
    }

    // The second half, after the wait, whatever its outcome.
    method LongPollFinish(ticketId: string, webSessionId: string) returns (answer: Answer)
      requires polling.cfg.ticketTtl > 0
      modifies polling.cache`db, polling`log
      ensures var (s, shown) := Poll(polling.cfg, old(polling.View()), ticketId);
              if shown.None? then answer == BadRequest && polling.View() == s
              else answer == ResponseTo(s, ticketId, shown.value, webSessionId) && polling.View() == AfterOffer(s, ticketId, shown.value)
    {
      var snapshot := polling.ReadTicketSnapshot(ticketId);
      if snapshot.None? {
        return BadRequest;
      }
      answer := BuildPollResponse(ticketId, snapshot.value, webSessionId);
    }
  }
}
