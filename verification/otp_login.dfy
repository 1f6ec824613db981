// OTP login: RedisOtpStore and the two handlers of AuthService as steps over the store, and what a whole run
// of requests and verifications can do. One clock (milliseconds) for the service and for Redis.
module OtpLogin {
  import opened Wrappers
  import opened CacheStore

  const OTP_TTL_SECONDS := 300
  const MAX_ATTEMPTS := 5

  datatype OtpData = OtpData(code: string, expiresAt: int, attempts: int, maxAttempts: int, isUsed: bool)

  datatype State = State(now: int, db: map<string, Entry<OtpData>>)

  // `known` says whether findByEmail has an account for the email; `lag` is the time between the two expiry
  // tests of verifyOtp, the store's and its own.
  datatype Action =
    | RequestOtp(email: string, code: string, known: bool)
    | VerifyOtp(email: string, code: string, known: bool, lag: nat)
    | Advance(ms: nat)

  // MaxAttempts(true) is the answer to the wrong code that used up the last attempt.
  datatype Answer =
    | Sent
    | NotFound
    | AlreadyUsed
    | Expired
    | MaxAttempts(compared: bool)
    | UpdateFailed
    | InvalidCode(remaining: int, expiresInSec: int)
    | Accepted(user: bool)
    | Nothing

  predicate Wrong(a: Answer) { a.InvalidCode? || a == MaxAttempts(true) }

  // ----- RedisOtpStore -----

  function Store(s: State, key: string, data: OtpData): State {
    s.(db := s.db[key := Stored(data, OTP_TTL_SECONDS, s.now)])
  }

  function Remove(s: State, key: string): State { s.(db := s.db - {key}) }

  // An OTP past its own deadline is deleted by the read that finds it.
  function Get(s: State, key: string): (State, Option<OtpData>) {
    var data := Lookup(s.db, key, s.now);
    if data.None? then (s, None)
    else if s.now > data.value.expiresAt then (Remove(s, key), None)
    else (s, data)
  }

  // The script writes with a plain SET: the key loses its TTL.
  function IncrementAttempts(s: State, key: string): (State, Option<OtpData>) {
    var data := Lookup(s.db, key, s.now);
    if data.None? then (s, None)
    else
      var more := data.value.(attempts := data.value.attempts + 1);
      (s.(db := s.db[key := Entry(more, None)]), Some(more))
  }

  function MarkAsUsed(s: State, key: string): (State, bool) {
    if Lookup(s.db, key, s.now).None? then (s, false) else (Remove(s, key), true)
  }

  // ----- AuthService -----

  function Request(s: State, key: string, code: string, known: bool): State {
    if known then Store(s, key, OtpData(code, s.now + OTP_TTL_SECONDS * 1000, 0, MAX_ATTEMPTS, false)) else s
  }

  function Max0(x: int): int { if x < 0 then 0 else x }

  function Refuse(s: State, key: string): (State, Answer) {
    var (t, updated) := IncrementAttempts(s, key);
    if updated.None? then (t, UpdateFailed)
    else
      var remaining := updated.value.maxAttempts - updated.value.attempts;
      if remaining <= 0 then (Remove(t, key), MaxAttempts(true))
      else (t, InvalidCode(remaining, Max0((updated.value.expiresAt - t.now) / 1000)))
  }

  function Later(s: State, ms: nat): State { s.(now := s.now + ms) }

  function Verify(s: State, key: string, code: string, known: bool, lag: nat): (State, Answer) {
    var (read, data) := Get(s, key);
    var t := Later(read, lag);
    if data.None? then (t, NotFound)
    else if data.value.isUsed then (t, AlreadyUsed)
    else if t.now > data.value.expiresAt then (Remove(t, key), Expired)
    else if data.value.attempts >= data.value.maxAttempts then (Remove(t, key), MaxAttempts(false))
    else if data.value.code != code then Refuse(t, key)
    else (MarkAsUsed(t, key).0, Accepted(known))
  }

  function Apply(lower: string -> string, s: State, a: Action): (State, Answer) {
    match a
    case RequestOtp(email, code, known) => (Request(s, lower(email), code, known), Sent)
    case VerifyOtp(email, code, known, lag) => Verify(s, lower(email), code, known, lag)
    case Advance(ms) => (Later(s, ms), Nothing)
  }

  function Run(lower: string -> string, s: State, actions: seq<Action>): State {
    if actions == [] then s
    else Apply(lower, Run(lower, s, actions[..|actions| - 1]), actions[|actions| - 1]).0
  }

  // The answer to action i of a run.
  function AnswerAt(lower: string -> string, s: State, actions: seq<Action>, i: nat): Answer
    requires i < |actions|
  {
    Apply(lower, Run(lower, s, actions[..i]), actions[i]).1
  }

  // ----- One issued code -----

  predicate About(lower: string -> string, a: Action, key: string) { a.VerifyOtp? && lower(a.email) == key }

  // No new code for this key.
  predicate SameCode(lower: string -> string, actions: seq<Action>, key: string) {
    forall i :: 0 <= i < |actions| && actions[i].RequestOtp? && actions[i].known ==> lower(actions[i].email) != key
  }

  // Wrong and accepted comparisons with this key's code among the answers of a run.
  function WrongCount(lower: string -> string, s: State, actions: seq<Action>, key: string): nat {
    if actions == [] then 0 else
      var n := |actions| - 1;
      WrongCount(lower, s, actions[..n], key) +
      (if About(lower, actions[n], key) && Wrong(Apply(lower, Run(lower, s, actions[..n]), actions[n]).1) then 1 else 0)
  }

  function AcceptedCount(lower: string -> string, s: State, actions: seq<Action>, key: string): nat {
    if actions == [] then 0 else
      var n := |actions| - 1;
      AcceptedCount(lower, s, actions[..n], key) +
      (if About(lower, actions[n], key) && Apply(lower, Run(lower, s, actions[..n]), actions[n]).1.Accepted? then 1 else 0)
  }

  // What a code is worth, told without the store: it was issued with deadline `expiresAt`, `wrong` codes were
  // compared with it since, and `accepted` times it was accepted.
  function Verdict(now: int, lag: nat, expiresAt: int, wrong: nat, accepted: nat, right: bool, known: bool): Answer {
    if now > expiresAt || accepted > 0 || wrong >= 5 then NotFound
    else if now + lag > expiresAt then Expired
    else if right then Accepted(known)
    else if wrong + 1 == 5 then MaxAttempts(true)
    else InvalidCode(5 - wrong - 1, (expiresAt - now - lag) / 1000)
  }

  // The stored data agree with the counts, as long as the code can still be accepted.
  ghost predicate Tracks(s: State, key: string, code: string, expiresAt: int, wrong: nat, accepted: nat) {
    && wrong <= MAX_ATTEMPTS && accepted <= 1
    && (key in s.db ==>
          && accepted == 0 && wrong < MAX_ATTEMPTS
          && s.db[key].value == OtpData(code, expiresAt, wrong, MAX_ATTEMPTS, false)
          && (s.db[key].expireAt == None || s.db[key].expireAt == Some(expiresAt)))
    && (s.now <= expiresAt && accepted == 0 && wrong < MAX_ATTEMPTS ==> key in s.db)
  }

  lemma RequestTracks(s: State, key: string, code: string)
    ensures Tracks(Request(s, key, code, true), key, code, s.now + OTP_TTL_SECONDS * 1000, 0, 0)
  {
  }

  lemma VerifyTracks(s: State, key: string, issued: string, expiresAt: int, wrong: nat, accepted: nat, code: string, known: bool, lag: nat)
    requires Tracks(s, key, issued, expiresAt, wrong, accepted)
    ensures var (t, answer) := Verify(s, key, code, known, lag);
            && answer == Verdict(s.now, lag, expiresAt, wrong, accepted, code == issued, known)
            && Tracks(t, key, issued, expiresAt, wrong + (if Wrong(answer) then 1 else 0), accepted + (if answer.Accepted? then 1 else 0))
  {
  }

  lemma OtherKeyTracks(lower: string -> string, s: State, key: string, issued: string, expiresAt: int, wrong: nat, accepted: nat, a: Action)
    requires Tracks(s, key, issued, expiresAt, wrong, accepted)
    requires !About(lower, a, key) && (a.RequestOtp? && a.known ==> lower(a.email) != key)
    ensures Tracks(Apply(lower, s, a).0, key, issued, expiresAt, wrong, accepted)
  {
  }

  lemma {:induction false} RunTracks(lower: string -> string, s: State, actions: seq<Action>, key: string, issued: string, expiresAt: int)
    requires Tracks(s, key, issued, expiresAt, 0, 0) && SameCode(lower, actions, key)
    ensures Tracks(Run(lower, s, actions), key, issued, expiresAt,
                   WrongCount(lower, s, actions, key), AcceptedCount(lower, s, actions, key))
    decreases |actions|
  {
    if actions != [] {
      var n := |actions| - 1;
      RunTracks(lower, s, actions[..n], key, issued, expiresAt);
      var t, w, a := Run(lower, s, actions[..n]), WrongCount(lower, s, actions[..n], key), AcceptedCount(lower, s, actions[..n], key);
      if About(lower, actions[n], key) {
        VerifyTracks(t, key, issued, expiresAt, w, a, actions[n].code, actions[n].known, actions[n].lag);
      } else {
        OtherKeyTracks(lower, t, key, issued, expiresAt, w, a, actions[n]);
      }
    }
  }

  // The life of one code, from any state of the store: after a request, and until the next one for the same
  // account, at most five wrong codes are compared with it and it is accepted at most once.
  lemma OneCodeBounds(lower: string -> string, s: State, email: string, code: string, actions: seq<Action>)
    requires SameCode(lower, actions, lower(email))
    ensures var t := Apply(lower, s, RequestOtp(email, code, true)).0;
            && WrongCount(lower, t, actions, lower(email)) <= 5
            && AcceptedCount(lower, t, actions, lower(email)) <= 1
  {
    RequestTracks(s, lower(email), code);
    RunTracks(lower, Apply(lower, s, RequestOtp(email, code, true)).0, actions, lower(email), code, s.now + OTP_TTL_SECONDS * 1000);
  }

  // And every verification on the way answers as the counts say: a code is accepted exactly when it is the
  // issued one, within five minutes, not accepted before and with an attempt left, though the stored key loses its
  // TTL.
  lemma AnswersAreVerdicts(lower: string -> string, s: State, email: string, code: string, actions: seq<Action>, i: nat)
    requires SameCode(lower, actions, lower(email)) && i < |actions| && About(lower, actions[i], lower(email))
    ensures var t := Apply(lower, s, RequestOtp(email, code, true)).0;
            AnswerAt(lower, t, actions, i) ==
              Verdict(Run(lower, t, actions[..i]).now, actions[i].lag, s.now + 5 * 60 * 1000, WrongCount(lower, t, actions[..i], lower(email)),
                      AcceptedCount(lower, t, actions[..i], lower(email)), actions[i].code == code, actions[i].known)
  {
    var key, t, deadline := lower(email), Apply(lower, s, RequestOtp(email, code, true)).0, s.now + OTP_TTL_SECONDS * 1000;
    RequestTracks(s, key, code);
    RunTracks(lower, t, actions[..i], key, code, deadline);
    VerifyTracks(Run(lower, t, actions[..i]), key, code, deadline, WrongCount(lower, t, actions[..i], key),
                 AcceptedCount(lower, t, actions[..i], key), actions[i].code, actions[i].known, actions[i].lag);
  }

  // Without a request no code of an account is ever compared.
  lemma {:induction false} NothingBeforeRequest(lower: string -> string, s: State, actions: seq<Action>, key: string)
    requires key !in s.db && SameCode(lower, actions, key)
    ensures key !in Run(lower, s, actions).db
    ensures WrongCount(lower, s, actions, key) == 0 && AcceptedCount(lower, s, actions, key) == 0
    decreases |actions|
  {
    if actions != [] {
      NothingBeforeRequest(lower, s, actions[..|actions| - 1], key);
    }
  }
}
