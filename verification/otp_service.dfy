// RedisOtpStore and the OTP handlers of AuthService over CacheService: each method is proved to be the step
// of OtpLogin with the same name.
module OtpService {
  import opened Wrappers
  import opened CacheStore
  import opened OtpLogin

  class RedisOtpStore {
    const cacheService: CacheService<string, OtpData>

    constructor (cacheService: CacheService<string, OtpData>)
      ensures this.cacheService == cacheService
    {
      this.cacheService := cacheService;
    }

    ghost function View(): State
      reads cacheService
    {
      State(cacheService.now, cacheService.db)
    }

    method Set(key: string, data: OtpData)
      modifies cacheService`db
      ensures View() == Store(old(View()), key, data)
    {
      var ok := cacheService.Set(key, data, OTP_TTL_SECONDS);
    }

    method Get(key: string) returns (data: Option<OtpData>)
      modifies cacheService`db
      ensures (View(), data) == OtpLogin.Get(old(View()), key)
    {
      data := cacheService.Get(key);
      if data.None? { return None; }
      if cacheService.now > data.value.expiresAt {
        Delete(key);
        return None;
      }
    }

    method Delete(key: string)
      modifies cacheService`db
      ensures View() == Remove(old(View()), key)
    {
      cacheService.Delete(key);
    }

    method IncrementAttempts(key: string) returns (updated: Option<OtpData>)
      modifies cacheService`db
      ensures (View(), updated) == OtpLogin.IncrementAttempts(old(View()), key)
    {
      var data := cacheService.Get(key);
      if data.None? { return None; }
      var otpData := data.value.(attempts := data.value.attempts + 1);
      var ok := cacheService.Set(key, otpData, -1);
      updated := Some(otpData);
    }

    method MarkAsUsed(key: string) returns (success: bool)
      modifies cacheService`db
      ensures (View(), success) == OtpLogin.MarkAsUsed(old(View()), key)
    {
      var data := cacheService.Get(key);
      if data.None? { return false; }
      cacheService.Delete(key);
      success := true;
    }
  }

  class AuthService {
    const otpStore: RedisOtpStore
    const lower: string -> string

    constructor (otpStore: RedisOtpStore, lower: string -> string)
      ensures this.otpStore == otpStore && this.lower == lower
    {
      this.otpStore := otpStore;
      this.lower := lower;
    }

    method RequestOtp(email: string, code: string, known: bool)
      modifies otpStore.cacheService`db
      ensures otpStore.View() == Apply(lower, old(otpStore.View()), OtpLogin.RequestOtp(email, code, known)).0
    {
      if known {
        var now := otpStore.cacheService.now;
        otpStore.Set(lower(email), OtpData(code, now + OTP_TTL_SECONDS * 1000, 0, MAX_ATTEMPTS, false));
      }
    }

    method VerifyOtp(email: string, code: string, known: bool, lag: nat) returns (answer: Answer)
      modifies otpStore.cacheService
      ensures (otpStore.View(), answer) == Apply(lower, old(otpStore.View()), OtpLogin.VerifyOtp(email, code, known, lag))
    {
      var storeKey := lower(email);
      var found := otpStore.Get(storeKey);
      otpStore.cacheService.Advance(lag);
      if found.None? { return NotFound; }
      var otpData := found.value;
      if otpData.isUsed { return AlreadyUsed; }
      if otpStore.cacheService.now > otpData.expiresAt {
        otpStore.Delete(storeKey);
        return Expired;
      }
      if otpData.attempts >= otpData.maxAttempts {
        otpStore.Delete(storeKey);
        return MaxAttempts(false);
      }
      if otpData.code != code {
        var updated := otpStore.IncrementAttempts(storeKey);
        if updated.None? { return UpdateFailed; }
        var remaining := updated.value.maxAttempts - updated.value.attempts;
        if remaining <= 0 {
          otpStore.Delete(storeKey);
          return MaxAttempts(true);
        }
        return InvalidCode(remaining, Max0((updated.value.expiresAt - otpStore.cacheService.now) / 1000));
      }
      var marked := otpStore.MarkAsUsed(storeKey);
      answer := Accepted(known);
    }
  }
}
