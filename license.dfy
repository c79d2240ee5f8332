/**
 * `activateLicense` of `functions/index.js`: the licence key is normalised,
 * the licence record is looked up and checked, and a one-time licence is
 * consumed or a reusable one has its activation counter raised, with an
 * audit entry written. The Firestore transaction is the state change of a
 * `LicenseDb`; its effect on the records is the function `Activate`.
 */
module License {
  import opened Strings
  import opened Json

  /**
   * A licence record. `activatedBy` and `lastActivatedBy` are `""` when not
   * set; `activationCount` is `0` when not set (both are falsy); `expiresAt`
   * is the expiry time in milliseconds, when the record has one.
   */
  datatype Record = Record(
    oneTime: bool,
    active: Option<bool>,
    activatedBy: string,
    expiresAt: Option<int>,
    activationCount: int,
    lastActivatedBy: string,
    lastDevice: Json,
    plan: Json,
    features: Json)

  /** The `HttpsError` codes `activateLicense` raises itself. */
  datatype Failure = InvalidArgument | Unauthenticated | NotFound | FailedPrecondition | AlreadyExists

  /** The callable's reply: `{ success: true, plan, features, oneTime, activationCount? }`. */
  datatype Grant = Grant(plan: Json, features: Json, oneTime: bool, activationCount: Option<int>)

  datatype Outcome = Granted(grant: Grant) | Refused(failure: Failure)

  /** One document of `license_activations`; its timestamp is not modelled. */
  datatype LogEntry = LogEntry(licenseId: string, userId: string, device: Json, oneTime: bool)

  /** `String(data.key).trim().toUpperCase()`, for the key text `String(data.key || '')`. */
  function NormalizeKey(keyText: string): (key: string)
    ensures |key| == |Trim(keyText)|
  {
    ToUpper(Trim(keyText))
  }

  /** `lic.expiresAt.toDate() < new Date()`. */
  predicate Expired(lic: Record, now: int) {
    lic.expiresAt.Some? && lic.expiresAt.value < now
  }

  /** A one-time licence counts as used when `active === false` or `activatedBy` is set. */
  predicate Used(lic: Record) {
    lic.active == Some(false) || |lic.activatedBy| > 0
  }

  /** `lic.features || {}`. */
  function FeaturesOr(f: Json): Json {
    if Truthy(f) then f else JObj(map[])
  }

  /** The whole effect of one call: the reply, the licence records after it and the audit log after it. */
  datatype Effect = Effect(outcome: Outcome, licenses: map<string, Record>, log: seq<LogEntry>)

  /**
   * `activateLicense(data, context)` on the records `licenses` and the audit
   * log `log`: the caller `uid` (`None` when not signed in), the request's
   * `deviceInfo` and the current time `now`. The checks run in the source's
   * order: key, sign-in, existence, expiry, then one-time use.
   */
  function ActivateCall(licenses: map<string, Record>, log: seq<LogEntry>, keyText: string,
                        uid: Option<string>, deviceInfo: Json, now: int): Effect
  {
    Activate(licenses, log, NormalizeKey(keyText), uid, DeviceOf(deviceInfo), now)
  }

  /** `data.deviceInfo || null`: the device stored with a grant. */
  function DeviceOf(deviceInfo: Json): (d: Json)
    ensures Truthy(deviceInfo) ==> d == deviceInfo
    ensures !Truthy(deviceInfo) ==> d == JNull
  {
    if Truthy(deviceInfo) then deviceInfo else JNull
  }

  /** The same once the key has been normalised to `key`. */
  function Activate(licenses: map<string, Record>, log: seq<LogEntry>, key: string,
                    uid: Option<string>, device: Json, now: int): (e: Effect)
    ensures e.outcome.Granted? <==>
      |key| > 0 && uid.Some? && key in licenses && !Expired(licenses[key], now)
      && !(licenses[key].oneTime && Used(licenses[key]))
    ensures e.outcome.Refused? ==> e.licenses == licenses && e.log == log
    ensures e.outcome.Granted? ==>
      e.licenses.Keys == licenses.Keys && |e.log| == |log| + 1 && e.log[..|log|] == log
      && forall k :: k in licenses && k != key ==> e.licenses[k] == licenses[k]
  {
    if |key| == 0 then Effect(Refused(InvalidArgument), licenses, log)
    else if uid.None? then Effect(Refused(Unauthenticated), licenses, log)
    else if key !in licenses then Effect(Refused(NotFound), licenses, log)
    else
      var lic := licenses[key];
      if Expired(lic, now) then Effect(Refused(FailedPrecondition), licenses, log)
      else if lic.oneTime then
        if Used(lic) then Effect(Refused(AlreadyExists), licenses, log)
        else
          var updated := lic.(active := Some(false), activatedBy := uid.value, lastDevice := device);
          Effect(Granted(Grant(lic.plan, FeaturesOr(lic.features), true, None)),
                 licenses[key := updated], log + [LogEntry(key, uid.value, device, true)])
      else
        var count := lic.activationCount + 1;
        var updated := lic.(activationCount := count, lastActivatedBy := uid.value, lastDevice := device);
        Effect(Granted(Grant(lic.plan, FeaturesOr(lic.features), false, Some(count))),
               licenses[key := updated], log + [LogEntry(key, uid.value, device, false)])
  }

  /** A refused call writes nothing: the records and the log stay as they were. */
  lemma RefusedChangesNothing(licenses: map<string, Record>, log: seq<LogEntry>, key: string,
                              uid: Option<string>, device: Json, now: int)
    ensures var e := Activate(licenses, log, key, uid, device, now);
      e.outcome.Refused? ==> e.licenses == licenses && e.log == log
  {
  }

  /** A blank key is refused with `invalid-argument` before anything else is looked at. */
  lemma BlankKeyRefused(licenses: map<string, Record>, log: seq<LogEntry>, keyText: string,
                        uid: Option<string>, device: Json, now: int)
    requires |Trim(keyText)| == 0
    ensures ActivateCall(licenses, log, keyText, uid, device, now) == Effect(Refused(InvalidArgument), licenses, log)
  {
  }

  /** Keys that differ only in case or surrounding white space name the same licence. */
  lemma KeyNormalised(k1: string, k2: string)
    requires Trim(k1) == Trim(k2)
    ensures NormalizeKey(k1) == NormalizeKey(k2)
  {
  }

  /** The key is looked up upper-cased: lower-case letters in it do not matter. */
  lemma KeyCaseInsensitive(k: string)
    requires Trimmed(k)
    ensures NormalizeKey(k) == NormalizeKey(ToUpper(k)) == ToUpper(k)
  {
    TrimOfTrimmed(k);
    UpperTrimmed(k);
    TrimOfTrimmed(ToUpper(k));
    assert ToUpper(ToUpper(k)) == ToUpper(k);
  }

  lemma UpperTrimmed(k: string)
    requires Trimmed(k)
    ensures Trimmed(ToUpper(k))
  {
    if |k| > 0 {
      assert !IsSpace(ToUpper(k)[0]) && !IsSpace(ToUpper(k)[|k| - 1]);
    }
  }

  /** An expired licence is refused with `failed-precondition`, one-time or not. */
  lemma ExpiredRefused(licenses: map<string, Record>, log: seq<LogEntry>, key: string,
                       uid: string, device: Json, now: int)
    requires |key| > 0 && key in licenses && Expired(licenses[key], now)
    ensures Activate(licenses, log, key, Some(uid), device, now).outcome == Refused(FailedPrecondition)
  {
  }

  /**
   * Granting a one-time licence consumes it: the record turns inactive and
   * names the caller, and any later activation of it, by anyone, is refused.
   */
  lemma OneTimeConsumed(licenses: map<string, Record>, log: seq<LogEntry>, key: string,
                        uid: string, device: Json, now: int,
                        uid2: Option<string>, device2: Json, now2: int)
    requires key in licenses && licenses[key].oneTime
    requires Activate(licenses, log, key, Some(uid), device, now).outcome.Granted?
    ensures var e := Activate(licenses, log, key, Some(uid), device, now);
      key in e.licenses && e.licenses[key].active == Some(false) && e.licenses[key].activatedBy == uid
      && Activate(e.licenses, e.log, key, uid2, device2, now2).outcome.Refused?
  {
  }

  /**
   * Granting a reusable licence raises its counter by one, reports the new
   * count, and leaves every other licence as it was.
   */
  lemma ReusableCounted(licenses: map<string, Record>, log: seq<LogEntry>, key: string,
                        uid: string, device: Json, now: int)
    requires |key| > 0 && key in licenses && !licenses[key].oneTime
    requires !Expired(licenses[key], now)
    ensures var e := Activate(licenses, log, key, Some(uid), device, now);
      e.outcome.Granted? && key in e.licenses
      && e.licenses[key].activationCount == licenses[key].activationCount + 1
      && e.outcome.grant.activationCount == Some(e.licenses[key].activationCount)
      && e.licenses[key].lastActivatedBy == uid
      && e.licenses.Keys == licenses.Keys
      && (forall other :: other in licenses && other != key ==> e.licenses[other] == licenses[other])
  {
  }

  /** Every grant appends exactly one audit entry, for the normalised key and the caller. */
  lemma GrantLogged(licenses: map<string, Record>, log: seq<LogEntry>, key: string,
                    uid: Option<string>, device: Json, now: int)
    ensures var e := Activate(licenses, log, key, uid, device, now);
      e.outcome.Granted? ==>
        uid.Some? && |e.log| == |log| + 1 && e.log[..|log|] == log
        && e.log[|log|] == LogEntry(key, uid.value, device, e.outcome.grant.oneTime)
  {
  }

  /** The `licenses` collection and the `license_activations` log. */
  class LicenseDb {
    var licenses: map<string, Record>
    var log: seq<LogEntry>

    constructor (initial: map<string, Record>)
      ensures licenses == initial && log == []
    {
      licenses := initial;
      log := [];
    }

    /** One `activateLicense` call, run as its transaction. */
    method ActivateLicense(keyText: string, uid: Option<string>, deviceInfo: Json, now: int) returns (r: Outcome)
      modifies this
      ensures Effect(r, licenses, log) == ActivateCall(old(licenses), old(log), keyText, uid, deviceInfo, now)
    {
      var key := NormalizeKey(keyText);
      var device := if Truthy(deviceInfo) then deviceInfo else JNull;
      r := ActivateKey(key, uid, device, now);
    }

    /** The transaction once the key is normalised. */
    method ActivateKey(key: string, uid: Option<string>, device: Json, now: int) returns (r: Outcome)
      modifies this
      ensures Effect(r, licenses, log) == Activate(old(licenses), old(log), key, uid, device, now)
    {
      if |key| == 0 {
        return Refused(InvalidArgument);
      }
      if uid.None? {
        return Refused(Unauthenticated);
      }
      if key !in licenses {
        return Refused(NotFound);
      }
      var lic := licenses[key];
      if lic.expiresAt.Some? && lic.expiresAt.value < now {
        return Refused(FailedPrecondition);
      }
      if lic.oneTime {
        if lic.active == Some(false) || |lic.activatedBy| > 0 {
          return Refused(AlreadyExists);
        }
        licenses := licenses[key := lic.(active := Some(false), activatedBy := uid.value, lastDevice := device)];
        log := log + [LogEntry(key, uid.value, device, true)];
        r := Granted(Grant(lic.plan, FeaturesOr(lic.features), true, None));
      } else {
        var activationCount := lic.activationCount + 1;
        licenses := licenses[key := lic.(activationCount := activationCount, lastActivatedBy := uid.value, lastDevice := device)];
        log := log + [LogEntry(key, uid.value, device, false)];
        r := Granted(Grant(lic.plan, FeaturesOr(lic.features), false, Some(activationCount)));
      }
    }
  }
}
