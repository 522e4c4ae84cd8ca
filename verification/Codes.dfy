/**
 One-time email codes (app/verification.py and the verification-code methods of db/sqlite_store.py),
 run one call at a time. Keys are normalised addresses with a purpose; the keyed hash is any function.
 */
module Codes {
  type Key = (string, string)

  /** `hash_code`, with the secret key fixed. */
  type Hash = (Key, string) -> string

  datatype CodeRow = CodeRow(hash: string, attempts: nat, expires: nat, created: nat)

  type Table = map<Key, CodeRow>

  datatype Settings = Settings(ttl: nat, resend: nat, maxAttempts: nat) {
    /** The bounds the program puts on its settings. */
    predicate Valid() { 1 <= ttl && 1 <= maxAttempts }
  }

  // -------------------------------------------------------------- store calls

  function Outdated(t: Table, now: nat): set<Key> {
    set k | k in t && t[k].expires < now
  }

  /** `save_verification_code`: what has expired goes, then insert or replace. */
  function Saved(t: Table, key: Key, hash: string, expires: nat, now: nat): Table {
    (t - Outdated(t, now))[key := CodeRow(hash, 0, expires, now)]
  }

  /** `record_verification_failure`. */
  function Failed(t: Table, key: Key): Table {
    if key in t then t[key := t[key].(attempts := t[key].attempts + 1)] else t
  }

  function FailureCount(t: Table, key: Key): nat {
    if key in t then t[key].attempts + 1 else 0
  }

  /** `delete_verification_code` with a hash: delete if unchanged. */
  predicate Deletes(t: Table, key: Key, hash: string) {
    key in t && t[key].hash == hash
  }

  function Deleted(t: Table, key: Key, hash: string): Table {
    if Deletes(t, key, hash) then t - {key} else t
  }

  // ------------------------------------------------------------------ services

  datatype Issue = Sent | RecentlySent(wait: nat) | DeliveryFailed | UnknownPurpose | EmailNotConfigured

  /** What comes of the mail: production without SMTP, or the outcome of sending (elsewhere the code is
      logged instead, which always goes through). */
  datatype Mail = NotConfigured | Delivered | Lost

  predicate KnownPurpose(purpose: string) {
    purpose == "register" || purpose == "reset_password"
  }

  /** `issue_code`. */
  function Issued(t: Table, key: Key, code: string, hash: Hash, now: nat, mail: Mail, cfg: Settings): (Table, Issue) {
    if !KnownPurpose(key.1) then (t, UnknownPurpose)
    else if mail == NotConfigured then (t, EmailNotConfigured)
    else if key in t && t[key].created + cfg.resend > now then (t, RecentlySent(t[key].created + cfg.resend - now))
    else
      var saved := Saved(t, key, hash(key, code), now + cfg.ttl, now);
      if mail == Delivered then (saved, Sent) else (Deleted(saved, key, hash(key, code)), DeliveryFailed)
  }

  datatype Check = Accepted | CodeRequired | CodeExpired | AttemptsExceeded | CodeInvalid

  /** `consume_code`. */
  function Consumed(t: Table, key: Key, code: string, hash: Hash, now: nat, max: nat): (Table, Check) {
    if code == "" then (t, CodeRequired)
    else if key !in t then (t, CodeExpired)
    else if t[key].expires <= now then (Deleted(t, key, t[key].hash), CodeExpired)
    else if t[key].attempts >= max then (t, AttemptsExceeded)
    else if t[key].hash != hash(key, code) then
      (Failed(t, key), if FailureCount(t, key) >= max then AttemptsExceeded else CodeInvalid)
    else (Deleted(t, key, t[key].hash), Accepted)
  }

  // ------------------------------------------------------------------- promises

  /** A code is accepted exactly while it is pending, unexpired, not locked and matched; and it is
      gone afterwards. Nothing here touches the code of another address or purpose. */
  lemma AcceptedOnce(t: Table, key: Key, code: string, hash: Hash, now: nat, max: nat)
    ensures var (n, check) := Consumed(t, key, code, hash, now, max);
            && (check == Accepted <==> code != "" && key in t && now < t[key].expires && t[key].attempts < max && t[key].hash == hash(key, code))
            && (check == Accepted ==> key !in n && forall c, later | c != "" :: Consumed(n, key, c, hash, later, max).1 == CodeExpired)
            && (forall k | k != key :: (k in n <==> k in t) && (k in t ==> n[k] == t[k]))
  {
  }

  /** A code that was sent is accepted in time, and with a collision-free hash no other code is. */
  lemma SentCodeIsTheOne(t: Table, key: Key, code: string, guess: string, hash: Hash, now: nat, later: nat, cfg: Settings)
    requires cfg.Valid() && code != "" && guess != "" && (hash(key, guess) == hash(key, code) ==> guess == code)
    requires Issued(t, key, code, hash, now, Mail.Delivered, cfg).1 == Sent
    ensures var (n, check) := Consumed(Issued(t, key, code, hash, now, Mail.Delivered, cfg).0, key, guess, hash, later, cfg.maxAttempts);
            check == Accepted <==> guess == code && later < now + cfg.ttl
  {
  }

  /** After a failed delivery the address can ask again at once. */
  lemma FailedDeliveryLeavesNothing(t: Table, key: Key, code: string, hash: Hash, now: nat, cfg: Settings)
    requires Issued(t, key, code, hash, now, Lost, cfg).1 == DeliveryFailed
    ensures var n := Issued(t, key, code, hash, now, Lost, cfg).0;
            key !in n && forall c, later, mail :: !Issued(n, key, c, hash, later, mail, cfg).1.RecentlySent?
  {
  }

  /** A code goes out exactly for a known purpose, with mail that is configured and delivers, once the
      waiting time since the last one is over; and only a code that goes out, or a failed delivery,
      changes the table. */
  lemma WhenACodeIsSent(t: Table, key: Key, code: string, hash: Hash, now: nat, mail: Mail, cfg: Settings)
    ensures var (n, issue) := Issued(t, key, code, hash, now, mail, cfg);
            && (issue == Sent <==> (key.1 == "register" || key.1 == "reset_password") && mail == Mail.Delivered && (key in t ==> t[key].created + cfg.resend <= now))
            && (issue == Sent ==> key in n && n[key] == CodeRow(hash(key, code), 0, now + cfg.ttl, now))
            && (issue != Sent && issue != DeliveryFailed ==> n == t)
            && (issue == UnknownPurpose <==> key.1 != "register" && key.1 != "reset_password")
            && (issue == EmailNotConfigured <==> issue != UnknownPurpose && mail == NotConfigured)
            && (issue == DeliveryFailed ==> mail == Lost)
            && (issue.RecentlySent? ==> 0 < issue.wait && Issued(t, key, code, hash, now + issue.wait, Mail.Delivered, cfg).1 == Sent)
  {
  }

  /** Issuing a code leaves every code of another address or purpose that has not expired as it was, and
      adds none. */
  lemma OthersKeepTheirCodes(t: Table, key: Key, code: string, hash: Hash, now: nat, mail: Mail, cfg: Settings, other: Key)
    requires other != key
    ensures var n := Issued(t, key, code, hash, now, mail, cfg).0;
            && (other in t && now <= t[other].expires ==> other in n)
            && (other in n ==> other in t && n[other] == t[other])
  {
  }

  /** Every answer to a guess, and what it leaves of the code. */
  lemma WhatAGuessAnswers(t: Table, key: Key, code: string, hash: Hash, now: nat, max: nat)
    ensures var (n, check) := Consumed(t, key, code, hash, now, max);
            var pending := key in t && now < t[key].expires;
            var wrong := key in t && t[key].hash != hash(key, code);
            && (check == CodeRequired <==> code == "")
            && (check == CodeExpired <==> code != "" && !pending)
            && (check == CodeInvalid <==> code != "" && pending && wrong && t[key].attempts + 1 < max)
            && (check == AttemptsExceeded <==> code != "" && pending && (t[key].attempts >= max || (wrong && t[key].attempts + 1 >= max)))
            && (key in n <==> key in t && check != Accepted && check != CodeExpired)
            && (key in n ==> n[key] == t[key].(attempts := if code != "" && wrong && t[key].attempts < max then t[key].attempts + 1
                                                           else t[key].attempts))
  {
  }

  /** A guess: the code entered, and when. */
  datatype Guess = Guess(code: string, at: nat)

  function AfterGuesses(t: Table, key: Key, guesses: seq<Guess>, hash: Hash, max: nat): Table
    decreases |guesses|
  {
    if guesses == [] then t
    else AfterGuesses(Consumed(t, key, guesses[0].code, hash, guesses[0].at, max).0, key, guesses[1..], hash, max)
  }

  /** The guesses that were compared with the stored hash. */
  function Compared(t: Table, key: Key, guesses: seq<Guess>, hash: Hash, max: nat): nat
    decreases |guesses|
  {
    if guesses == [] then 0 else
    var g := guesses[0];
    (if g.code != "" && key in t && g.at < t[key].expires && t[key].attempts < max then 1 else 0)
      + Compared(Consumed(t, key, g.code, hash, g.at, max).0, key, guesses[1..], hash, max)
  }

  function Min(a: nat, b: nat): nat {
    if a < b then a else b
  }

  /** One after the other, wrong guesses at a pending code are compared exactly until the limit, and
      the answer to the last of them and to all later ones is the lockout. */
  lemma {:induction false} SequentialLockout(t: Table, key: Key, guesses: seq<Guess>, hash: Hash, max: nat)
    requires key in t && t[key].attempts <= max
    requires forall i | 0 <= i < |guesses| ::
               guesses[i].code != "" && guesses[i].at < t[key].expires && hash(key, guesses[i].code) != t[key].hash
    ensures Compared(t, key, guesses, hash, max) == Min(|guesses|, max - t[key].attempts)
    ensures var n := AfterGuesses(t, key, guesses, hash, max);
            && key in n && n[key] == t[key].(attempts := t[key].attempts + Min(|guesses|, max - t[key].attempts))
            && (n[key].attempts >= max ==>
                  forall code, now: nat | code != "" && now < t[key].expires :: Consumed(n, key, code, hash, now, max) == (n, AttemptsExceeded))
    decreases |guesses|
  {
    if guesses != [] {
      var n := Consumed(t, key, guesses[0].code, hash, guesses[0].at, max).0;
      SequentialLockout(n, key, guesses[1..], hash, max);
    }
  }
}
