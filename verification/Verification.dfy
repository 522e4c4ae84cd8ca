/** Issuing and consuming codes (app/verification.py), over the store, with nothing in between. */
module Verification {
  import opened Codes
  import opened SqliteStore

  /** `issue_code`. */
  method IssueCode(store: Store, key: Key, code: string, hash: Hash, now: nat, mail: Mail, cfg: Settings) returns (issue: Issue)
    modifies store`codes
    ensures (store.codes, issue) == Issued(old(store.codes), key, code, hash, now, mail, cfg)
  {
    if key.1 != "register" && key.1 != "reset_password" {
      return UnknownPurpose;
    }
    if mail == NotConfigured {
      return EmailNotConfigured;
    }
    if key in store.codes {
      var sentAt := store.codes[key].created;
      if sentAt + cfg.resend > now {
        return RecentlySent(sentAt + cfg.resend - now);
      }
    }
    var codeHash := hash(key, code);
    store.SaveVerificationCode(key, codeHash, now + cfg.ttl, now);
    if mail == Lost {
      var dropped := store.DeleteVerificationCode(key, codeHash);
      return DeliveryFailed;
    }
    issue := Sent;
  }

  /** `consume_code`. */
  method ConsumeCode(store: Store, key: Key, code: string, hash: Hash, now: nat, max: nat) returns (check: Check)
    modifies store`codes
    ensures (store.codes, check) == Consumed(old(store.codes), key, code, hash, now, max)
  {
    if code == "" {
      return CodeRequired;
    }
    if key !in store.codes {
      return CodeExpired;
    }
    var pending := store.codes[key];
    if pending.expires <= now {
      var deleted := store.DeleteVerificationCode(key, pending.hash);
      return CodeExpired;
    }
    if pending.attempts >= max {
      return AttemptsExceeded;
    }
    if pending.hash != hash(key, code) {
      var attempts := store.RecordVerificationFailure(key);
      return if attempts >= max then AttemptsExceeded else CodeInvalid;
    }
    var deleted := store.DeleteVerificationCode(key, pending.hash);
    if !deleted {
      return CodeExpired;
    }
    check := Accepted;
  }
}
