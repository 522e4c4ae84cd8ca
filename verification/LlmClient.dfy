/**
 The language-model client (agents/llm_client.py): retries with bounded back-off, and a circuit
 breaker for keys the provider has rejected. The provider is any function from the number of a call
 to its answer; seconds are reals.
 */
module LlmClient {
  import opened Wrappers

  datatype Answer =
    | Text(text: string)                          // stripped
    | RateLimited(retryAfter: Option<real>)
    | Transient(retryAfter: Option<real>)         // timeout, connection, 5xx
    | AuthRejected
    | Refused                                     // any other error

  datatype Reply = Reply(text: string) | NotConfigured | AuthError | RateLimitError | Unavailable

  datatype Settings = Settings(apiKey: string, maxRetries: nat, backoffBase: real, backoffMax: real) {
    /** The bounds the program puts on its settings. */
    predicate Valid() { 0.0 <= backoffBase && 0.0 <= backoffMax }
  }

  type Provider = nat -> Answer

  predicate Retryable(a: Answer) {
    a.RateLimited? || a.Transient?
  }

  function ReplyTo(a: Answer): Reply {
    match a
    case Text(text) => if text == "" then Unavailable else Reply(text)
    case RateLimited(_) => RateLimitError
    case AuthRejected => AuthError
    case _ => Unavailable
  }

  /** The calls one chat makes, from call number `from`: up to the first answer that ends it. */
  function Calls(provider: Provider, from: nat, retries: nat): (n: nat)
    ensures 1 <= n <= retries + 1
    decreases retries
  {
    if retries > 0 && Retryable(provider(from)) then 1 + Calls(provider, from + 1, retries - 1) else 1
  }

  /** A chat goes on after an answer that can be retried, and stops at any other or when its tries are used up. */
  lemma {:induction false} CallsEndAtFirstFinal(provider: Provider, from: nat, retries: nat)
    ensures var n := Calls(provider, from, retries);
            && (forall j: nat | from <= j < from + n - 1 :: provider(j).RateLimited? || provider(j).Transient?)
            && (n <= retries ==> !provider(from + n - 1).RateLimited? && !provider(from + n - 1).Transient?)
    decreases retries
  {
    if retries > 0 && Retryable(provider(from)) {
      CallsEndAtFirstFinal(provider, from + 1, retries - 1);
    }
  }

  function Sum(xs: seq<real>): real {
    if xs == [] then 0.0 else Sum(xs[..|xs| - 1]) + xs[|xs| - 1]
  }

  lemma {:induction false} SumBounded(xs: seq<real>, cap: real)
    requires forall i | 0 <= i < |xs| :: 0.0 <= xs[i] <= cap
    ensures 0.0 <= Sum(xs) <= |xs| as real * cap
  {
    if xs != [] {
      SumBounded(xs[..|xs| - 1], cap);
      assert (|xs| - 1) as real * cap + cap == |xs| as real * cap;
    }
  }

  /** `k` more sleeps, none longer than `cap`. */
  ghost predicate RestedBetween(before: seq<real>, after: seq<real>, k: nat, cap: real) {
    before <= after && |after| == |before| + k && forall i | |before| <= i < |after| :: 0.0 <= after[i] <= cap
  }

  lemma NoRest(before: seq<real>, cap: real)
    ensures RestedBetween(before, before, 0, cap)
  {
  }

  lemma OneMoreRest(before: seq<real>, after: seq<real>, k: nat, cap: real, delay: real)
    requires RestedBetween(before, after, k, cap) && 0.0 <= delay <= cap
    ensures RestedBetween(before, after + [delay], k + 1, cap)
  {
  }

  /** So a chat sleeps for no longer than retries times the maximum. */
  lemma RestIsBounded(before: seq<real>, after: seq<real>, k: nat, retries: nat, cap: real)
    requires RestedBetween(before, after, k, cap) && k <= retries && 0.0 <= cap
    ensures 0.0 <= Sum(after[|before|..]) <= retries as real * cap
  {
    SumBounded(after[|before|..], cap);
    assert 0.0 <= (retries - k) as real * cap;
    assert retries as real * cap == k as real * cap + (retries - k) as real * cap;
  }

  // ------------------------------------------------------------------- the breaker

  /** A call that reached the provider. */
  datatype Call = Call(key: string, answer: Answer)

  /** Every call so far and the fingerprints the breaker holds. */
  datatype World = World(log: seq<Call>, rejected: set<string>)

  function Logged(provider: Provider, key: string, from: nat, n: nat): (calls: seq<Call>)
    ensures |calls| == n
    ensures forall i | 0 <= i < n :: calls[i] == Call(key, provider(from + i))
  {
    if n == 0 then [] else Logged(provider, key, from, n - 1) + [Call(key, provider(from + n - 1))]
  }

  lemma NothingLogged(before: seq<Call>, provider: Provider, key: string, from: nat)
    ensures before == before + Logged(provider, key, from, 0)
  {
  }

  lemma LoggedMore(before: seq<Call>, provider: Provider, key: string, from: nat, n: nat)
    ensures before + Logged(provider, key, from, n) + [Call(key, provider(from + n))] == before + Logged(provider, key, from, n + 1)
  {
  }

  /** `key_fingerprint`: the first digits of a hash, so two keys can share one. */
  type Fingerprint = string -> string

  /** One chat: the key and the number of retries its client is set to. */
  datatype Asking = Asking(key: string, retries: nat)

  function Chatted(w: World, chat: Asking, provider: Provider, fingerprint: Fingerprint): World {
    if chat.key == "" || fingerprint(chat.key) in w.rejected then w
    else
      var n := Calls(provider, |w.log|, chat.retries);
      World(w.log + Logged(provider, chat.key, |w.log|, n),
            if provider(|w.log| + n - 1) == AuthRejected then w.rejected + {fingerprint(chat.key)} else w.rejected)
  }

  /** Chats one after the other, of any clients. */
  function Run(w: World, chats: seq<Asking>, provider: Provider, fingerprint: Fingerprint): World
    decreases |chats|
  {
    if chats == [] then w else Run(Chatted(w, chats[0], provider, fingerprint), chats[1..], provider, fingerprint)
  }

  /** Some key of this fingerprint was rejected. */
  ghost predicate Rejection(log: seq<Call>, f: string, fingerprint: Fingerprint) {
    exists i :: 0 <= i < |log| && log[i].answer == AuthRejected && fingerprint(log[i].key) == f
  }

  /** The fingerprints of rejected keys are held and no others, and after a rejection no call comes with a key of the
      same fingerprint, in particular not with the same key. */
  ghost predicate Silenced(w: World, fingerprint: Fingerprint) {
    (forall i | 0 <= i < |w.log| && w.log[i].answer == AuthRejected :: fingerprint(w.log[i].key) in w.rejected)
    && (forall f | f in w.rejected :: Rejection(w.log, f, fingerprint))
    && (forall i, j | 0 <= i < j < |w.log| && w.log[i].answer == AuthRejected ::
          fingerprint(w.log[j].key) != fingerprint(w.log[i].key) && w.log[j].key != w.log[i].key)
  }

  lemma ChatSilences(w: World, chat: Asking, provider: Provider, fingerprint: Fingerprint)
    requires Silenced(w, fingerprint)
    ensures Silenced(Chatted(w, chat, provider, fingerprint), fingerprint)
  {
    if chat.key != "" && fingerprint(chat.key) !in w.rejected {
      var n := Calls(provider, |w.log|, chat.retries);
      var calls := Logged(provider, chat.key, |w.log|, n);
      CallsEndAtFirstFinal(provider, |w.log|, chat.retries);
      forall i | 0 <= i < n - 1 ensures calls[i].answer != AuthRejected {
        assert Retryable(provider(|w.log| + i));
      }
      AppendSilenced(w, calls, chat.key, Chatted(w, chat, provider, fingerprint).rejected, fingerprint);
    }
  }

  lemma AppendSilenced(w: World, calls: seq<Call>, key: string, rejected: set<string>, fingerprint: Fingerprint)
    requires Silenced(w, fingerprint) && fingerprint(key) !in w.rejected && calls != []
    requires forall i | 0 <= i < |calls| :: calls[i].key == key
    requires forall i | 0 <= i < |calls| - 1 :: calls[i].answer != AuthRejected
    requires rejected == if calls[|calls| - 1].answer == AuthRejected then w.rejected + {fingerprint(key)} else w.rejected
    ensures Silenced(World(w.log + calls, rejected), fingerprint)
  {
    var log := w.log + calls;
    forall i | 0 <= i < |log| && log[i].answer == AuthRejected
      ensures fingerprint(log[i].key) in rejected && (forall j | i < j < |log| :: fingerprint(log[j].key) != fingerprint(log[i].key))
    {
      assert i < |w.log| ==> log[i] == w.log[i];
      assert i >= |w.log| ==> log[i] == calls[i - |w.log|];
    }
    forall f | f in rejected ensures Rejection(log, f, fingerprint) {
      if f in w.rejected {
        var i :| 0 <= i < |w.log| && w.log[i].answer == AuthRejected && fingerprint(w.log[i].key) == f;
        assert log[i] == w.log[i];
      } else {
        assert log[|log| - 1] == calls[|calls| - 1];
      }
    }
  }

  /** In every run of any clients, whatever the provider answers: once it has rejected a key, no later
      call with that key, or with one of its fingerprint, reaches it. */
  lemma {:induction false} RejectedKeysStaySilent(w: World, chats: seq<Asking>, provider: Provider, fingerprint: Fingerprint)
    requires Silenced(w, fingerprint)
    ensures Silenced(Run(w, chats, provider, fingerprint), fingerprint)
    decreases |chats|
  {
    if chats != [] {
      ChatSilences(w, chats[0], provider, fingerprint);
      RejectedKeysStaySilent(Chatted(w, chats[0], provider, fingerprint), chats[1..], provider, fingerprint);
    }
  }

  // -------------------------------------------------------------------- the client

  /** The module-level set of rejected fingerprints, and the provider's view: what has reached it. */
  class Shared {
    var rejected: set<string>
    var log: seq<Call>

    constructor ()
      ensures World(log, rejected) == World([], {})
    {
      rejected, log := {}, [];
    }

    function Now(): World
      reads this
    {
      World(log, rejected)
    }
  }

  class Client {
    const settings: Settings
    const shared: Shared
    const fingerprint: Fingerprint
    var slept: seq<real>

    constructor (settings: Settings, shared: Shared, fingerprint: Fingerprint)
      ensures this.settings == settings && this.shared == shared && this.fingerprint == fingerprint && slept == []
    {
      this.settings, this.shared, this.fingerprint, slept := settings, shared, fingerprint, [];
    }

    /** `_backoff_delay`; `jitter` is the random fraction. */
    function BackoffDelay(attempt: nat, a: Answer, jitter: real): (delay: real)
      requires settings.Valid() && Retryable(a) && 0.0 <= jitter <= 1.0
      ensures 0.0 <= delay <= settings.backoffMax
      ensures a.retryAfter.Some? && 0.0 <= a.retryAfter.value <= settings.backoffMax ==> delay == a.retryAfter.value
      ensures a.retryAfter.Some? && a.retryAfter.value > settings.backoffMax ==> delay == settings.backoffMax
      ensures a.retryAfter.None? ==>
                delay == (if settings.backoffBase * Doubled(attempt) < settings.backoffMax then settings.backoffBase * Doubled(attempt)
                          else settings.backoffMax) * jitter
    {
      Doubling(attempt);
      var cap := settings.backoffMax;
      if a.retryAfter.Some? then
        if a.retryAfter.value < 0.0 then 0.0 else if a.retryAfter.value < cap then a.retryAfter.value else cap
      else
        var exp := Exponential(attempt);
        var top := if exp < cap then exp else cap;
        Fraction(top, jitter)
    }

    function Exponential(attempt: nat): (wait: real)
      requires settings.Valid()
      ensures 0.0 <= wait
    {
      if attempt == 0 then settings.backoffBase else 2.0 * Exponential(attempt - 1)
    }

    static function Doubled(attempt: nat): real {
      if attempt == 0 then 1.0 else Doubled(attempt - 1) + Doubled(attempt - 1)
    }

    lemma {:induction false} Doubling(attempt: nat)
      requires settings.Valid()
      ensures Exponential(attempt) == settings.backoffBase * Doubled(attempt)
    {
      if attempt > 0 {
        Doubling(attempt - 1);
        Distributes(settings.backoffBase, Doubled(attempt - 1));
      }
    }

    static lemma Distributes(x: real, y: real)
      ensures x * (y + y) == 2.0 * (x * y)
    {
    }

    /** The `i`-th sleep since `before` is the delay after the `i`-th answer. */
    ghost predicate SleptAt(before: seq<real>, after: seq<real>, i: nat, provider: Provider, from: nat, jitter: nat -> real)
      requires settings.Valid() && forall i: nat :: 0.0 <= jitter(i) <= 1.0
    {
      |before| + i < |after| && Retryable(provider(from + i)) && after[|before| + i] == BackoffDelay(i, provider(from + i), jitter(i))
    }

    ghost predicate SleptAfter(before: seq<real>, after: seq<real>, k: nat, provider: Provider, from: nat, jitter: nat -> real)
      requires settings.Valid() && forall i: nat :: 0.0 <= jitter(i) <= 1.0
    {
      before <= after && |after| == |before| + k && forall i: nat | i < k :: SleptAt(before, after, i, provider, from, jitter)
    }

    lemma NoSleep(before: seq<real>, provider: Provider, from: nat, jitter: nat -> real)
      requires settings.Valid() && forall i: nat :: 0.0 <= jitter(i) <= 1.0
      ensures SleptAfter(before, before, 0, provider, from, jitter)
    {
    }

    lemma OneMoreSleep(before: seq<real>, after: seq<real>, k: nat, provider: Provider, from: nat, jitter: nat -> real)
      requires settings.Valid() && forall i: nat :: 0.0 <= jitter(i) <= 1.0
      requires SleptAfter(before, after, k, provider, from, jitter) && Retryable(provider(from + k))
      ensures SleptAfter(before, after + [BackoffDelay(k, provider(from + k), jitter(k))], k + 1, provider, from, jitter)
    {
      hide BackoffDelay, Retryable;
      var slept := after + [BackoffDelay(k, provider(from + k), jitter(k))];
      forall i: nat | i < k + 1 ensures SleptAt(before, slept, i, provider, from, jitter) {
        assert i < k ==> SleptAt(before, after, i, provider, from, jitter);
      }
    }

    static function Fraction(top: real, jitter: real): (part: real)
      requires 0.0 <= top && 0.0 <= jitter <= 1.0
      ensures 0.0 <= part <= top
    {
      assert 0.0 <= top * (1.0 - jitter);
      top * jitter
    }

    /** The retry loop: `n` calls with a sleep between any two, none longer than the maximum. */
    method Attempts(provider: Provider, jitter: nat -> real, ghost from: nat, ghost n: nat) returns (answer: Answer)
      requires settings.Valid() && forall i: nat :: 0.0 <= jitter(i) <= 1.0
      requires from == |shared.log| && n == Calls(provider, from, settings.maxRetries)
      modifies this`slept, shared`log
      ensures shared.log == old(shared.log) + Logged(provider, settings.apiKey, from, n)
      ensures answer == provider(from + n - 1)
      ensures RestedBetween(old(slept), slept, n - 1, settings.backoffMax)
      ensures SleptAfter(old(slept), slept, n - 1, provider, from, jitter)
    {
      hide RestedBetween, Logged, BackoffDelay, SleptAfter;
      NoSleep(slept, provider, from, jitter);
      NoRest(slept, settings.backoffMax);
      NothingLogged(shared.log, provider, settings.apiKey, from);
      var attempt := 0;
      while true
        invariant 0 <= attempt < n && |shared.log| == from + attempt && attempt <= settings.maxRetries
        invariant attempt + Calls(provider, from + attempt, settings.maxRetries - attempt) == n
        invariant shared.log == old(shared.log) + Logged(provider, settings.apiKey, from, attempt)
        invariant RestedBetween(old(slept), slept, attempt, settings.backoffMax)
        invariant SleptAfter(old(slept), slept, attempt, provider, from, jitter)
        decreases n - attempt
      {
        LoggedMore(old(shared.log), provider, settings.apiKey, from, attempt);
        answer := provider(|shared.log|);
        shared.log := shared.log + [Call(settings.apiKey, answer)];
        if !Retryable(answer) || attempt == settings.maxRetries {
          return;
        }
        var delay := BackoffDelay(attempt, answer, jitter(attempt));
        OneMoreRest(old(slept), slept, attempt, settings.backoffMax, delay);
        OneMoreSleep(old(slept), slept, attempt, provider, from, jitter);
        slept := slept + [delay];
        attempt := attempt + 1;
      }
    }

    /** `chat`: at most one call more than there are retries, and one sleep fewer than calls. */
    method Chat(provider: Provider, jitter: nat -> real) returns (reply: Reply)
      requires settings.Valid() && forall i: nat :: 0.0 <= jitter(i) <= 1.0
      modifies this`slept, shared
      ensures shared.Now() == Chatted(old(shared.Now()), Asking(settings.apiKey, settings.maxRetries), provider, fingerprint)
      ensures var made := |shared.log| - |old(shared.log)|;
              && made <= settings.maxRetries + 1
              && RestedBetween(old(slept), slept, if made == 0 then 0 else made - 1, settings.backoffMax)
              && (made == 0 <==> settings.apiKey == "" || fingerprint(settings.apiKey) in old(shared.rejected))
              && SleptAfter(old(slept), slept, if made == 0 then 0 else made - 1, provider, |old(shared.log)|, jitter)
      ensures var made := |shared.log| - |old(shared.log)|;
              if settings.apiKey == "" then reply == NotConfigured
              else if made == 0 then reply == AuthError
              else
                var last := provider(|shared.log| - 1);
                && (reply.Reply? <==> last.Text? && last.text != "") && (reply.Reply? ==> reply.text == last.text)
                && (reply == AuthError <==> last == AuthRejected)
                && (reply == RateLimitError <==> last.RateLimited?)
                && (reply == Unavailable <==> last.Transient? || last == Refused || last == Text(""))
    {
      hide BackoffDelay, SleptAfter;
      NoSleep(slept, provider, |shared.log|, jitter);
      if settings.apiKey == "" {
        return NotConfigured;
      }
      if fingerprint(settings.apiKey) in shared.rejected {
        return AuthError;
      }
      var answer := Attempts(provider, jitter, |shared.log|, Calls(provider, |shared.log|, settings.maxRetries));
      if answer == AuthRejected {
        shared.rejected := shared.rejected + {fingerprint(settings.apiKey)};
      }
      reply := ReplyTo(answer);
    }
  }
}
