/** Signed service-to-service requests: the time window and nonce store of app/core/s2s.py. */
module NonceStore {
  import opened Options
  import CanonicalStrings

  /** The four headers of a request, and its method, path and body. */
  datatype Request = Request(service: string, timestamp: string, nonce: string, signature: string,
                             verb: string, path: string, body: string)

  datatype Outcome =
    | Disabled | MissingHeaders | InvalidTimestamp | OutsideWindow | NonceUsed
    | Misconfigured | UnknownService | InvalidSignature | Accepted

  /** Settings and the functions taken from libraries: parsing an integer, the message authentication code,
      and those the canonical message is built with. `services` is None when S2S_SERVICES is not JSON. */
  datatype Config = Config(enabled: bool, services: Option<map<string, string>>,
                           parse: string -> Option<int>, mac: (string, string) -> string,
                           functions: CanonicalStrings.Functions)

  /** Expiry times of the nonces seen, per service. */
  type Store = map<string, map<string, real>>

  const TOLERANCE: real := 300.0

  // ---- One request ----

  function NoncesOf(store: Store, service: string): map<string, real> {
    if service in store then store[service] else map[]
  }

  /** Drop the nonces whose expiry is past. */
  function Evict(nonces: map<string, real>, now: real): map<string, real> {
    map n | n in nonces && !(nonces[n] < now) :: nonces[n]
  }

  predicate InWindow(now: real, timestamp: int) {
    -TOLERANCE <= now - timestamp as real <= TOLERANCE
  }

  /** The guards before the nonce store is touched; None when they all pass. */
  function Precheck(c: Config, r: Request, now: real): Option<Outcome> {
    if !c.enabled then Some(Disabled)
    else if r.service == "" || r.timestamp == "" || r.nonce == "" || r.signature == "" then Some(MissingHeaders)
    else if c.parse(r.timestamp).None? then Some(InvalidTimestamp)
    else if !InWindow(now, c.parse(r.timestamp).value) then Some(OutsideWindow)
    else None
  }

  function Content(r: Request): CanonicalStrings.SignedRequest {
    CanonicalStrings.SignedRequest(r.verb, r.path, r.timestamp, r.nonce, r.body)
  }

  /** The signature that a request should have. */
  function Signature(c: Config, secret: string, r: Request): string {
    c.mac(secret, CanonicalStrings.Message(c.functions, Content(r)))
  }

  /** The guards after it. */
  function Signed(c: Config, r: Request): Outcome {
    if c.services.None? then Misconfigured
    else if r.service !in c.services.value || c.services.value[r.service] == "" then UnknownService
    else if Signature(c, c.services.value[r.service], r) != r.signature then InvalidSignature
    else Accepted
  }

  function Verify(c: Config, store: Store, r: Request, now: real): (Store, Outcome) {
    if Precheck(c, r, now).Some? then (store, Precheck(c, r, now).value) else
    var kept := Evict(NoncesOf(store, r.service), now);
    if r.nonce in kept then (store[r.service := kept], NonceUsed)
    else (store[r.service := kept[r.nonce := now + TOLERANCE]], Signed(c, r))
  }

  // ---- Runs ----

  datatype Arrival = Arrival(request: Request, at: real)

  function StoreAfter(c: Config, store: Store, run: seq<Arrival>, k: nat): Store
    requires k <= |run|
  {
    if k == 0 then store else Verify(c, StoreAfter(c, store, run, k - 1), run[k - 1].request, run[k - 1].at).0
  }

  function OutcomeOf(c: Config, store: Store, run: seq<Arrival>, k: nat): Outcome
    requires k < |run|
  {
    Verify(c, StoreAfter(c, store, run, k), run[k].request, run[k].at).1
  }

  predicate InOrder(run: seq<Arrival>) {
    forall i, j | 0 <= i < j < |run| :: run[i].at <= run[j].at
  }

  /** The nonce is remembered until at least `until`. */
  predicate Remembers(store: Store, service: string, nonce: string, until: real) {
    nonce in NoncesOf(store, service) && NoncesOf(store, service)[nonce] >= until
  }

  lemma VerifyRemembers(c: Config, store: Store, r: Request, now: real, service: string, nonce: string, until: real)
    requires Remembers(store, service, nonce, until) && now <= until
    ensures Remembers(Verify(c, store, r, now).0, service, nonce, until)
  {
  }

  /** From its acceptance on, a nonce is remembered until the tolerance has passed. */
  lemma {:induction false} RememberedFor(c: Config, store: Store, run: seq<Arrival>, i: nat, k: nat)
    requires InOrder(run) && i < k < |run| && Precheck(c, run[i].request, run[i].at).None?
    requires OutcomeOf(c, store, run, i) != NonceUsed && run[k].at <= run[i].at + TOLERANCE
    ensures Remembers(StoreAfter(c, store, run, k), run[i].request.service, run[i].request.nonce, run[i].at + TOLERANCE)
  {
    if k > i + 1 {
      RememberedFor(c, store, run, i, k - 1);
      VerifyRemembers(c, StoreAfter(c, store, run, k - 1), run[k - 1].request, run[k - 1].at,
                      run[i].request.service, run[i].request.nonce, run[i].at + TOLERANCE);
    }
  }

  /** At most once: when a request with this service and nonce has been accepted, no later request with
      them is accepted whose timestamp is not ahead of that first arrival. Eviction cannot come before the
      time window closes. */
  lemma AcceptedAtMostOnce(c: Config, store: Store, run: seq<Arrival>, i: nat, j: nat)
    requires InOrder(run) && i < j < |run|
    requires run[i].request.service == run[j].request.service && run[i].request.nonce == run[j].request.nonce
    requires OutcomeOf(c, store, run, i) == Accepted
    requires c.parse(run[j].request.timestamp).Some? ==> c.parse(run[j].request.timestamp).value as real <= run[i].at
    ensures OutcomeOf(c, store, run, j) != Accepted
  {
    if run[j].at <= run[i].at + TOLERANCE {
      RememberedFor(c, store, run, i, j);
    }
  }

  /** Two accepted newline-free requests of a service with one signature are the same request: method, path,
      timestamp, nonce and body digest agree. */
  lemma OneSignatureOneRequest(c: Config, s1: Store, r1: Request, now1: real, s2: Store, r2: Request, now2: real)
    requires Verify(c, s1, r1, now1).1 == Accepted && Verify(c, s2, r2, now2).1 == Accepted
    requires r1.service == r2.service && r1.signature == r2.signature
    requires CanonicalStrings.Injective(c.mac, c.services.value[r1.service])
    requires CanonicalStrings.NewlineFree(c.functions, Content(r1)) &&
      CanonicalStrings.NewlineFree(c.functions, Content(r2))
    ensures r1.timestamp == r2.timestamp && r1.nonce == r2.nonce && r1.path == r2.path
    ensures c.functions.upper(r1.verb) == c.functions.upper(r2.verb) && (r1.body == "" <==> r2.body == "")
    ensures r1.body != "" ==> c.functions.digest(r1.body) == c.functions.digest(r2.body)
  {
    CanonicalStrings.MessageDetermines(c.functions, Content(r1), Content(r2));
  }

  /** So a signature is accepted at most once over any run, unless the timestamp it covers was ahead of the
      clock when it was first accepted. */
  lemma SignatureAcceptedAtMostOnce(c: Config, store: Store, run: seq<Arrival>, i: nat, j: nat)
    requires InOrder(run) && i < j < |run|
    requires run[i].request.service == run[j].request.service && run[i].request.signature == run[j].request.signature
    requires forall secret :: CanonicalStrings.Injective(c.mac, secret)
    requires forall k | 0 <= k < |run| :: CanonicalStrings.NewlineFree(c.functions, Content(run[k].request))
    requires OutcomeOf(c, store, run, i) == Accepted
    requires c.parse(run[i].request.timestamp).Some? ==> c.parse(run[i].request.timestamp).value as real <= run[i].at
    ensures OutcomeOf(c, store, run, j) != Accepted
  {
    if OutcomeOf(c, store, run, j) == Accepted {
      OneSignatureOneRequest(c, StoreAfter(c, store, run, i), run[i].request, run[i].at,
                             StoreAfter(c, store, run, j), run[j].request, run[j].at);
      AcceptedAtMostOnce(c, store, run, i, j);
    }
  }

  /** The condition on the timestamp is exact: an accepted request would be accepted again at some later
      moment exactly when its timestamp was ahead of the clock. */
  lemma AcceptedAgainIff(c: Config, store: Store, r: Request, now: real)
    requires Verify(c, store, r, now).1 == Accepted
    ensures (exists later: real :: later >= now && Verify(c, Verify(c, store, r, now).0, r, later).1 == Accepted)
       <==> c.parse(r.timestamp).value as real > now
  {
    var timestamp := c.parse(r.timestamp).value;
    var store' := Verify(c, store, r, now).0;
    assert NoncesOf(store', r.service)[r.nonce] == now + TOLERANCE;
    if timestamp as real > now {
      var later := timestamp as real + TOLERANCE;
      assert Precheck(c, r, later).None?;
      assert r.nonce !in Evict(NoncesOf(store', r.service), later);
      assert Verify(c, store', r, later).1 == Accepted;
    } else {
      forall later: real | later >= now
        ensures Verify(c, store', r, later).1 != Accepted
      {
        if later <= now + TOLERANCE {
          assert r.nonce in Evict(NoncesOf(store', r.service), later);
        } else {
          assert !InWindow(later, timestamp);
        }
      }
    }
  }

  // ---- When a request is accepted ----

  /** The feature is on, no header is missing, and the timestamp is within 300 seconds of the clock on either
      side. */
  predicate Timely(c: Config, r: Request, now: real) {
    && c.enabled && r.service != "" && r.timestamp != "" && r.nonce != "" && r.signature != ""
    && match c.parse(r.timestamp)
       case None => false
       case Some(t) => now - 300.0 <= t as real && t as real <= now + 300.0
  }

  /** The service is known, with a secret, and the request is signed with it. */
  predicate SignedRightly(c: Config, r: Request) {
    && c.services.Some? && r.service in c.services.value
    && var secret := c.services.value[r.service];
       secret != "" && r.signature == c.mac(secret, CanonicalStrings.Message(c.functions, Content(r)))
  }

  lemma GuardsMean(c: Config, r: Request, now: real)
    ensures Precheck(c, r, now).None? <==> Timely(c, r, now)
    ensures Signed(c, r) == Accepted <==> SignedRightly(c, r)
    ensures Precheck(c, r, now) != Some(Accepted) && Precheck(c, r, now) != Some(NonceUsed)
  {
  }

  predicate HeadersGiven(r: Request) {
    r.service != "" && r.timestamp != "" && r.nonce != "" && r.signature != ""
  }

  /** The service has stored this nonce and its expiry is not past. */
  predicate Fresh(store: Store, r: Request, now: real) {
    !(r.service in store && r.nonce in store[r.service] && store[r.service][r.nonce] >= now)
  }

  /** What each answer means. */
  lemma OutcomeMeans(c: Config, store: Store, r: Request, now: real)
    ensures match Verify(c, store, r, now).1
      case Disabled => !c.enabled
      case MissingHeaders => c.enabled && !HeadersGiven(r)
      case InvalidTimestamp => c.enabled && HeadersGiven(r) && c.parse(r.timestamp).None?
      case OutsideWindow =>
        && c.enabled && HeadersGiven(r) && c.parse(r.timestamp).Some?
        && var t := c.parse(r.timestamp).value as real; t < now - 300.0 || t > now + 300.0
      case NonceUsed => Timely(c, r, now) && !Fresh(store, r, now)
      case Misconfigured => Timely(c, r, now) && Fresh(store, r, now) && c.services.None?
      case UnknownService =>
        && Timely(c, r, now) && Fresh(store, r, now) && c.services.Some?
        && (r.service in c.services.value ==> c.services.value[r.service] == "")
      case InvalidSignature =>
        && Timely(c, r, now) && Fresh(store, r, now) && !SignedRightly(c, r)
        && c.services.Some? && r.service in c.services.value && c.services.value[r.service] != ""
      case Accepted => Timely(c, r, now) && Fresh(store, r, now) && SignedRightly(c, r)
  {
    GuardsMean(c, r, now);
  }

  /** Arrival i has put this nonce into the store. Its signature is only looked at afterwards. */
  predicate Stores(c: Config, run: seq<Arrival>, i: nat, service: string, nonce: string)
    requires i < |run|
  {
    && run[i].request.service == service && run[i].request.nonce == nonce
    && Timely(c, run[i].request, run[i].at) && OutcomeOf(c, map[], run, i) != NonceUsed
  }

  /** Every stored nonce was stored by an earlier arrival, with its time and the tolerance as expiry. */
  lemma {:induction false} StoredBy(c: Config, run: seq<Arrival>, k: nat, service: string, nonce: string)
    returns (i: nat)
    requires k <= |run| && nonce in NoncesOf(StoreAfter(c, map[], run, k), service)
    ensures i < k && Stores(c, run, i, service, nonce)
    ensures NoncesOf(StoreAfter(c, map[], run, k), service)[nonce] == run[i].at + TOLERANCE
  {
    var before, a := StoreAfter(c, map[], run, k - 1), run[k - 1];
    GuardsMean(c, a.request, a.at);
    if a.request.service == service && a.request.nonce == nonce && Timely(c, a.request, a.at)
       && OutcomeOf(c, map[], run, k - 1) != NonceUsed {
      i := k - 1;
    } else {
      KeptFromBefore(c, before, a.request, a.at, service, nonce);
      hide Verify;
      i := StoredBy(c, run, k - 1, service, nonce);
    }
  }

  lemma KeptFromBefore(c: Config, store: Store, r: Request, now: real, service: string, nonce: string)
    requires nonce in NoncesOf(Verify(c, store, r, now).0, service)
    requires r.service == service && r.nonce == nonce && Precheck(c, r, now).None? ==>
      Verify(c, store, r, now).1 == NonceUsed
    ensures nonce in NoncesOf(store, service)
    ensures NoncesOf(Verify(c, store, r, now).0, service)[nonce] == NoncesOf(store, service)[nonce]
  {
  }

  /** In a run from an empty store a request is accepted exactly when it is timely, signed rightly, and no
      arrival in the 300 seconds before has used its nonce for the same service, signed rightly or not. */
  lemma {:induction false} AcceptedIff(c: Config, run: seq<Arrival>, k: nat)
    requires InOrder(run) && k < |run|
    ensures var r, at := run[k].request, run[k].at;
      OutcomeOf(c, map[], run, k) == Accepted <==>
        && Timely(c, r, at) && SignedRightly(c, r)
        && forall i: nat | i < k && at <= run[i].at + 300.0 :: !Stores(c, run, i, r.service, r.nonce)
  {
    var r := run[k].request;
    GuardsMean(c, r, run[k].at);
    hide Timely, SignedRightly, Precheck, Signed;
    forall i: nat | i < k && run[k].at <= run[i].at + 300.0 && Stores(c, run, i, r.service, r.nonce)
      ensures OutcomeOf(c, map[], run, k) != Accepted
    {
      GuardsMean(c, run[i].request, run[i].at);
      if Timely(c, r, run[k].at) {
        RememberedFor(c, map[], run, i, k);
      }
    }
    if Timely(c, r, run[k].at) && OutcomeOf(c, map[], run, k) == NonceUsed {
      var i := StoredBy(c, run, k, r.service, r.nonce);
    }
  }

  /** No stored expiry is more than the tolerance ahead. */
  ghost predicate Bounded(store: Store, now: real) {
    forall s, n | s in store && n in store[s] :: store[s][n] <= now + TOLERANCE
  }

  lemma {:induction false} AlwaysBounded(c: Config, run: seq<Arrival>, k: nat)
    requires InOrder(run) && k < |run|
    ensures Bounded(StoreAfter(c, map[], run, k), run[k].at)
  {
    if k > 0 {
      AlwaysBounded(c, run, k - 1);
    }
  }

  /** After each nonce check, every stored expiry of that service lies between now and now + 300. */
  lemma ExpiriesInWindow(c: Config, run: seq<Arrival>, k: nat, nonce: string)
    requires InOrder(run) && k < |run| && Precheck(c, run[k].request, run[k].at).None?
    requires nonce in NoncesOf(StoreAfter(c, map[], run, k + 1), run[k].request.service)
    ensures run[k].at <= NoncesOf(StoreAfter(c, map[], run, k + 1), run[k].request.service)[nonce] <=
      run[k].at + 300.0
  {
    AlwaysBounded(c, run, k);
  }

  // ---- The code ----

  class Verifier {
    const config: Config
    var nonces: Store

    method EvictExpired(service: string, now: real)
      modifies this
      ensures nonces == old(nonces)[service := Evict(NoncesOf(old(nonces), service), now)]
    {
      var kept := NoncesOf(nonces, service);
      var expired := set n | n in kept && kept[n] < now;
      while expired != {}
        invariant forall n | n in kept :: n in NoncesOf(nonces, service)
        invariant forall n | n in NoncesOf(nonces, service) ::
          n in kept <==> n in expired || !(NoncesOf(nonces, service)[n] < now)
        invariant forall n | n in kept :: kept[n] == NoncesOf(nonces, service)[n]
        invariant forall n | n in expired :: n in NoncesOf(nonces, service) && NoncesOf(nonces, service)[n] < now
        decreases |expired|
      {
        var n :| n in expired;
        expired := expired - {n};
        kept := kept - {n};
      }
      assert kept == Evict(NoncesOf(nonces, service), now);
      nonces := nonces[service := kept];
    }

    method VerifySignature(r: Request, now: real) returns (outcome: Outcome)
      modifies this
      ensures (nonces, outcome) == old(Verify(config, nonces, r, now))
    {
      if !config.enabled {
        return Disabled;
      }
      if r.service == "" || r.timestamp == "" || r.nonce == "" || r.signature == "" {
        return MissingHeaders;
      }
      var timestamp := config.parse(r.timestamp);
      if timestamp.None? {
        return InvalidTimestamp;
      }
      if !InWindow(now, timestamp.value) {
        return OutsideWindow;
      }
      EvictExpired(r.service, now);
      if r.nonce in nonces[r.service] {
        return NonceUsed;
      }
      nonces := nonces[r.service := nonces[r.service][r.nonce := now + TOLERANCE]];
      assert nonces == old(Verify(config, nonces, r, now).0);
      if config.services.None? {
        return Misconfigured;
      }
      var services := config.services.value;
      if r.service !in services || services[r.service] == "" {
        return UnknownService;
      }
      var expected := CanonicalStrings.Message(config.functions, Content(r));
      outcome := if config.mac(services[r.service], expected) == r.signature then Accepted else InvalidSignature;
    }
  }
}
