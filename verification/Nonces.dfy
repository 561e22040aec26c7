/** Replay protection: the evicting nonce store against the unbounded history it forgets, and the
    signature verifier that consults it last. */
module Nonces {
  import opened Reals

  /** When each remembered nonce was accepted. */
  type Seen = map<string, real>

  datatype Settings = Settings(configured: bool, maxSkew: nat, ttl: int)

  /** A signed request as `verify` sees it; digests and the HMAC are reduced to their verdicts. */
  datatype Request = Request(
    headers: bool,          // all five headers present and non-empty
    keyKnown: bool,
    timestamp: Timestamp,
    bodyMatches: bool,
    signatureMatches: bool,
    nonce: string,
    now: real)

  datatype Timestamp = Invalid | At(time: int)

  datatype Verdict =
    | Accepted
    | NotConfigured | MissingHeaders | UnknownKey | InvalidTimestamp
    | OutsideSkew | BodyMismatch | SignatureMismatch | Replayed

  // ----- specification -------------------------------------------------------------------------

  function Evicted(seen: Seen, cutoff: real): Seen {
    map n | n in seen && seen[n] >= cutoff :: seen[n]
  }

  /** `check_and_record`: the answer and the memory afterwards. */
  function Check(seen: Seen, nonce: string, now: real, ttl: int): (bool, Seen) {
    var kept := Evicted(seen, now - ttl as real);
    if nonce in kept then (false, kept) else (true, kept[nonce := now])
  }

  /** The checks before the nonce, in the order of the code; `Accepted` means all passed. */
  function Prechecked(r: Request, s: Settings): Verdict {
    if !s.configured then NotConfigured
    else if !r.headers then MissingHeaders
    else if !r.keyKnown then UnknownKey
    else if r.timestamp.Invalid? then InvalidTimestamp
    else if Abs(r.now - r.timestamp.time as real) > s.maxSkew as real then OutsideSkew
    else if !r.bodyMatches then BodyMismatch
    else if !r.signatureMatches then SignatureMismatch
    else Accepted
  }

  function Verified(seen: Seen, r: Request, s: Settings): (Verdict, Seen) {
    if Prechecked(r, s) != Accepted then (Prechecked(r, s), seen)
    else
      var (isNew, seen') := Check(seen, r.nonce, r.now, s.ttl);
      (if isNew then Accepted else Replayed, seen')
  }

  // ----- the stores ----------------------------------------------------------------------------

  class NonceStore {
    const ttl: int
    var seen: Seen

    constructor (ttl: int)
      ensures this.ttl == ttl && seen == map[]
    {
      this.ttl := ttl;
      seen := map[];
    }

    method CheckAndRecord(nonce: string, now: real) returns (ok: bool)
      modifies this
      ensures (ok, seen) == Check(old(seen), nonce, now, ttl)
    {
      Evict(now);
      if nonce in seen {
        return false;
      }
      seen := seen[nonce := now];
      return true;
    }

    method Evict(now: real)
      modifies this
      ensures seen == Evicted(old(seen), now - ttl as real)
    {
      var cutoff := now - ttl as real;
      var stale := set n | n in seen && seen[n] < cutoff;
      while stale != {}
        invariant stale <= seen.Keys && forall n | n in stale :: seen[n] < cutoff
        invariant seen.Keys <= old(seen).Keys
        invariant forall n | n in seen :: seen[n] == old(seen)[n]
        invariant forall n | n in old(seen) && old(seen)[n] >= cutoff :: n in seen
        invariant forall n | n in seen && n !in stale :: seen[n] >= cutoff
      {
        var n :| n in stale;
        seen := seen - {n};
        stale := stale - {n};
      }
    }
  }

  class SignatureVerifier {
    const settings: Settings
    const nonces: NonceStore

    constructor (settings: Settings)
      ensures this.settings == settings && nonces.ttl == settings.ttl && nonces.seen == map[] && fresh(nonces)
    {
      this.settings := settings;
      nonces := new NonceStore(settings.ttl);
    }

    method Verify(r: Request) returns (verdict: Verdict)
      requires nonces.ttl == settings.ttl
      modifies nonces
      ensures (verdict, nonces.seen) == Verified(old(nonces.seen), r, settings)
    {
      if !settings.configured {
        return NotConfigured;
      }
      if !r.headers {
        return MissingHeaders;
      }
      if !r.keyKnown {
        return UnknownKey;
      }
      if r.timestamp.Invalid? {
        return InvalidTimestamp;
      }
      if Abs(r.now - r.timestamp.time as real) > settings.maxSkew as real {
        return OutsideSkew;
      }
      if !r.bodyMatches {
        return BodyMismatch;
      }
      if !r.signatureMatches {
        return SignatureMismatch;
      }
      var isNew := nonces.CheckAndRecord(r.nonce, r.now);
      verdict := if isNew then Accepted else Replayed;
    }
  }

  // ----- the evicting store against the unbounded history ---------------------------------------

  datatype Use = Use(nonce: string, now: real)

  /** Non-decreasing clock readings. */
  ghost predicate ClockAdvances(uses: seq<Use>) {
    forall i, j | 0 <= i < j < |uses| :: uses[i].now <= uses[j].now
  }

  /** The store's memory after the first `k` uses. */
  function MemoryAt(uses: seq<Use>, ttl: int, k: nat): Seen
    requires k <= |uses|
  {
    if k == 0 then map[]
    else Check(MemoryAt(uses, ttl, k - 1), uses[k - 1].nonce, uses[k - 1].now, ttl).1
  }

  /** The store's answer to use `k`. */
  predicate StoreAccepts(uses: seq<Use>, ttl: int, k: nat)
    requires k < |uses|
  {
    Check(MemoryAt(uses, ttl, k), uses[k].nonce, uses[k].now, ttl).0
  }

  /** The specification, which remembers everything: accept unless the same nonce was accepted
      within the last `ttl` seconds. */
  ghost predicate HistoryAccepts(uses: seq<Use>, ttl: int, k: nat)
    requires k < |uses|
    decreases k
  {
    !exists i | 0 <= i < k ::
      uses[i].nonce == uses[k].nonce && uses[i].now >= uses[k].now - ttl as real && HistoryAccepts(uses, ttl, i)
  }

  /** `accepted` judges use `k` by the unbounded history. */
  ghost predicate JudgesAt(accepted: nat -> bool, uses: seq<Use>, ttl: int, k: nat)
    requires k < |uses|
  {
    accepted(k) <==> !exists i | 0 <= i < k ::
      uses[i].nonce == uses[k].nonce && uses[i].now >= uses[k].now - ttl as real && accepted(i)
  }

  ghost predicate Judges(accepted: nat -> bool, uses: seq<Use>, ttl: int) {
    forall k | 0 <= k < |uses| :: JudgesAt(accepted, uses, ttl, k)
  }

  /** Use `i`, before `k`, was accepted for nonce `n` at time `t`. */
  ghost predicate Recorded(uses: seq<Use>, accepted: nat -> bool, k: nat, i: nat, n: string, t: real)
    requires k <= |uses|
  {
    i < k && accepted(i) && uses[i] == Use(n, t)
  }

  /** Use `i` is still within the window when use `j` comes. */
  ghost predicate InWindow(uses: seq<Use>, ttl: int, i: nat, j: nat) {
    i <= j < |uses| && uses[i].now >= uses[j].now - ttl as real
  }

  /** Every remembered nonce was accepted at the remembered time. */
  ghost predicate Sound(seen: Seen, uses: seq<Use>, k: nat, accepted: nat -> bool)
    requires k <= |uses|
  {
    forall n | n in seen :: exists i: nat :: Recorded(uses, accepted, k, i, n, seen[n])
  }

  /** Whatever a later use could still ask about is remembered. */
  ghost predicate Complete(seen: Seen, uses: seq<Use>, ttl: int, k: nat, accepted: nat -> bool)
    requires k <= |uses|
  {
    forall i: nat, j: nat | InWindow(uses, ttl, i, j) && i < k <= j && accepted(i) ::
      uses[i].nonce in seen && seen[uses[i].nonce] >= uses[i].now
  }

  lemma CheckAgrees(seen: Seen, uses: seq<Use>, ttl: int, k: nat, accepted: nat -> bool)
    requires k < |uses| && JudgesAt(accepted, uses, ttl, k)
    requires Sound(seen, uses, k, accepted) && Complete(seen, uses, ttl, k, accepted)
    ensures Check(seen, uses[k].nonce, uses[k].now, ttl).0 <==> accepted(k)
  {
    var n, cutoff := uses[k].nonce, uses[k].now - ttl as real;
    if n in seen && seen[n] >= cutoff {
      var i: nat :| Recorded(uses, accepted, k, i, n, seen[n]);
      assert uses[i].nonce == n;
    } else {
      forall i | 0 <= i < k && uses[i].nonce == n && uses[i].now >= cutoff ensures !accepted(i) {
        assert InWindow(uses, ttl, i, k);
      }
    }
  }

  lemma CheckSound(seen: Seen, next: Seen, uses: seq<Use>, ttl: int, k: nat, accepted: nat -> bool)
    requires 0 < k <= |uses| && Sound(seen, uses, k - 1, accepted)
    requires Check(seen, uses[k - 1].nonce, uses[k - 1].now, ttl) == (accepted(k - 1), next)
    ensures Sound(next, uses, k, accepted)
  {
    var u := uses[k - 1];
    forall n | n in next ensures exists i: nat :: Recorded(uses, accepted, k, i, n, next[n]) {
      if accepted(k - 1) && n == u.nonce {
        assert Recorded(uses, accepted, k, k - 1, n, next[n]);
      } else {
        var i: nat :| Recorded(uses, accepted, k - 1, i, n, seen[n]);
        assert Recorded(uses, accepted, k, i, n, next[n]);
      }
    }
  }

  lemma CheckComplete(seen: Seen, next: Seen, uses: seq<Use>, ttl: int, k: nat, accepted: nat -> bool)
    requires ClockAdvances(uses) && 0 < k <= |uses| && Complete(seen, uses, ttl, k - 1, accepted)
    requires Check(seen, uses[k - 1].nonce, uses[k - 1].now, ttl) == (accepted(k - 1), next)
    ensures Complete(next, uses, ttl, k, accepted)
  {
    forall i: nat, j: nat | InWindow(uses, ttl, i, j) && i < k <= j && accepted(i)
      ensures uses[i].nonce in next && next[uses[i].nonce] >= uses[i].now
    {
      assert uses[k - 1].now <= uses[j].now;
      if i < k - 1 {
        assert uses[i].now <= uses[k - 1].now;
      }
    }
  }

  ghost predicate Remembers(seen: Seen, uses: seq<Use>, ttl: int, k: nat, accepted: nat -> bool)
    requires k <= |uses|
  {
    Sound(seen, uses, k, accepted) && Complete(seen, uses, ttl, k, accepted)
  }

  lemma CheckRemembers(seen: Seen, uses: seq<Use>, ttl: int, k: nat, accepted: nat -> bool)
    requires ClockAdvances(uses) && 0 < k <= |uses| && JudgesAt(accepted, uses, ttl, k - 1)
    requires Remembers(seen, uses, ttl, k - 1, accepted)
    ensures Remembers(Check(seen, uses[k - 1].nonce, uses[k - 1].now, ttl).1, uses, ttl, k, accepted)
  {
    var next := Check(seen, uses[k - 1].nonce, uses[k - 1].now, ttl).1;
    CheckAgrees(seen, uses, ttl, k - 1, accepted);
    CheckSound(seen, next, uses, ttl, k, accepted);
    CheckComplete(seen, next, uses, ttl, k, accepted);
  }

  lemma {:induction false} MemoryRemembers(uses: seq<Use>, ttl: int, k: nat, accepted: nat -> bool)
    requires ClockAdvances(uses) && k <= |uses| && Judges(accepted, uses, ttl)
    ensures Remembers(MemoryAt(uses, ttl, k), uses, ttl, k, accepted)
  {
    if k > 0 {
      MemoryRemembers(uses, ttl, k - 1, accepted);
      assert JudgesAt(accepted, uses, ttl, k - 1);
      CheckRemembers(MemoryAt(uses, ttl, k - 1), uses, ttl, k, accepted);
    }
  }

  /** Forgetting is harmless: over any run with a non-decreasing clock the evicting store answers
      every use exactly as the unbounded history would, whatever the time to live. */
  lemma StoreAgreesWithHistory(uses: seq<Use>, ttl: int, k: nat)
    requires ClockAdvances(uses) && k < |uses|
    ensures StoreAccepts(uses, ttl, k) <==> HistoryAccepts(uses, ttl, k)
  {
    var accepted := (j: nat) => j < |uses| && HistoryAccepts(uses, ttl, j);
    assert Judges(accepted, uses, ttl);
    MemoryRemembers(uses, ttl, k, accepted);
    assert JudgesAt(accepted, uses, ttl, k);
    CheckAgrees(MemoryAt(uses, ttl, k), uses, ttl, k, accepted);
  }

  // ----- replay --------------------------------------------------------------------------------

  /** The nonce memory after the first `k` requests. */
  function NoncesAt(rs: seq<Request>, s: Settings, k: nat): Seen
    requires k <= |rs|
  {
    if k == 0 then map[] else Verified(NoncesAt(rs, s, k - 1), rs[k - 1], s).1
  }

  function VerdictAt(rs: seq<Request>, s: Settings, k: nat): Verdict
    requires k < |rs|
  {
    Verified(NoncesAt(rs, s, k), rs[k], s).0
  }

  ghost predicate RequestsInOrder(rs: seq<Request>) {
    forall i, j | 0 <= i < j < |rs| :: rs[i].now <= rs[j].now
  }

  /** No (timestamp, nonce) pair is accepted twice. */
  ghost predicate NoReplay(rs: seq<Request>, s: Settings) {
    forall i, j | 0 <= i < j < |rs| && rs[i].timestamp == rs[j].timestamp && rs[i].nonce == rs[j].nonce ::
      !(VerdictAt(rs, s, i) == Accepted && VerdictAt(rs, s, j) == Accepted)
  }

  /** Nothing is wrong with the request itself. */
  predicate Genuine(r: Request, s: Settings) {
    && s.configured && r.headers && r.keyKnown && r.timestamp.At?
    && Abs(r.now - r.timestamp.time as real) <= s.maxSkew as real
    && r.bodyMatches && r.signatureMatches
  }

  /** A request that fails any earlier check leaves the nonce memory untouched, so only properly
      signed and timely requests can consume nonces. */
  lemma UnauthenticatedCannotConsume(seen: Seen, r: Request, s: Settings)
    requires !Genuine(r, s)
    ensures Verified(seen, r, s).1 == seen && Verified(seen, r, s).0 !in {Accepted, Replayed}
  {
  }

  /** The refusals that come before the nonce, in order. */
  const REFUSALS: seq<Verdict> :=
    [NotConfigured, MissingHeaders, UnknownKey, InvalidTimestamp, OutsideSkew, BodyMismatch, SignatureMismatch]

  /** What each of them complains of. */
  predicate AtFault(r: Request, s: Settings, n: nat) {
    match n
    case 0 => !s.configured
    case 1 => !r.headers
    case 2 => !r.keyKnown
    case 3 => r.timestamp == Invalid
    case 4 => r.timestamp.At? &&
      (r.now > (r.timestamp.time + s.maxSkew) as real || r.now < (r.timestamp.time - s.maxSkew) as real)
    case 5 => !r.bodyMatches
    case 6 => !r.signatureMatches
    case _ => false
  }

  /** A refusal names the first thing wrong with the request, and there is one before the nonce is looked at if
      and only if something is wrong. */
  lemma RefusalNamesFirstFault(seen: Seen, r: Request, s: Settings, n: nat)
    requires n < |REFUSALS|
    ensures Verified(seen, r, s).0 == REFUSALS[n] <==> AtFault(r, s, n) && forall m: nat | m < n :: !AtFault(r, s, m)
    ensures Verified(seen, r, s).0 in REFUSALS <==> exists m: nat :: AtFault(r, s, m)
  {
    if Prechecked(r, s) != Accepted {
      FirstFault(r, s);
    }
    assert AtFault(r, s, 0) || AtFault(r, s, 1) || AtFault(r, s, 2) || AtFault(r, s, 3) || AtFault(r, s, 4)
      || AtFault(r, s, 5) || AtFault(r, s, 6) || Prechecked(r, s) == Accepted;
  }

  lemma FirstFault(r: Request, s: Settings)
    requires Prechecked(r, s) != Accepted
    ensures exists m: nat :: AtFault(r, s, m)
  {
    assert AtFault(r, s, 0) || AtFault(r, s, 1) || AtFault(r, s, 2) || AtFault(r, s, 3) || AtFault(r, s, 4)
      || AtFault(r, s, 5) || AtFault(r, s, 6);
  }

  lemma {:induction false} AcceptedIsRemembered(rs: seq<Request>, s: Settings, i: nat, k: nat, j: nat)
    requires RequestsInOrder(rs) && i < k <= j < |rs|
    requires VerdictAt(rs, s, i) == Accepted && rs[i].now >= rs[j].now - s.ttl as real
    ensures rs[i].nonce in NoncesAt(rs, s, k) && NoncesAt(rs, s, k)[rs[i].nonce] >= rs[i].now
  {
    if i + 1 < k {
      AcceptedIsRemembered(rs, s, i, k - 1, j);
      assert rs[i].now <= rs[k - 1].now <= rs[j].now;
    }
  }

  lemma {:induction false} RememberedWasAccepted(rs: seq<Request>, s: Settings, k: nat, nonce: string) returns (i: nat)
    requires k <= |rs| && nonce in NoncesAt(rs, s, k)
    ensures i < k && VerdictAt(rs, s, i) == Accepted && rs[i].nonce == nonce && rs[i].now == NoncesAt(rs, s, k)[nonce]
  {
    if VerdictAt(rs, s, k - 1) == Accepted && rs[k - 1].nonce == nonce {
      i := k - 1;
    } else {
      i := RememberedWasAccepted(rs, s, k - 1, nonce);
    }
  }

  /** An earlier request with this nonce was accepted at most `ttl` seconds before. */
  ghost predicate UsedRecently(rs: seq<Request>, s: Settings, k: nat)
    requires k < |rs|
  {
    exists i | 0 <= i < k ::
      rs[i].nonce == rs[k].nonce && rs[i].now >= rs[k].now - s.ttl as real && VerdictAt(rs, s, i) == Accepted
  }

  /** Over any run with a non-decreasing clock, a request is accepted if and only if nothing is wrong
      with it and no earlier request with its nonce was accepted in the last `ttl` seconds; it is called
      a replay if and only if the nonce alone is at fault. */
  lemma VerdictsFollowHistory(rs: seq<Request>, s: Settings, k: nat)
    requires RequestsInOrder(rs) && k < |rs|
    ensures VerdictAt(rs, s, k) == Accepted <==> Genuine(rs[k], s) && !UsedRecently(rs, s, k)
    ensures VerdictAt(rs, s, k) == Replayed <==> Genuine(rs[k], s) && UsedRecently(rs, s, k)
  {
    var nonce, seen := rs[k].nonce, NoncesAt(rs, s, k);
    if nonce in seen && seen[nonce] >= rs[k].now - s.ttl as real {
      var i := RememberedWasAccepted(rs, s, k, nonce);
    } else if UsedRecently(rs, s, k) {
      var i :| 0 <= i < k && rs[i].nonce == nonce && rs[i].now >= rs[k].now - s.ttl as real
        && VerdictAt(rs, s, i) == Accepted;
      AcceptedIsRemembered(rs, s, i, k, k);
      assert false;
    }
  }

  lemma SkewWindow(a: real, b: real, t: real, skew: real)
    requires Abs(a - t) <= skew && Abs(b - t) <= skew
    ensures b - a <= 2.0 * skew
  {
  }

  lemma NoReplayWhenCovered(rs: seq<Request>, s: Settings)
    requires RequestsInOrder(rs) && s.ttl >= 2 * s.maxSkew
    ensures NoReplay(rs, s)
  {
    forall i, j | 0 <= i < j < |rs| && rs[i].timestamp == rs[j].timestamp && rs[i].nonce == rs[j].nonce
        && VerdictAt(rs, s, i) == Accepted
      ensures VerdictAt(rs, s, j) != Accepted
    {
      if Prechecked(rs[j], s) == Accepted {
        SkewWindow(rs[i].now, rs[j].now, rs[i].timestamp.time as real, s.maxSkew as real);
        AcceptedIsRemembered(rs, s, i, j, j);
      }
    }
  }

  /** A valid request presented at both ends of its skew window. */
  function Signed(now: real): Request {
    Request(true, true, At(0), true, true, "n", now)
  }

  lemma ReplayWhenNotCovered(s: Settings)
    requires s.configured && s.ttl < 2 * s.maxSkew
    ensures exists rs :: RequestsInOrder(rs) && !NoReplay(rs, s)
  {
    var skew := s.maxSkew as real;
    var first, second := Signed(-skew), Signed(skew);
    var rs := [first, second];
    assert NoncesAt(rs, s, 0) == map[];
    assert VerdictAt(rs, s, 0) == Accepted;
    assert NoncesAt(rs, s, 1) == Verified(map[], first, s).1;
    assert VerdictAt(rs, s, 1) == Accepted;
    assert !NoReplay(rs, s) by {
      assert rs[0].timestamp == rs[1].timestamp && rs[0].nonce == rs[1].nonce;
    }
    assert RequestsInOrder(rs);
  }

  /** Replay protection is complete over every run with a non-decreasing clock exactly when the
      nonces outlive the whole skew window. */
  lemma ReplaySafeIffTtlCoversSkew(s: Settings)
    requires s.configured
    ensures (forall rs | RequestsInOrder(rs) :: NoReplay(rs, s)) <==> s.ttl >= 2 * s.maxSkew
  {
    if s.ttl >= 2 * s.maxSkew {
      forall rs | RequestsInOrder(rs) ensures NoReplay(rs, s) {
        NoReplayWhenCovered(rs, s);
      }
    } else {
      ReplayWhenNotCovered(s);
    }
  }
}
