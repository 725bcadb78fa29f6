/** The cache of one-time identifiers, and what forgetting expired ones costs. */
module ReplayCache {
  import opened Wrappers
  import opened IssuerStore

  /** One request that may record an identifier; `key` is absent when it fails before it would. */
  datatype Recording = Recording(key: Option<string>, ttl: nat, now: int)

  function Expiry(r: Recording): int {
    r.now + r.ttl * SECOND
  }

  function After(rs: seq<Recording>): Store {
    if rs == [] then EMPTY
    else
      var r := rs[|rs| - 1];
      var before := After(rs[..|rs| - 1]);
      match r.key case None => before case Some(key) => before.RecordJti(key, r.ttl, r.now)
  }

  /** Recording `k` of the run was taken for new. */
  predicate Accepted(rs: seq<Recording>, k: nat)
    requires k < |rs|
  {
    rs[k].key.Some? && After(rs[..k]).IsFresh(rs[k].key.value, rs[k].now)
  }

  ghost predicate Monotone(rs: seq<Recording>) {
    forall i, j :: 0 <= i <= j < |rs| ==> rs[i].now <= rs[j].now
  }

  /** The log that is never pruned: recording `j` was accepted and is unexpired at `now`. */
  ghost predicate Holds(rs: seq<Recording>, j: nat, key: string, now: int)
    requires j < |rs|
  {
    Accepted(rs, j) && rs[j].key == Some(key) && Expiry(rs[j]) > now
  }

  ghost predicate HeldBefore(rs: seq<Recording>, n: nat, key: string, now: int)
    requires n <= |rs|
  {
    exists j :: 0 <= j < n && Holds(rs, j, key, now)
  }

  /** After `n` recordings, at any later time, the cache remembers exactly what the log holds. */
  lemma {:induction false} RememberedIsHeld(rs: seq<Recording>, n: nat, key: string, now: int)
    requires Monotone(rs) && n <= |rs| && (n > 0 ==> rs[n - 1].now <= now)
    ensures key in After(rs[..n]).Remembered(now) <==> HeldBefore(rs, n, key, now)
  {
    hide Expiry;
    if n > 0 {
      var r := rs[n - 1];
      assert rs[..n][..n - 1] == rs[..n - 1];
      RememberedIsHeld(rs, n - 1, key, now);
      if r.key.Some? {
        RememberedIsHeld(rs, n - 1, r.key.value, r.now);
      }
      StepRemembers(After(rs[..n - 1]), r, key, now);
      assert HeldBefore(rs, n, key, now) <==> HeldBefore(rs, n - 1, key, now) || Holds(rs, n - 1, key, now);
    }
  }

  /** One step: what is remembered at `now` afterwards. */
  lemma StepRemembers(before: Store, r: Recording, key: string, now: int)
    requires r.now <= now
    ensures var after := match r.key case None => before case Some(k) => before.RecordJti(k, r.ttl, r.now);
            key in after.Remembered(now)
            <==> key in before.Remembered(now)
                 || (r.key == Some(key) && before.IsFresh(key, r.now) && Expiry(r) > now)
  {
  }

  /** A recording is refused iff an accepted earlier one of the same key is unexpired: pruning changes nothing. */
  lemma CacheIsLog(rs: seq<Recording>, k: nat)
    requires Monotone(rs) && k < |rs| && rs[k].key.Some?
    ensures Accepted(rs, k) <==> !HeldBefore(rs, k, rs[k].key.value, rs[k].now)
  {
    RememberedIsHeld(rs, k, rs[k].key.value, rs[k].now);
  }

  // ---- Proofs with a freshness window -------------------------------------------------

  const MAX_AGE: int := 300
  const MAX_SKEW: int := 60
  const PROOF_TTL: nat := 360

  /** The clock's whole seconds. */
  function Timestamp(now: int): int {
    now / SECOND
  }

  /** `iat` is at most 300 seconds old and at most 60 in the future. */
  predicate InWindow(iat: int, now: int) {
    Timestamp(now) - MAX_AGE <= iat <= Timestamp(now) + MAX_SKEW
  }

  /** In any run, a proof accepted with `iat` less than 60 seconds ahead is not accepted again. */
  lemma AcceptedOnce(rs: seq<Recording>, j: nat, k: nat, iat: int)
    requires Monotone(rs) && j < k < |rs|
    requires rs[j].key.Some? && rs[j].key == rs[k].key && rs[j].ttl == PROOF_TTL
    requires InWindow(iat, rs[j].now) && InWindow(iat, rs[k].now)
    requires Accepted(rs, j) && iat < Timestamp(rs[j].now) + MAX_SKEW
    ensures !Accepted(rs, k)
  {
    CacheIsLog(rs, k);
    assert Holds(rs, j, rs[k].key.value, rs[k].now);
  }

  /** With `iat` exactly 60 seconds ahead it is accepted again when its entry expires, still in its window. */
  lemma AcceptedTwice(key: string, iat: int, now: int)
    requires iat == Timestamp(now) + MAX_SKEW
    ensures var rs := [Recording(Some(key), PROOF_TTL, now), Recording(Some(key), PROOF_TTL, now + PROOF_TTL * SECOND)];
            && InWindow(iat, rs[0].now) && InWindow(iat, rs[1].now)
            && Accepted(rs, 0) && Accepted(rs, 1)
  {
  }

  /** A proof accepted at `now` cannot be accepted at any later time iff its `iat` is less than 60 seconds ahead. */
  lemma OnceIff(key: string, iat: int, now: int)
    requires InWindow(iat, now)
    ensures (forall later :: now <= later && InWindow(iat, later) ==>
               !Accepted([Recording(Some(key), PROOF_TTL, now), Recording(Some(key), PROOF_TTL, later)], 1))
            <==> iat < Timestamp(now) + MAX_SKEW
  {
    forall later | now <= later && InWindow(iat, later) && iat < Timestamp(now) + MAX_SKEW
      ensures !Accepted([Recording(Some(key), PROOF_TTL, now), Recording(Some(key), PROOF_TTL, later)], 1)
    {
      var rs := [Recording(Some(key), PROOF_TTL, now), Recording(Some(key), PROOF_TTL, later)];
      CacheIsLog(rs, 0);
      AcceptedOnce(rs, 0, 1, iat);
    }
    if iat == Timestamp(now) + MAX_SKEW {
      AcceptedTwice(key, iat, now);
    }
  }
}
