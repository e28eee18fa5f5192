/** The bounded insert-and-retry loop shared by shortlist creation,
    onboarding and signup: try a key, retry with a fresh key only after a
    unique violation (Postgres code 23505), give up after a fixed number of
    attempts. The store's answer to each insert is an oracle. */
module Retry {

  /** What the store answers to one insert. */
  datatype DbOutcome = Inserted | UniqueViolation | OtherError

  /** How the loop ends: a stored key, a non-23505 error, or every attempt collided. */
  datatype RetryResult<K> = Stored(key: K) | Failed | Exhausted

  /** The store's answer to inserting `key` under a unique constraint: a key
      already taken is a unique violation; otherwise `fault(i)` says whether
      attempt i hits another error. */
  function KeyOutcome<K(==)>(taken: set<K>, fault: nat -> bool, i: nat, key: K): DbOutcome {
    if key in taken then UniqueViolation else if fault(i) then OtherError else Inserted
  }

  /** Reference definition of the loop from attempt `i` on. */
  function RetryFrom<K>(i: nat, max: nat, keyFor: nat -> K, outcome: (nat, K) -> DbOutcome): RetryResult<K>
    decreases max - i
  {
    if i >= max then Exhausted
    else
      match outcome(i, keyFor(i))
      case Inserted => Stored(keyFor(i))
      case OtherError => Failed
      case UniqueViolation => RetryFrom(i + 1, max, keyFor, outcome)
  }

  /** The loop as the handlers run it. `attempts` counts the inserts issued. */
  method InsertWithRetry<K>(max: nat, keyFor: nat -> K, outcome: (nat, K) -> DbOutcome)
    returns (r: RetryResult<K>, attempts: nat)
    ensures r == RetryFrom(0, max, keyFor, outcome)
    ensures attempts <= max
    ensures forall i :: 0 <= i < attempts - 1 ==> outcome(i, keyFor(i)) == UniqueViolation
    ensures r.Stored? ==> attempts >= 1 && r.key == keyFor(attempts - 1) && outcome(attempts - 1, r.key) == Inserted
    ensures r.Failed? ==> attempts >= 1 && outcome(attempts - 1, keyFor(attempts - 1)) == OtherError
    ensures r.Exhausted? <==> attempts == max && forall i :: 0 <= i < max ==> outcome(i, keyFor(i)) == UniqueViolation
  {
    attempts := 0;
    while attempts < max
      invariant attempts <= max
      invariant forall i :: 0 <= i < attempts ==> outcome(i, keyFor(i)) == UniqueViolation
      invariant RetryFrom(attempts, max, keyFor, outcome) == RetryFrom(0, max, keyFor, outcome)
      decreases max - attempts
    {
      var key := keyFor(attempts);
      var o := outcome(attempts, key);
      attempts := attempts + 1;
      if o == Inserted {
        return Stored(key), attempts;
      } else if o == OtherError {
        return Failed, attempts;
      }
    }
    return Exhausted, attempts;
  }

  /** When every key is fresh and the store reports no other error, the first attempt succeeds. */
  lemma FirstAttemptWins<K>(max: nat, keyFor: nat -> K, outcome: (nat, K) -> DbOutcome)
    requires max >= 1 && outcome(0, keyFor(0)) == Inserted
    ensures RetryFrom(0, max, keyFor, outcome) == Stored(keyFor(0))
  {
  }

  /** A non-23505 error on attempt i stops the loop there, whatever later attempts would do. */
  lemma {:induction false} ErrorStops<K>(i: nat, max: nat, keyFor: nat -> K, outcome: (nat, K) -> DbOutcome)
    requires i < max
    requires forall j :: 0 <= j < i ==> outcome(j, keyFor(j)) == UniqueViolation
    requires outcome(i, keyFor(i)) == OtherError
    ensures RetryFrom(0, max, keyFor, outcome) == Failed
  {
    RetryPrefix(0, i, max, keyFor, outcome);
  }

  lemma {:induction false} RetryPrefix<K>(j: nat, i: nat, max: nat, keyFor: nat -> K, outcome: (nat, K) -> DbOutcome)
    requires j <= i < max
    requires forall k :: j <= k < i ==> outcome(k, keyFor(k)) == UniqueViolation
    ensures RetryFrom(j, max, keyFor, outcome) == RetryFrom(i, max, keyFor, outcome)
    decreases i - j
  {
    if j < i {
      RetryPrefix(j + 1, i, max, keyFor, outcome);
    }
  }
}
