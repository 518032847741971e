/** The retry loop of the add-item use cases
    (internal/usecase/command/todo_add_item_command.go and
    internal/usecase/todo.go): run an attempt; on success stop; on an error
    the classifier accepts, wait (attempt + 1) × 10 ms and try again while
    attempts remain; otherwise return the error.

    An attempt is a function of the state it starts from and its index, so
    whatever changes between attempts (fresh IDs, clock readings, driver
    failures) is part of it. Sleeping is left out; the delays the loop would
    wait are returned instead. */
module Retry {
  import opened Wrappers
  import opened Strings
  import opened Errors
  import opened Uuids
  import opened Events
  import EventStore

  /** The state after the loop, the error returned, the number of attempts
      made and the delays waited between them, in milliseconds. */
  datatype Outcome<W> = Outcome(state: W, err: Option<Error>, attempts: nat, delays: seq<int>)

  /** The delay before attempt `k + 1`: (k + 1) × 10 ms. */
  function Backoff(k: nat): int {
    (k + 1) * 10
  }

  /** The loop from attempt `k` on. */
  function RetryFrom<W>(w: W, k: nat, maxRetries: nat, run: (W, nat) -> Step<W>, retryable: Error -> bool): (r: Outcome<W>)
    requires k < maxRetries
    ensures k < r.attempts <= maxRetries
    ensures |r.delays| == r.attempts - k - 1
    ensures forall i :: 0 <= i < |r.delays| ==> r.delays[i] == Backoff(k + i)
    ensures r.err.Some? ==> r.attempts == maxRetries || !retryable(r.err.value)
    ensures run(w, k).failure.None? ==> r == Outcome(run(w, k).state, None, k + 1, [])
    ensures run(w, k).failure.Some? && !retryable(run(w, k).failure.value) ==>
      r == Outcome(run(w, k).state, run(w, k).failure, k + 1, [])
    decreases maxRetries - k
  {
    var s := run(w, k);
    if s.failure.None? then Outcome(s.state, None, k + 1, [])
    else if retryable(s.failure.value) && k < maxRetries - 1 then
      var r := RetryFrom(s.state, k + 1, maxRetries, run, retryable);
      Outcome(r.state, r.err, r.attempts, [Backoff(k)] + r.delays)
    else Outcome(s.state, s.failure, k + 1, [])
  }

  /** The error of the final `fmt.Errorf`, reached only when the loop runs
      no attempt at all: `lastErr` is still nil, which `%w` prints as
      `%!w(<nil>)`. */
  function NoAttemptError(maxRetries: int): Error {
    Message("failed after " + Decimal(maxRetries) + " retries: %!w(<nil>)")
  }

  /** The whole loop: `for attempt := range maxRetries`. */
  function Retry<W>(w: W, maxRetries: int, run: (W, nat) -> Step<W>, retryable: Error -> bool): (r: Outcome<W>)
    ensures maxRetries <= 0 ==> r == Outcome(w, Some(NoAttemptError(maxRetries)), 0, [])
    ensures maxRetries > 0 ==> 1 <= r.attempts <= maxRetries && |r.delays| == r.attempts - 1
    ensures forall i :: 0 <= i < |r.delays| ==> r.delays[i] == Backoff(i)
  {
    if maxRetries <= 0 then Outcome(w, Some(NoAttemptError(maxRetries)), 0, [])
    else RetryFrom(w, 0, maxRetries, run, retryable)
  }

  /** Attempt by attempt: each attempt before the last failed with an error
      the classifier accepts, and the last attempt's result is returned. */
  ghost predicate FollowsAttempts<W>(w: W, k: nat, r: Outcome<W>, run: (W, nat) -> Step<W>, retryable: Error -> bool)
    requires k < r.attempts
    decreases r.attempts - k
  {
    var s := run(w, k);
    if k == r.attempts - 1 then s.state == r.state && s.failure == r.err
    else s.failure.Some? && retryable(s.failure.value) && FollowsAttempts(s.state, k + 1, r, run, retryable)
  }

  lemma {:induction false} RetryFollowsAttempts<W>(w: W, k: nat, maxRetries: nat, run: (W, nat) -> Step<W>,
                                                  retryable: Error -> bool)
    requires k < maxRetries
    ensures FollowsAttempts(w, k, RetryFrom(w, k, maxRetries, run, retryable), run, retryable)
    decreases maxRetries - k
  {
    var s := run(w, k);
    var r := RetryFrom(w, k, maxRetries, run, retryable);
    if s.failure.Some? && retryable(s.failure.value) && k < maxRetries - 1 {
      var r' := RetryFrom(s.state, k + 1, maxRetries, run, retryable);
      RetryFollowsAttempts(s.state, k + 1, maxRetries, run, retryable);
      FollowsSameEnd(s.state, k + 1, r', r, run, retryable);
    }
  }

  lemma {:induction false} FollowsSameEnd<W>(w: W, k: nat, a: Outcome<W>, b: Outcome<W>, run: (W, nat) -> Step<W>,
                                             retryable: Error -> bool)
    requires k < a.attempts
    requires a.state == b.state && a.err == b.err && a.attempts == b.attempts
    requires FollowsAttempts(w, k, a, run, retryable)
    ensures FollowsAttempts(w, k, b, run, retryable)
    decreases a.attempts - k
  {
    var s := run(w, k);
    if k < a.attempts - 1 {
      FollowsSameEnd(s.state, k + 1, a, b, run, retryable);
    }
  }

  /** An attempt that keeps failing with an accepted error is tried exactly
      `maxRetries` times, the waits growing 10, 20, … ms, and the last
      error is returned unwrapped: the "failed after" error never appears
      when there is at least one attempt. */
  lemma {:induction false} PersistentFailureExhausts<W>(w: W, maxRetries: int, run: (W, nat) -> Step<W>,
                                                        retryable: Error -> bool)
    requires maxRetries > 0
    requires forall v: W, k: nat :: run(v, k).failure.Some? && retryable(run(v, k).failure.value)
    ensures var r := Retry(w, maxRetries, run, retryable);
      r.attempts == maxRetries && r.err.Some? && retryable(r.err.value)
  {
    var r := Retry(w, maxRetries, run, retryable);
    RetryFollowsAttempts(w, 0, maxRetries, run, retryable);
    LastAttemptFails(w, 0, r, run, retryable);
  }

  /** When no failed attempt changes what `proj` sees of a state that still
      looks like `p0`, a loop that starts from such a state and ends in
      failure leaves that part of the state as it found it. */
  lemma {:induction false} FailureKeepsFrom<W, P>(w: W, k: nat, maxRetries: nat, run: (W, nat) -> Step<W>,
                                                 retryable: Error -> bool, proj: W -> P, p0: P)
    requires k < maxRetries && proj(w) == p0
    requires forall v: W, j: nat :: proj(v) == p0 && run(v, j).failure.Some? ==> proj(run(v, j).state) == p0
    ensures var r := RetryFrom(w, k, maxRetries, run, retryable);
      r.err.Some? ==> proj(r.state) == p0
    decreases maxRetries - k
  {
    var s := run(w, k);
    if s.failure.Some? && retryable(s.failure.value) && k < maxRetries - 1 {
      FailureKeepsFrom(s.state, k + 1, maxRetries, run, retryable, proj, p0);
    }
  }

  lemma FailureKeeps<W, P>(w: W, maxRetries: int, run: (W, nat) -> Step<W>, retryable: Error -> bool,
                           proj: W -> P)
    requires forall v: W, j: nat :: proj(v) == proj(w) && run(v, j).failure.Some? ==> proj(run(v, j).state) == proj(w)
    ensures var r := Retry(w, maxRetries, run, retryable);
      r.err.Some? ==> proj(r.state) == proj(w)
  {
    if maxRetries > 0 {
      FailureKeepsFrom(w, 0, maxRetries, run, retryable, proj, proj(w));
    }
  }

  /** When every successful attempt leaves a state satisfying `good`, so
      does a loop that ends in success. */
  lemma {:induction false} SuccessFrom<W>(w: W, k: nat, maxRetries: nat, run: (W, nat) -> Step<W>,
                                          retryable: Error -> bool, good: W -> bool)
    requires k < maxRetries
    requires forall v: W, j: nat :: run(v, j).failure.None? ==> good(run(v, j).state)
    ensures var r := RetryFrom(w, k, maxRetries, run, retryable);
      r.err.None? ==> good(r.state)
    decreases maxRetries - k
  {
    var s := run(w, k);
    if s.failure.Some? && retryable(s.failure.value) && k < maxRetries - 1 {
      SuccessFrom(s.state, k + 1, maxRetries, run, retryable, good);
    }
  }

  lemma SuccessHolds<W>(w: W, maxRetries: int, run: (W, nat) -> Step<W>, retryable: Error -> bool,
                        good: W -> bool)
    requires forall v: W, j: nat :: run(v, j).failure.None? ==> good(run(v, j).state)
    ensures var r := Retry(w, maxRetries, run, retryable);
      r.err.None? ==> good(r.state)
  {
    if maxRetries > 0 {
      SuccessFrom(w, 0, maxRetries, run, retryable, good);
    }
  }

  lemma {:induction false} LastAttemptFails<W>(w: W, k: nat, r: Outcome<W>, run: (W, nat) -> Step<W>,
                                               retryable: Error -> bool)
    requires k < r.attempts
    requires FollowsAttempts(w, k, r, run, retryable)
    requires forall v: W, j: nat :: run(v, j).failure.Some? && retryable(run(v, j).failure.value)
    ensures r.err.Some? && retryable(r.err.value)
    decreases r.attempts - k
  {
    if k < r.attempts - 1 {
      LastAttemptFails(run(w, k).state, k + 1, r, run, retryable);
    }
  }

  /** `isOptimisticLockError` as written: a substring test on the error's
      text, which an error reading exactly "optimistic lock error" passes
      and any shorter text fails. */
  function IsOptimisticLockError(err: Error): (b: bool)
    ensures ErrorString(err) == "optimistic lock error" ==> b
    ensures b ==> |ErrorString(err)| >= |"optimistic lock error"|
  {
    Strings.ContainsLength(ErrorString(err), "optimistic lock error");
    assert ErrorString(err) == "optimistic lock error" ==> Strings.IsPrefix("optimistic lock error", ErrorString(err));
    Contains(ErrorString(err), "optimistic lock error")
  }

  /** The event store's conflict error is never recognised: its text names
      the aggregate (hex digits and dashes) and the version (decimal
      digits), and holds no 'k', which "optimistic lock error" needs. */
  lemma ConflictIsNotRecognised(id: Uuid, v: int, err: Error)
    requires EventStore.IsDuplicateKey(err)
    ensures !IsOptimisticLockError(EventStore.SaveError(id, v, err))
  {
    EventStore.SaveErrorClassifies(id, v, err);
    ConflictTextHasNoK(id, v);
    assert "optimistic lock error"[14] == 'k';
    if Contains(EventStore.ConflictText(id, v), "optimistic lock error") {
      ContainsChar(EventStore.ConflictText(id, v), "optimistic lock error", 'k');
    }
  }

  lemma ConflictTextHasNoK(id: Uuid, v: int)
    ensures 'k' !in EventStore.ConflictText(id, v)
  {
    Alphabet(id, 'k');
    var d := Decimal(v);
    forall i | 0 <= i < |d| ensures d[i] != 'k' {
      assert IsDigit(d[i]) || d[i] == '-';
    }
    var prefix := "version conflict for aggregate ";
    var middle := " version ";
    assert 'k' !in prefix && 'k' !in middle;
    var text := prefix + id + middle + d;
    assert EventStore.ConflictText(id, v) == text;
    forall i | 0 <= i < |text| ensures text[i] != 'k' {
      if i < |prefix| {
        assert text[i] == prefix[i];
      } else if i < |prefix| + |id| {
        assert text[i] == id[i - |prefix|];
      } else if i < |prefix| + |id| + |middle| {
        assert text[i] == middle[i - |prefix| - |id|];
      } else {
        assert text[i] == d[i - |prefix| - |id| - |middle|];
      }
    }
  }

  /** As written, a store conflict on the first attempt ends the loop at
      once with the conflict error. */
  lemma {:induction false} ConflictIsNotRetried<W>(w: W, maxRetries: int, run: (W, nat) -> Step<W>,
                                                  id: Uuid, v: int, err: Error)
    requires maxRetries > 0 && EventStore.IsDuplicateKey(err)
    requires run(w, 0).failure == Some(EventStore.SaveError(id, v, err))
    ensures Retry(w, maxRetries, run, IsOptimisticLockError) ==
      Outcome(run(w, 0).state, Some(EventStore.SaveError(id, v, err)), 1, [])
  {
    ConflictIsNotRecognised(id, v, err);
  }

  /** The classifier the loop evidently needs: the error's code is the
      optimistic-lock code, found anywhere on the unwrap chain. */
  predicate IsConflict(err: Error) {
    HasCode(err, OptimisticLock)
  }

  /** The store's conflict error is recognised, and its other failures are
      not. */
  lemma ConflictIsRecognised(id: Uuid, v: int, err: Error)
    ensures IsConflict(EventStore.SaveError(id, v, err)) <==> EventStore.IsDuplicateKey(err)
  {
    EventStore.SaveErrorClassifies(id, v, err);
  }

  /** With that classifier, a store conflict on the first attempt leads to a
      second attempt after 10 ms when attempts remain. */
  lemma {:induction false} ConflictIsRetried<W>(w: W, maxRetries: int, run: (W, nat) -> Step<W>,
                                               id: Uuid, v: int, err: Error)
    requires maxRetries > 1 && EventStore.IsDuplicateKey(err)
    requires run(w, 0).failure == Some(EventStore.SaveError(id, v, err))
    ensures var r := Retry(w, maxRetries, run, IsConflict);
      r.attempts >= 2 && r.delays[0] == 10
  {
    ConflictIsRecognised(id, v, err);
  }
}
