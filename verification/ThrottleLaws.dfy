/** What the answers to earlier attempts say about the next one: when credentials are looked
    at, what a success resets, and exactly when a refused check locks
    (app/services/auth_throttle.py, app/api/auth.py). */
module ThrottleLaws {
  import opened Prelude
  import opened AuthThrottle

  // ---------------------------------------------------------------- a success

  lemma SnocAnswers(s: Settings, tries: seq<Try>, t: Try)
    ensures RowAfter(s, tries + [t]) == Attempt(s, RowAfter(s, tries), t.now, t.credentialsMatch).0
    ensures LastAnswer(s, tries + [t]) == Attempt(s, RowAfter(s, tries), t.now, t.credentialsMatch).1
  {
    Snoc(s, tries, t, 0);
  }

  /** Right credentials are accepted unless the key is locked, and wrong ones never are. */
  lemma AcceptedExactly(s: Settings, tries: seq<Try>)
    requires tries != []
    ensures LastAnswer(s, tries).Accepted? <==> tries[|tries| - 1].credentialsMatch && !LastAnswer(s, tries).Locked?
  {
  }

  lemma AcceptedClears(s: Settings, tries: seq<Try>)
    requires tries != [] && LastAnswer(s, tries).Accepted?
    ensures RowAfter(s, tries).None?
  {
  }

  /** After an accepted attempt the key is as if it had never been used: every later run leaves
      the same row and gets the same answers. */
  lemma {:induction false} SuccessForgets(s: Settings, tries: seq<Try>, more: seq<Try>)
    requires tries != [] && LastAnswer(s, tries).Accepted?
    ensures RowAfter(s, tries + more) == RowAfter(s, more)
    ensures more != [] ==> LastAnswer(s, tries + more) == LastAnswer(s, more)
    decreases |more|
  {
    if more == [] {
      AppendNil(tries);
      AcceptedClears(s, tries);
    } else {
      var init, t := more[..|more| - 1], more[|more| - 1];
      SuccessForgets(s, tries, init);
      assert more == init + [t] && tries + more == (tries + init) + [t];
      SnocAnswers(s, init, t);
      SnocAnswers(s, tries + init, t);
    }
  }

  // --------------------------------------------------------- the current window

  predicate RefusedAt(s: Settings, tries: seq<Try>, i: nat)
    requires i < |tries|
  {
    LastAnswer(s, tries[..i + 1]).Refused?
  }

  /** The refused check that opened the current window: the first one since the last success,
      or since a lock ended, or since the window before it was over. */
  function Opening(s: Settings, tries: seq<Try>): (o: Option<nat>)
    ensures o.Some? ==> o.value < |tries|
    decreases |tries|
  {
    if tries == [] then None
    else
      var init, now := tries[..|tries| - 1], tries[|tries| - 1].now;
      match LastAnswer(s, tries)
      case Accepted => None
      case Locked(_) => Opening(s, init)
      case Refused(_) =>
        var before := Opening(s, init);
        if before.None? || EndedInLock(s, init) || tries[before.value].now + s.window <= now then Some(|tries| - 1) else before
  }

  /** The last refused check was answered with a lock. */
  predicate EndedInLock(s: Settings, tries: seq<Try>)
    decreases |tries|
  {
    tries != [] &&
    match LastAnswer(s, tries)
    case Accepted => false
    case Locked(_) => EndedInLock(s, tries[..|tries| - 1])
    case Refused(until) => until.Some?
  }

  /** How many checks were refused from the i-th attempt on. */
  function RefusedSince(s: Settings, tries: seq<Try>, i: nat): nat
    decreases |tries|
  {
    if |tries| <= i then 0
    else RefusedSince(s, tries[..|tries| - 1], i) + (if LastAnswer(s, tries).Refused? then 1 else 0)
  }

  /** The row is the tally of the current window. */
  ghost predicate Tallies(s: Settings, tries: seq<Try>, row: Option<Row>) {
    match Opening(s, tries)
    case None => row.None?
    case Some(o) =>
      row.Some? && row.value.windowStartedAt == tries[o].now && row.value.failureCount == RefusedSince(s, tries, o)
      && (row.value.lockedUntil.Some? <==> EndedInLock(s, tries))
  }

  lemma {:induction false} RowTallies(s: Settings, tries: seq<Try>)
    ensures Tallies(s, tries, RowAfter(s, tries))
    decreases |tries|
  {
    if tries != [] {
      var init, t := tries[..|tries| - 1], tries[|tries| - 1];
      RowTallies(s, init);
      TallyOneMore(s, init, t);
      assert tries == init + [t];
    }
  }

  lemma NothingSince(s: Settings, tries: seq<Try>)
    ensures RefusedSince(s, tries, |tries|) == 0
  {
  }

  lemma TallyOneMore(s: Settings, init: seq<Try>, t: Try)
    requires Tallies(s, init, RowAfter(s, init))
    ensures Tallies(s, init + [t], RowAfter(s, init + [t]))
  {
    var tries := init + [t];
    assert tries[..|init|] == init && tries[|init|] == t;
    assert forall i :: 0 <= i < |init| ==> tries[i] == init[i];
    SnocAnswers(s, init, t);
    NothingSince(s, init);
  }

  /** A refused check is answered with a lock, of the set length, if and only if it is at least
      the F-th refused check of its window; and it never is more than the F-th (the first when
      F < 2), because a lock ends the window. */
  lemma LocksExactly(s: Settings, tries: seq<Try>)
    requires tries != [] && LastAnswer(s, tries).Refused?
    ensures var o := Opening(s, tries);
            o.Some? &&
            var n := RefusedSince(s, tries, o.value);
            1 <= n <= Max(s.failures, 1) &&
            LastAnswer(s, tries).lockedUntil == (if n >= s.failures then Some(tries[|tries| - 1].now + s.lock) else None)
  {
    RowTallies(s, tries);
    RowIsSmall(s, tries);
    RefusedWritesRow(s, tries);
  }

  lemma RefusedWritesRow(s: Settings, tries: seq<Try>)
    requires tries != [] && LastAnswer(s, tries).Refused?
    ensures var row := RowAfter(s, tries);
            row.Some? && row.value.lockedUntil == LastAnswer(s, tries).lockedUntil && Opening(s, tries).Some? &&
            (row.value.lockedUntil.Some? ==> row.value.lockedUntil.value == tries[|tries| - 1].now + s.lock)
  {
    RowIsSmall(s, tries[..|tries| - 1]);
  }

  /** A row counts at most the threshold, and is locked exactly from the threshold on. */
  lemma {:induction false} RowIsSmall(s: Settings, tries: seq<Try>)
    ensures var row := RowAfter(s, tries);
            row.Some? ==> 1 <= row.value.failureCount <= Max(s.failures, 1) &&
                          (row.value.lockedUntil.Some? <==> row.value.failureCount >= s.failures)
    decreases |tries|
  {
    if tries != [] { RowIsSmall(s, tries[..|tries| - 1]); }
  }

  // ------------------------------------------------------------------- the lock

  /** The lock that an earlier refused check set: nothing since was later than its end. */
  ghost predicate UnderLock(s: Settings, tries: seq<Try>, m: nat, until: Time) {
    && 0 < m < |tries| && LastAnswer(s, tries[..m]) == Refused(Some(until))
    && forall i :: m <= i < |tries| ==> tries[i].now < until
  }

  /** Where a locked row got its lock. */
  lemma {:induction false} LockHasOrigin(s: Settings, tries: seq<Try>) returns (m: nat)
    requires RowAfter(s, tries).Some? && RowAfter(s, tries).value.lockedUntil.Some?
    ensures var until := RowAfter(s, tries).value.lockedUntil.value;
            0 < m <= |tries| && LastAnswer(s, tries[..m]) == Refused(Some(until)) &&
            forall i :: m <= i < |tries| ==> tries[i].now < until
    decreases |tries|
  {
    var init, t := tries[..|tries| - 1], tries[|tries| - 1];
    assert tries == init + [t] && tries[..|tries|] == tries;
    SnocAnswers(s, init, t);
    if LastAnswer(s, tries).Refused? {
      m := |tries|;
    } else {
      m := LockHasOrigin(s, init);
      assert init[..m] == tries[..m];
      assert forall i :: m <= i < |init| ==> tries[i] == init[i];
    }
  }

  /** The seconds to wait: the whole ones left, and one when there is none. */
  predicate WholeSeconds(seconds: int, left: Time) {
    seconds >= 1 && left < (seconds + 1) * 1_000_000 && (left >= 1_000_000 ==> seconds * 1_000_000 <= left)
    && (left < 1_000_000 ==> seconds == 1)
  }

  lemma RunningLockRefuses(s: Settings, tries: seq<Try>, m: nat, until: Time)
    requires UnderLock(s, tries, m, until)
    ensures LastAnswer(s, tries).Locked?
  {
    var before, more := tries[..m], tries[m..];
    assert before + more == tries;
    assert forall i :: 0 <= i < |more| ==> more[i] == tries[m + i];
    LockHolds(s, before, more, until);
  }

  lemma LockedIsUnderLock(s: Settings, tries: seq<Try>) returns (m: nat, until: Time)
    requires tries != [] && LastAnswer(s, tries).Locked?
    ensures UnderLock(s, tries, m, until) && LastAnswer(s, tries).retryAfter == RetryAfter(until, tries[|tries| - 1].now)
  {
    var init, t := tries[..|tries| - 1], tries[|tries| - 1];
    m := LockHasOrigin(s, init);
    until := RowAfter(s, init).value.lockedUntil.value;
    assert init[..m] == tries[..m];
    assert forall i :: m <= i < |init| ==> tries[i] == init[i];
  }

  lemma RetryIsWholeSeconds(until: Time, now: Time)
    requires now < until
    ensures WholeSeconds(RetryAfter(until, now), until - now)
  {
  }

  /** An attempt is turned away unchecked if and only if a lock of an earlier refused check is
      still running; it is told to come back after the whole seconds left, but at least one. */
  lemma TurnedAwayExactly(s: Settings, tries: seq<Try>)
    requires tries != []
    ensures LastAnswer(s, tries).Locked? <==> exists m: nat, until :: UnderLock(s, tries, m, until)
    ensures LastAnswer(s, tries).Locked? ==>
              exists m: nat, until :: UnderLock(s, tries, m, until) &&
                WholeSeconds(LastAnswer(s, tries).retryAfter, until - tries[|tries| - 1].now)
  {
    if LastAnswer(s, tries).Locked? {
      var m, until := LockedIsUnderLock(s, tries);
      RetryIsWholeSeconds(until, tries[|tries| - 1].now);
    }
    if m: nat, until :| UnderLock(s, tries, m, until) { RunningLockRefuses(s, tries, m, until); }
  }
}
