/** The failure counter that guards credential checks (app/services/auth_throttle.py)
    and its use by the two guarded endpoints (app/api/auth.py). */
module AuthThrottle {
  import opened Prelude

  /** A point in time or a duration, in microseconds. */
  type Time = int

  datatype Settings = Settings(failures: int, window: Time, lock: Time)

  /** A row of `auth_throttles`. */
  datatype Row = Row(failureCount: int, windowStartedAt: Time, lockedUntil: Option<Time>)

  function ThrottleKey(action: string, clientIp: string): string { action + ":" + clientIp }

  function LockExpiry(row: Option<Row>, now: Time): Option<Time> {
    if row.None? || row.value.lockedUntil.None? || row.value.lockedUntil.value <= now then None
    else row.value.lockedUntil
  }

  function AfterFailure(s: Settings, row: Option<Row>, now: Time): Row {
    var counted :=
      if row.None? then Row(1, now, None)
      else if (row.value.lockedUntil.Some? && row.value.lockedUntil.value <= now)
           || row.value.windowStartedAt + s.window <= now then Row(1, now, None)
      else row.value.(failureCount := row.value.failureCount + 1);
    if counted.failureCount >= s.failures then counted.(lockedUntil := Some(now + s.lock)) else counted
  }

  /** What one guarded attempt answers: refused while locked, credentials refused, or accepted. */
  datatype Answer = Locked(retryAfter: int) | Refused(lockedUntil: Option<Time>) | Accepted

  function RetryAfter(lockedUntil: Time, now: Time): int { Max(1, (lockedUntil - now) / 1_000_000) }

  /** One attempt on one key: the row afterwards and the answer. */
  function Attempt(s: Settings, row: Option<Row>, now: Time, credentialsMatch: bool): (Option<Row>, Answer) {
    var expiry := LockExpiry(row, now);
    if expiry.Some? then (row, Locked(RetryAfter(expiry.value, now)))
    else if credentialsMatch then (None, Accepted)
    else
      var after := AfterFailure(s, row, now);
      (Some(after), Refused(after.lockedUntil))
  }

  // ---------------------------------------------------------------- the table

  class ThrottleTable {
    var rows: map<string, Row>

    constructor ()
      ensures rows == map[]
    {
      rows := map[];
    }

    function Get(key: string): Option<Row>
      reads this
    {
      if key in rows then Some(rows[key]) else None
    }

    method GetLockExpiry(action: string, clientIp: string, now: Time) returns (expiry: Option<Time>)
      ensures expiry == LockExpiry(Get(ThrottleKey(action, clientIp)), now)
    {
      var key := ThrottleKey(action, clientIp);
      if key !in rows { return None; }
      var row := rows[key];
      if row.lockedUntil.None? || row.lockedUntil.value <= now { return None; }
      return row.lockedUntil;
    }

    method RecordFailure(action: string, clientIp: string, now: Time, s: Settings) returns (lockedUntil: Option<Time>)
      modifies this
      ensures var key := ThrottleKey(action, clientIp);
              rows == old(rows)[key := AfterFailure(s, old(Get(key)), now)] && lockedUntil == rows[key].lockedUntil
    {
      var key := ThrottleKey(action, clientIp);
      var row: Row;
      if key !in rows {
        row := Row(1, now, None);
      } else {
        row := rows[key];
        if (row.lockedUntil.Some? && row.lockedUntil.value <= now) || row.windowStartedAt + s.window <= now {
          row := row.(failureCount := 1);
          row := row.(windowStartedAt := now);
          row := row.(lockedUntil := None);
        } else {
          row := row.(failureCount := row.failureCount + 1);
        }
      }
      if row.failureCount >= s.failures {
        row := row.(lockedUntil := Some(now + s.lock));
      }
      rows := rows[key := row];
      return row.lockedUntil;
    }

    method ClearFailures(action: string, clientIp: string)
      modifies this
      ensures rows == old(rows) - {ThrottleKey(action, clientIp)}
    {
      var key := ThrottleKey(action, clientIp);
      if key !in rows { return; }
      rows := rows - {key};
    }

    /** `login` and `verify_passphrase`, up to minting a token. No other key is touched. */
    method GuardedAttempt(action: string, clientIp: string, now: Time, credentialsMatch: bool, s: Settings)
      returns (answer: Answer)
      modifies this
      ensures var key := ThrottleKey(action, clientIp);
              (Get(key), answer) == Attempt(s, old(Get(key)), now, credentialsMatch) &&
              rows - {key} == old(rows) - {key}
    {
      var lockedUntil := GetLockExpiry(action, clientIp, now);
      if lockedUntil.Some? { return Locked(RetryAfter(lockedUntil.value, now)); }
      if !credentialsMatch {
        lockedUntil := RecordFailure(action, clientIp, now, s);
        return Refused(lockedUntil);
      }
      ClearFailures(action, clientIp);
      return Accepted;
    }
  }

  // ------------------------------------------------------------- runs on one key

  datatype Try = Try(now: Time, credentialsMatch: bool)

  function RowAfter(s: Settings, tries: seq<Try>): Option<Row> {
    if tries == [] then None
    else
      var last := tries[|tries| - 1];
      Attempt(s, RowAfter(s, tries[..|tries| - 1]), last.now, last.credentialsMatch).0
  }

  /** The answer to the last attempt of a run. */
  function LastAnswer(s: Settings, tries: seq<Try>): Answer
    requires tries != []
  {
    var last := tries[|tries| - 1];
    Attempt(s, RowAfter(s, tries[..|tries| - 1]), last.now, last.credentialsMatch).1
  }

  predicate Chronological(tries: seq<Try>) {
    forall i, j :: 0 <= i < j < |tries| ==> tries[i].now <= tries[j].now
  }

  /** The attempts in [from, from + length) whose credentials were checked and refused. */
  function Failures(s: Settings, tries: seq<Try>, from: Time, length: Time): nat {
    if tries == [] then 0
    else
      var last := tries[|tries| - 1];
      Failures(s, tries[..|tries| - 1], from, length) +
      (if from <= last.now < from + length && LastAnswer(s, tries).Refused? then 1 else 0)
  }

  /** No attempt in [from, from + length) is accepted. */
  ghost predicate NoSuccess(s: Settings, tries: seq<Try>, from: Time, length: Time) {
    forall n :: 0 < n <= |tries| && from <= tries[n - 1].now < from + length ==> !LastAnswer(s, tries[..n]).Accepted?
  }

  // ----------------------------------------------------------------- the bound

  /** Most refused checks that one window length can hold. */
  function Bound(s: Settings): int { if s.failures >= 2 then 2 * s.failures - 2 else 1 }

  /** A stored row counts between 1 and the threshold, and is locked from the threshold on. */
  ghost predicate RowInv(s: Settings, row: Row) {
    && 1 <= row.failureCount <= Max(s.failures, 1)
    && (row.lockedUntil.Some? <==> row.failureCount >= s.failures)
    && (row.lockedUntil.Some? ==> row.lockedUntil.value >= row.windowStartedAt + s.lock)
  }

  /** How the failures seen so far in [from, from + window) relate to the row. */
  ghost predicate Tally(s: Settings, row: Option<Row>, now: Time, from: Time, n: int) {
    && (row.Some? ==> RowInv(s, row.value) && row.value.windowStartedAt <= now)
    && n <= Bound(s)
    && (now < from ==> n == 0)
    && (from <= now < from + s.window ==>
         match row
         case None => n == 0
         case Some(r) =>
           if r.windowStartedAt >= from then n <= r.failureCount + Max(s.failures - 2, 0)
           else if r.lockedUntil.None? then n <= r.failureCount - 1
           else n == 0 || (r.lockedUntil.value >= from + s.window && n <= s.failures - 1))
  }

  ghost predicate Sensible(s: Settings) { 0 < s.window <= s.lock }

  /** Time passing keeps the tally. */
  lemma TallyLater(s: Settings, row: Option<Row>, now: Time, later: Time, from: Time, n: int)
    requires Sensible(s) && Tally(s, row, now, from, n) && now <= later
    ensures Tally(s, row, later, from, n)
  {
  }

  /** One attempt keeps the tally. */
  lemma TallyAttempt(s: Settings, row: Option<Row>, t: Try, from: Time, n: int)
    requires Sensible(s) && Tally(s, row, t.now, from, n)
    requires from <= t.now < from + s.window ==> !Attempt(s, row, t.now, t.credentialsMatch).1.Accepted?
    ensures var (after, answer) := Attempt(s, row, t.now, t.credentialsMatch);
            var n' := n + (if from <= t.now < from + s.window && answer.Refused? then 1 else 0);
            Tally(s, after, t.now, from, n')
  {
  }

  lemma {:induction false} TallyAlways(s: Settings, tries: seq<Try>, from: Time, last: Time)
    requires Sensible(s) && Chronological(tries) && NoSuccess(s, tries, from, s.window)
    requires tries != [] ==> last == tries[|tries| - 1].now
    requires tries == [] ==> last < from
    ensures Tally(s, RowAfter(s, tries), last, from, Failures(s, tries, from, s.window))
    decreases |tries|
  {
    if tries != [] {
      var init, t := tries[..|tries| - 1], tries[|tries| - 1];
      forall n | 0 < n <= |init| && from <= init[n - 1].now < from + s.window ensures !LastAnswer(s, init[..n]).Accepted? {
        assert init[..n] == tries[..n] && init[n - 1] == tries[n - 1];
      }
      assert tries[..|tries|] == tries && tries[|tries| - 1] == t;
      var n := Failures(s, init, from, s.window);
      if init == [] {
        TallyAlways(s, init, from, Min(from - 1, t.now));
        TallyLater(s, None, Min(from - 1, t.now), t.now, from, n);
      } else {
        TallyAlways(s, init, from, init[|init| - 1].now);
        TallyLater(s, RowAfter(s, init), init[|init| - 1].now, t.now, from, n);
      }
      TallyAttempt(s, RowAfter(s, init), t, from, n);
    }
  }

  /** With a lock no shorter than the window, no half-open interval of one window length
      without a success holds more than 2F - 2 refused credential checks (one when F < 2). */
  lemma RateBound(s: Settings, tries: seq<Try>, from: Time)
    requires Sensible(s) && Chronological(tries) && NoSuccess(s, tries, from, s.window)
    ensures Failures(s, tries, from, s.window) <= Bound(s)
  {
    TallyAlways(s, tries, from, if tries == [] then from - 1 else tries[|tries| - 1].now);
  }

  // ------------------------------------------------- the bound is exact and needed

  lemma Snoc(s: Settings, tries: seq<Try>, t: Try, from: Time)
    ensures RowAfter(s, tries + [t]) == Attempt(s, RowAfter(s, tries), t.now, t.credentialsMatch).0
    ensures LastAnswer(s, tries + [t]) == Attempt(s, RowAfter(s, tries), t.now, t.credentialsMatch).1
    ensures Failures(s, tries + [t], from, s.window) == Failures(s, tries, from, s.window) +
              (if from <= t.now < from + s.window && LastAnswer(s, tries + [t]).Refused? then 1 else 0)
  {
    assert (tries + [t])[..|tries|] == tries;
  }

  /** The row lets a guess at `now` open a new window. */
  predicate Opens(s: Settings, row: Option<Row>, now: Time) {
    row.None? || (row.value.lockedUntil.Some? && row.value.lockedUntil.value <= now)
    || (row.value.lockedUntil.None? && row.value.windowStartedAt + s.window <= now)
  }

  function Counted(s: Settings, count: int, started: Time, now: Time): Row {
    Row(count, started, if count >= s.failures then Some(now + s.lock) else None)
  }

  lemma OneMoreGuess(s: Settings, c: nat, started: Time, now: Time)
    requires 1 <= c < s.failures && now < started + s.window
    ensures Attempt(s, Some(Row(c, started, None)), now, false).0 == Some(Counted(s, c + 1, started, now))
    ensures Attempt(s, Some(Row(c, started, None)), now, false).1.Refused?
  {
  }

  lemma FirstGuess(s: Settings, row: Option<Row>, now: Time)
    requires Opens(s, row, now)
    ensures Attempt(s, row, now, false).0 == Some(Counted(s, 1, now, now))
    ensures Attempt(s, row, now, false).1.Refused?
  {
  }

  /** Only wrong guesses, none later than `now`. */
  ghost predicate WrongUntil(tries: seq<Try>, now: Time) {
    Chronological(tries) && forall i :: 0 <= i < |tries| ==> !tries[i].credentialsMatch && tries[i].now <= now
  }

  lemma WrongSnoc(tries: seq<Try>, now: Time)
    requires WrongUntil(tries, now)
    ensures WrongUntil(tries + [Try(now, false)], now)
  {
  }

  /** How the refused checks in one window grow. */
  predicate Added(s: Settings, tries: seq<Try>, more: seq<Try>, n: nat, now: Time, from: Time) {
    Failures(s, more, from, s.window) == Failures(s, tries, from, s.window) + (if from <= now < from + s.window then n else 0)
  }

  lemma GuessAgain(s: Settings, tries: seq<Try>, c: nat, started: Time, now: Time, from: Time) returns (more: seq<Try>)
    requires RowAfter(s, tries) == Some(Row(c, started, None)) && 1 <= c < s.failures && now < started + s.window
    requires WrongUntil(tries, now)
    ensures RowAfter(s, more) == Some(Counted(s, c + 1, started, now))
    ensures WrongUntil(more, now) && Added(s, tries, more, 1, now, from)
  {
    more := tries + [Try(now, false)];
    OneMoreGuess(s, c, started, now);
    Snoc(s, tries, Try(now, false), from);
    WrongSnoc(tries, now);
  }

  /** A burst below the threshold is counted guess by guess. */
  lemma {:induction false} BurstContinues(s: Settings, tries: seq<Try>, c: nat, started: Time, now: Time, n: nat, from: Time)
    returns (more: seq<Try>)
    requires RowAfter(s, tries) == Some(Row(c, started, None)) && 1 <= c < s.failures && c + n <= s.failures
    requires now < started + s.window && WrongUntil(tries, now)
    ensures RowAfter(s, more) == Some(Counted(s, c + n, started, now))
    ensures WrongUntil(more, now) && Added(s, tries, more, n, now, from)
    decreases n
  {
    more := tries;
    if n > 0 {
      var init := BurstContinues(s, tries, c, started, now, n - 1, from);
      more := GuessAgain(s, init, c + n - 1, started, now, from);
    }
  }

  lemma BurstOpens(s: Settings, tries: seq<Try>, now: Time, n: nat, from: Time) returns (more: seq<Try>)
    requires Opens(s, RowAfter(s, tries), now) && 1 <= n <= Max(s.failures, 1) && s.window > 0 && WrongUntil(tries, now)
    ensures RowAfter(s, more) == Some(Counted(s, n, now, now))
    ensures WrongUntil(more, now) && Added(s, tries, more, n, now, from)
  {
    var first := tries + [Try(now, false)];
    FirstGuess(s, RowAfter(s, tries), now);
    Snoc(s, tries, Try(now, false), from);
    WrongSnoc(tries, now);
    more := first;
    if n > 1 { more := BurstContinues(s, first, 1, now, now, n - 1, from); }
  }

  lemma GuessesAreRefused(s: Settings, tries: seq<Try>, from: Time)
    requires forall i :: 0 <= i < |tries| ==> !tries[i].credentialsMatch
    ensures NoSuccess(s, tries, from, s.window)
  {
    forall n | 0 < n <= |tries| ensures !LastAnswer(s, tries[..n]).Accepted? { }
  }

  ghost predicate BoundHolds(s: Settings) {
    forall tries, from :: Chronological(tries) && NoSuccess(s, tries, from, s.window) ==>
      Failures(s, tries, from, s.window) <= Bound(s)
  }

  /** With a shorter lock, two full bursts fit in one window. */
  lemma ShortLockAllowsTwoBursts(s: Settings) returns (tries: seq<Try>)
    requires 0 < s.window && s.lock < s.window
    ensures Chronological(tries) && NoSuccess(s, tries, 0, s.window)
    ensures Failures(s, tries, 0, s.window) == 2 * Max(s.failures, 1)
  {
    var f: nat := Max(s.failures, 1);
    var later := Max(s.lock, 0);
    var first := BurstOpens(s, [], 0, f, 0);
    tries := BurstOpens(s, first, later, f, 0);
    GuessesAreRefused(s, tries, 0);
  }

  /** The bound holds for every run exactly when the lock is no shorter than the window. */
  lemma RateBoundExactly(s: Settings)
    requires s.window > 0
    ensures BoundHolds(s) <==> s.lock >= s.window
  {
    if s.lock >= s.window {
      forall tries, from | Chronological(tries) && NoSuccess(s, tries, from, s.window)
        ensures Failures(s, tries, from, s.window) <= Bound(s)
      {
        RateBound(s, tries, from);
      }
    } else {
      var tries := ShortLockAllowsTwoBursts(s);
      assert Failures(s, tries, 0, s.window) > Bound(s);
    }
  }

  lemma OneGuess(s: Settings, from: Time) returns (tries: seq<Try>)
    requires Sensible(s)
    ensures WrongUntil(tries, 0) && RowAfter(s, tries) == Some(Counted(s, 1, 0, 0))
    ensures Failures(s, tries, from, s.window) == if from <= 0 < from + s.window then 1 else 0
  {
    tries := [] + [Try(0, false)];
    FirstGuess(s, None, 0);
    Snoc(s, [], Try(0, false), from);
  }

  /** One guess, and the rest of its window's allowance at the window's end. */
  lemma FirstWindow(s: Settings) returns (tries: seq<Try>)
    requires Sensible(s) && s.window >= 2 && s.failures >= 2
    ensures var from := s.window - 1;
            WrongUntil(tries, from) && RowAfter(s, tries) == Some(Row(s.failures - 1, 0, None)) &&
            Failures(s, tries, from, s.window) == s.failures - 2
  {
    var from := s.window - 1;
    var one := OneGuess(s, from);
    tries := one;
    if s.failures > 2 { tries := BurstContinues(s, one, 1, 0, from, s.failures - 2, from); }
  }

  /** A full burst in the next window besides. */
  lemma TwoWindows(s: Settings) returns (tries: seq<Try>)
    requires Sensible(s) && s.window >= 2 && s.failures >= 2
    ensures WrongUntil(tries, s.window)
    ensures Failures(s, tries, s.window - 1, s.window) == 2 * s.failures - 2
  {
    var first := FirstWindow(s);
    tries := BurstOpens(s, first, s.window, s.failures, s.window - 1);
  }

  /** The bound is reached: some run has exactly that many refused checks in one window. */
  lemma RateBoundIsReached(s: Settings) returns (tries: seq<Try>, from: Time)
    requires Sensible(s) && s.window >= 2
    ensures Chronological(tries) && NoSuccess(s, tries, from, s.window)
    ensures Failures(s, tries, from, s.window) == Bound(s)
  {
    if s.failures < 2 {
      from := 0;
      tries := OneGuess(s, 0);
    } else {
      from := s.window - 1;
      tries := TwoWindows(s);
    }
    GuessesAreRefused(s, tries, from);
  }

  /** Once an attempt is answered with a lock, every attempt before the lock expires is
      refused without looking at the credentials, and the row does not move. */
  lemma {:induction false} LockHolds(s: Settings, tries: seq<Try>, more: seq<Try>, until: Time)
    requires tries != [] && LastAnswer(s, tries) == Refused(Some(until))
    requires forall i :: 0 <= i < |more| ==> more[i].now < until
    ensures RowAfter(s, tries + more) == RowAfter(s, tries)
    ensures more != [] ==> LastAnswer(s, tries + more).Locked?
    decreases |more|
  {
    if more == [] {
      AppendNil(tries);
    } else {
      var init := more[..|more| - 1];
      LockHolds(s, tries, init, until);
      assert tries + more == (tries + init) + [more[|more| - 1]];
      Snoc(s, tries + init, more[|more| - 1], 0);
    }
  }

  lemma KeyChars(action: string, clientIp: string)
    ensures var k := ThrottleKey(action, clientIp);
            |k| > |action| && k[|action|] == ':' && forall i :: 0 <= i < |action| ==> k[i] == action[i]
  {
  }

  /** Keys of different actions or addresses never collide: an action has no colon. */
  lemma KeysAreDistinct(action: string, clientIp: string, action': string, clientIp': string)
    requires ':' !in action && ':' !in action'
    ensures ThrottleKey(action, clientIp) == ThrottleKey(action', clientIp') <==> action == action' && clientIp == clientIp'
  {
    var k, k' := ThrottleKey(action, clientIp), ThrottleKey(action', clientIp');
    if k == k' {
      KeyChars(action, clientIp);
      KeyChars(action', clientIp');
      assert |action| == |action'|;
      assert k[..|action|] == action && k'[..|action'|] == action';
      assert k[|action| + 1..] == clientIp && k'[|action'| + 1..] == clientIp';
    }
  }
}
