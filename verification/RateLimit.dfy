/**
 check_rate_limit: a fixed-window counter per key, one row each, updated in
 place, together with the reset after a successful login and the periodic prune
 of expired rows.
 */
module RateLimit {

  type Key = string
  type Time = int

  const MAX_INTEGER := 0x7FFF_FFFF

  /** SQL's integer, in which the limit, the window in milliseconds and the count are kept. */
  type Integer = x: int | -MAX_INTEGER - 1 <= x <= MAX_INTEGER

  datatype Row = Row(count: Integer, resetAt: Time)
  type Table = map<Key, Row>

  predicate Expired(row: Row, now: Time) {
    row.resetAt < now
  }

  /** Counting past the largest integer is an error, which the caller answers with a refusal. */
  function Counted(rows: Table, key: Key, window: Integer, now: Time): Table {
    if key !in rows || Expired(rows[key], now) then rows[key := Row(1, now + window)]
    else if rows[key].count == MAX_INTEGER then rows
    else rows[key := Row(rows[key].count + 1, rows[key].resetAt)]
  }

  predicate Allowed(rows: Table, key: Key, max: Integer, now: Time) {
    if key !in rows || Expired(rows[key], now) then 1 <= max
    else rows[key].count < MAX_INTEGER && rows[key].count + 1 <= max
  }

  function Pruned(rows: Table, now: Time): Table {
    map k | k in rows && !Expired(rows[k], now) :: rows[k]
  }

  class RateLimiter {
    var rows: Table

    constructor ()
      ensures rows == map[]
    {
      rows := map[];
    }

    method Check(key: Key, max: Integer, window: Integer, now: Time) returns (allowed: bool)
      modifies this
      ensures rows == Counted(old(rows), key, window, now)
      ensures allowed == Allowed(old(rows), key, max, now)
    {
      var count: Integer := 1;
      if key !in rows {
        rows := rows[key := Row(1, now + window)];
      } else if rows[key].resetAt < now {
        rows := rows[key := Row(1, now + window)];
      } else if rows[key].count == MAX_INTEGER {
        return false;
      } else {
        count := rows[key].count + 1;
        rows := rows[key := rows[key].(count := count)];
      }
      return count <= max;
    }

    /** The key's next call is answered as its first ever, and no other key notices. */
    method Reset(key: Key)
      modifies this
      ensures rows == old(rows) - {key}
      ensures forall max: Integer, now: Time :: Allowed(rows, key, max, now) <==> 1 <= max
      ensures forall k, max: Integer, now: Time :: k != key ==>
                (Allowed(rows, k, max, now) <==> Allowed(old(rows), k, max, now))
    {
      rows := rows - {key};
    }

    /** Only expired rows go, and no call from now on is answered differently. */
    method Prune(now: Time)
      modifies this
      ensures rows == Pruned(old(rows), now)
      ensures forall k :: k in rows ==> k in old(rows) && rows[k] == old(rows)[k] && !Expired(rows[k], now)
      ensures forall k, max: Integer, later: Time :: later >= now ==>
                (Allowed(rows, k, max, later) <==> Allowed(old(rows), k, max, later))
    {
      rows := map k | k in rows && rows[k].resetAt >= now :: rows[k];
    }
  }

  // -------------------------------------------------------------------
  // Runs
  // -------------------------------------------------------------------

  datatype Event =
    | Call(key: Key, max: Integer, window: Integer, now: Time)
    | ResetKey(key: Key, now: Time)
    | Prune(now: Time)

  function Apply(rows: Table, e: Event): Table {
    match e
    case Call(key, _, window, now) => Counted(rows, key, window, now)
    case ResetKey(key, _) => rows - {key}
    case Prune(now) => Pruned(rows, now)
  }

  /** The clock does not run backwards. */
  predicate InOrder(clock: Time, es: seq<Event>)
    decreases |es|
  {
    es == [] || (clock <= es[0].now && InOrder(es[0].now, es[1..]))
  }

  /** What the calls are answered, in order. */
  function Answers(rows: Table, es: seq<Event>): seq<bool>
    decreases |es|
  {
    if es == [] then []
    else
      (if es[0].Call? then [Allowed(rows, es[0].key, es[0].max, es[0].now)] else [])
      + Answers(Apply(rows, es[0]), es[1..])
  }

  // -------------------------------------------------------------------
  // Pruning cannot be observed, and keys do not influence each other
  // -------------------------------------------------------------------

  predicate Live(rows: Table, key: Key, clock: Time) {
    key in rows && !Expired(rows[key], clock)
  }

  /** The same row for the key, or none that still matters. */
  predicate Alike(a: Table, b: Table, key: Key, clock: Time) {
    || (key in a && key in b && a[key] == b[key])
    || (!Live(a, key, clock) && !Live(b, key, clock))
  }

  lemma CallsKeepAlike(a: Table, b: Table, key: Key, clock: Time, e: Event)
    requires Alike(a, b, key, clock) && clock <= e.now && !e.Prune?
    ensures Alike(Apply(a, e), Apply(b, e), key, e.now)
    ensures e.Call? && e.key == key ==> Allowed(a, key, e.max, e.now) == Allowed(b, key, e.max, e.now)
  {
  }

  lemma PruneKeepsAlike(a: Table, b: Table, key: Key, clock: Time, now: Time)
    requires Alike(a, b, key, clock) && clock <= now
    ensures Alike(Pruned(a, now), b, key, now)
  {
  }

  function WithoutPrunes(es: seq<Event>): seq<Event> {
    if es == [] then []
    else (if es[0].Prune? then [] else [es[0]]) + WithoutPrunes(es[1..])
  }

  ghost predicate AllAlike(a: Table, b: Table, clock: Time) {
    forall k :: Alike(a, b, k, clock)
  }

  lemma {:induction false} PruningKeepsAnswers(a: Table, b: Table, clock: Time, es: seq<Event>)
    requires AllAlike(a, b, clock) && InOrder(clock, es)
    ensures Answers(a, es) == Answers(b, WithoutPrunes(es))
    decreases |es|
  {
    if es != [] {
      var e := es[0];
      if e.Prune? {
        forall k: Key
          ensures Alike(Apply(a, e), b, k, e.now)
        {
          PruneKeepsAlike(a, b, k, clock, e.now);
        }
        PruningKeepsAnswers(Apply(a, e), b, e.now, es[1..]);
        assert WithoutPrunes(es) == WithoutPrunes(es[1..]);
      } else {
        forall k: Key
          ensures Alike(Apply(a, e), Apply(b, e), k, e.now)
        {
          assert Alike(a, b, k, clock);
          CallsKeepAlike(a, b, k, clock, e);
        }
        if e.Call? {
          assert Alike(a, b, e.key, clock);
          CallsKeepAlike(a, b, e.key, clock, e);
        }
        PruningKeepsAnswers(Apply(a, e), Apply(b, e), e.now, es[1..]);
        assert WithoutPrunes(es) == [e] + WithoutPrunes(es[1..]);
        assert WithoutPrunes(es)[1..] == WithoutPrunes(es[1..]);
      }
    }
  }

  /** Prunes, however many and wherever in the run, change no answer. */
  lemma PruningIsUnobservable(rows: Table, clock: Time, es: seq<Event>)
    requires InOrder(clock, es)
    ensures Answers(rows, es) == Answers(rows, WithoutPrunes(es))
  {
    PruningKeepsAnswers(rows, rows, clock, es);
  }

  /** With a clock that runs backwards a prune does change an answer. */
  lemma PruningShowsWhenTheClockRunsBack(key: Key)
    ensures var rows: Table := map[key := Row(1, 10)];
            Answers(rows, [Prune(11), Call(key, 1, 5, 10)]) == [true]
            && Answers(rows, WithoutPrunes([Prune(11), Call(key, 1, 5, 10)])) == [false]
  {
    var rows: Table := map[key := Row(1, 10)];
    var es := [Prune(11), Call(key, 1, 5, 10)];
    assert es[1..] == [Call(key, 1, 5, 10)] && es[1..][1..] == [];
    assert Pruned(rows, 11) == map[];
    assert WithoutPrunes(es[1..]) == [Call(key, 1, 5, 10)] + WithoutPrunes([]);
    assert Answers(map[], [Call(key, 1, 5, 10)]) == [true] + Answers(Apply(map[], es[1]), []);
    assert Answers(rows, [Call(key, 1, 5, 10)]) == [false] + Answers(Apply(rows, es[1]), []);
  }

  function AnswersFor(rows: Table, es: seq<Event>, key: Key): seq<bool>
    decreases |es|
  {
    if es == [] then []
    else
      (if es[0].Call? && es[0].key == key then [Allowed(rows, key, es[0].max, es[0].now)] else [])
      + AnswersFor(Apply(rows, es[0]), es[1..], key)
  }

  function Only(es: seq<Event>, key: Key): seq<Event> {
    if es == [] then []
    else (if !es[0].Prune? && es[0].key == key then [es[0]] else []) + Only(es[1..], key)
  }

  lemma {:induction false} OnlyOwnEventsMatter(a: Table, b: Table, clock: Time, es: seq<Event>, key: Key)
    requires Alike(a, b, key, clock) && InOrder(clock, es)
    ensures AnswersFor(a, es, key) == Answers(b, Only(es, key))
    decreases |es|
  {
    if es != [] {
      var e := es[0];
      if e.Prune? {
        PruneKeepsAlike(a, b, key, clock, e.now);
        OnlyOwnEventsMatter(Apply(a, e), b, e.now, es[1..], key);
        assert Only(es, key) == Only(es[1..], key);
      } else if e.key != key {
        OnlyOwnEventsMatter(Apply(a, e), b, e.now, es[1..], key);
        assert Only(es, key) == Only(es[1..], key);
      } else {
        CallsKeepAlike(a, b, key, clock, e);
        OnlyOwnEventsMatter(Apply(a, e), Apply(b, e), e.now, es[1..], key);
        assert Only(es, key)[1..] == Only(es[1..], key);
      }
    }
  }

  /** What a key is answered follows from that key's own calls and resets, starting from its own row. */
  lemma KeysAreIndependent(rows: Table, clock: Time, es: seq<Event>, key: Key)
    requires InOrder(clock, es)
    ensures AnswersFor(rows, es, key) ==
            Answers(if key in rows then map[key := rows[key]] else map[], Only(es, key))
  {
    OnlyOwnEventsMatter(rows, if key in rows then map[key := rows[key]] else map[], clock, es, key);
  }

  /**
   After a reset, at any point of a run, the key is answered as if it had never been
   called, and every other key as if nothing had happened.
   */
  lemma ResetForgetsTheKey(rows: Table, clock: Time, key: Key, es: seq<Event>, other: Key)
    requires InOrder(clock, es) && other != key
    ensures AnswersFor(rows, [ResetKey(key, clock)] + es, key) == Answers(map[], Only(es, key))
    ensures AnswersFor(rows, [ResetKey(key, clock)] + es, other) == AnswersFor(rows, es, other)
  {
    var reset := [ResetKey(key, clock)] + es;
    assert reset[1..] == es;
    var rows' := Apply(rows, ResetKey(key, clock));
    OnlyOwnEventsMatter(rows', map[], clock, es, key);
    OnlyOwnEventsMatter(rows', rows, clock, es, other);
    OnlyOwnEventsMatter(rows, rows, clock, es, other);
  }

  // -------------------------------------------------------------------
  // One window
  // -------------------------------------------------------------------

  function Calls(key: Key, max: Integer, window: Integer, times: seq<Time>): (es: seq<Event>)
    ensures |es| == |times|
    ensures forall i :: 0 <= i < |times| ==> es[i] == Call(key, max, window, times[i])
  {
    if times == [] then [] else [Call(key, max, window, times[0])] + Calls(key, max, window, times[1..])
  }

  lemma {:induction false} CallsWithinAWindow(rows: Table, key: Key, max: Integer, window: Integer,
                                              times: seq<Time>, i: nat)
    requires key in rows && rows[key].count >= 1 && i < |times|
    requires forall j :: 0 <= j < |times| ==> times[j] <= rows[key].resetAt
    ensures |Answers(rows, Calls(key, max, window, times))| == |times|
    ensures Answers(rows, Calls(key, max, window, times))[i] <==> rows[key].count + i < max
    decreases |times|
  {
    var es := Calls(key, max, window, times);
    var rest := Calls(key, max, window, times[1..]);
    assert es[1..] == rest;
    var rows' := Apply(rows, es[0]);
    assert Answers(rows, es) == [Allowed(rows, key, max, times[0])] + Answers(rows', rest);
    if |times| > 1 {
      CallsWithinAWindow(rows', key, max, window, times[1..], if i == 0 then 0 else i - 1);
    }
  }

  /** From one reset of the window until it expires, exactly the first `max` calls are accepted. */
  lemma ExactlyTheFirstCalls(rows: Table, key: Key, max: Integer, window: Integer, times: seq<Time>, i: nat)
    requires i < |times| && !Live(rows, key, times[0])
    requires forall j :: 0 < j < |times| ==> times[j] <= times[0] + window
    ensures |Answers(rows, Calls(key, max, window, times))| == |times|
    ensures Answers(rows, Calls(key, max, window, times))[i] <==> i < max
  {
    var es := Calls(key, max, window, times);
    assert es[1..] == Calls(key, max, window, times[1..]);
    var rows' := Apply(rows, es[0]);
    assert Answers(rows, es) == [1 <= max] + Answers(rows', es[1..]);
    if |times| > 1 {
      CallsWithinAWindow(rows', key, max, window, times[1..], if i == 0 then 0 else i - 1);
    }
  }

  // -------------------------------------------------------------------
  // Any interval as long as the window
  // -------------------------------------------------------------------

  predicate Within(now: Time, a: Time, b: Time) {
    a <= now <= b
  }

  predicate IsAccepted(rows: Table, e: Event, key: Key, a: Time, b: Time) {
    e.Call? && e.key == key && Within(e.now, a, b) && Allowed(rows, key, e.max, e.now)
  }

  predicate IsReset(e: Event, key: Key, a: Time, b: Time) {
    e.ResetKey? && e.key == key && Within(e.now, a, b)
  }

  /** Accepted calls on `key` from `a` to `b`, both ends included. */
  function Accepted(rows: Table, es: seq<Event>, key: Key, a: Time, b: Time): nat
    decreases |es|
  {
    if es == [] then 0
    else (if IsAccepted(rows, es[0], key, a, b) then 1 else 0) + Accepted(Apply(rows, es[0]), es[1..], key, a, b)
  }

  function Resets(es: seq<Event>, key: Key, a: Time, b: Time): nat {
    if es == [] then 0
    else (if IsReset(es[0], key, a, b) then 1 else 0) + Resets(es[1..], key, a, b)
  }

  predicate SameLimit(e: Event, key: Key, max: Integer, window: Integer) {
    e.Call? && e.key == key ==> e.max == max && e.window == window
  }

  /** Calls on `key` all use the same limit and window; calls on other keys may use any. */
  predicate FixedLimit(es: seq<Event>, key: Key, max: Integer, window: Integer) {
    forall i :: 0 <= i < |es| ==> SameLimit(es[i], key, max, window)
  }

  /** The key's row was counted up from 1 in a window that began no later than now. */
  predicate RowInOrder(rows: Table, clock: Time, key: Key, window: Integer) {
    key in rows ==> rows[key].count >= 1 && rows[key].resetAt - window <= clock
  }

  /** What the current row still admits. */
  function Left(rows: Table, key: Key, max: int): int {
    if key !in rows || rows[key].count >= max then 0 else max - rows[key].count
  }

  /** A bound on what can still be accepted from `a` to `a + window` if no reset comes in between. */
  function Potential(rows: Table, clock: Time, key: Key, max: int, window: Integer, a: Time): int {
    if clock > a + window then 0
    else if clock < a then 2 * max - 1
    else Left(rows, key, max) + if key in rows && rows[key].resetAt - window >= a then 0 else max
  }

  lemma CallSpendsPotential(rows: Table, clock: Time, e: Event, max: Integer, a: Time)
    requires e.Call? && max >= 1 && e.max == max && clock <= e.now && RowInOrder(rows, clock, e.key, e.window)
    ensures RowInOrder(Apply(rows, e), e.now, e.key, e.window)
    ensures (if IsAccepted(rows, e, e.key, a, a + e.window) then 1 else 0)
            + Potential(Apply(rows, e), e.now, e.key, max, e.window, a)
            <= Potential(rows, clock, e.key, max, e.window, a)
  {
  }

  lemma StepSpendsPotential(rows: Table, clock: Time, e: Event, key: Key, max: Integer, window: Integer, a: Time)
    requires max >= 1 && clock <= e.now && RowInOrder(rows, clock, key, window) && SameLimit(e, key, max, window)
    ensures RowInOrder(Apply(rows, e), e.now, key, window)
    ensures (if IsAccepted(rows, e, key, a, a + window) then 1 else 0)
            + Potential(Apply(rows, e), e.now, key, max, window, a)
            <= Potential(rows, clock, key, max, window, a) + if IsReset(e, key, a, a + window) then max else 0
  {
    if e.Call? && e.key == key {
      CallSpendsPotential(rows, clock, e, max, a);
    } else if e.Prune? {
      assert key in Apply(rows, e) ==> key in rows && Apply(rows, e)[key] == rows[key];
      assert key in rows && key !in Apply(rows, e) ==> rows[key].resetAt < e.now;
    }
  }

  lemma {:induction false} PotentialBounds(rows: Table, clock: Time, es: seq<Event>, key: Key, max: Integer,
                                           window: Integer, a: Time)
    requires max >= 1 && InOrder(clock, es) && FixedLimit(es, key, max, window)
    requires RowInOrder(rows, clock, key, window)
    ensures Accepted(rows, es, key, a, a + window)
            <= Potential(rows, clock, key, max, window, a) + max * Resets(es, key, a, a + window)
    decreases |es|
  {
    if es != [] {
      var e, rest := es[0], es[1..];
      assert SameLimit(es[0], key, max, window);
      StepSpendsPotential(rows, clock, e, key, max, window, a);
      assert forall i :: 0 <= i < |rest| ==> rest[i] == es[i + 1];
      PotentialBounds(Apply(rows, e), e.now, rest, key, max, window, a);
      var one, more := if IsReset(e, key, a, a + window) then 1 else 0, Resets(rest, key, a, a + window);
      assert max * (one + more) == max * one + max * more;
    }
  }

  lemma {:induction false} NoLimitAcceptsNothing(rows: Table, clock: Time, es: seq<Event>, key: Key,
                                                 max: Integer, window: Integer, a: Time)
    requires max < 1 && FixedLimit(es, key, max, window) && RowInOrder(rows, clock, key, window) && InOrder(clock, es)
    ensures Accepted(rows, es, key, a, a + window) == 0
    decreases |es|
  {
    if es != [] {
      assert SameLimit(es[0], key, max, window);
      assert forall i :: 0 <= i < |es[1..]| ==> es[1..][i] == es[i + 1];
      NoLimitAcceptsNothing(Apply(rows, es[0]), es[0].now, es[1..], key, max, window, a);
    }
  }

  /**
   Sliding window: whatever happens on other keys, and however often the table is
   pruned, a closed interval as long as the window holds fewer than twice the limit
   of accepted calls, plus once the limit for every reset inside it.
   */
  lemma SlidingWindowBound(rows: Table, clock: Time, es: seq<Event>, key: Key, max: Integer, window: Integer, a: Time)
    requires InOrder(clock, es) && FixedLimit(es, key, max, window) && RowInOrder(rows, clock, key, window)
    ensures Accepted(rows, es, key, a, a + window) <=
            if max < 1 then 0 else 2 * max - 1 + max * Resets(es, key, a, a + window)
  {
    if max < 1 {
      NoLimitAcceptsNothing(rows, clock, es, key, max, window, a);
    } else {
      PotentialBounds(rows, clock, es, key, max, window, a);
      assert Potential(rows, clock, key, max, window, a) <= 2 * max - 1;
    }
  }

  // -------------------------------------------------------------------
  // The bound is reached
  // -------------------------------------------------------------------

  lemma {:induction false} AcceptedAtOnce(rows: Table, key: Key, max: Integer, window: Integer, t: Time, n: nat,
                                          a: Time, b: Time, tail: seq<Event>)
    requires key in rows && rows[key].count >= 1 && rows[key].count + n <= max
    requires t <= rows[key].resetAt && Within(t, a, b)
    ensures Accepted(rows, Burst(key, max, window, t, n) + tail, key, a, b) ==
            n + Accepted(rows[key := Row(rows[key].count + n, rows[key].resetAt)], tail, key, a, b)
    decreases n
  {
    var es := Burst(key, max, window, t, n) + tail;
    if n == 0 {
      assert es == tail && rows[key := Row(rows[key].count + n, rows[key].resetAt)] == rows;
    } else {
      assert es[1..] == Burst(key, max, window, t, n - 1) + tail;
      var rows' := rows[key := Row(rows[key].count + 1, rows[key].resetAt)];
      assert Apply(rows, es[0]) == rows';
      AcceptedAtOnce(rows', key, max, window, t, n - 1, a, b, tail);
      assert rows'[key := Row(rows'[key].count + (n - 1), rows'[key].resetAt)]
          == rows[key := Row(rows[key].count + n, rows[key].resetAt)];
    }
  }

  function Burst(key: Key, max: Integer, window: Integer, t: Time, n: nat): (es: seq<Event>)
    ensures |es| == n && forall i :: 0 <= i < n ==> es[i] == Call(key, max, window, t)
  {
    seq(n, i => Call(key, max, window, t))
  }

  /** One call opens a window, the rest of its limit comes as it closes, and a whole new limit just after. */
  function WorstRun(key: Key, max: Integer, window: Integer): seq<Event>
    requires max >= 1 && window >= 1
  {
    Burst(key, max, window, 0, 1)
    + (Burst(key, max, window, window, max - 1) + Burst(key, max, window, window + 1, max))
  }

  lemma BoundIsReached(key: Key, max: Integer, window: Integer)
    requires max >= 1 && window >= 1
    ensures Accepted(map[], WorstRun(key, max, window), key, 1, 1 + window) == 2 * max - 1
  {
    var es := WorstRun(key, max, window);
    var closing, opening := Burst(key, max, window, window, max - 1), Burst(key, max, window, window + 1, max);
    var begun: Table := map[key := Row(1, window)];
    assert es[1..] == closing + opening && Apply(map[], es[0]) == begun;
    AcceptedAtOnce(begun, key, max, window, window, max - 1, 1, 1 + window, opening);
    var full := map[key := Row(max, window)];
    assert begun[key := Row(1 + (max - 1), window)] == full;
    var renewed := map[key := Row(1, window + 1 + window)];
    assert Apply(full, opening[0]) == renewed;
    assert opening[1..] == Burst(key, max, window, window + 1, max - 1) + [];
    AcceptedAtOnce(renewed, key, max, window, window + 1, max - 1, 1, 1 + window, []);
    assert Accepted(full, opening, key, 1, 1 + window) == max;
  }
}
