/** When to send again, and when to repeat a durable pass, under a clock that may
    stop, jump or run backwards. */
module RetrySchedules {
  import opened Journal

  const MAX_DELAY_MS: nat := 2_147_483_647

  function Min(a: nat, b: nat): nat { if a < b then a else b }

  function Pow2(k: nat): (r: nat)
    ensures r >= 1
  {
    if k == 0 then 1 else 2 * Pow2(k - 1)
  }

  /** The delay after the k-th claim of one attempt, counting from 0. */
  function Delay(initial: nat, max: nat, k: nat): (r: nat)
    ensures r <= max
  {
    Min(max, initial * Pow2(k))
  }

  /** Doubling the capped delay is capping the doubled one. */
  lemma DelayDoubles(initial: nat, max: nat, k: nat)
    ensures Min(max, Delay(initial, max, k) * 2) == Delay(initial, max, k + 1)
  {
    assert initial * Pow2(k + 1) == 2 * (initial * Pow2(k));
  }

  ghost predicate Spaced(claims: seq<real>, initial: nat, max: nat) {
    forall k :: 0 <= k < |claims| - 1 ==> claims[k + 1] - claims[k] >= Delay(initial, max, k) as real
  }

  lemma DelayAtLeast(initial: nat, max: nat, k: nat)
    requires initial <= max
    ensures Delay(initial, max, k) >= initial
  {
    var doubled := Pow2(k);
    assert initial * doubled >= initial * 1;
  }

  /** However the clock behaved, n claims of one attempt take at least n - 1 initial
      delays, so no window of time holds more sends than that allows. */
  lemma {:induction false} ClaimsSpan(claims: seq<real>, initial: nat, max: nat, i: nat, j: nat)
    requires Spaced(claims, initial, max) && initial <= max && i <= j < |claims|
    ensures claims[j] - claims[i] >= (initial * (j - i)) as real
    decreases j - i
  {
    hide Delay;
    if i < j {
      ClaimsSpan(claims, initial, max, i, j - 1);
      var k := j - 1;
      assert claims[k + 1] - claims[k] >= Delay(initial, max, k) as real;
      DelayAtLeast(initial, max, k);
      assert initial * (j - i) == initial * (k - i) + initial;
    }
  }

  function Ceil(x: real): int { -((-x).Floor) }

  /** A claim that waited long enough keeps the spacing. */
  lemma SpacedMore(claims: seq<real>, now: real, initial: nat, max: nat)
    requires Spaced(claims, initial, max)
    requires claims != [] ==> now - claims[|claims| - 1] >= Delay(initial, max, |claims| - 1) as real
    ensures Spaced(claims + [now], initial, max)
  {
    hide Delay;
  }

  /** A clock reading that is not negative and leaves room for the longest delay. */
  predicate Usable(reading: Option<real>, maxDelayMs: nat) {
    reading.Some? && maxDelayMs <= MAX_SAFE_INTEGER && 0.0 <= reading.value <= (MAX_SAFE_INTEGER - maxDelayMs) as real
  }

  /** The clock never runs backwards, and an unusable reading leaves it where it was. */
  function Latest(last: real, reading: Option<real>, maxDelayMs: nat): (r: real)
    ensures r >= last
  {
    if Usable(reading, maxDelayMs) && reading.value > last then reading.value else last
  }

  class BroadcastRetrySchedule {
    const initialDelayMs: nat
    const maxDelayMs: nat
    /** What the clock gives, reading by reading: none when it throws or is not finite. */
    const readings: nat -> Option<real>
    var ticks: nat
    var attemptId: Option<Uuid>
    var dueAt: real
    var nextDelayMs: nat
    var lastNow: real
    /** Times of the successful claims since the current attempt was tracked. */
    ghost var claims: seq<real>
    ghost var earliest: real

    ghost predicate Valid()
      reads this
    {
      && 0 < initialDelayMs <= maxDelayMs <= MAX_DELAY_MS
      && 0.0 <= lastNow <= (MAX_SAFE_INTEGER - maxDelayMs) as real
      && 0.0 <= dueAt <= MAX_SAFE_INTEGER as real
      && nextDelayMs == Delay(initialDelayMs, maxDelayMs, |claims|)
      && Spaced(claims, initialDelayMs, maxDelayMs)
      && (attemptId.None? ==> claims == [])
      && (claims == [] ==> dueAt == earliest)
      && (claims != [] ==>
            && claims[0] >= earliest && claims[|claims| - 1] <= lastNow
            && dueAt == claims[|claims| - 1] + Delay(initialDelayMs, maxDelayMs, |claims| - 1) as real)
    }

    /** The options are refused unless both delays are positive, ordered and bounded. */
    static method Create(initialDelayMs: nat, maxDelayMs: nat, readings: nat -> Option<real>) returns (r: Option<BroadcastRetrySchedule>)
      ensures r.Some? <==> 0 < initialDelayMs <= maxDelayMs <= MAX_DELAY_MS
      ensures r.Some? ==> r.value.Valid() && fresh(r.value) && r.value.attemptId.None?
    {
      if initialDelayMs == 0 || maxDelayMs < initialDelayMs || maxDelayMs > MAX_DELAY_MS { return None; }
      var s := new BroadcastRetrySchedule(initialDelayMs, maxDelayMs, readings);
      return Some(s);
    }

    constructor (initialDelayMs: nat, maxDelayMs: nat, readings: nat -> Option<real>)
      requires 0 < initialDelayMs <= maxDelayMs <= MAX_DELAY_MS
      ensures Valid() && attemptId.None? && this.readings == readings && ticks == 0
    {
      this.initialDelayMs, this.maxDelayMs, this.readings, ticks := initialDelayMs, maxDelayMs, readings, 0;
      attemptId, dueAt, nextDelayMs, lastNow := None, 0.0, initialDelayMs, 0.0;
      claims, earliest := [], 0.0;
    }

    /** An unusable clock throws; a clock that went back reads as its latest value. */
    method ReadNow() returns (ok: bool)
      requires Valid()
      modifies this`lastNow, this`ticks
      ensures Valid() && ticks == old(ticks) + 1
      ensures ok <==> Usable(readings(old(ticks)), maxDelayMs)
      ensures lastNow == Latest(old(lastNow), readings(old(ticks)), maxDelayMs)
    {
      var reading := readings(ticks);
      ticks := ticks + 1;
      if !Usable(reading, maxDelayMs) { return false; }
      if reading.value > lastNow { lastNow := reading.value; }
      return true;
    }

    /** Repeated observation of one attempt keeps its schedule. An attempt that may
        already be on the network first waits the initial delay. */
    method Track(attempt: Option<(Uuid, bool)>) returns (ok: bool)
      requires Valid()
      modifies this
      ensures Valid()
      ensures attempt.None? ==> ok && attemptId.None?
      ensures attempt.Some? && old(attemptId) == Some(attempt.value.0) ==>
        ok && attemptId == old(attemptId) && dueAt == old(dueAt) && claims == old(claims) && nextDelayMs == old(nextDelayMs)
      ensures attempt.Some? && ok && old(attemptId) != Some(attempt.value.0) ==>
        && attemptId == Some(attempt.value.0) && claims == []
        && dueAt == lastNow + (if attempt.value.1 then initialDelayMs as real else 0.0)
      ensures !ok ==> attemptId == old(attemptId) && dueAt == old(dueAt) && claims == old(claims)
      ensures var asks := attempt.Some? && old(attemptId) != Some(attempt.value.0);
        && ticks == (if asks then old(ticks) + 1 else old(ticks))
        && (ok <==> (asks ==> Usable(readings(old(ticks)), maxDelayMs)))
        && lastNow == if asks then Latest(old(lastNow), readings(old(ticks)), maxDelayMs) else old(lastNow)
    {
      if attempt.None? {
        attemptId, dueAt, nextDelayMs := None, 0.0, initialDelayMs;
        claims, earliest := [], 0.0;
        return true;
      }
      var (id, mayBeBroadcast) := attempt.value;
      if attemptId == Some(id) { return true; }
      ok := ReadNow();
      if !ok { return false; }
      attemptId := Some(id);
      dueAt := lastNow + if mayBeBroadcast then initialDelayMs as real else 0.0;
      nextDelayMs := initialDelayMs;
      claims, earliest := [], dueAt;
    }

    /** A successful claim happens no earlier than its due time, and the k-th gap is
        at least the initial delay doubled k times, capped at the maximum. */
    method Claim(id: Uuid) returns (ok: bool, claimed: bool)
      requires Valid()
      modifies this
      ensures Valid() && attemptId == old(attemptId)
      ensures claimed ==> ok && attemptId == Some(id) && claims == old(claims) + [lastNow] && lastNow >= old(dueAt)
      ensures claimed && |old(claims)| > 0 ==>
        lastNow - old(claims)[|old(claims)| - 1] >= Delay(initialDelayMs, maxDelayMs, |old(claims)| - 1) as real
      ensures !claimed ==> claims == old(claims) && dueAt == old(dueAt) && nextDelayMs == old(nextDelayMs)
      ensures claimed <==> old(attemptId) == Some(id) && ok && lastNow >= old(dueAt)
      ensures ok <==> (old(attemptId) == Some(id) ==> Usable(readings(old(ticks)), maxDelayMs))
      ensures lastNow == if old(attemptId) == Some(id) then Latest(old(lastNow), readings(old(ticks)), maxDelayMs) else old(lastNow)
    {
      hide Spaced;
      hide Delay;
      if attemptId != Some(id) { return true, false; }
      ok := ReadNow();
      if !ok || lastNow < dueAt { return ok, false; }
      SpacedMore(claims, lastNow, initialDelayMs, maxDelayMs);
      dueAt := lastNow + nextDelayMs as real;
      DelayDoubles(initialDelayMs, maxDelayMs, |claims|);
      nextDelayMs := Min(maxDelayMs, nextDelayMs * 2);
      claims := claims + [lastNow];
      return true, true;
    }

    /** Whole milliseconds until the tracked attempt is due; waiting that long is
        enough, and one millisecond less is not. */
    method DelayMs() returns (ok: bool, delay: Option<nat>)
      requires Valid()
      modifies this`lastNow, this`ticks
      ensures Valid() && (attemptId.None? ==> ok && delay.None?)
      ensures ok && attemptId.Some? ==> delay.Some? && lastNow + delay.value as real >= dueAt
      ensures delay.Some? && delay.value > 0 ==> lastNow + (delay.value - 1) as real < dueAt
    {
      if attemptId.None? { return true, None; }
      ok := ReadNow();
      if !ok { return false, None; }
      var left := Ceil(dueAt - lastNow);
      return true, Some(if left < 0 then 0 else left);
    }
  }

  class DurableRecoverySchedule {
    const refreshIntervalMs: nat
    /** What the clock gives, reading by reading: none when it is not finite. */
    const readings: nat -> Option<real>
    var ticks: nat
    var completed: Option<(Anchor, real)>

    constructor (refreshIntervalMs: nat, readings: nat -> Option<real>)
      requires refreshIntervalMs > 0
      ensures this.refreshIntervalMs == refreshIntervalMs && this.readings == readings && ticks == 0 && completed.None?
    {
      this.refreshIntervalMs, this.readings, ticks, completed := refreshIntervalMs, readings, 0, None;
    }

    /** The last pass completed at this very anchor, less than the interval before the
        next reading of a usable clock that has not gone back. */
    predicate Lately(anchor: Anchor)
      reads this
    {
      && completed.Some? && completed.value.0 == anchor && readings(ticks).Some?
      && 0.0 <= readings(ticks).value - completed.value.1 < refreshIntervalMs as real
    }

    /** The clock is read only when the anchor is the completed one. */
    method IsDue(anchor: Anchor) returns (due: bool)
      modifies this`ticks
      ensures due <==> !old(Lately(anchor))
      ensures ticks == old(ticks) + if completed.Some? && completed.value.0 == anchor then 1 else 0
    {
      if completed.None? || completed.value.0 != anchor { return true; }
      var now := readings(ticks);
      ticks := ticks + 1;
      if now.None? || now.value - completed.value.1 < 0.0 { return true; }
      return now.value - completed.value.1 >= refreshIntervalMs as real;
    }

    /** A completion is kept with the time it was recorded at, by a usable clock. */
    method RecordCompleted(anchor: Anchor)
      modifies this`ticks, this`completed
      ensures ticks == old(ticks) + 1
      ensures completed == if readings(old(ticks)).Some? then Some((anchor, readings(old(ticks)).value)) else None
    {
      var now := readings(ticks);
      ticks := ticks + 1;
      completed := if now.None? then None else Some((anchor, now.value));
    }

    method Invalidate()
      modifies this`completed
      ensures completed.None?
    {
      completed := None;
    }
  }
}
