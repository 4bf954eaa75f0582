/** Restart backoff of a supervised collector. */
module Supervisor {
  import opened Types

  const BACKOFF_SCHEDULE_SECS: seq<nat> := [10, 30, 60, 300]
  const BACKOFF_RESET_AFTER: Duration := 300 * SECOND

  function Sum(s: seq<nat>): nat {
    if s == [] then 0 else Sum(s[..|s| - 1]) + s[|s| - 1]
  }

  lemma SumAppend(s: seq<nat>, x: nat)
    ensures Sum(s + [x]) == Sum(s) + x
  {
    assert (s + [x])[..|s|] == s;
  }

  /** How many exits have gone by since the last run of at least the reset time, that run's own
      exit being number 0; counted from `start` while there was no such run. */
  function SinceReset(start: nat, runs: seq<Duration>): nat {
    if runs == [] then start
    else if runs[|runs| - 1] >= BACKOFF_RESET_AFTER then 1
    else SinceReset(start, runs[..|runs| - 1]) + 1
  }

  /** How many exits lie between exit `k` and the last run, not after run `k`, of at least five
      minutes; that run's own exit is followed by no others. */
  function ExitsBefore(start: nat, runs: seq<Duration>, k: nat): nat
    requires k < |runs|
  {
    if runs[k] >= 300_000_000_000 then 0
    else if k == 0 then start
    else ExitsBefore(start, runs, k - 1) + 1
  }

  lemma {:induction false} ExitsAreCounted(start: nat, runs: seq<Duration>, k: nat)
    requires k < |runs|
    ensures ExitsBefore(start, runs, k) == if runs[k] >= BACKOFF_RESET_AFTER then 0 else SinceReset(start, runs[..k])
    decreases k
  {
    if k > 0 && runs[k] < BACKOFF_RESET_AFTER {
      ExitsAreCounted(start, runs, k - 1);
      assert runs[..k][..k - 1] == runs[..k - 1];
    }
  }

  function Slot(n: nat): nat {
    if n < |BACKOFF_SCHEDULE_SECS| then n else |BACKOFF_SCHEDULE_SECS| - 1
  }

  /** The wait after exit `k`: the schedule slot of the exits since the last reset. */
  function WaitAfter(start: nat, runs: seq<Duration>, k: nat): Duration
    requires k < |runs|
  {
    BACKOFF_SCHEDULE_SECS[Slot(if runs[k] >= BACKOFF_RESET_AFTER then 0 else SinceReset(start, runs[..k]))] * SECOND
  }

  /** Saved-up allowance in seconds at each index: what the longer waits ahead will pay back. */
  function Potential(idx: nat): nat
    requires idx < |BACKOFF_SCHEDULE_SECS|
  {
    [0, 370, 680, 900][idx]
  }

  /** One cycle pays for itself: three times its length and the allowance gained cover 400
      seconds. */
  lemma CyclePays(idx: nat, elapsed: Duration, slot: nat, next: nat)
    requires idx < |BACKOFF_SCHEDULE_SECS| && slot == (if elapsed >= BACKOFF_RESET_AFTER then 0 else idx)
    requires next == if slot + 1 < |BACKOFF_SCHEDULE_SECS| then slot + 1 else |BACKOFF_SCHEDULE_SECS| - 1
    ensures 3 * (elapsed + BACKOFF_SCHEDULE_SECS[slot] * SECOND) + Potential(next) * SECOND
            >= 400 * SECOND + Potential(idx) * SECOND
  {
  }

  /** `waits` follows the schedule over the runs so far. */
  predicate OnSchedule(start: nat, runs: seq<Duration>, waits: seq<Duration>) {
    |waits| == |runs| && forall k :: 0 <= k < |runs| ==> waits[k] == WaitAfter(start, runs, k)
  }

  /** Whatever mix of short and long runs occurs, n cycles together pay for themselves. */
  lemma {:induction false} RestartsAreAmortised(start: nat, runs: seq<Duration>, waits: seq<Duration>)
    requires start < |BACKOFF_SCHEDULE_SECS| && OnSchedule(start, runs, waits)
    ensures 3 * (Sum(runs) + Sum(waits)) + Potential(Slot(SinceReset(start, runs))) * SECOND
            >= (400 * |runs| + Potential(start)) * SECOND
    decreases |runs|
  {
    if runs != [] {
      var n := |runs| - 1;
      var before := runs[..n];
      forall k | 0 <= k < n ensures waits[k] == WaitAfter(start, before, k) {
        assert before[..k] == runs[..k];
      }
      RestartsAreAmortised(start, before, waits[..n]);
      var idx := Slot(SinceReset(start, before));
      CyclePays(idx, runs[n], if runs[n] >= BACKOFF_RESET_AFTER then 0 else idx, Slot(SinceReset(start, runs)));
    }
  }

  /** The restart loop over a finite run of unexpected exits, entered at any index: run `k`
      lasts `runs[k]`, then the supervisor waits `waits[k]`. The waits follow the schedule by
      the number of exits since the last long run, the index stays in range, and the n cycles
      together take at least (400 n - 900) / 3 seconds. */
  method Supervise(start: nat, runs: seq<Duration>) returns (waits: seq<Duration>, backoffIdx: nat)
    requires start < |BACKOFF_SCHEDULE_SECS|
    ensures OnSchedule(start, runs, waits)
    ensures forall k :: 0 <= k < |runs| ==>
              waits[k] == (var exits := ExitsBefore(start, runs, k);
                           if exits == 0 then 10 else if exits == 1 then 30 else if exits == 2 then 60 else 300) * 1_000_000_000
    ensures backoffIdx < |BACKOFF_SCHEDULE_SECS| && backoffIdx == Slot(SinceReset(start, runs))
    ensures 3 * (Sum(runs) + Sum(waits)) + 900 * SECOND >= 400 * |runs| * SECOND
  {
    backoffIdx := start;
    waits := [];
    for k := 0 to |runs|
      invariant |waits| == k && backoffIdx == Slot(SinceReset(start, runs[..k]))
      invariant forall j :: 0 <= j < k ==> waits[j] == WaitAfter(start, runs, j)
    {
      var elapsed := runs[k];
      assert runs[..k + 1][..k] == runs[..k];
      if elapsed >= BACKOFF_RESET_AFTER {
        backoffIdx := 0;
      }
      waits := waits + [BACKOFF_SCHEDULE_SECS[backoffIdx] * SECOND];
      backoffIdx := if backoffIdx + 1 < |BACKOFF_SCHEDULE_SECS| then backoffIdx + 1 else |BACKOFF_SCHEDULE_SECS| - 1;
    }
    assert runs[..|runs|] == runs;
    forall k | 0 <= k < |runs|
      ensures waits[k] == (var exits := ExitsBefore(start, runs, k);
                           if exits == 0 then 10 else if exits == 1 then 30 else if exits == 2 then 60 else 300) * 1_000_000_000
    {
      ExitsAreCounted(start, runs, k);
    }
    RestartsAreAmortised(start, runs, waits);
  }

  /** The bound cannot be improved: three exits in a row from a fresh start, each at once, take
      100 seconds, which is exactly (400 * 3 - 900) / 3. */
  lemma BoundIsTight()
    ensures var runs := [0, 0, 0];
            3 * (Sum(runs) + Sum([WaitAfter(0, runs, 0), WaitAfter(0, runs, 1), WaitAfter(0, runs, 2)]))
            == (400 * 3 - 900) * SECOND
  {
    var runs: seq<Duration> := [0, 0, 0];
    assert runs[..0] == [] && runs[..1] == [0] && runs[..2] == [0, 0];
    assert [0, 0][..1] == [0] && [0][..0] == [];
    assert SinceReset(0, [0]) == 1 && SinceReset(0, [0, 0]) == 2;
    assert Sum([0]) == 0 && Sum([0, 0]) == 0 && Sum(runs) == 0;
    SumAppend([], 10 * SECOND);
    SumAppend([10 * SECOND], 30 * SECOND);
    SumAppend([10 * SECOND, 30 * SECOND], 60 * SECOND);
    assert [] + [10 * SECOND] == [10 * SECOND];
    assert [10 * SECOND] + [30 * SECOND] == [10 * SECOND, 30 * SECOND];
    assert [10 * SECOND, 30 * SECOND] + [60 * SECOND] == [10 * SECOND, 30 * SECOND, 60 * SECOND];
  }
}
