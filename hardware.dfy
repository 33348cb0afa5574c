/**
 * What the program observes of the machine, as an oracle value: the durations the
 * calibrated workload `loop()` measures (loop.c), the readings of the timestamp
 * counter (`sync_rdtsc1`/`sync_rdtsc2`), and the frequencies written by `setFreq`
 * (FreqSetter.c). Each call consumes the next entry; nothing else is assumed.
 */
module Hardware {
  import opened Words

  datatype Machine = Machine(
    durations: nat -> uint64,  // what the k-th call of loop() returns
    calls: nat,                // calls of loop() made so far
    clock: nat -> uint64,      // the k-th timestamp-counter reading
    stamps: nat,               // timestamp readings made so far
    requests: seq<uint32>)     // frequencies requested with setFreq, oldest first
  {
    /** The durations the next `n` calls of loop() return. */
    function Upcoming(n: nat): (s: seq<uint64>)
      ensures |s| == n
      ensures forall i :: 0 <= i < n ==> s[i] == durations(calls + i)
    {
      Window(durations, calls, n)
    }

    /** The machine after `n` more calls of loop(). */
    function Skip(n: nat): Machine {
      this.(calls := calls + n)
    }
  }

  /** The durations of calls `from` to `from + n - 1` of loop(). */
  function Window(durations: nat -> uint64, from: nat, n: nat): (s: seq<uint64>)
    ensures |s| == n
    ensures forall i :: 0 <= i < n ==> s[i] == durations(from + i)
  {
    seq(n, i requires 0 <= i => durations(from + i))
  }

  /** Only the durations and the call count decide what loop() returns next. */
  lemma SameUpcoming(a: Machine, b: Machine, n: nat)
    requires a.durations == b.durations && a.calls == b.calls
    ensures a.Upcoming(n) == b.Upcoming(n)
  {
  }

  /** `loop()`: one run of the calibrated workload, returning its duration in cycles. */
  method Loop(m: Machine) returns (duration: uint64, m': Machine)
    ensures duration == m.durations(m.calls)
    ensures m' == m.Skip(1)
  {
    duration := m.durations(m.calls);
    m' := m.Skip(1);
  }

  /** `sync_rdtsc1`/`sync_rdtsc2`: one serialized reading of the timestamp counter. */
  method ReadTsc(m: Machine) returns (stamp: uint64, m': Machine)
    ensures stamp == m.clock(m.stamps)
    ensures m' == m.(stamps := m.stamps + 1)
  {
    stamp := m.clock(m.stamps);
    m' := m.(stamps := m.stamps + 1);
  }

  /** `setFreq`: a frequency request; when it takes effect is up to the hardware. */
  function SetFreq(m: Machine, freq: uint32): Machine {
    m.(requests := m.requests + [freq])
  }
}
