// Deadlines and sleeps over Lv-2: pt_usec_until of the threads shim, time_left and nanosleep.
module Timeouts {
  import opened Collections

  const MAX64: int := 0x7FFF_FFFF_FFFF_FFFF      // PT_TIMEOUT_MAX_USEC too
  const MIN64: int := -0x8000_0000_0000_0000
  const MAX32: int := 0xFFFF_FFFF
  const BILLION: int := 1_000_000_000

  type S64 = x: int | MIN64 <= x <= MAX64
  type U64 = x: int | 0 <= x <= 0xFFFF_FFFF_FFFF_FFFF

  // A multiple of 1000 ns, rounding up; of no use below zero.
  function CeilUs(ns: int): int { if ns <= 0 then 0 else (ns + 999) / 1000 }

  function Min(a: int, b: int): int { if a <= b then a else b }
  function Max(a: int, b: int): int { if a <= b then b else a }

  datatype Timespec = Timespec(sec: S64, nsec: S64) {
    function Ns(): int { sec * BILLION + nsec }
    predicate Valid() { 0 <= nsec < BILLION }
  }

  // ---- pt_usec_until ----

  function Overflows(x: int): bool { x < MIN64 || x > MAX64 }

  function UsecUntil(nowSec: S64, nowNsec: S64, abs: Timespec): int {
    var dnsec := abs.nsec - nowNsec;
    var dsec := abs.sec - nowSec;
    if Overflows(dsec) then (if abs.sec < nowSec then 1 else MAX64)
    else if dsec < 0 then 1
    else if dnsec < 0 && dsec == 0 then 1
    else
      var (d, n) := if dnsec < 0 then (dsec - 1, dnsec + BILLION) else (dsec, dnsec);
      if Overflows(d * 1_000_000) || Overflows(d * 1_000_000 + (n + 999) / 1000) then MAX64
      else if d * 1_000_000 + (n + 999) / 1000 < 1 then 1
      else d * 1_000_000 + (n + 999) / 1000
  }

  lemma CeilSplit(d: int, n: int)
    requires 0 <= d && 0 <= n < BILLION
    ensures CeilUs(d * BILLION + n) == d * 1_000_000 + (n + 999) / 1000
  {
    assert d * BILLION + n + 999 == (d * 1_000_000) * 1000 + (n + 999);
  }

  lemma CeilLeast(x: int, y: int)
    requires x <= y
    ensures CeilUs(x) <= CeilUs(y)
  {
  }

  // The rest of the way to the deadline, rounded up to whole microseconds: never the 0 that
  // means forever, and never more than the kernel takes.
  lemma UsecUntilIs(nowSec: S64, nowNsec: S64, abs: Timespec)
    requires abs.Valid() && 0 <= nowNsec < BILLION
    ensures UsecUntil(nowSec, nowNsec, abs) == Min(MAX64, Max(1, CeilUs(abs.Ns() - (nowSec * BILLION + nowNsec))))
  {
    var dsec, dnsec := abs.sec - nowSec, abs.nsec - nowNsec;
    assert abs.Ns() - (nowSec * BILLION + nowNsec) == dsec * BILLION + dnsec;
    if dsec > MAX64 {
      CeilSplit(MAX64, 0);
      CeilLeast(MAX64 * BILLION, dsec * BILLION + dnsec);
    } else if dsec >= 0 && (dsec > 0 || dnsec >= 0) {
      if dnsec < 0 { CeilSplit(dsec - 1, dnsec + BILLION); } else { CeilSplit(dsec, dnsec); }
    }
  }

  // ---- time_left ----

  function TimeLeft(request: Timespec, elapsed: U64): Timespec
    requires request.Valid() && 0 <= request.sec
  {
    var sec := elapsed / 1_000_000;
    var nsec := elapsed % 1_000_000 * 1000;
    if sec > request.sec || (sec == request.sec && nsec >= request.nsec) then Timespec(0, 0)
    else if request.nsec - nsec < 0 then Timespec(request.sec - sec - 1, request.nsec - nsec + BILLION)
    else Timespec(request.sec - sec, request.nsec - nsec)
  }

  lemma Elapsed(elapsed: U64)
    ensures elapsed / 1_000_000 * BILLION + elapsed % 1_000_000 * 1000 == elapsed * 1000
    ensures 0 <= elapsed % 1_000_000 * 1000 < BILLION
  {
  }

  lemma TimeLeftIs(request: Timespec, elapsed: U64)
    requires request.Valid() && 0 <= request.sec
    ensures var left := TimeLeft(request, elapsed);
            left.Valid() && 0 <= left.sec && left.Ns() == Max(0, request.Ns() - elapsed * 1000)
  {
    Elapsed(elapsed);
    var sec, nsec := elapsed / 1_000_000, elapsed % 1_000_000 * 1000;
    assert request.Ns() - elapsed * 1000 == (request.sec - sec) * BILLION + (request.nsec - nsec);
  }

  // ---- nanosleep ----

  const EFAULT: int := 14
  const EINVAL: int := 22
  const EINTR: int := 4

  // The next sleep: what is left, rounded up, or as much as the 32-bit argument takes.
  function Chunk(left: Timespec): int {
    if left.sec <= MAX32 / 1_000_000 then Min(MAX32, left.sec * 1_000_000 + (left.nsec + 999) / 1000) else MAX32
  }

  lemma ChunkIs(left: Timespec)
    requires left.Valid() && 0 <= left.sec && left.Ns() > 0
    ensures Chunk(left) == Min(MAX32, CeilUs(left.Ns())) && 1 <= Chunk(left) <= MAX32
  {
    CeilSplit(left.sec, left.nsec);
  }

  // A sleep of c microseconds takes c from the whole microseconds that are left.
  lemma ChunkTakes(left: Timespec)
    requires left.Valid() && 0 <= left.sec && left.Ns() > 0
    ensures 1 <= Chunk(left) <= MAX32 && Chunk(left) <= CeilUs(left.Ns())
    ensures var after := TimeLeft(left, Chunk(left));
            after.Valid() && 0 <= after.sec && after.Ns() < left.Ns() && CeilUs(after.Ns()) == CeilUs(left.Ns()) - Chunk(left)
            && (Chunk(left) < MAX32 ==> after.Ns() == 0)
  {
    ChunkIs(left);
    TimeLeftIs(left, Chunk(left));
    CeilTakes(left.Ns(), Chunk(left));
  }

  lemma CeilTakes(ns: int, c: int)
    requires 0 < ns && 1 <= c <= CeilUs(ns)
    ensures CeilUs(Max(0, ns - c * 1000)) == CeilUs(ns) - c
    ensures c == CeilUs(ns) ==> ns - c * 1000 <= 0
  {
  }

  function Sum(s: seq<int>): int { if s == [] then 0 else Sum(s[..|s| - 1]) + s[|s| - 1] }

  // What uninterrupted sleeps have done: all full but perhaps the last, after which nothing is
  // left, and together what is gone from the request.
  ghost predicate Slept(original: Timespec, left: Timespec, rc: int -> int, sleeps: seq<int>) {
    && left.Valid() && 0 <= left.sec && CeilUs(left.Ns()) == CeilUs(original.Ns()) - Sum(sleeps)
    && (forall i :: 0 <= i < |sleeps| ==> 1 <= sleeps[i] <= MAX32 && rc(i) == 0)
    && (forall i :: 0 <= i < |sleeps| && sleeps[i] < MAX32 ==> left.Ns() == 0 && i == |sleeps| - 1)
  }

  // Sleeps of which the last may have been interrupted.
  ghost predicate Interrupted(original: Timespec, rc: int -> int, sleeps: seq<int>) {
    && sleeps != [] && Sum(sleeps[..|sleeps| - 1]) < CeilUs(original.Ns())
    && (forall i :: 0 <= i < |sleeps| ==> 1 <= sleeps[i] <= MAX32 && (i < |sleeps| - 1 ==> sleeps[i] == MAX32 && rc(i) == 0))
  }

  ghost predicate Whole(original: Timespec, rc: int -> int, sleeps: seq<int>) {
    && Sum(sleeps) == CeilUs(original.Ns())
    && (forall i :: 0 <= i < |sleeps| ==> 1 <= sleeps[i] <= MAX32 && (i < |sleeps| - 1 ==> sleeps[i] == MAX32) && rc(i) == 0)
  }

  lemma SleptMore(original: Timespec, left: Timespec, rc: int -> int, sleeps: seq<int>)
    requires Slept(original, left, rc, sleeps) && left.Ns() > 0
    ensures 1 <= Chunk(left) <= MAX32
    ensures TimeLeft(left, Chunk(left)).Ns() < left.Ns() && 0 <= TimeLeft(left, Chunk(left)).Ns()
    ensures Interrupted(original, rc, sleeps + [Chunk(left)])
    ensures rc(|sleeps|) == 0 ==> Slept(original, TimeLeft(left, Chunk(left)), rc, sleeps + [Chunk(left)])
  {
    hide CeilUs, Chunk, TimeLeft;
    ChunkTakes(left);
    var more := sleeps + [Chunk(left)];
    assert more[..|more| - 1] == sleeps;
  }

  lemma SleptAll(original: Timespec, left: Timespec, rc: int -> int, sleeps: seq<int>)
    requires Slept(original, left, rc, sleeps) && left.Ns() == 0
    ensures Whole(original, rc, sleeps)
  {
    hide Sum;
  }

  lemma NothingSlept(original: Timespec, rc: int -> int)
    requires original.Valid() && 0 <= original.sec
    ensures Slept(original, original, rc, [])
  {
  }

  // rc(i) is the kernel's answer to the i-th sleep, start and now the system time before and
  // at an interruption.  An uninterrupted call sleeps for exactly the request in microseconds,
  // rounded up, in whole 32-bit sleeps and a last one; an interrupted one has slept for less
  // before it, and can report the request less what elapsed.
  method Nanosleep(request: Option<Timespec>, report: bool, rc: int -> int, start: U64, now: U64)
    returns (err: int, remaining: Option<Timespec>, sleeps: seq<int>)
    ensures request == None ==> err == EFAULT && sleeps == [] && remaining == None
    ensures request.Some? && (request.value.sec < 0 || !request.value.Valid()) ==> err == EINVAL && sleeps == [] && remaining == None
    ensures request.Some? && request.value.sec >= 0 && request.value.Valid() ==>
              && (err == 0 ==> Whole(request.value, rc, sleeps) && remaining == None)
              && (err != 0 ==> Interrupted(request.value, rc, sleeps) && err == rc(|sleeps| - 1))
              && (remaining.Some? <==> err == EINTR && report)
              && (remaining.Some? ==>
                    remaining.value.Ns() == Max(0, request.value.Ns() - (if now >= start then now - start else 0) * 1000))
  {
    hide CeilUs, Chunk, TimeLeft, Slept, Interrupted, Whole;
    remaining, sleeps := None, [];
    if request == None { return EFAULT, None, []; }
    var original := request.value;
    if original.sec < 0 || original.nsec < 0 || original.nsec >= BILLION { return EINVAL, None, []; }
    var left := original;
    NothingSlept(original, rc);
    while left.sec != 0 || left.nsec != 0
      invariant left.Valid() && 0 <= left.sec && Slept(original, left, rc, sleeps)
      decreases left.Ns()
    {
      var usec := Chunk(left);
      SleptMore(original, left, rc, sleeps);
      sleeps := sleeps + [usec];
      if rc(|sleeps| - 1) != 0 {
        err := rc(|sleeps| - 1);
        if err == EINTR && report {
          var elapsed := if now >= start then now - start else 0;
          TimeLeftIs(original, elapsed);
          remaining := Some(TimeLeft(original, elapsed));
        }
        return;
      }
      TimeLeftIs(left, usec);
      left := TimeLeft(left, usec);
    }
    SleptAll(original, left, rc, sleeps);
    err := 0;
  }
}
