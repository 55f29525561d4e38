/** The combined resource-exhaustion simulator: twenty attack iterations that
    leak memory on even iterations, spawn batches of three CPU threads every
    third iteration and open temporary files on odd iterations, each into a
    capped table, followed by a cleanup that releases exactly what was
    counted. */
module ResourceExhaustionCombo {
  import opened Wrappers
  import CLib
  import Oracle

  const MB: nat := 1024 * 1024
  const LeakSlots: nat := 30
  const MaxThreads: nat := 60
  const MaxFiles: nat := 100
  const Iterations: nat := 20

  /** The outcomes of the calls the attack makes: `malloc` and `open` at
      iteration i, and the j-th `pthread_create` of iteration i's batch.
      `open` yields a descriptor, negative on failure. */
  datatype Os = Os(mallocOk: nat -> bool, threadOk: (nat, nat) -> bool, openFd: nat -> int)

  /** What the three tables hold below their counters: the size of every
      leaked block, the (iteration, attempt) that created every thread, and
      every descriptor opened. */
  datatype Tables = Tables(leaks: seq<nat>, threads: seq<(nat, nat)>, fds: seq<int>)

  /** The size requested by the leak that would become the (k+1)-th. */
  function LeakSize(k: nat): nat { (k + 1) * 8 * MB }

  /** A thread created by a successful call of iteration i's batch. */
  predicate FromBatch(os: Os, e: (nat, nat), i: nat) {
    e.0 == i && e.1 < 3 && os.threadOk(e.0, e.1)
  }

  /** The threads the inner loop of lines 74-78 adds from attempt j on,
      with room for `room` more in the table. */
  function Spawn(os: Os, room: nat, i: nat, j: nat): (r: seq<(nat, nat)>)
    ensures |r| <= room
    ensures |r| <= if j < 3 then 3 - j else 0
    decreases 3 - j
  {
    if j < 3 && room > 0 then
      if os.threadOk(i, j) then [(i, j)] + Spawn(os, room - 1, i, j + 1) else Spawn(os, room, i, j + 1)
    else []
  }

  /** A batch adds only threads its own successful calls created. */
  lemma {:induction false} SpawnContents(os: Os, room: nat, i: nat, j: nat)
    ensures forall k :: 0 <= k < |Spawn(os, room, i, j)| ==> FromBatch(os, Spawn(os, room, i, j)[k], i)
    decreases 3 - j
  {
    if j < 3 && room > 0 {
      SpawnContents(os, room - 1, i, j + 1);
      SpawnContents(os, room, i, j + 1);
    }
  }

  /** The same loop as a walk over the table: from attempt j on, while
      attempts remain and the table has room, each successful
      `pthread_create` appends the thread (i, j). */
  function SpawnFrom(os: Os, ts: seq<(nat, nat)>, i: nat, j: nat): (r: seq<(nat, nat)>)
    requires |ts| <= MaxThreads
    decreases 3 - j
  {
    if j < 3 && |ts| < MaxThreads then
      SpawnFrom(os, if os.threadOk(i, j) then ts + [(i, j)] else ts, i, j + 1)
    else ts
  }

  /** Walking the table appends exactly the batch. */
  lemma {:induction false} SpawnFromIsSpawn(os: Os, ts: seq<(nat, nat)>, i: nat, j: nat)
    requires |ts| <= MaxThreads
    ensures SpawnFrom(os, ts, i, j) == ts + Spawn(os, MaxThreads - |ts|, i, j)
    decreases 3 - j
  {
    if j < 3 && |ts| < MaxThreads {
      if os.threadOk(i, j) {
        SpawnFromIsSpawn(os, ts + [(i, j)], i, j + 1);
        assert ts + [(i, j)] + Spawn(os, MaxThreads - |ts| - 1, i, j + 1)
            == ts + ([(i, j)] + Spawn(os, MaxThreads - |ts| - 1, i, j + 1));
      } else {
        SpawnFromIsSpawn(os, ts, i, j + 1);
      }
    } else {
      assert ts + [] == ts;
    }
  }

  /** Attack vector 1 (lines 61-69): on even iterations, while a slot is
      free, one leak of the next size if malloc succeeds. */
  function LeakStep(os: Os, leaks: seq<nat>, i: nat): seq<nat> {
    if i % 2 == 0 && |leaks| < LeakSlots && os.mallocOk(i) then leaks + [LeakSize(|leaks|)] else leaks
  }

  /** Attack vector 2 (lines 72-80): every third iteration, a batch of up to
      three threads while the table has room. */
  function ThreadStep(os: Os, ts: seq<(nat, nat)>, i: nat): (r: seq<(nat, nat)>)
    requires |ts| <= MaxThreads
    ensures |r| <= MaxThreads
  {
    if i % 3 == 0 && |ts| < MaxThreads then ts + Spawn(os, MaxThreads - |ts|, i, 0) else ts
  }

  /** Attack vector 3 (lines 83-91): on odd iterations, while the table has
      room, one descriptor if open succeeds. */
  function FileStep(os: Os, fds: seq<int>, i: nat): seq<int> {
    if i % 2 == 1 && |fds| < MaxFiles && os.openFd(i) >= 0 then fds + [os.openFd(i)] else fds
  }

  /** The leaks after the first n iterations of lines 57-110. */
  function LeaksAfter(os: Os, n: nat): (r: seq<nat>)
    ensures |r| <= LeakSlots
  {
    if n == 0 then [] else LeakStep(os, LeaksAfter(os, n - 1), n - 1)
  }

  /** A thread entry records a successful creation of a batch before
      iteration n. */
  predicate CreatedBefore(os: Os, e: (nat, nat), n: nat) {
    e.0 < n && e.0 % 3 == 0 && e.1 < 3 && os.threadOk(e.0, e.1)
  }

  /** The threads after the first n iterations. */
  function ThreadsAfter(os: Os, n: nat): (r: seq<(nat, nat)>)
    ensures |r| <= MaxThreads
  {
    if n == 0 then [] else ThreadStep(os, ThreadsAfter(os, n - 1), n - 1)
  }

  /** The descriptors after the first n iterations. */
  function FilesAfter(os: Os, n: nat): (r: seq<int>)
    ensures |r| <= MaxFiles
  {
    if n == 0 then [] else FileStep(os, FilesAfter(os, n - 1), n - 1)
  }

  /** The three tables after the first n iterations. */
  function After(os: Os, n: nat): Tables {
    Tables(LeaksAfter(os, n), ThreadsAfter(os, n), FilesAfter(os, n))
  }

  /** One iteration of the attack loop (lines 58-109) on all three tables. */
  function Iteration(os: Os, t: Tables, i: nat): Tables
    requires |t.threads| <= MaxThreads
  {
    Tables(LeakStep(os, t.leaks, i), ThreadStep(os, t.threads, i), FileStep(os, t.fds, i))
  }

  /** Every leak k has size (k+1)·8 MB. */
  lemma {:induction false} LeakSizesAfter(os: Os, n: nat)
    ensures forall k :: 0 <= k < |LeaksAfter(os, n)| ==> LeaksAfter(os, n)[k] == LeakSize(k)
  {
    if n > 0 {
      LeakSizesAfter(os, n - 1);
    }
  }

  /** Every thread was created by a successful call of an earlier batch. */
  lemma {:induction false} ThreadsCreatedAfter(os: Os, n: nat)
    ensures forall k :: 0 <= k < |ThreadsAfter(os, n)| ==> CreatedBefore(os, ThreadsAfter(os, n)[k], n)
  {
    if n > 0 {
      ThreadsCreatedAfter(os, n - 1);
      var ts := ThreadsAfter(os, n - 1);
      var r := ThreadsAfter(os, n);
      if (n - 1) % 3 == 0 && |ts| < MaxThreads {
        SpawnContents(os, MaxThreads - |ts|, n - 1, 0);
        assert r == ts + Spawn(os, MaxThreads - |ts|, n - 1, 0);
      }
      forall k | 0 <= k < |r| ensures CreatedBefore(os, r[k], n) {
        if k < |ts| {
          assert r[k] == ts[k];
        }
      }
    }
  }

  /** Every counted descriptor is valid. */
  lemma {:induction false} FilesValidAfter(os: Os, n: nat)
    ensures forall k :: 0 <= k < |FilesAfter(os, n)| ==> FilesAfter(os, n)[k] >= 0
  {
    if n > 0 {
      FilesValidAfter(os, n - 1);
    }
  }

  /** `/tmp/exhaust_<pid>_<k>.tmp`, the name of file k at creation and at
      unlink. */
  function TempName(pid: int, k: nat): string {
    "/tmp/exhaust_" + CLib.IntToDecimal(pid) + "_" + CLib.NatToDecimal(k) + ".tmp"
  }

  function TempNames(pid: int, n: nat): seq<string> {
    seq(n, k requires 0 <= k < n => TempName(pid, k))
  }

  // ---------------------------------------------------------------------------
  // The process state

  class ComboAttack {
    const memoryLeaks: array<nat>
    const threads: array<(nat, nat)>
    const openFds: array<int>
    var leakCount: nat
    var threadCount: nat
    var fileCount: nat

    /** The tables have their declared sizes, the counters stay within them,
        and every counted slot holds an acquired resource (a block, whose
        size is never 0, the NULL of this model, or a valid descriptor). */
    ghost predicate Valid()
      reads this, memoryLeaks, openFds
    {
      && memoryLeaks.Length == LeakSlots && threads.Length == MaxThreads && openFds.Length == MaxFiles
      && leakCount <= LeakSlots && threadCount <= MaxThreads && fileCount <= MaxFiles
      && (forall k :: 0 <= k < leakCount ==> memoryLeaks[k] == LeakSize(k))
      && (forall k :: 0 <= k < fileCount ==> openFds[k] >= 0)
    }

    constructor ()
      ensures Valid() && leakCount == 0 && threadCount == 0 && fileCount == 0
      ensures fresh(memoryLeaks) && fresh(threads) && fresh(openFds)
    {
      memoryLeaks := new nat[LeakSlots];
      threads := new (nat, nat)[MaxThreads];
      openFds := new int[MaxFiles];
      leakCount, threadCount, fileCount := 0, 0, 0;
    }

    /** Attack vector 1; a failed `malloc` leaves NULL (0 here) in the slot,
        uncounted. */
    method Leak(os: Os, i: nat)
      requires Valid()
      modifies this`leakCount, memoryLeaks
      ensures Valid()
      ensures memoryLeaks[..leakCount] == LeakStep(os, old(memoryLeaks[..leakCount]), i)
    {
      if i % 2 == 0 && leakCount < LeakSlots {
        var alloc := (leakCount + 1) * 8 * MB;
        memoryLeaks[leakCount] := if os.mallocOk(i) then alloc else 0;
        if memoryLeaks[leakCount] != 0 {
          leakCount := leakCount + 1;
        }
      }
    }

    /** Attack vector 2; a failed `pthread_create` leaves the slot as it was. */
    method SpawnBatch(os: Os, i: nat)
      requires Valid()
      modifies this`threadCount, threads
      ensures Valid()
      ensures threads[..threadCount] == ThreadStep(os, old(threads[..threadCount]), i)
    {
      if i % 3 == 0 && threadCount < MaxThreads {
        ghost var ts0 := threads[..threadCount];
        var j: nat := 0;
        while j < 3 && threadCount < MaxThreads
          invariant j <= 3 && threadCount <= MaxThreads
          invariant SpawnFrom(os, threads[..threadCount], i, j) == SpawnFrom(os, ts0, i, 0)
        {
          ghost var ts := threads[..threadCount];
          if os.threadOk(i, j) {
            threads[threadCount] := (i, j);
            assert threads[..threadCount + 1] == ts + [(i, j)];
            threadCount := threadCount + 1;
          }
          j := j + 1;
        }
        SpawnFromIsSpawn(os, ts0, i, 0);
      }
    }

    /** Attack vector 3; a failed `open` leaves its negative result in the
        slot, uncounted. `name` is the file it tries to create: the one that
        cleanup unlinks for this slot. */
    method OpenFile(os: Os, pid: int, i: nat) returns (name: Option<string>)
      requires Valid()
      modifies this`fileCount, openFds
      ensures Valid()
      ensures openFds[..fileCount] == FileStep(os, old(openFds[..fileCount]), i)
      ensures name.Some? <==> i % 2 == 1 && old(fileCount) < MaxFiles
      ensures name.Some? ==> name.value == TempName(pid, old(fileCount))
    {
      name := None;
      if i % 2 == 1 && fileCount < MaxFiles {
        name := Some(TempName(pid, fileCount));
        openFds[fileCount] := os.openFd(i);
        if openFds[fileCount] >= 0 {
          fileCount := fileCount + 1;
        }
      }
    }

    /** The counted part of each table. */
    ghost function Counted(): Tables
      reads this, memoryLeaks, threads, openFds
      requires Valid()
    {
      Tables(memoryLeaks[..leakCount], threads[..threadCount], openFds[..fileCount])
    }

    /** One iteration of the attack loop (lines 58-109): the three attack
        vectors in turn, each on its own table. */
    method Round(os: Os, pid: int, i: nat)
      requires Valid() && Counted() == After(os, i)
      modifies this`leakCount, this`threadCount, this`fileCount, memoryLeaks, threads, openFds
      ensures Valid() && Counted() == After(os, i + 1)
    {
      ghost var ts, fds := threads[..threadCount], openFds[..fileCount];
      Leak(os, i);
      assert threads[..threadCount] == ts && openFds[..fileCount] == fds;
      ghost var leaks := memoryLeaks[..leakCount];
      SpawnBatch(os, i);
      assert memoryLeaks[..leakCount] == leaks && openFds[..fileCount] == fds;
      var _ := OpenFile(os, pid, i);
    }

    /** The attack loop of lines 57-110, from the counters that `main` sets
        to zero just before it. */
    method Attack(os: Os, pid: int)
      requires Valid() && leakCount == 0 && threadCount == 0 && fileCount == 0
      modifies this`leakCount, this`threadCount, this`fileCount, memoryLeaks, threads, openFds
      ensures Valid()
      ensures Counted() == After(os, Iterations)
    {
      var i: nat := 0;
      while i < Iterations
        invariant i <= Iterations && Valid()
        invariant Counted() == After(os, i)
      {
        Round(os, pid, i);
        i := i + 1;
      }
    }

    /** The cleanup of lines 141-158: what it joins, frees, closes and
        unlinks. It changes nothing in the model's state. */
    method Cleanup(pid: int) returns (joined: seq<(nat, nat)>, freed: seq<nat>, closed: seq<int>, unlinked: seq<string>)
      requires Valid()
      ensures joined == threads[..threadCount]
      ensures freed == memoryLeaks[..leakCount]
      ensures closed == openFds[..fileCount]
      ensures unlinked == TempNames(pid, fileCount)
    {
      joined := [];
      for i := 0 to threadCount
        invariant joined == threads[..i]
      {
        joined := joined + [threads[i]];
      }
      freed := [];
      for i := 0 to leakCount
        invariant freed == memoryLeaks[..i]
      {
        if memoryLeaks[i] != 0 {
          freed := freed + [memoryLeaks[i]];
        }
      }
      closed, unlinked := [], [];
      for i := 0 to fileCount
        invariant closed == openFds[..i]
        invariant unlinked == TempNames(pid, i)
      {
        if openFds[i] >= 0 {
          closed := closed + [openFds[i]];
          unlinked := unlinked + [TempName(pid, i)];
          assert TempNames(pid, i + 1) == TempNames(pid, i) + [TempName(pid, i)];
        }
      }
    }
  }

  // ---------------------------------------------------------------------------
  // Properties of the schedule

  /** The number of iterations below n that spawn a batch. */
  function Batches(n: nat): nat {
    if n == 0 then 0 else Batches(n - 1) + if (n - 1) % 3 == 0 then 1 else 0
  }

  /** A batch is spawned on every third iteration: ⌈n/3⌉ of the first n. */
  lemma {:induction false} BatchesCount(n: nat)
    ensures 3 * Batches(n) == n + if n % 3 == 0 then 0 else 3 - n % 3
  {
    if n > 0 {
      BatchesCount(n - 1);
    }
  }

  /** Leaks are attempted on even iterations only: at most ⌈n/2⌉ of them
      after n iterations. */
  lemma {:induction false} LeaksBound(os: Os, n: nat)
    ensures 2 * |LeaksAfter(os, n)| <= n + 1
  {
    if n > 0 {
      LeaksBound(os, n - 1);
    }
  }

  /** Files are opened on odd iterations only: at most ⌊n/2⌋ of them. */
  lemma {:induction false} FilesBound(os: Os, n: nat)
    ensures 2 * |FilesAfter(os, n)| <= n
  {
    if n > 0 {
      FilesBound(os, n - 1);
    }
  }

  /** Each batch adds at most three threads. */
  lemma {:induction false} ThreadsBound(os: Os, n: nat)
    ensures |ThreadsAfter(os, n)| <= 3 * Batches(n)
  {
    if n > 0 {
      ThreadsBound(os, n - 1);
    }
  }

  /** Over the twenty iterations: at most 10 leaks, 10 files and 21 threads
      (seven batches), so none of the tables fills. */
  lemma AttackBounds(os: Os)
    ensures |After(os, Iterations).leaks| <= 10
    ensures |After(os, Iterations).fds| <= 10
    ensures |After(os, Iterations).threads| <= 21
  {
    LeaksBound(os, Iterations);
    FilesBound(os, Iterations);
    ThreadsBound(os, Iterations);
    BatchesCount(Iterations);
  }

  /** The malloc of iteration i is attempted and succeeds. */
  function LeakGranted(os: Os): nat -> bool {
    (i: nat) => i % 2 == 0 && os.mallocOk(i)
  }

  /** The open of iteration i is attempted and succeeds. */
  function FileOpened(os: Os): nat -> bool {
    (i: nat) => i % 2 == 1 && os.openFd(i) >= 0
  }

  /** The leak count only grows, and only by a malloc that succeeded: it is
      the number of even iterations whose malloc succeeded. */
  lemma {:induction false} LeaksAreSuccesses(os: Os, n: nat)
    requires n <= Iterations
    ensures |LeaksAfter(os, n)| == Oracle.CountOk(LeakGranted(os), 0, n)
  {
    if n > 0 {
      LeaksAreSuccesses(os, n - 1);
      LeaksBound(os, n - 1);
    }
  }

  /** The file count is the number of odd iterations whose open succeeded. */
  lemma {:induction false} FilesAreSuccesses(os: Os, n: nat)
    requires n <= Iterations
    ensures |FilesAfter(os, n)| == Oracle.CountOk(FileOpened(os), 0, n)
  {
    if n > 0 {
      FilesAreSuccesses(os, n - 1);
      FilesBound(os, n - 1);
    }
  }

  /** The tables of an earlier iteration are prefixes of the later ones. */
  lemma {:induction false} AfterGrows(os: Os, n: nat, m: nat)
    requires n <= m
    ensures LeaksAfter(os, n) <= LeaksAfter(os, m)
    ensures ThreadsAfter(os, n) <= ThreadsAfter(os, m)
    ensures FilesAfter(os, n) <= FilesAfter(os, m)
    decreases m - n
  {
    if n < m {
      AfterGrows(os, n, m - 1);
    }
  }

  /** Successive leaks grow by exactly 8 MB, and the largest (30·8 MB) fits
      the `int` the size is computed in. */
  lemma LeakSizes(k: nat)
    requires k + 1 < LeakSlots
    ensures LeakSize(k + 1) == LeakSize(k) + 8 * MB
    ensures LeakSize(k + 1) < 0x8000_0000
  {
  }

  /** Distinct file indices name distinct temporary files. */
  lemma TempNamesDistinct(pid: int, k1: nat, k2: nat)
    requires TempName(pid, k1) == TempName(pid, k2)
    ensures k1 == k2
  {
    var prefix := "/tmp/exhaust_" + CLib.IntToDecimal(pid) + "_";
    var d1, d2 := CLib.NatToDecimal(k1), CLib.NatToDecimal(k2);
    assert TempName(pid, k1) == prefix + (d1 + ".tmp");
    assert TempName(pid, k2) == prefix + (d2 + ".tmp");
    assert d1 + ".tmp" == TempName(pid, k1)[|prefix|..];
    assert d1 + ".tmp" == d2 + ".tmp";
    assert d1 == (d1 + ".tmp")[..|d1|];
    assert d2 == (d2 + ".tmp")[..|d2|];
    CLib.DigitsValueOfDecimal(k1);
    CLib.DigitsValueOfDecimal(k2);
  }
}
