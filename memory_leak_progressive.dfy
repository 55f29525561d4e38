/** The progressive memory-leak simulator: up to 25 allocations of 5, 10,
    15, … MB into a 30-slot table, each kept and counted, stopping at the
    first allocation that fails. */
module MemoryLeakProgressive {
  import opened Wrappers
  import Oracle
  import Arith

  const MB: nat := 1024 * 1024
  const Slots: nat := 30
  const Steps: nat := 25

  /** The request of iteration i, in bytes. */
  function AllocSize(i: nat): (r: nat)
    ensures r > 0
  {
    (i + 1) * 5 * MB
  }

  /** `%zu` of `bytes / MB`: whole megabytes, rounded down. */
  function Megabytes(bytes: nat): nat { bytes / MB }

  /** `total_allocated` after k successful iterations, in bytes. */
  function TotalBytes(k: nat): nat { Arith.StepTotal(k) * MB }

  /** Each request is 5 MB more than the one before, and is a whole number
      of MB: 5·(i+1). */
  lemma AllocSizeSteps(i: nat)
    ensures AllocSize(i + 1) == AllocSize(i) + 5 * MB
    ensures Megabytes(AllocSize(i)) == 5 * (i + 1) && AllocSize(i) % MB == 0
  {
    Arith.DivUnique(AllocSize(i), MB, 5 * (i + 1), 0);
  }

  /** Adding the request of iteration i to a whole-MB total gives the next
      whole-MB total. */
  lemma TotalStep(i: nat)
    ensures TotalBytes(i) + AllocSize(i) == TotalBytes(i + 1)
    ensures Megabytes(TotalBytes(i + 1)) == Arith.StepTotal(i + 1)
  {
    calc {
      TotalBytes(i + 1);
      (Arith.StepTotal(i) + 5 * (i + 1)) * MB;
      Arith.StepTotal(i) * MB + 5 * (i + 1) * MB;
      { assert 5 * (i + 1) * MB == (i + 1) * 5 * MB; }
      TotalBytes(i) + AllocSize(i);
    }
    Arith.DivUnique(TotalBytes(i + 1), MB, Arith.StepTotal(i + 1), 0);
  }

  /** One line of lines 50-54: the step (1-based), the MB leaked by it, the
      running total in MB and the reported growth. */
  datatype Report = Report(step: nat, leakedMB: nat, totalMB: nat, growthMB: nat)

  function ReportAt(i: nat): Report {
    Report(i + 1, 5 * (i + 1), Arith.StepTotal(i + 1), 5 * (i + 1))
  }

  /** The reports of the first k iterations, one per iteration in order. */
  function Reports(k: nat): (r: seq<Report>)
    ensures |r| == k && forall i :: 0 <= i < k ==> r[i] == ReportAt(i)
  {
    if k == 0 then [] else Reports(k - 1) + [ReportAt(k - 1)]
  }

  /** The escalation messages of lines 59-67 that iterations below k print. */
  function Escalations(k: nat): seq<nat> {
    (if 5 < k then [5] else []) + (if 10 < k then [10] else []) + (if 15 < k then [15] else [])
  }

  /** An escalation appears exactly at iterations 5, 10 and 15, once that
      iteration completed. */
  lemma EscalationsExact(k: nat, j: nat)
    ensures j in Escalations(k) <==> (j == 5 || j == 10 || j == 15) && j < k
  {
  }

  /** What the leak loop leaves behind: the slot table (block sizes, 0 for
      NULL), `total_allocated`, the printed reports and escalations, and the
      failure line (step and MB) if an allocation failed. */
  datatype LeakState = LeakState(table: seq<nat>, total: nat, reports: seq<Report>,
                                 escalations: seq<nat>, failure: Option<(nat, nat)>)

  /** Iteration i when its block was granted: store it, add it to the
      total, report it and escalate at iterations 5, 10 and 15 (lines 46-67). */
  function Granted(s: LeakState, i: nat): (r: LeakState)
    requires i < |s.table|
    ensures |r.table| == |s.table|
  {
    var size := AllocSize(i);
    var total := s.total + size;
    s.(table := s.table[i := size], total := total,
       reports := s.reports + [Report(i + 1, Megabytes(size), Megabytes(total), Megabytes(size))],
       escalations := s.escalations + if i == 5 || i == 10 || i == 15 then [i] else [])
  }

  /** Iteration i when malloc returned NULL (lines 39-42). */
  function Refused(s: LeakState, i: nat): (r: LeakState)
    requires i < |s.table|
    ensures |r.table| == |s.table|
  {
    s.(table := s.table[i := 0], failure := Some((i + 1, Megabytes(AllocSize(i)))))
  }

  /** Iterations i.. of the loop of lines 33-68 from state s. */
  function LeakFrom(ok: nat -> bool, i: nat, s: LeakState): (r: LeakState)
    requires i <= Steps && |s.table| == Slots
    ensures |r.table| == Slots
    decreases Steps - i
  {
    if i == Steps then s
    else if !ok(i) then Refused(s, i)
    else LeakFrom(ok, i + 1, Granted(s, i))
  }

  /** The whole loop, from a table holding whatever it held and a zero total. */
  function LeakRun(ok: nat -> bool, table: seq<nat>): LeakState
    requires |table| == Slots
  {
    LeakFrom(ok, 0, LeakState(table, 0, [], [], None))
  }

  /** The state after k successful iterations from table a0. */
  ghost predicate Completed(ok: nat -> bool, k: nat, a0: seq<nat>, s: LeakState) {
    && k <= Steps && |a0| == Slots && |s.table| == Slots
    && (forall j :: 0 <= j < k ==> ok(j))
    && (forall j :: 0 <= j < k ==> s.table[j] == AllocSize(j))
    && (forall j :: k <= j < Slots ==> s.table[j] == a0[j])
    && s.total == TotalBytes(k)
    && s.reports == Reports(k)
    && s.escalations == Escalations(k)
    && s.failure == None
  }

  lemma {:induction false} LeakFromCompleted(ok: nat -> bool, i: nat, a0: seq<nat>, s: LeakState)
    requires Completed(ok, i, a0, s)
    ensures var r := LeakFrom(ok, i, s); var k := Oracle.FirstFailure(ok, 0, Steps);
      && (forall j :: 0 <= j < k ==> r.table[j] == AllocSize(j))
      && (k < Steps ==> r.table[k] == 0)
      && (forall j :: k < j < Slots ==> r.table[j] == a0[j])
      && r.total == TotalBytes(k)
      && r.reports == Reports(k)
      && r.escalations == Escalations(k)
      && r.failure == if k < Steps then Some((k + 1, 5 * (k + 1))) else None
    decreases Steps - i
  {
    if i == Steps {
      FirstFailureIs(ok, i);
    } else if !ok(i) {
      FirstFailureIs(ok, i);
      AllocSizeSteps(i);
    } else {
      GrantedCompleted(ok, i, a0, s);
      LeakFromCompleted(ok, i + 1, a0, Granted(s, i));
    }
  }

  /** A granted iteration extends a completed state by one iteration. */
  lemma GrantedCompleted(ok: nat -> bool, i: nat, a0: seq<nat>, s: LeakState)
    requires Completed(ok, i, a0, s) && i < Steps && ok(i)
    ensures Completed(ok, i + 1, a0, Granted(s, i))
  {
    var r := Granted(s, i);
    GrantedTotal(s, i);
    GrantedReports(s, i);
    assert r.table == s.table[i := AllocSize(i)];
    forall j | 0 <= j < i + 1 ensures r.table[j] == AllocSize(j) {
    }
    forall j | i + 1 <= j < Slots ensures r.table[j] == a0[j] {
    }
    GrantedEscalations(s, i);
  }

  lemma GrantedEscalations(s: LeakState, i: nat)
    requires i < |s.table| && s.escalations == Escalations(i)
    ensures Granted(s, i).escalations == Escalations(i + 1)
  {
    if i == 5 || i == 10 || i == 15 {
      assert Escalations(i + 1) == Escalations(i) + [i];
    } else {
      assert Escalations(i + 1) == Escalations(i);
    }
  }

  lemma GrantedTotal(s: LeakState, i: nat)
    requires i < |s.table| && s.total == TotalBytes(i)
    ensures Granted(s, i).total == TotalBytes(i + 1)
  {
    TotalStep(i);
  }

  lemma GrantedReports(s: LeakState, i: nat)
    requires i < |s.table| && s.total == TotalBytes(i) && s.reports == Reports(i)
    ensures Granted(s, i).reports == Reports(i + 1)
  {
    TotalStep(i);
    AllocSizeSteps(i);
  }

  /** With k the first iteration whose malloc fails (25 when none does):
      slots below k hold their blocks, slot k holds NULL, slots above are
      untouched, the total counts exactly the k blocks, there is one report
      per block, and the failure is reported with its step and size. */
  lemma LeakOutcome(ok: nat -> bool, a0: seq<nat>)
    requires |a0| == Slots
    ensures var r := LeakRun(ok, a0); var k := Oracle.FirstFailure(ok, 0, Steps);
      && (forall j :: 0 <= j < k ==> r.table[j] == AllocSize(j))
      && (k < Steps ==> r.table[k] == 0)
      && (forall j :: k < j < Slots ==> r.table[j] == a0[j])
      && r.total == TotalBytes(k)
      && r.reports == Reports(k)
      && r.escalations == Escalations(k)
      && r.failure == if k < Steps then Some((k + 1, 5 * (k + 1))) else None
  {
    assert TotalBytes(0) == 0;
    LeakFromCompleted(ok, 0, a0, LeakState(a0, 0, [], [], None));
  }

  class Leaker {
    /** The block sizes of `allocations`, 0 standing for NULL. */
    const allocations: array<nat>
    var totalAllocated: nat

    constructor ()
      ensures allocations.Length == Slots && totalAllocated == 0
    {
      allocations := new nat[Slots];
      totalAllocated := 0;
    }

    /** The loop of lines 33-68 on the object's table and total. */
    method Leak(mallocOk: nat -> bool) returns (reports: seq<Report>, escalations: seq<nat>, failure: Option<(nat, nat)>)
      requires allocations.Length == Slots
      modifies this`totalAllocated, allocations
      ensures LeakState(allocations[..], totalAllocated, reports, escalations, failure) == LeakRun(mallocOk, old(allocations[..]))
    {
      totalAllocated := 0;
      reports, escalations, failure := [], [], None;
      var i: nat := 0;
      while i < Steps
        invariant i <= Steps
        invariant LeakFrom(mallocOk, i, LeakState(allocations[..], totalAllocated, reports, escalations, None))
                  == LeakRun(mallocOk, old(allocations[..]))
      {
        ghost var s := LeakState(allocations[..], totalAllocated, reports, escalations, None);
        var allocSize := AllocSize(i);
        allocations[i] := if mallocOk(i) then allocSize else 0;
        assert allocations[..] == s.table[i := allocations[i]];
        if allocations[i] == 0 {
          failure := Some((i + 1, Megabytes(allocSize)));
          return;
        }
        totalAllocated := totalAllocated + allocSize;
        reports := reports + [Report(i + 1, Megabytes(allocSize), Megabytes(totalAllocated), Megabytes(allocSize))];
        if i == 5 || i == 10 || i == 15 {
          escalations := escalations + [i];
        }
        assert LeakState(allocations[..], totalAllocated, reports, escalations, None) == Granted(s, i);
        i := i + 1;
      }
    }
  }

  /** The first failure among the 25 iterations is at i when all before it
      succeeded and i is the end or fails. */
  lemma FirstFailureIs(ok: nat -> bool, i: nat)
    requires i <= Steps
    requires forall j :: 0 <= j < i ==> ok(j)
    requires i < Steps ==> !ok(i)
    ensures Oracle.FirstFailure(ok, 0, Steps) == i
  {
  }

  /** At most 25 blocks are leaked, inside the 30-slot table, adding up
      to at most 1625 MB. */
  lemma LeakBounds(ok: nat -> bool)
    ensures Oracle.FirstFailure(ok, 0, Steps) <= Steps < Slots
    ensures Arith.StepTotal(Oracle.FirstFailure(ok, 0, Steps)) <= 1625
  {
    Arith.StepTotalMonotone(Oracle.FirstFailure(ok, 0, Steps), Steps);
    Arith.StepTotalClosedForm(Steps);
  }

  /** The request `(i + 1) * 5 * MB`, computed in `int`, does not overflow
      32 bits in any of the 25 iterations. */
  lemma AllocSizeFits(i: nat)
    requires i < Steps
    ensures AllocSize(i) <= 125 * MB < 0x8000_0000
  {
    if i + 1 < 25 {
      Arith.MulMonotone(i + 1, 25, 5 * MB);
    }
  }
}
