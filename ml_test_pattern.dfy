/** The test-pattern generator: a selector read from the command line picks
    one of five fixed schedules of CPU bursts and allocations; anything else
    prints the usage and exits with 1. */
module MlTestPattern {
  import opened Wrappers
  import CLib
  import Oracle
  import Arith

  const MB: nat := 1024 * 1024

  /** `pattern`: 1 without an argument, otherwise `atoi` of the first one. */
  function Selector(arg: Option<string>): (p: int)
    ensures arg.None? ==> p == 1
  {
    if arg.None? then 1 else CLib.Atoi(arg.value)
  }

  /** The exit status of `main` for a selector: 0 after one of the five
      patterns, 1 from the `default` branch. */
  function ExitCode(p: int): (code: int)
    ensures code == 0 || code == 1
    ensures code == 0 <==> 1 <= p <= 5
  {
    if 1 <= p <= 5 then 0 else 1
  }

  /** A selector written in decimal is taken as is, so it runs a pattern
      exactly when it lies in 1..5. */
  lemma DecimalSelector(n: int)
    ensures Selector(Some(CLib.IntToDecimal(n))) == n
    ensures ExitCode(Selector(Some(CLib.IntToDecimal(n)))) == 0 <==> 1 <= n <= 5
  {
    CLib.AtoiOfDecimal(n);
  }

  /** A non-numeric selector reads as 0 and exits with 1. */
  lemma NonNumericSelector(s: string)
    requires var t := CLib.SkipSpaces(s);
      if t != [] && (t[0] == '-' || t[0] == '+') then t[1..] == [] || !CLib.IsDigit(t[1])
      else t == [] || !CLib.IsDigit(t[0])
    ensures Selector(Some(s)) == 0 && ExitCode(Selector(Some(s))) == 1
  {
    CLib.AtoiNonNumeric(s);
  }

  /** `%zu` of `bytes / (1024*1024)`: whole megabytes, rounded down. */
  function Megabytes(bytes: nat): nat { bytes / MB }

  /** The request of pattern 3 at iteration i, in bytes. */
  function RampBytes(i: nat): (r: nat)
    ensures r > 0
  {
    (i + 1) * 5 * MB
  }

  /** The request printed at iteration i is 5·(i+1) MB. */
  lemma RampMegabytes(i: nat)
    ensures Megabytes(RampBytes(i)) == 5 * (i + 1)
  {
    Arith.DivUnique(RampBytes(i), MB, 5 * (i + 1), 0);
  }

  /** Of two consecutive numbers one is even, so their product is twice a
      natural number. */
  lemma ConsecutiveProduct(n: nat) returns (q: nat)
    ensures n * (n + 1) == 2 * q
  {
    var m := n / 2;
    assert n == 2 * m + n % 2;
    if n % 2 == 0 {
      q := m * (n + 1);
      calc {
        n * (n + 1);
        (2 * m) * (n + 1);
        2 * q;
      }
    } else {
      q := n * (m + 1);
      calc {
        n * (n + 1);
        n * (2 * (m + 1));
        2 * q;
      }
    }
  }

  /** The total printed at iteration i, `(i+1)*(i+2)/2 * 5`, loses nothing
      to the integer division and equals the requests of iterations 0..i
      added up. */
  lemma PrintedTotal(i: nat)
    ensures (i + 1) * (i + 2) % 2 == 0
    ensures (i + 1) * (i + 2) / 2 * 5 == Arith.StepTotal(i + 1)
  {
    var q := ConsecutiveProduct(i + 1);
    Arith.DivUnique((i + 1) * (i + 2), 2, q, 0);
    Arith.StepTotalClosedForm(i + 1);
  }

  /** The line iteration j of pattern 3 should print: its step, its 5·(j+1)
      MB request and the sum of the requests so far. */
  function RampEntry(j: nat): (nat, nat, nat) {
    (j + 1, 5 * (j + 1), Arith.StepTotal(j + 1))
  }

  /** The lines printed by iterations 0..n-1 of pattern 3. */
  function RampLines(n: nat): seq<(nat, nat, nat)> {
    if n == 0 then [] else RampLines(n - 1) + [RampEntry(n - 1)]
  }

  /** One line per iteration, in order; the line of iteration j names step
      j+1, the 5·(j+1) MB request and the total of 5 + 10 + … + 5·(j+1) MB. */
  lemma {:induction false} RampLinesExact(n: nat)
    ensures |RampLines(n)| == n
    ensures forall j :: 0 <= j < n ==> RampLines(n)[j] == (j + 1, 5 * (j + 1), Arith.StepTotal(j + 1))
  {
    if n > 0 {
      RampLinesExact(n - 1);
    }
  }

  /** The line printed at iteration i of pattern 3 (lines 77-78): the step,
      the request in MB and the announced total, which is the sum of the
      requests so far. */
  method RampReport(i: nat) returns (line: (nat, nat, nat))
    ensures line == RampEntry(i)
  {
    RampMegabytes(i);
    PrintedTotal(i);
    line := (i + 1, Megabytes(RampBytes(i)), (i + 1) * (i + 2) / 2 * 5);
  }

  /** The burst of pattern 1 at iteration i, in milliseconds. */
  function GradualBurst(i: nat): nat { 50 + i * 25 }

  /** The burst of pattern 2: the spike at iteration 7, low load elsewhere. */
  function SpikeBurst(i: nat): nat { if i == 7 then 800 else 50 }

  /** The burst of pattern 4: high on even iterations, low on odd ones. */
  function OscillatingBurst(i: nat): nat { if i % 2 == 0 then 600 else 50 }

  /** The burst of pattern 5: the spike at iteration 10, normal elsewhere. */
  function CombinedBurst(i: nat): nat { if i == 10 then 700 else 100 }

  /** Pattern 1 (lines 49-53): twenty iterations whose bursts grow strictly
      and whose printed load is 5, 10, …, 100 percent. */
  method Gradual() returns (loads: seq<nat>, bursts: seq<nat>)
    ensures |loads| == 20 && |bursts| == 20
    ensures forall i :: 0 <= i < 20 ==> loads[i] == (i + 1) * 5 && bursts[i] == GradualBurst(i)
    ensures forall i, j :: 0 <= i < j < 20 ==> bursts[i] < bursts[j]
    ensures forall i :: 0 <= i < 20 ==> 50 <= bursts[i] <= 525
  {
    loads, bursts := [], [];
    for i: nat := 0 to 20
      invariant |loads| == i && |bursts| == i
      invariant forall k :: 0 <= k < i ==> loads[k] == (k + 1) * 5 && bursts[k] == 50 + k * 25
    {
      loads := loads + [(i + 1) * 5];
      bursts := bursts + [50 + i * 25];
    }
  }

  /** Pattern 2 (lines 59-68): fifteen iterations, the 800 ms spike at index
      7 and only there, 50 ms everywhere else. */
  method Spike() returns (bursts: seq<nat>)
    ensures |bursts| == 15
    ensures forall i :: 0 <= i < 15 ==> bursts[i] == SpikeBurst(i)
    ensures forall i :: 0 <= i < 15 ==> (bursts[i] == 800 <==> i == 7) && (bursts[i] == 50 <==> i != 7)
  {
    bursts := [];
    for i: nat := 0 to 15
      invariant |bursts| == i
      invariant forall k :: 0 <= k < i ==> bursts[k] == SpikeBurst(k)
    {
      if i == 7 {
        bursts := bursts + [800];
      } else {
        bursts := bursts + [50];
      }
    }
  }

  /** One iteration of pattern 3: print the line, then store the block
      `malloc` returned in slot i, 0 standing for NULL. */
  method RampIteration(ptrs: array<nat>, mallocOk: nat -> bool, i: nat)
    returns (line: (nat, nat, nat), granted: bool)
    requires i < ptrs.Length
    modifies ptrs
    ensures line == RampEntry(i) && granted == mallocOk(i)
    ensures ptrs[i] == if granted then RampBytes(i) else 0
    ensures forall j :: 0 <= j < ptrs.Length && j != i ==> ptrs[j] == old(ptrs[j])
  {
    line := RampReport(i);
    granted := mallocOk(i);
    ptrs[i] := if granted then RampBytes(i) else 0;
  }

  /** Pattern 3 (lines 74-85): iteration i prints its request and the
      running total, then allocates; the first NULL ends the loop. With k
      that iteration (20 when none fails): slots below k hold their
      requests, slot k holds NULL, and the lines of iterations 0..k (all 20
      when none failed) were printed. */
  method MemoryRamp(mallocOk: nat -> bool) returns (ptrs: array<nat>, lines: seq<(nat, nat, nat)>, failed: bool)
    ensures fresh(ptrs) && ptrs.Length == 20
    ensures var k := Oracle.FirstFailure(mallocOk, 0, 20);
      && (failed <==> k < 20)
      && (forall j :: 0 <= j < k ==> ptrs[j] == RampBytes(j))
      && (k < 20 ==> ptrs[k] == 0)
      && lines == RampLines(if k < 20 then k + 1 else 20)
  {
    ptrs := new nat[20];
    lines, failed := [], false;
    var i: nat := 0;
    while i < 20 && !failed
      invariant i <= 20
      invariant forall j :: 0 <= j < i ==> mallocOk(j) && ptrs[j] == RampBytes(j)
      invariant failed ==> i < 20 && !mallocOk(i) && ptrs[i] == 0
      invariant lines == RampLines(if failed then i + 1 else i)
      decreases 20 - i, if failed then 0 else 1
    {
      var line, granted := RampIteration(ptrs, mallocOk, i);
      lines := lines + [line];
      if granted {
        i := i + 1;
      } else {
        failed := true;
      }
    }
    FirstFailureIs(mallocOk, i, 20);
  }

  /** Pattern 4 (lines 95-104): twenty iterations alternating high and low
      load, high first. */
  method Oscillating() returns (bursts: seq<nat>)
    ensures |bursts| == 20
    ensures forall i :: 0 <= i < 20 ==> bursts[i] == OscillatingBurst(i)
    ensures forall i :: 0 <= i < 20 ==> (bursts[i] == 600 <==> i % 2 == 0) && (bursts[i] == 50 <==> i % 2 == 1)
    ensures forall i :: 0 <= i < 19 ==> bursts[i] != bursts[i + 1]
  {
    bursts := [];
    for i: nat := 0 to 20
      invariant |bursts| == i
      invariant forall k :: 0 <= k < i ==> bursts[k] == OscillatingBurst(k)
    {
      if i % 2 == 0 {
        bursts := bursts + [600];
      } else {
        bursts := bursts + [50];
      }
    }
  }

  /** Pattern 5 (lines 110-122): twenty-five iterations; only iteration 10
      bursts for 700 ms and requests 50 MB, the others burst for 100 ms. The
      block is freed at the end exactly when it was granted. */
  method Combined(mallocOk: nat -> bool) returns (bursts: seq<nat>, requests: seq<(nat, nat)>, freed: nat)
    ensures |bursts| == 25
    ensures forall i :: 0 <= i < 25 ==> bursts[i] == CombinedBurst(i)
    ensures forall i :: 0 <= i < 25 ==> (bursts[i] == 700 <==> i == 10) && (bursts[i] == 100 <==> i != 10)
    ensures requests == [(10, 50 * MB)]
    ensures freed == if mallocOk(10) then 50 * MB else 0
  {
    bursts, requests := [], [];
    var memPtr: nat := 0;
    for i: nat := 0 to 25
      invariant |bursts| == i
      invariant forall k :: 0 <= k < i ==> bursts[k] == CombinedBurst(k)
      invariant requests == if i > 10 then [(10, 50 * MB)] else []
      invariant memPtr == if i > 10 && mallocOk(10) then 50 * MB else 0
    {
      if i == 10 {
        bursts := bursts + [700];
        requests := requests + [(i, 50 * MB)];
        memPtr := if mallocOk(i) then 50 * MB else 0;
      } else {
        bursts := bursts + [100];
      }
    }
    freed := memPtr;
  }

  /** `main`: runs the selected pattern, or none for a selector outside
      1..5, and returns the exit status. */
  method Run(arg: Option<string>, mallocOk: nat -> bool) returns (exitCode: int, ran: Option<int>)
    ensures exitCode == ExitCode(Selector(arg))
    ensures ran == if 1 <= Selector(arg) <= 5 then Some(Selector(arg)) else None
    ensures arg.None? ==> exitCode == 0 && ran == Some(1)
  {
    var pattern := 1;
    if arg.Some? {
      pattern := CLib.Atoi(arg.value);
    }
    if pattern == 1 {
      var _, _ := Gradual();
    } else if pattern == 2 {
      var _ := Spike();
    } else if pattern == 3 {
      var _, _, _ := MemoryRamp(mallocOk);
    } else if pattern == 4 {
      var _ := Oscillating();
    } else if pattern == 5 {
      var _, _, _ := Combined(mallocOk);
    } else {
      return 1, None;
    }
    return 0, Some(pattern);
  }

  /** Where a run of successes from 0 ends in a failure or at hi, the first
      failure is that point. */
  lemma FirstFailureIs(ok: nat -> bool, i: nat, hi: nat)
    requires i <= hi
    requires forall j :: 0 <= j < i ==> ok(j)
    requires i < hi ==> !ok(i)
    ensures Oracle.FirstFailure(ok, 0, hi) == i
  {
  }
}
