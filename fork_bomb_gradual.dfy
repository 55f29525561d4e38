/** The gradual fork-bomb simulator: a clamped thread budget, five
    normal-startup threads, then rapid creation that stops at the first
    failure with an accelerating delay and checkpoint messages, and finally a
    join of every counted thread. */
module ForkBombGradual {
  import opened Wrappers
  import CLib
  import Oracle

  const MaxThreads: nat := 80
  const MinThreads: nat := 5
  const StartupThreads: nat := 5

  /** `max_threads`: 80 without an argument, otherwise `atoi` of it clamped
      into [5, 80] (upper bound first, then lower). */
  function ClampMaxThreads(arg: Option<string>): (r: nat)
    ensures MinThreads <= r <= MaxThreads
    ensures arg.None? ==> r == MaxThreads
    ensures arg.Some? && MinThreads <= CLib.Atoi(arg.value) <= MaxThreads ==> r == CLib.Atoi(arg.value)
    ensures arg.Some? && CLib.Atoi(arg.value) < MinThreads ==> r == MinThreads
    ensures arg.Some? && CLib.Atoi(arg.value) > MaxThreads ==> r == MaxThreads
  {
    if arg.None? then MaxThreads
    else
      var m := CLib.Atoi(arg.value);
      var m := if m > MaxThreads then MaxThreads else m;
      if m < MinThreads then MinThreads else m
  }

  /** A budget written in decimal inside [5, 80] is taken as is. */
  lemma ClampKeepsDecimal(n: int)
    requires MinThreads <= n <= MaxThreads
    ensures ClampMaxThreads(Some(CLib.IntToDecimal(n))) == n
  {
    CLib.AtoiOfDecimal(n);
  }

  /** The `usleep` after creating thread slot i, in microseconds. */
  function Delay(i: nat): nat {
    if i < 20 then 500000 else if i < 40 then 300000 else 100000
  }

  /** Creation only accelerates: the delay never grows with the slot. */
  lemma DelayNonIncreasing(i: nat, j: nat)
    requires i <= j
    ensures Delay(j) <= Delay(i)
    ensures Delay(i) in {500000, 300000, 100000}
  {
  }

  /** The delays slept after slots 5 up to (not including) `to`. */
  function Delays(to: nat): seq<nat>
    decreases to
  {
    if to <= StartupThreads then [] else Delays(to - 1) + [Delay(to - 1)]
  }

  /** One delay per slot from 5 on, in slot order. */
  lemma {:induction false} DelaysExact(to: nat)
    ensures |Delays(to)| == if to <= StartupThreads then 0 else to - StartupThreads
    ensures forall k :: 0 <= k < |Delays(to)| ==> Delays(to)[k] == Delay(StartupThreads + k)
  {
    if to > StartupThreads {
      DelaysExact(to - 1);
    }
  }

  datatype Level = Suspicious | Alarming | Critical | Explosion

  /** The message printed once `created_threads` reaches `c`, if any. */
  function Checkpoint(c: nat): Option<Level> {
    if c == 10 then Some(Suspicious)
    else if c == 25 then Some(Alarming)
    else if c == 50 then Some(Critical)
    else if c % 10 == 0 then Some(Explosion)
    else None
  }

  /** A message is printed exactly at 10, 25, 50 and the other multiples of
      ten, with its own level at 10, 25 and 50, which take precedence. */
  lemma CheckpointCases(c: nat)
    ensures Checkpoint(c).Some? <==> c == 25 || c % 10 == 0
    ensures Checkpoint(c) == Some(Explosion) <==> c % 10 == 0 && c != 10 && c != 50
    ensures c == 10 ==> Checkpoint(c) == Some(Suspicious)
    ensures c == 25 ==> Checkpoint(c) == Some(Alarming)
    ensures c == 50 ==> Checkpoint(c) == Some(Critical)
  {
  }

  /** The messages printed while the count goes from `from` up to `to`, one
      successful creation at a time. */
  function Messages(from: nat, to: nat): seq<(Level, nat)>
    decreases to
  {
    if to <= from then []
    else Messages(from, to - 1) + if Checkpoint(to).Some? then [(Checkpoint(to).value, to)] else []
  }

  /** A message names count c exactly when c was reached and carries a
      checkpoint, with that checkpoint's level. */
  lemma {:induction false} MessagesExact(from: nat, to: nat, c: nat, lv: Level)
    ensures (lv, c) in Messages(from, to) <==> from < c <= to && Checkpoint(c) == Some(lv)
  {
    if to > from {
      MessagesExact(from, to - 1, c, lv);
    }
  }

  class ForkBomb {
    const maxThreads: nat
    /** Whether slot i holds a created thread's handle. */
    const threads: array<bool>
    const threadIds: array<int>
    var createdThreads: nat

    ghost predicate Valid()
      reads this
    {
      && MinThreads <= maxThreads <= MaxThreads
      && threads.Length == MaxThreads && threadIds.Length == maxThreads
      && createdThreads <= maxThreads
    }

    /** Lines 42-52: the budget, the id buffer of `max_threads` entries and
        an empty thread table. */
    constructor (arg: Option<string>)
      ensures Valid() && maxThreads == ClampMaxThreads(arg) && createdThreads == 0
      ensures forall i :: 0 <= i < MaxThreads ==> !threads[i]
    {
      maxThreads := ClampMaxThreads(arg);
      threads := new bool[MaxThreads](_ => false);
      threadIds := new int[ClampMaxThreads(arg)];
      createdThreads := 0;
    }

    /** Phase 1 (lines 55-62): five slots, each tried once. A failure
        leaves the slot empty and the loop goes on. */
    method Startup(create: nat -> bool)
      requires Valid() && createdThreads == 0
      modifies this`createdThreads, threads, threadIds
      ensures Valid()
      ensures createdThreads == Oracle.CountOk(create, 0, StartupThreads)
      ensures forall i :: 0 <= i < StartupThreads ==> threadIds[i] == i + 1 && (threads[i] <==> create(i))
      ensures forall i :: StartupThreads <= i < MaxThreads ==> threads[i] == old(threads[i])
      ensures forall i :: StartupThreads <= i < maxThreads ==> threadIds[i] == old(threadIds[i])
    {
      var i: nat := 0;
      while i < StartupThreads
        invariant i <= StartupThreads
        invariant createdThreads == Oracle.CountOk(create, 0, i)
        invariant forall k :: 0 <= k < i ==> threadIds[k] == k + 1 && (threads[k] <==> create(k))
        invariant forall k :: i <= k < MaxThreads ==> threads[k] == old(threads[k])
        invariant forall k :: i <= k < maxThreads ==> threadIds[k] == old(threadIds[k])
      {
        var ok := CreateSlot(create, i);
        if ok {
          createdThreads := createdThreads + 1;
        }
        i := i + 1;
      }
    }

    /** `thread_ids[i] = i + 1` and the `pthread_create` for slot i. */
    method CreateSlot(create: nat -> bool, i: nat) returns (ok: bool)
      requires Valid() && i < maxThreads
      modifies threads, threadIds
      ensures ok == create(i) && threadIds[i] == i + 1 && threads[i] == ok
      ensures forall k :: 0 <= k < MaxThreads && k != i ==> threads[k] == old(threads[k])
      ensures forall k :: 0 <= k < maxThreads && k != i ==> threadIds[k] == old(threadIds[k])
    {
      ok := create(i);
      threadIds[i] := i + 1;
      threads[i] := ok;
    }

    /** Phase 2 (lines 67-94): slots 5 on, until the budget is used or a
        creation fails. Returns the slot it stopped at, the checkpoint
        messages and the delays it slept. */
    method Attack(create: nat -> bool) returns (stop: nat, messages: seq<(Level, nat)>, delays: seq<nat>)
      requires Valid() && createdThreads <= StartupThreads
      modifies this`createdThreads, threads, threadIds
      ensures Valid()
      ensures stop == Oracle.FirstFailure(create, StartupThreads, maxThreads)
      ensures createdThreads == old(createdThreads) + (stop - StartupThreads)
      ensures messages == Messages(old(createdThreads), createdThreads)
      ensures delays == Delays(stop)
      ensures forall i :: StartupThreads <= i < stop ==> threadIds[i] == i + 1 && threads[i]
      ensures stop < maxThreads ==> threadIds[stop] == stop + 1 && !threads[stop]
      ensures forall i :: 0 <= i < StartupThreads ==> threads[i] == old(threads[i]) && threadIds[i] == old(threadIds[i])
      ensures forall i :: stop < i < MaxThreads || maxThreads <= i < MaxThreads ==> threads[i] == old(threads[i])
    {
      ghost var c0 := createdThreads;
      messages, delays := [], [];
      var i := StartupThreads;
      while i < maxThreads
        invariant StartupThreads <= i <= maxThreads
        invariant forall k :: StartupThreads <= k < i ==> create(k)
        invariant createdThreads == c0 + (i - StartupThreads) && createdThreads <= i
        invariant messages == Messages(c0, createdThreads)
        invariant delays == Delays(i)
        invariant forall k :: StartupThreads <= k < i ==> threadIds[k] == k + 1 && threads[k]
        invariant forall k :: 0 <= k < StartupThreads ==> threads[k] == old(threads[k]) && threadIds[k] == old(threadIds[k])
        invariant forall k :: i <= k < MaxThreads ==> threads[k] == old(threads[k])
      {
        var ok := CreateSlot(create, i);
        if ok {
          createdThreads := createdThreads + 1;
          var level := Checkpoint(createdThreads);
          if level.Some? {
            messages := messages + [(level.value, createdThreads)];
          }
        } else {
          stop := i;
          FirstFailureAt(create, StartupThreads, maxThreads, i);
          return;
        }
        delays := delays + [Delay(i)];
        i := i + 1;
      }
      stop := i;
      FirstFailureAt(create, StartupThreads, maxThreads, i);
    }

    /** The join loop of lines 117-119: the slots it joins. */
    method JoinAll() returns (joined: seq<nat>)
      requires Valid()
      ensures |joined| == createdThreads
      ensures forall k :: 0 <= k < |joined| ==> joined[k] == k && joined[k] < maxThreads
    {
      joined := [];
      for i := 0 to createdThreads
        invariant |joined| == i
        invariant forall k :: 0 <= k < i ==> joined[k] == k
      {
        joined := joined + [i];
      }
    }

    /** The whole program on a fresh table: created threads never exceed the
        budget, cleanup joins exactly that many, and when no startup
        creation failed the joined slots are exactly the created ones. */
    method Run(create: nat -> bool) returns (joined: seq<nat>)
      requires Valid() && createdThreads == 0
      requires forall i :: 0 <= i < MaxThreads ==> !threads[i]
      modifies this`createdThreads, threads, threadIds
      ensures Valid()
      ensures createdThreads == Oracle.CountOk(create, 0, StartupThreads) +
                               (Oracle.FirstFailure(create, StartupThreads, maxThreads) - StartupThreads)
      ensures |joined| == createdThreads <= maxThreads <= MaxThreads
      ensures (forall i :: 0 <= i < StartupThreads ==> create(i)) ==>
        forall k :: 0 <= k < MaxThreads ==> (threads[k] <==> k in joined)
    {
      Startup(create);
      ghost var afterStartup := threads[..];
      var stop, _, _ := Attack(create);
      joined := JoinAll();
      if forall i :: 0 <= i < StartupThreads ==> create(i) {
        Oracle.CountOkAll(create, 0, StartupThreads);
        assert createdThreads == stop;
        forall k | 0 <= k < MaxThreads ensures threads[k] <==> k in joined {
          if k < StartupThreads {
            assert threads[k] == afterStartup[k];
            assert joined[k] == k;
          } else if k < createdThreads {
            assert joined[k] == k;
          } else {
            if k != stop || stop == maxThreads {
              assert threads[k] == afterStartup[k];
            }
            assert k !in joined by {
              forall m | 0 <= m < |joined| ensures joined[m] != k {
              }
            }
          }
        }
      }
    }
  }

  /** Where a run of successes from lo ends in a failure or at hi, the first
      failure is that point. */
  lemma FirstFailureAt(ok: nat -> bool, lo: nat, hi: nat, i: nat)
    requires lo <= i <= hi
    requires forall k :: lo <= k < i ==> ok(k)
    requires i < hi ==> !ok(i)
    ensures Oracle.FirstFailure(ok, lo, hi) == i
  {
  }
}
