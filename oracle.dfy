/** Outcomes of operating-system calls the model cannot predict (malloc,
    pthread_create, open). An oracle `ok: nat -> bool` says whether the call
    made at step k succeeds. */
module Oracle {

  /** The first step in [lo, hi) whose call fails, or hi when none does:
      where a loop that stops at the first failure ends. */
  function FirstFailure(ok: nat -> bool, lo: nat, hi: nat): (r: nat)
    requires lo <= hi
    ensures lo <= r <= hi
    ensures forall k :: lo <= k < r ==> ok(k)
    ensures r < hi ==> !ok(r)
    decreases hi - lo
  {
    if lo == hi || !ok(lo) then lo else FirstFailure(ok, lo + 1, hi)
  }

  /** The number of steps in [lo, hi) whose call succeeds. */
  function CountOk(ok: nat -> bool, lo: nat, hi: nat): (r: nat)
    requires lo <= hi
    ensures r <= hi - lo
    decreases hi - lo
  {
    if lo == hi then 0 else CountOk(ok, lo, hi - 1) + (if ok(hi - 1) then 1 else 0)
  }

  /** Every step succeeds exactly when the count is the whole range. */
  lemma {:induction false} CountOkAll(ok: nat -> bool, lo: nat, hi: nat)
    requires lo <= hi
    ensures CountOk(ok, lo, hi) == hi - lo <==> forall k :: lo <= k < hi ==> ok(k)
    decreases hi - lo
  {
    if lo < hi {
      CountOkAll(ok, lo, hi - 1);
    }
  }
}
