/**
 * How xargs turns each child's termination into its own exit value, and
 * whether it launches another command afterwards.
 */
module ExitStatus {

  /** WEXITSTATUS is the low 8 bits of the child's exit code. */
  type Byte = x: int | 0 <= x < 256

  /** What waitpid reports: a normal exit with its status, or death by a signal. */
  datatype Status = Exited(code: Byte) | Signaled

  /** toys.exitval after one child, and whether xargs_main returns at once. */
  datatype Verdict = Verdict(exitval: int, stop: bool)

  /** A child exit that ends xargs: 126 or 127 (could not run), or 255 (asked to stop). */
  predicate Stops(st: Status) {
    st.Exited? && (st.code == 126 || st.code == 127 || st.code == 255)
  }

  /** A child exit that leaves toys.exitval as it was: 0, or 128 to 254. */
  predicate Quiet(st: Status) {
    st.Exited? && (st.code == 0 || 128 <= st.code <= 254)
  }

  /**
   * The exit-value special cases after waitpid: a child that exited 126 or
   * 127 passes that code on and ends xargs; 1 to 125 records 123; 255 records
   * 124 and ends xargs; any other exit changes nothing; a signal records 127.
   */
  function Classify(st: Status, exitval: int): (v: Verdict)
    ensures v.stop <==> Stops(st)
    ensures Quiet(st) ==> v == Verdict(exitval, false)
    ensures !Quiet(st) ==> v.exitval in {123, 124, 126, 127}
    ensures st.Exited? && 1 <= st.code <= 125 ==> v.exitval == 123
    ensures st.Exited? && st.code == 255 ==> v.exitval == 124
    ensures st.Exited? && (st.code == 126 || st.code == 127) ==> v.exitval == st.code
    ensures st.Signaled? ==> v.exitval == 127
  {
    if st.Exited? then
      if st.code == 126 || st.code == 127 then Verdict(st.code, true)
      else if 1 <= st.code <= 125 then Verdict(123, false)
      else if st.code == 255 then Verdict(124, true)
      else Verdict(exitval, false)
    else Verdict(127, false)
  }

  /**
   * toys.exitval after the given children, in order, starting from 0: always
   * 0 or one of the codes the xargs page lists.
   */
  function ExitAfter(sts: seq<Status>): (r: int)
    ensures r in {0, 123, 124, 126, 127}
    decreases |sts|
  {
    if sts == [] then 0 else Classify(sts[|sts| - 1], ExitAfter(sts[..|sts| - 1])).exitval
  }

  /** xargs exits 0 exactly when every child exited 0 or 128 to 254. */
  lemma {:induction false} ExitZeroIffQuiet(sts: seq<Status>)
    ensures ExitAfter(sts) == 0 <==> forall k :: 0 <= k < |sts| ==> Quiet(sts[k])
    decreases |sts|
  {
    if sts != [] {
      var init := sts[..|sts| - 1];
      ExitZeroIffQuiet(init);
      if forall k :: 0 <= k < |init| ==> Quiet(init[k]) {
        assert ExitAfter(init) == 0;
      } else {
        var k :| 0 <= k < |init| && !Quiet(init[k]);
        assert !Quiet(sts[k]);
        ExitNonzeroAfterLoud(init);
      }
    }
  }

  /** Once some child has set the exit value, no later child brings it back to 0. */
  lemma {:induction false} ExitNonzeroAfterLoud(sts: seq<Status>)
    requires exists k :: 0 <= k < |sts| && !Quiet(sts[k])
    ensures ExitAfter(sts) != 0
    decreases |sts|
  {
    var init := sts[..|sts| - 1];
    if Quiet(sts[|sts| - 1]) {
      var k :| 0 <= k < |sts| && !Quiet(sts[k]);
      assert init[k] == sts[k];
      ExitNonzeroAfterLoud(init);
    }
  }

  /**
   * The exit value is decided by the most recent child that was not quiet:
   * later quiet children leave it alone, so 123, 124, 126 and 127 each name
   * what that child did.
   */
  lemma {:induction false} ExitFromLastLoud(sts: seq<Status>, k: nat)
    requires k < |sts| && !Quiet(sts[k])
    requires forall m :: k < m < |sts| ==> Quiet(sts[m])
    ensures ExitAfter(sts) == Classify(sts[k], 0).exitval
    ensures ExitAfter(sts) == 123 <==> sts[k].Exited? && 1 <= sts[k].code <= 125
    ensures ExitAfter(sts) == 124 <==> sts[k] == Exited(255)
    ensures ExitAfter(sts) == 126 <==> sts[k] == Exited(126)
    ensures ExitAfter(sts) == 127 <==> sts[k] == Exited(127) || sts[k] == Signaled
    decreases |sts|
  {
    if k < |sts| - 1 {
      var init := sts[..|sts| - 1];
      assert init[k] == sts[k];
      ExitFromLastLoud(init, k);
    }
  }

  /**
   * A later child can lower the exit value: a signal (127) followed by an
   * exit of 1 leaves 123. The value is overwritten, not raised to a maximum.
   */
  lemma ExitNotMonotone()
    ensures ExitAfter([Signaled]) == 127
    ensures ExitAfter([Signaled, Exited(1)]) == 123
  {
    assert [Signaled, Exited(1)][..1] == [Signaled];
  }
}
