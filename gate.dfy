/** The processing gate: what one `process()` call, and a run of them, invokes. */
module Gate {
  import opened Hooks

  /** The calls of one `process()`: nothing if `checkProcessing()` is false, else begin, body, end. */
  function Tick(checkProcessing: bool): (r: seq<Call>)
    ensures r == [] <==> !checkProcessing
    ensures Begin in r <==> End in r
    ensures checkProcessing ==> r[0] == Begin && r[1] == ProcessEntities && r[|r| - 1] == End
  {
    if checkProcessing then [Begin, ProcessEntities, End] else []
  }

  /** The calls of successive `process()` calls, given each one's `checkProcessing()` result. */
  function Ticks(checks: seq<bool>): seq<Call>
    decreases |checks|
  {
    if checks == [] then []
    else Ticks(checks[..|checks| - 1]) + Tick(checks[|checks| - 1])
  }

  /** The number of ticks whose check passed. */
  function Passed(checks: seq<bool>): nat
    decreases |checks|
  {
    if checks == [] then 0
    else Passed(checks[..|checks| - 1]) + (if checks[|checks| - 1] then 1 else 0)
  }

  /** The one round of a passing tick. */
  const Round: seq<Call> := [Begin, ProcessEntities, End]

  /**
   * Over any run of ticks the calls are whole rounds of begin, body, end,
   * one per passing tick: `end` runs exactly when `begin` ran, right after
   * the body, and the body never runs outside a round.
   */
  lemma {:induction false} TicksAreWholeRounds(checks: seq<bool>)
    ensures |Ticks(checks)| == 3 * Passed(checks)
    ensures forall i :: 0 <= i < |Ticks(checks)| ==> Ticks(checks)[i] == Round[i % 3]
    decreases |checks|
  {
    if checks != [] {
      var init := checks[..|checks| - 1];
      TicksAreWholeRounds(init);
      var before := Ticks(init);
      var t := Ticks(checks);
      assert t == before + Tick(checks[|checks| - 1]);
      forall i | |before| <= i < |t|
        ensures t[i] == Round[i % 3]
      {
        var j := i - |before|;
        assert i % 3 == j by {
          assert i == 3 * Passed(init) + j && 0 <= j < 3;
        }
      }
    }
  }
}
