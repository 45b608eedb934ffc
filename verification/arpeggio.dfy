/** The arpeggio step controller: a target step count that rises by one on
    each rising edge of the note trigger (capped at maxSteps) and drops to
    zero when the arpeggio is off, and an unfurl value that eases toward
    the target. The two results live in a two-slot global that the getters
    read back. */
module Arpeggio {
  import opened RealMath

  /** arpeggioResult[2]: slot 0 the target step, slot 1 the unfurl step. */
  datatype Result = Result(target: real, unfurl: real)

  /** A new note: the trigger is set now and was clear on the last frame. */
  predicate RisingEdge(lastTrigger: int, noteTrigger: int)
  {
    noteTrigger != 0 && lastTrigger == 0
  }

  /** The target half of calcArpeggioStep_c. */
  function NextTarget(currentTarget: real, lastTrigger: int, active: int, noteTrigger: int, maxSteps: real): (t: real)
    ensures active == 0 ==> t == 0.0
    ensures active != 0 && RisingEdge(lastTrigger, noteTrigger) ==> t == Min(currentTarget + 1.0, maxSteps)
    ensures active != 0 && !RisingEdge(lastTrigger, noteTrigger) ==> t == currentTarget
  {
    if active != 0 then
      if RisingEdge(lastTrigger, noteTrigger) then
        var t := currentTarget + 1.0;
        if t > maxSteps then maxSteps else t
      else currentTarget
    else 0.0
  }

  /** Easing rate: fast (0.3) while unfurling toward a higher target, slow
      (0.05) while folding back or holding. */
  function Rate(target: real, unfurl: real): (k: real)
    ensures 0.0 < k <= 1.0
    ensures k == 0.3 <==> target > unfurl
    ensures target <= unfurl ==> k == 0.05
  {
    if target > unfurl then 0.3 else 0.05
  }

  /** calcArpeggioStep_c: the stored target is NextTarget, and the unfurl
      moves from currentUnfurl toward it by the rate's share of the gap,
      never past it, and strictly closer unless already there. A target in
      [0, maxSteps] stays there. */
  function CalcArpeggioStep(currentUnfurl: real, currentTarget: real, lastTrigger: int, active: int,
                            noteTrigger: int, maxSteps: real): (r: Result)
    ensures r.target == NextTarget(currentTarget, lastTrigger, active, noteTrigger, maxSteps)
    ensures r.unfurl == currentUnfurl + (r.target - currentUnfurl) * Rate(r.target, currentUnfurl)
    ensures Between(r.unfurl, currentUnfurl, r.target)
    ensures r.target != currentUnfurl ==> r.unfurl != currentUnfurl && r.unfurl != r.target
    ensures 0.0 <= currentTarget <= maxSteps ==> 0.0 <= r.target <= maxSteps
  {
    var t := NextTarget(currentTarget, lastTrigger, active, noteTrigger, maxSteps);
    var speed := Rate(t, currentUnfurl);
    Result(t, currentUnfurl + (t - currentUnfurl) * speed)
  }

  /** getArpeggioTargetStep_c: slot 0 of the global. */
  function GetTargetStep(g: Result): (t: real)
    ensures t == g.target
  {
    g.target
  }

  /** getArpeggioUnfurlStep_c: slot 1 of the global. */
  function GetUnfurlStep(g: Result): (u: real)
    ensures u == g.unfurl
  {
    g.unfurl
  }

  /** The arguments of one call of calcArpeggioStep_c. */
  datatype Call = Call(currentUnfurl: real, currentTarget: real, lastTrigger: int, active: int,
                       noteTrigger: int, maxSteps: real)

  /** One call overwrites both slots of the global. */
  function Apply(c: Call): Result
  {
    CalcArpeggioStep(c.currentUnfurl, c.currentTarget, c.lastTrigger, c.active, c.noteTrigger, c.maxSteps)
  }

  /** The global after a sequence of calls, starting from g. */
  function Replay(g: Result, calls: seq<Call>): Result
    decreases |calls|
  {
    if |calls| == 0 then g else Replay(Apply(calls[0]), calls[1..])
  }

  /** The getters return exactly what the last call stored: earlier calls
      and the starting contents leave no trace. */
  lemma {:induction false} GettersReturnLastCall(g: Result, calls: seq<Call>)
    requires |calls| > 0
    ensures GetTargetStep(Replay(g, calls)) == Apply(calls[|calls| - 1]).target
    ensures GetUnfurlStep(Replay(g, calls)) == Apply(calls[|calls| - 1]).unfurl
    decreases |calls|
  {
    if |calls| > 1 {
      GettersReturnLastCall(Apply(calls[0]), calls[1..]);
      assert calls[1..][|calls[1..]| - 1] == calls[|calls| - 1];
    }
  }
}
