/** What a log limiter answers, and the sums that its accounting is stated in. */
module Verdicts {

  /** `suppressed` is the number of dropped calls that the allowed line reports. */
  datatype Answer = Answer(allowed: bool, suppressed: int)

  function Lines(answers: seq<Answer>): nat {
    if answers == [] then 0 else Lines(answers[..|answers| - 1]) + if answers[|answers| - 1].allowed then 1 else 0
  }

  function Reported(answers: seq<Answer>): int {
    if answers == [] then 0 else Reported(answers[..|answers| - 1]) + answers[|answers| - 1].suppressed
  }

  lemma Tally(answers: seq<Answer>, a: Answer)
    ensures Lines(answers + [a]) == Lines(answers) + (if a.allowed then 1 else 0)
    ensures Reported(answers + [a]) == Reported(answers) + a.suppressed
  {
    assert (answers + [a])[..|answers|] == answers;
  }
}
