/** The bounded retry loop under every S3 call. */
module Retry {
  import opened Wrappers

  datatype Outcome = Success | Retryable | Fatal

  datatype Verdict = Succeeded | Rejected | Exhausted | Canceled

  /** At least one attempt is always made. */
  function Budget(maxAttempts: int): (n: nat)
    ensures if maxAttempts >= 1 then n == maxAttempts else n == 1
  {
    if maxAttempts < 1 then 1 else maxAttempts
  }

  /** How the loop ends after attempt number `attempt`; None if it waits and tries again. */
  function AfterAttempt(maxAttempts: int, attempt: nat, o: Outcome): Option<Verdict> {
    match o
    case Success => Some(Succeeded)
    case Fatal => Some(Rejected)
    case Retryable => if attempt + 1 >= Budget(maxAttempts) then Some(Exhausted) else None
  }

  /** What each attempt would yield, and when the context turns out to be done: at the check
      before an attempt, or while waiting after one. */
  datatype Script = Script(outcome: nat -> Outcome, doneBefore: nat -> bool, doneWaiting: nat -> bool)

  /** A done context stops the loop at the next check; every attempt made was made while it was
      not done. */
  method Do(maxAttempts: int, s: Script) returns (v: Verdict, made: nat)
    ensures made <= Budget(maxAttempts)
    ensures made <= 1 || made <= maxAttempts
    ensures v == Exhausted ==> if maxAttempts >= 1 then made == maxAttempts else made == 1
    ensures forall i :: 0 <= i < made - 1 ==> s.outcome(i) == Retryable && !s.doneWaiting(i)
    ensures forall i :: 0 <= i < made ==> !s.doneBefore(i)
    ensures v == Succeeded <==> made > 0 && s.outcome(made - 1) == Success
    ensures v == Rejected <==> made > 0 && s.outcome(made - 1) == Fatal
    ensures v == Exhausted <==> made == Budget(maxAttempts) && s.outcome(made - 1) == Retryable
    ensures v == Canceled ==>
      made < Budget(maxAttempts) && (s.doneBefore(made) || (made > 0 && s.doneWaiting(made - 1)))
    ensures made > 0 && s.outcome(made - 1) == Retryable && made < Budget(maxAttempts) ==> v == Canceled
  {
    var budget := if maxAttempts < 1 then 1 else maxAttempts;
    made := 0;
    for attempt := 0 to budget
      invariant made == attempt
      invariant forall i :: 0 <= i < attempt ==> s.outcome(i) == Retryable && !s.doneWaiting(i) && !s.doneBefore(i)
      invariant attempt < budget
    {
      if s.doneBefore(attempt) {
        return Canceled, made;
      }
      made := made + 1;
      match s.outcome(attempt) {
        case Success => return Succeeded, made;
        case Fatal => return Rejected, made;
        case Retryable =>
      }
      if attempt == budget - 1 {
        return Exhausted, made;
      }
      if s.doneWaiting(attempt) {
        return Canceled, made;
      }
    }
    assert false;
  }
}
