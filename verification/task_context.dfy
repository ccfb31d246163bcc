/** The organisational contexts a task can belong to. */
module TaskContexts {
  import opened Seqs

  /** Declared in the order in which the task-type table first uses each context. */
  datatype TaskContext = CASE | CONTACT | EVENT | GENERAL

  const AllContexts: seq<TaskContext> := [CASE, CONTACT, EVENT, GENERAL]

  /** Every element of a context list is exactly one of the four contexts. */
  lemma {:induction false} ContextOccurrencesSum(cs: seq<TaskContext>)
    ensures Occurrences(cs, CASE) + Occurrences(cs, CONTACT)
          + Occurrences(cs, EVENT) + Occurrences(cs, GENERAL) == |cs|
  {
    if |cs| > 0 {
      ContextOccurrencesSum(cs[..|cs| - 1]);
      match cs[|cs| - 1]
      case CASE =>
      case CONTACT =>
      case EVENT =>
      case GENERAL =>
    }
  }
}
