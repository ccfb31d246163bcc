/** The closed table of task types: each type's contexts and its creator-comment flag. */
module TaskTypes {
  import opened Seqs
  import opened TaskContexts

  datatype TaskType =
    | ACTIVE_SEARCH_FOR_OTHER_CASES
    | CASE_ISOLATION
    | CASE_INVESTIGATION
    | CASE_MANAGEMENT
    | CASE_BURIAL
    | CONTACT_TRACING
    | SAMPLE_COLLECTION
    | CONTACT_INVESTIGATION
    | CONTACT_FOLLOW_UP
    | ANIMAL_TESTING
    | EVENT_INVESTIGATION
    | TREATMENT_CENTER_ESTABLISHMENT
    | ENVIRONMENTAL_HEALTH_ACTIVITIES
    | DECONTAMINATION_DISINFECTION_ACTIVITIES
    | QUARANTINE_PLACE
    | VACCINATION_ACTIVITIES
    | ANIMAL_DEPOPULATION
    | OTHER
    | DAILY_REPORT_GENERATION
    | SURVEILLANCE_REPORT_GENERATION
    | WEEKLY_REPORT_GENERATION

  /** The arguments an enum constant is constructed with. */
  datatype Declaration = Declaration(creatorCommentRequired: bool, taskContexts: seq<TaskContext>)

  /** The constructor that takes only contexts: the comment flag defaults to false. */
  function Declare(taskContexts: seq<TaskContext>): (d: Declaration)
    ensures !d.creatorCommentRequired
    ensures d.taskContexts == taskContexts
  {
    Declaration(false, taskContexts)
  }

  /**
   * The constructor arguments of every constant, contexts in their declared order.
   * Every constant lists at least one context, and only `OTHER` sets the flag.
   */
  function Declared(t: TaskType): (d: Declaration)
    ensures |d.taskContexts| > 0
    ensures d.creatorCommentRequired <==> t == OTHER
  {
    match t
    case ACTIVE_SEARCH_FOR_OTHER_CASES => Declare([CASE])
    case CASE_ISOLATION => Declare([CASE])
    case CASE_INVESTIGATION => Declare([CASE])
    case CASE_MANAGEMENT => Declare([CASE])
    case CASE_BURIAL => Declare([CASE])
    case CONTACT_TRACING => Declare([CASE])
    case SAMPLE_COLLECTION => Declare([CASE])
    case CONTACT_INVESTIGATION => Declare([CONTACT])
    case CONTACT_FOLLOW_UP => Declare([CONTACT])
    case ANIMAL_TESTING => Declare([EVENT])
    case EVENT_INVESTIGATION => Declare([EVENT])
    case TREATMENT_CENTER_ESTABLISHMENT => Declare([CASE, EVENT])
    case ENVIRONMENTAL_HEALTH_ACTIVITIES => Declare([CASE, EVENT])
    case DECONTAMINATION_DISINFECTION_ACTIVITIES => Declare([CASE, EVENT])
    case QUARANTINE_PLACE => Declare([EVENT, CASE])
    case VACCINATION_ACTIVITIES => Declare([EVENT, CASE])
    case ANIMAL_DEPOPULATION => Declare([EVENT, CASE])
    case OTHER => Declaration(true, [CASE, CONTACT, EVENT, GENERAL])
    case DAILY_REPORT_GENERATION => Declare([GENERAL])
    case SURVEILLANCE_REPORT_GENERATION => Declare([GENERAL])
    case WEEKLY_REPORT_GENERATION => Declare([GENERAL])
  }

  /** `values()`: every constant in declaration order. */
  const AllTypes: seq<TaskType> := [
    ACTIVE_SEARCH_FOR_OTHER_CASES, CASE_ISOLATION, CASE_INVESTIGATION, CASE_MANAGEMENT,
    CASE_BURIAL, CONTACT_TRACING, SAMPLE_COLLECTION, CONTACT_INVESTIGATION,
    CONTACT_FOLLOW_UP, ANIMAL_TESTING, EVENT_INVESTIGATION, TREATMENT_CENTER_ESTABLISHMENT,
    ENVIRONMENTAL_HEALTH_ACTIVITIES, DECONTAMINATION_DISINFECTION_ACTIVITIES, QUARANTINE_PLACE,
    VACCINATION_ACTIVITIES, ANIMAL_DEPOPULATION, OTHER, DAILY_REPORT_GENERATION,
    SURVEILLANCE_REPORT_GENERATION, WEEKLY_REPORT_GENERATION
  ]

  /** The position of a constant in declaration order. */
  function Ordinal(t: TaskType): (n: nat)
    ensures n < |AllTypes| && AllTypes[n] == t
  {
    match t
    case ACTIVE_SEARCH_FOR_OTHER_CASES => 0
    case CASE_ISOLATION => 1
    case CASE_INVESTIGATION => 2
    case CASE_MANAGEMENT => 3
    case CASE_BURIAL => 4
    case CONTACT_TRACING => 5
    case SAMPLE_COLLECTION => 6
    case CONTACT_INVESTIGATION => 7
    case CONTACT_FOLLOW_UP => 8
    case ANIMAL_TESTING => 9
    case EVENT_INVESTIGATION => 10
    case TREATMENT_CENTER_ESTABLISHMENT => 11
    case ENVIRONMENTAL_HEALTH_ACTIVITIES => 12
    case DECONTAMINATION_DISINFECTION_ACTIVITIES => 13
    case QUARANTINE_PLACE => 14
    case VACCINATION_ACTIVITIES => 15
    case ANIMAL_DEPOPULATION => 16
    case OTHER => 17
    case DAILY_REPORT_GENERATION => 18
    case SURVEILLANCE_REPORT_GENERATION => 19
    case WEEKLY_REPORT_GENERATION => 20
  }

  /** Strictly increasing in declaration order: ordered and duplicate-free. */
  predicate DeclarationOrdered(s: seq<TaskType>) {
    forall i, j :: 0 <= i < j < |s| ==> Ordinal(s[i]) < Ordinal(s[j])
  }

  /** `values()` holds the 21 constants in strictly increasing declaration order. */
  lemma AllTypesOrdered()
    ensures |AllTypes| == 21
    ensures DeclarationOrdered(AllTypes)
    ensures NoDuplicates(AllTypes)
  {
    forall i | 0 <= i < |AllTypes|
      ensures Ordinal(AllTypes[i]) == i
    {
      assert AllTypes[Ordinal(AllTypes[i])] == AllTypes[i];
    }
  }

  /** Every constant occurs in `values()` exactly once. */
  lemma AllTypesOnce(t: TaskType)
    ensures Occurrences(AllTypes, t) == 1
  {
    AllTypesOrdered();
    NoDuplicatesOccurrences(AllTypes);
    assert AllTypes[Ordinal(t)] == t;
  }

  /** `getTaskContexts`: the declared list, which is never empty and never repeats a context. */
  function GetTaskContexts(t: TaskType): (cs: seq<TaskContext>)
    ensures |cs| > 0
    ensures forall c :: Occurrences(cs, c) <= 1
  {
    var cs := Declared(t).taskContexts;
    DeclaredListsDistinct(t);
    NoDuplicatesOccurrences(cs);
    cs
  }

  /** No constant is declared with the same context twice. */
  lemma DeclaredListsDistinct(t: TaskType)
    ensures NoDuplicates(Declared(t).taskContexts)
  {
  }

  /** `isCreatorCommentRequired`: only the catch-all type demands a creator comment. */
  function IsCreatorCommentRequired(t: TaskType): (r: bool)
    ensures r <==> t == OTHER
  {
    Declared(t).creatorCommentRequired
  }
}
