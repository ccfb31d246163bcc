/** The per-context index of task types, built once from the enum table, and its lookup. */
module TaskIndex {
  import opened Wrappers
  import opened Seqs
  import opened TaskContexts
  import opened TaskTypes

  type Index = map<TaskContext, seq<TaskType>>

  /**
   * What the nested build loop leaves in the bucket of `c` after visiting `types`:
   * each visited type appended once per occurrence of `c` in its own context list.
   */
  function Bucket(types: seq<TaskType>, c: TaskContext): seq<TaskType> {
    if |types| == 0 then []
    else
      var t := types[|types| - 1];
      Bucket(types[..|types| - 1], c) + Repeat(t, Occurrences(GetTaskContexts(t), c))
  }

  /** The types among `types` whose context list contains `c`, in the order of `types`. */
  function FilterByContext(types: seq<TaskType>, c: TaskContext): seq<TaskType> {
    if |types| == 0 then []
    else
      var t := types[|types| - 1];
      FilterByContext(types[..|types| - 1], c) + (if c in GetTaskContexts(t) then [t] else [])
  }

  /** The map the build loop produces: a key exactly for the contexts that received a type. */
  function IndexOf(types: seq<TaskType>): Index {
    map c | c in AllContexts && |Bucket(types, c)| > 0 :: Bucket(types, c)
  }

  /** The static field `taskTypesByContext` once class initialisation has finished. */
  const TaskTypesByContext: Index := IndexOf(AllTypes)

  /** The bucket of `c` after appending `taskType` once per listing of `c` in `taskContexts`. */
  function Appended(index: Index, taskType: TaskType, taskContexts: seq<TaskContext>, c: TaskContext): seq<TaskType> {
    (if c in index then index[c] else []) + Repeat(taskType, Occurrences(taskContexts, c))
  }

  /**
   * One inner iteration: create the bucket of `taskContext` if it has no key yet, then
   * append `taskType` to it.
   */
  function AddToBucket(index: Index, taskContext: TaskContext, taskType: TaskType): (index': Index)
    ensures index'.Keys == index.Keys + {taskContext}
    ensures index'[taskContext] == (if taskContext in index then index[taskContext] else []) + [taskType]
    ensures forall c :: c in index && c != taskContext ==> index'[c] == index[c]
  {
    var withKey := if taskContext !in index then index[taskContext := []] else index;
    withKey[taskContext := withKey[taskContext] + [taskType]]
  }

  /**
   * The inner loop for one type: append it to the bucket of each context it lists,
   * creating the bucket on first use.
   */
  method AppendToBuckets(index: Index, taskType: TaskType, taskContexts: seq<TaskContext>)
    returns (index': Index)
    ensures forall c :: c in index' <==> c in index || c in taskContexts
    ensures forall c :: c in index' ==> index'[c] == Appended(index, taskType, taskContexts, c)
  {
    index' := index;
    for j := 0 to |taskContexts|
      invariant AppendedAll(index, index', taskType, taskContexts[..j])
    {
      AppendStep(index, index', taskType, taskContexts, j);
      index' := AddToBucket(index', taskContexts[j], taskType);
    }
    assert taskContexts[..|taskContexts|] == taskContexts;
  }

  /** The inner loop's invariant: `taskType` has been appended for every context in `done`. */
  predicate AppendedAll(index: Index, index': Index, taskType: TaskType, done: seq<TaskContext>) {
    && (forall c :: c in index' <==> c in index || c in done)
    && (forall c :: c in index' ==> index'[c] == Appended(index, taskType, done, c))
  }

  /** Appending for one more context `x` extends exactly the bucket of `x`. */
  lemma AppendedNext(index: Index, taskType: TaskType, done: seq<TaskContext>, x: TaskContext, c: TaskContext)
    ensures Appended(index, taskType, done + [x], c) ==
      Appended(index, taskType, done, c) + (if c == x then [taskType] else [])
  {
    var done' := done + [x];
    assert done'[..|done|] == done;
    var n := Occurrences(done, c);
    if c == x {
      assert Occurrences(done', c) == n + 1;
      assert Repeat(taskType, n + 1) == Repeat(taskType, n) + [taskType];
    } else {
      assert Occurrences(done', c) == n;
    }
  }

  /** One inner iteration keeps the invariant, with one more context done. */
  lemma AppendStep(index: Index, before: Index, taskType: TaskType, taskContexts: seq<TaskContext>, j: nat)
    requires j < |taskContexts|
    requires AppendedAll(index, before, taskType, taskContexts[..j])
    ensures AppendedAll(index, AddToBucket(before, taskContexts[j], taskType), taskType, taskContexts[..j + 1])
  {
    var x, done, done' := taskContexts[j], taskContexts[..j], taskContexts[..j + 1];
    assert done' == done + [x];
    AppendStepKeys(index, before, taskType, done, x, done');
    AppendStepBuckets(index, before, taskType, done, x, done');
  }

  lemma AppendStepKeys(index: Index, before: Index, taskType: TaskType, done: seq<TaskContext>, x: TaskContext,
                       done': seq<TaskContext>)
    requires done' == done + [x]
    requires forall c :: c in before <==> c in index || c in done
    ensures forall c :: c in AddToBucket(before, x, taskType) <==> c in index || c in done'
  {
    forall c
      ensures c in done' <==> c in done || c == x
    {
    }
  }

  lemma AppendStepBuckets(index: Index, before: Index, taskType: TaskType, done: seq<TaskContext>, x: TaskContext,
                          done': seq<TaskContext>)
    requires done' == done + [x]
    requires forall c :: c in before ==> before[c] == Appended(index, taskType, done, c)
    requires x in before <==> x in index || x in done
    ensures forall c :: c in AddToBucket(before, x, taskType) ==>
      AddToBucket(before, x, taskType)[c] == Appended(index, taskType, done', c)
  {
    var after := AddToBucket(before, x, taskType);
    forall c | c in after
      ensures after[c] == Appended(index, taskType, done', c)
    {
      AppendedNext(index, taskType, done, x, c);
    }
  }

  /** The outer loop of the static initialiser, over an arbitrary list of types. */
  method BuildIndex(types: seq<TaskType>) returns (index: Index)
    ensures forall c :: c in index <==> |Bucket(types, c)| > 0
    ensures forall c :: c in index ==> index[c] == Bucket(types, c)
  {
    index := map[];
    for i := 0 to |types|
      invariant forall c :: c in index <==> |Bucket(types[..i], c)| > 0
      invariant forall c :: c in index ==> index[c] == Bucket(types[..i], c)
    {
      var taskType := types[i];
      var taskContexts := GetTaskContexts(taskType);
      index := AppendToBuckets(index, taskType, taskContexts);
      assert types[..i + 1][..i] == types[..i];
      forall c
        ensures |Bucket(types[..i + 1], c)| ==
          |Bucket(types[..i], c)| + Occurrences(taskContexts, c)
        ensures Bucket(types[..i + 1], c) ==
          Bucket(types[..i], c) + Repeat(taskType, Occurrences(taskContexts, c))
      {
      }
    }
    assert types[..|types|] == types;
  }

  /** The static initialiser: index every declared type; the result is the static field. */
  method InitTaskTypesByContext() returns (index: Index)
    ensures index == TaskTypesByContext
    ensures forall c :: c in index && index[c] == FilterByContext(AllTypes, c)
  {
    index := BuildIndex(AllTypes);
    assert forall c :: c in AllContexts by {
      forall c ensures c in AllContexts {
        match c
        case CASE =>
        case CONTACT =>
        case EVENT =>
        case GENERAL =>
      }
    }
    forall c
      ensures c in index && index[c] == FilterByContext(AllTypes, c)
    {
      EveryContextHasBucket(c);
      BucketIsFilter(AllTypes, c);
    }
  }

  /**
   * `getTaskTypes`: every type for a null context, otherwise the context's bucket;
   * a `None` result would be the `null` of a missing map entry, which cannot occur.
   */
  function GetTaskTypes(taskContext: Option<TaskContext>): (r: Option<seq<TaskType>>)
    ensures taskContext.None? ==> r == Some(AllTypes)
    ensures taskContext.Some? ==> r == Some(FilterByContext(AllTypes, taskContext.value))
  {
    if taskContext.None? then Some(AllTypes)
    else if taskContext.value in TaskTypesByContext then
      BucketIsFilter(AllTypes, taskContext.value);
      Some(TaskTypesByContext[taskContext.value])
    else
      EveryContextHasBucket(taskContext.value);
      None
  }

  // ---------------------------------------------------------------------------
  // The build loop against the filter specification, for any list of types

  /**
   * A type lands in the bucket of `c` once per visit if its list names `c`, and never
   * otherwise (no declared list names a context twice).
   */
  lemma {:induction false} BucketMultiplicity(types: seq<TaskType>, c: TaskContext, t: TaskType)
    ensures Occurrences(Bucket(types, c), t) ==
      if c in GetTaskContexts(t) then Occurrences(types, t) else 0
    decreases |types|
  {
    if |types| > 0 {
      var prefix, last := types[..|types| - 1], types[|types| - 1];
      var n := Occurrences(GetTaskContexts(last), c);
      BucketMultiplicity(prefix, c, t);
      assert Bucket(types, c) == Bucket(prefix, c) + Repeat(last, n);
      OccurrencesAppend(Bucket(prefix, c), Repeat(last, n), t);
      OccurrencesRepeat(last, n, t);
      assert Occurrences(types, t) == Occurrences(prefix, t) + (if last == t then 1 else 0);
    }
  }

  /** Since no type lists a context twice, the build loop computes the plain filter. */
  lemma {:induction false} BucketIsFilter(types: seq<TaskType>, c: TaskContext)
    ensures Bucket(types, c) == FilterByContext(types, c)
    decreases |types|
  {
    if |types| > 0 {
      var prefix, last := types[..|types| - 1], types[|types| - 1];
      var n := Occurrences(GetTaskContexts(last), c);
      BucketIsFilter(prefix, c);
      assert n <= 1;
      if n == 1 {
        assert Repeat(last, 1) == [last];
      } else {
        assert c !in GetTaskContexts(last);
      }
    }
  }

  /** `t` is in the filter exactly when it is among `types` and lists `c`. */
  lemma {:induction false} FilterMembership(types: seq<TaskType>, c: TaskContext, t: TaskType)
    ensures t in FilterByContext(types, c) <==> t in types && c in GetTaskContexts(t)
    decreases |types|
  {
    if |types| > 0 {
      var prefix, last := types[..|types| - 1], types[|types| - 1];
      FilterMembership(prefix, c, t);
      assert types == prefix + [last];
    }
  }

  /** Filtering keeps declaration order, whatever order a type lists its contexts in. */
  lemma {:induction false} FilterOrdered(types: seq<TaskType>, c: TaskContext)
    requires DeclarationOrdered(types)
    ensures DeclarationOrdered(FilterByContext(types, c))
    decreases |types|
  {
    if |types| > 0 {
      var prefix, last := types[..|types| - 1], types[|types| - 1];
      assert DeclarationOrdered(prefix);
      FilterOrdered(prefix, c);
      var f := FilterByContext(prefix, c);
      forall k | 0 <= k < |f|
        ensures Ordinal(f[k]) < Ordinal(last)
      {
        FilterMembership(prefix, c, f[k]);
        var m :| 0 <= m < |prefix| && prefix[m] == f[k];
        assert types[m] == f[k];
      }
    }
  }

  // ---------------------------------------------------------------------------
  // Conservation: nothing is dropped or invented by the build

  /** The length of a context's bucket, an absent key counting as empty. */
  function BucketSize(index: Index, c: TaskContext): nat {
    if c in index then |index[c]| else 0
  }

  function TotalBucketSize(index: Index): nat {
    BucketSize(index, CASE) + BucketSize(index, CONTACT) + BucketSize(index, EVENT) + BucketSize(index, GENERAL)
  }

  /** The summed lengths of the context lists of `types`. */
  function TotalContextCount(types: seq<TaskType>): nat {
    if |types| == 0 then 0
    else TotalContextCount(types[..|types| - 1]) + |GetTaskContexts(types[|types| - 1])|
  }

  lemma {:induction false} BucketLengthsSum(types: seq<TaskType>)
    ensures |Bucket(types, CASE)| + |Bucket(types, CONTACT)| + |Bucket(types, EVENT)|
          + |Bucket(types, GENERAL)| == TotalContextCount(types)
    decreases |types|
  {
    if |types| > 0 {
      BucketLengthsSum(types[..|types| - 1]);
      ContextOccurrencesSum(GetTaskContexts(types[|types| - 1]));
    }
  }

  /** Every (type, listed context) pair becomes exactly one bucket entry. */
  lemma Conservation(types: seq<TaskType>)
    ensures TotalBucketSize(IndexOf(types)) == TotalContextCount(types)
  {
    BucketLengthsSum(types);
  }

  // ---------------------------------------------------------------------------
  // The declared table

  /** A type that lists `c` gives `c` a key, and sits in its bucket. */
  lemma IndexHasListedType(types: seq<TaskType>, c: TaskContext, t: TaskType)
    requires t in types && c in GetTaskContexts(t)
    ensures c in IndexOf(types)
    ensures t in IndexOf(types)[c]
  {
    FilterMembership(types, c, t);
    BucketIsFilter(types, c);
  }

  /** Every context receives a bucket, and each bucket holds the catch-all type. */
  lemma EveryContextHasBucket(c: TaskContext)
    ensures c in TaskTypesByContext
    ensures OTHER in TaskTypesByContext[c]
  {
    assert AllTypes[Ordinal(OTHER)] == OTHER;
    assert c in GetTaskContexts(OTHER) by {
      match c
      case CASE =>
      case CONTACT =>
      case EVENT =>
      case GENERAL =>
    }
    IndexHasListedType(AllTypes, c, OTHER);
  }

  /** Looking up any non-null context yields a list, never a missing entry. */
  lemma LookupNeverNull(c: TaskContext)
    ensures GetTaskTypes(Some(c)).Some?
    ensures OTHER in GetTaskTypes(Some(c)).value
  {
    EveryContextHasBucket(c);
    BucketIsFilter(AllTypes, c);
  }

  /** The null lookup lists every type exactly once, in declaration order. */
  lemma NullLookupListsEveryType()
    ensures GetTaskTypes(None).Some?
    ensures DeclarationOrdered(GetTaskTypes(None).value)
    ensures forall t :: Occurrences(GetTaskTypes(None).value, t) == 1
  {
    AllTypesOrdered();
    forall t
      ensures Occurrences(AllTypes, t) == 1
    {
      AllTypesOnce(t);
    }
  }

  /** A type is in the bucket of `c` exactly when its declaration lists `c`. */
  lemma BucketMembership(c: TaskContext, t: TaskType)
    ensures t in GetTaskTypes(Some(c)).value <==> c in GetTaskContexts(t)
  {
    assert AllTypes[Ordinal(t)] == t;
    FilterMembership(AllTypes, c, t);
  }

  /** Each bucket is in declaration order and repeats no type. */
  lemma BucketsOrdered(c: TaskContext)
    ensures DeclarationOrdered(GetTaskTypes(Some(c)).value)
    ensures NoDuplicates(GetTaskTypes(Some(c)).value)
  {
    AllTypesOrdered();
    FilterOrdered(AllTypes, c);
  }

  /** A type occurs in a bucket as often as its declaration lists the context: at most once. */
  lemma BucketOccurrences(c: TaskContext, t: TaskType)
    ensures Occurrences(GetTaskTypes(Some(c)).value, t) == Occurrences(GetTaskContexts(t), c)
    ensures Occurrences(GetTaskTypes(Some(c)).value, t) <= 1
  {
    AllTypesOnce(t);
    FilterOccurrencesOnce(AllTypes, c, t);
  }

  /** In a list that holds `t` once, the filter for `c` holds `t` as often as `t` lists `c`. */
  lemma FilterOccurrencesOnce(types: seq<TaskType>, c: TaskContext, t: TaskType)
    requires Occurrences(types, t) == 1
    ensures Occurrences(FilterByContext(types, c), t) == Occurrences(GetTaskContexts(t), c)
  {
    BucketMultiplicity(types, c, t);
    BucketIsFilter(types, c);
  }

  /** The built index conserves every declared (type, context) pair. */
  lemma DeclaredTableConservation()
    ensures TotalBucketSize(TaskTypesByContext) == TotalContextCount(AllTypes)
  {
    Conservation(AllTypes);
  }

  /** `CASE_ISOLATION` is offered only for cases. */
  lemma CaseIsolationOnlyInCase(c: TaskContext)
    ensures CASE_ISOLATION in GetTaskTypes(Some(c)).value <==> c == CASE
  {
    assert GetTaskContexts(CASE_ISOLATION) == [CASE];
    BucketMembership(c, CASE_ISOLATION);
  }

  /** `TREATMENT_CENTER_ESTABLISHMENT` is offered for cases and events only. */
  lemma TreatmentCenterInCaseAndEvent(c: TaskContext)
    ensures TREATMENT_CENTER_ESTABLISHMENT in GetTaskTypes(Some(c)).value <==> c == CASE || c == EVENT
  {
    assert GetTaskContexts(TREATMENT_CENTER_ESTABLISHMENT) == [CASE, EVENT];
    BucketMembership(c, TREATMENT_CENTER_ESTABLISHMENT);
  }

  /**
   * `QUARANTINE_PLACE` lists `EVENT` before `CASE`, yet in both buckets it follows
   * `TREATMENT_CENTER_ESTABLISHMENT`, which is declared before it.
   */
  lemma QuarantinePlaceFollowsTreatmentCenter(c: TaskContext)
    requires c == CASE || c == EVENT
    ensures TREATMENT_CENTER_ESTABLISHMENT in GetTaskTypes(Some(c)).value
    ensures QUARANTINE_PLACE in GetTaskTypes(Some(c)).value
    ensures ComesBefore(GetTaskTypes(Some(c)).value, TREATMENT_CENTER_ESTABLISHMENT, QUARANTINE_PLACE)
  {
    assert GetTaskContexts(TREATMENT_CENTER_ESTABLISHMENT) == [CASE, EVENT];
    assert GetTaskContexts(QUARANTINE_PLACE) == [EVENT, CASE];
    BucketMembership(c, TREATMENT_CENTER_ESTABLISHMENT);
    BucketMembership(c, QUARANTINE_PLACE);
    BucketsOrdered(c);
    OrderedComesBefore(GetTaskTypes(Some(c)).value, TREATMENT_CENTER_ESTABLISHMENT, QUARANTINE_PLACE);
  }

  /** Every position holding `a` in `s` lies before every position holding `b`. */
  predicate ComesBefore(s: seq<TaskType>, a: TaskType, b: TaskType) {
    forall i, j :: 0 <= i < |s| && 0 <= j < |s| && s[i] == a && s[j] == b ==> i < j
  }

  /** In a declaration-ordered list, an earlier-declared type comes before a later one. */
  lemma OrderedComesBefore(s: seq<TaskType>, a: TaskType, b: TaskType)
    requires DeclarationOrdered(s)
    requires Ordinal(a) < Ordinal(b)
    ensures ComesBefore(s, a, b)
  {
    forall i, j | 0 <= i < |s| && 0 <= j < |s| && s[i] == a && s[j] == b
      ensures i < j
    {
    }
  }
}
