# SORMAS task-type classification table

A Dafny model of the `TaskType` enum of the SORMAS surveillance system. Each of the 21
task types is declared with a non-empty, ordered list of task contexts (`CASE`, `CONTACT`,
`EVENT`, `GENERAL`) and a flag saying whether the creator of such a task must add a
comment. A static initialiser inverts the table once into a per-context index,
`taskTypesByContext`. `getTaskTypes` answers a lookup from that index, or returns every
type when the context is `null`.

Layout:

- `wrappers.dfy` (`Wrappers`): `Option`, whose `None` stands for a Java `null` result.
- `seqs.dfy` (`Seqs`): counting occurrences in a sequence, repetition, duplicate-freedom.
- `task_context.dfy` (`TaskContexts`): the four contexts.
- `task_type.dfy` (`TaskTypes`): the 21 constants, their constructor arguments
  (`Declared`), `values()` (`AllTypes`), declaration order (`Ordinal`) and the two accessors.
- `task_index.dfy` (`TaskIndex`): the index build, the lookup, and the proofs about them.

The build loop is modelled in general. `Bucket(types, c)` is what the nested loop leaves
under `c`: each visited type is appended once for every occurrence of `c` in its own
context list. `FilterByContext(types, c)` is the independent specification: the types
that list `c`, in the order of `types`. The two coincide because no declared type lists a
context twice. `BuildIndex` works for any list of types. `InitTaskTypesByContext` runs it
over `values()` and yields the constant `TaskTypesByContext`, which `GetTaskTypes` reads.

`TaskContext` is declared elsewhere in SORMAS. Its four constants are inferred from the
table and declared in the order they first appear there. Because the model's
`TaskContext` has exactly the four constants the table uses, and `OTHER` lists all four,
a lookup with a non-null context never finds a missing entry (`LookupNeverNull`). If
SORMAS's `TaskContext` had a further constant that no task type lists, Java
`getTaskTypes` would return `null` for it.

Two behaviours of the code that the model keeps:

- The build loop does not reject a type that lists a context twice; it would append that
  type twice. `Bucket` and `AppendToBuckets` keep that behaviour: a type is appended
  once per occurrence of the context in its list. In the declared table no list repeats
  a context (`GetTaskContexts`), so every bucket is a plain filter.
- The code does not validate its argument. `TaskContext` is a closed datatype here, so
  the only case left besides a known context is `null`, which is modelled.

## Model

| member | source | states |
|---|---|---|
| TaskTypes.Declare | sormas-api/src/main/java/de/symeda/sormas/api/task/TaskType.java:56-58 | the one-argument constructor stores the given contexts unchanged and sets the creator-comment flag to false |
| TaskTypes.Declared | sormas-api/src/main/java/de/symeda/sormas/api/task/TaskType.java:31-51 | the constructor arguments of each constant: every constant lists at least one context, and only `OTHER` sets the creator-comment flag |
| TaskTypes.DeclaredListsDistinct | sormas-api/src/main/java/de/symeda/sormas/api/task/TaskType.java:31-51 | no constant is declared with the same context twice |
| TaskTypes.Ordinal | sormas-api/src/main/java/de/symeda/sormas/api/task/TaskType.java:31-51 | each constant has a position in `values()`, and `values()` holds that constant at that position |
| TaskTypes.AllTypesOrdered | sormas-api/src/main/java/de/symeda/sormas/api/task/TaskType.java:31-51 | `values()` has 21 entries in strictly increasing declaration order, so no constant appears twice |
| TaskTypes.AllTypesOnce | sormas-api/src/main/java/de/symeda/sormas/api/task/TaskType.java:31-51 | every constant occurs in `values()` exactly once |
| TaskTypes.GetTaskContexts | sormas-api/src/main/java/de/symeda/sormas/api/task/TaskType.java:31-67 | the context list a type was declared with is never empty and never names a context twice |
| TaskTypes.IsCreatorCommentRequired | sormas-api/src/main/java/de/symeda/sormas/api/task/TaskType.java:100-102 | a creator comment is required if and only if the type is `OTHER`; the one-argument constructor defaults the flag to false |
| TaskIndex.AddToBucket | sormas-api/src/main/java/de/symeda/sormas/api/task/TaskType.java:80-83 | one inner step: the context gains a key if it had none; its bucket becomes the old bucket, or an empty one, with the type appended; every other bucket is unchanged |
| TaskIndex.AppendToBuckets | sormas-api/src/main/java/de/symeda/sormas/api/task/TaskType.java:79-84 | one pass of the inner loop: keys are the old keys plus the type's contexts; each bucket gains the type once per listing of that context; all other buckets are unchanged |
| TaskIndex.BuildIndex | sormas-api/src/main/java/de/symeda/sormas/api/task/TaskType.java:77-85 | after the nested loop over any list of types, a context has a key exactly when some type listed it, and its bucket is the loop's append-per-occurrence sequence |
| TaskIndex.InitTaskTypesByContext | sormas-api/src/main/java/de/symeda/sormas/api/task/TaskType.java:75-91 | the static initialiser yields the static index, and every one of the four contexts maps to the declaration-order filter of `values()` |
| TaskIndex.GetTaskTypes | sormas-api/src/main/java/de/symeda/sormas/api/task/TaskType.java:93-98 | a `null` context yields all types in declaration order; any other context yields its filter bucket and never a missing-entry `null` |
| TaskIndex.BucketMultiplicity | sormas-api/src/main/java/de/symeda/sormas/api/task/TaskType.java:77-85 | a type occurs in the bucket of `c` as many times as it was visited if its list names `c`, and not at all otherwise |
| TaskIndex.BucketIsFilter | sormas-api/src/main/java/de/symeda/sormas/api/task/TaskType.java:77-85 | because no type names a context twice, the loop's bucket equals the order-preserving filter of the visited types |
| TaskIndex.FilterMembership | sormas-api/src/main/java/de/symeda/sormas/api/task/TaskType.java:77-85 | a type is in the filter for `c` if and only if it was visited and its list contains `c` |
| TaskIndex.FilterOrdered | sormas-api/src/main/java/de/symeda/sormas/api/task/TaskType.java:77-83 | when the visited types are in declaration order, so is each filtered bucket, whatever order a type lists its own contexts in |
| TaskIndex.Conservation | sormas-api/src/main/java/de/symeda/sormas/api/task/TaskType.java:77-85 | the bucket lengths over the four contexts sum to the total length of the visited types' context lists |
| TaskIndex.IndexHasListedType | sormas-api/src/main/java/de/symeda/sormas/api/task/TaskType.java:77-85 | a visited type that lists a context gives that context a key, and the type is in that context's bucket |
| TaskIndex.EveryContextHasBucket | sormas-api/src/main/java/de/symeda/sormas/api/task/TaskType.java:80-83 | every context has a key in the static index, and its bucket contains `OTHER`, which is declared with all four contexts |
| TaskIndex.LookupNeverNull | sormas-api/src/main/java/de/symeda/sormas/api/task/TaskType.java:93-97 | looking up any non-null context returns a list, never `null`, and that list contains `OTHER` |
| TaskIndex.NullLookupListsEveryType | sormas-api/src/main/java/de/symeda/sormas/api/task/TaskType.java:94-95 | the `null` lookup lists every type exactly once, in declaration order |
| TaskIndex.BucketMembership | sormas-api/src/main/java/de/symeda/sormas/api/task/TaskType.java:97 | a type is returned for context `c` if and only if its declaration lists `c` |
| TaskIndex.BucketsOrdered | sormas-api/src/main/java/de/symeda/sormas/api/task/TaskType.java:77-83 | every returned bucket is in strictly increasing declaration order, so it has no duplicates |
| TaskIndex.BucketOccurrences | sormas-api/src/main/java/de/symeda/sormas/api/task/TaskType.java:79-83 | a type occurs in the bucket for `c` exactly as often as its declaration names `c`, which is at most once |
| TaskIndex.DeclaredTableConservation | sormas-api/src/main/java/de/symeda/sormas/api/task/TaskType.java:77-90 | the static index holds as many entries as the declared context lists hold contexts |
| TaskIndex.CaseIsolationOnlyInCase | sormas-api/src/main/java/de/symeda/sormas/api/task/TaskType.java:32 | `CASE_ISOLATION` is returned for `CASE` and for no other context |
| TaskIndex.TreatmentCenterInCaseAndEvent | sormas-api/src/main/java/de/symeda/sormas/api/task/TaskType.java:42 | `TREATMENT_CENTER_ESTABLISHMENT` is returned for `CASE` and `EVENT` and for neither `CONTACT` nor `GENERAL` |
| TaskIndex.QuarantinePlaceFollowsTreatmentCenter | sormas-api/src/main/java/de/symeda/sormas/api/task/TaskType.java:42-47 | both `TREATMENT_CENTER_ESTABLISHMENT` and `QUARANTINE_PLACE` are in the `CASE` and `EVENT` buckets, and in each `QUARANTINE_PLACE` comes after `TREATMENT_CENTER_ESTABLISHMENT`, although it lists `EVENT` before `CASE` |

## Left out

- `toString` (`sormas-api/src/main/java/de/symeda/sormas/api/task/TaskType.java:69-71`): it calls the localisation lookup `I18nProperties.getEnumCaption`, which is not part of this model.
- Wrapping the buckets with `Collections.unmodifiableList` (`sormas-api/src/main/java/de/symeda/sormas/api/task/TaskType.java:87-90`): buckets are immutable `seq` values here, and wrapping leaves their contents unchanged. The open TODO at line 89, which asks for a review of this wrapping loop, has no counterpart here: there are no mutable lists to wrap. The list that a `null` lookup returns (`Arrays.asList(TaskType.values())`, line 95) is fixed-size, but a caller can change its entries. It is also modelled as an immutable `seq`. Each call builds a new list, so such a change never affects a later call.
- TaskTypes.GetTaskContexts: the Java accessor (`sormas-api/src/main/java/de/symeda/sormas/api/task/TaskType.java:65-67`) returns the enum's internal array itself, so a caller could overwrite its entries (with a repeated context or `null`) and change what later calls return, while the already-built index keeps the old contents. The model returns an immutable `seq`; its non-empty and duplicate-free ensures describe the declared contents only.
- `EnumMap` as a data structure: modelled as a Dafny `map` keyed by `TaskContext`.
- Class-loading order and thread-safe one-time initialisation: the index is a constant, and `InitTaskTypesByContext` is shown to produce it. Repeated lookups return equal lists because `GetTaskTypes` is a pure function.
