# gokugen in Dafny

gokugen is a single-process task scheduler: a repository of tasks, a timer that is kept armed for the
next one, a scheduler that waits, fetches and dispatches, and a cron store that feeds a scheduler from
recurring entries. This project models these parts as they are built and proves what keeps them in
agreement.

`dafny verify dfyconfig.toml` checks everything. The project needs nothing but itself.

## How it is organised

Each stateful part of the repository is a class with the fields and the loops of the original. Its
methods are proved to compute functions on plain values, and the long-range properties are proved of
those functions and of runs of them.

| what | on values | as an object |
|---|---|---|
| tasks, parameters, refusal errors | `Def` | |
| index-maintaining heap | heap order in `SortableTask` | `SortableTask.TaskHeap` |
| in-memory repository | `TaskList`, laws in `TaskListLaws`, effects field by field in `Effects` | `InMemory.InMemoryRepository` |
| query matching | `Query`, what `Find` answers in `Finding` | `InMemory.InMemoryRepository.Find` |
| hook timer | `Refresh` and its tests in `HookTimer` | `HookTimer.MutationHookTimer` |
| repository wrapper and scheduler | step system `System`; theorems in `TimerSafety`, `WakeUp`, `LostWakeUp`, `Delivery`, `Witnesses` | `Scheduler.Repository`, `Scheduler.Scheduler` |
| worker-pool dispatcher | | `WorkerPool` |
| mutators | `Mutator` | |
| cron store | `CronList`, what an edit means in `CronEdits` | `CronItems.Entry`, `Cron.CronStore` |
| cron store behind the scheduler's interface | `VolatileList` | `Volatile.VolatileTaskRepo` |
| cron expressions and rows | `Row` | |

The step system `System` has one step for each place where another goroutine can come in between: a
mutation of the core repository and the later notification of the hook timer are two steps with any
number of pending notifications between them, and `Step` is cut where others may come in between. One
step is coarser than that: the fetcher's `MarkAsDispatched` and `GetById` and the reservation of the
result are one, and the notification, which the program makes before `GetById`, comes after it. A run
is any sequence of steps.

Time is an integer number of nanoseconds since Go's zero time, and `NormalizeTime` is the floor to a
multiple of 1,000,000. Clock readings, generated ids, random numbers, context errors, failures of
`GetNext` that are not `Exhausted`, and what a caller's edit function returns are parameters. Runs of
the step system assume fresh ids and a clock that does not step back and stays before the `farFuture`
that the hook timer picks when it is made.

The heap is the algorithm of Go's `container/heap`, which the repository's README names; `Init`,
`up`, `down`, `Push`, `Pop`, `Fix` and `Remove` are written out over the repository's own `swap`,
`push` and `pop`. Of libraries that are not part of the repository the model assumes that the ordered
map iterates in insertion order, that `Filter` of the heap applies its function to the slice and then
calls `Init`, that the event queue delivers each reserved result once, and that stopping a clock and
draining its channel leaves no firing behind.

## Where the code does not do what one might expect

The model keeps these, and a lemma says exactly when they matter.

- The hook timer's cache is not always exact after `UpdateById`: `WakeUp.UpdateStaysExactIff` gives the
  exact condition on the update. A wake-up can then be lost: `LostWakeUp.LosesWakeUpIff` says that after
  an update of a settled state some run loses one exactly if the update was hidden, and
  `LostWakeUp.StrandedForever` that nothing but a user's call brings it back.
  `Witnesses.UpdateLosesWakeUp` is such a run from the start.
- The three looks that `Step` takes at the repository in its timer branch are not atomic.
  `Witnesses.RearmingHandsOutEarly` is a run in which a task is accepted ahead of its time;
  `TimerSafety.AcceptedEarlyIff` says exactly when: if and only if the timer was re-armed meanwhile and
  still runs towards a later instant.
- `UpdateById` does not validate its outcome, so a repository can hold tasks that `Load` refuses:
  `TaskListLaws.UpdateKeepsValidity`, `TaskListLaws.SaveLoadRoundTrip`.
- `Load` does not look at keys. Map and heap agree afterwards exactly if no scheduled task has a later
  pair with the same key (`InMemory.InMemoryRepository.AgreesIff`), and every task in the heap can be
  found by its id exactly if moreover each scheduled task's key is its id
  (`InMemory.InMemoryRepository.ReachableIff`). `Witnesses.OverwrittenTaskStaysInHeap` and
  `Witnesses.ForeignKeyIsUnreachable` load an input that fails; `Witnesses.RepeatedKeyMayAgree` loads a
  repeated key that does no harm.
- Refusals are decided by the state, but their error by timestamps alone: `TaskListLaws.RefusalReported`.
- `TaskQueryParam.Normalize` leaves out the deadline: `Query.FoundAsGivenIff`, `Query.RoundingChangesIff`.
- `EditTask` and `Pop` arm the cron store's timer even when it was never started:
  `Cron.CronStore.EditTask`, `Cron.CronStore.Pop`.
- `volatileTaskRepo.MarkAsDispatched` pops a head that was never shown, whose occurrence is then lost,
  and answers nil for an id it does not know: `VolatileList.FetchOfUnshownLoses`, `VolatileList.FetchSucceedsIff`.
- A printed `JsonExp` is read by another parser when its location has an `@` or adds a word:
  `Row.FormatAgrees`.

## Model

| member | source | states |
|---|---|---|
| Def.NormalizeTime | def/task.go:203-205 | the result is the only whole millisecond at or less than a millisecond before the argument |
| SortableTask.TaskHeap.Less | internal/sortable_task/task.go:59-72 | the method decides the order time ascending, priority descending, creation ascending, insertion ascending |
| SortableTask.TaskHeap.Swap | internal/sortable_task/task.go:74-78 | exchanges two slots and keeps every back-pointer equal to its slot |
| SortableTask.TaskHeap.Up | internal/sortable_task/task.go:51-57 | from an array that is in order but for the pair above one slot, restores heap order, keeps the elements, the slots beyond and the back-pointers |
| SortableTask.TaskHeap.Down | internal/sortable_task/task.go:51-57 | from a bridged hole, either restores heap order or leaves everything in place and says so; keeps elements and back-pointers |
| SortableTask.TaskHeap.Push | internal/sortable_task/task.go:80-83 | the heap gains exactly the element and stays in order, and back-pointers stay right unless the element was already there |
| SortableTask.TaskHeap.Truncate | internal/sortable_task/task.go:85-93 | the last slot goes and its element's back-pointer becomes -1 |
| SortableTask.TaskHeap.Pop | internal/sortable_task/task.go:51-57 | takes out exactly the root and leaves a heap |
| SortableTask.TaskHeap.Remove | internal/sortable_task/task.go:51-57 | takes out exactly the element at the given slot and leaves a heap with right back-pointers |
| SortableTask.TaskHeap.Fix | internal/sortable_task/task.go:51-57 | restores heap order after one element was given any other key, with the same elements |
| SortableTask.TaskHeap.Init | cron/cron.go:98-108 | puts any array into heap order with the same elements |
| SortableTask.TaskHeap.Filter | cron/cron.go:98-108 | keeps exactly the elements without a doomed payload, in heap order |
| SortableTask.RootIsLeast | internal/sortable_task/task.go:59-72 | in a heap no element precedes the root, for every strict weak order |
| SortableTask.UpStep | internal/sortable_task/task.go:74-78 | one swap of sift-up moves the only disorder to the parent's slot |
| SortableTask.DownStep | internal/sortable_task/task.go:74-78 | one swap of sift-down with the least child moves the hole there and keeps it bridged |
| SortableTask.KeptOfPermutation | cron/cron.go:98-108 | what deleting from the slice keeps does not depend on how the heap arranged it |
| TaskList.NextIndex | repository/inmemory/repository.go:214-222 | the reference answer: the first scheduled task that no scheduled task precedes, and none exactly if nothing is scheduled |
| TaskList.NextIsUnique | repository/inmemory/repository.go:214-222 | there is only one such task, so any search that finds one finds this one |
| TaskList.FindRound | repository/inmemory/repository.go:195-212 | one round of the counting-down loop is one step of paging the matches by offset and limit |
| Finding.MatchIsDemand | def/task_param.go:171-195 | a map matcher accepts a map exactly if it has the key and, by kind, any value, the same value, or one that begins with, ends with or contains the given one |
| Finding.PlainAnswers | def/task_param.go:88-109 | a query that sets only the id, work id, priority, state or error selects exactly the tasks that have it, in insertion order; one that sets nothing selects all |
| Finding.MapsAnswer | def/task_param.go:94-116 | a query that sets only Param, or only Meta, selects exactly the tasks whose own Param, or own Meta, meets every matcher |
| Finding.TimesAnswer | def/task_param.go:118-163 | a query that sets only one time selects exactly the tasks whose own time stands in the relation to the floor of the value, or to the value itself for the deadline, or that have none |
| Finding.FieldsConjoin | def/task_param.go:88-102 | a query that sets several fields wants a task exactly if the queries that set them one by one all want it |
| Finding.PageIsWindow | repository/inmemory/repository.go:195-212 | a page is the stretch of the matches from the offset, as long as the limit and the matches allow |
| Effects.AddTaskDoes | repository/inmemory/repository.go:49-71 | the task that is appended and answered has the id, the floored clock and every given field, and is refused exactly without an id, a work id or a time |
| Effects.GetByIdDoes | repository/inmemory/repository.go:73-87 | the stored task with the id as it is, or IdNotFound if there is none |
| Effects.UpdateByIdDoes | repository/inmemory/repository.go:89-113 | after a successful call each field of the stored task has what was given for it (a nil map made empty, times floored) or else what it had, every other task is unchanged, and a refusal changes nothing |
| Effects.UngivenStays | def/task.go:180-201 | with times that are whole milliseconds, what is not given stays exactly as it was |
| Effects.CancelDoes | repository/inmemory/repository.go:115-137 | exactly the named scheduled task becomes cancelled, with the floored clock and nothing else changed |
| Effects.MarkAsDispatchedDoes | repository/inmemory/repository.go:139-158 | exactly the named scheduled task becomes dispatched, with the floored clock and nothing else changed |
| Effects.MarkAsDoneDoes | repository/inmemory/repository.go:160-183 | exactly the named dispatched task becomes done, or failed with the text of the error, with the floored clock and nothing else changed |
| InMemory.InMemoryRepository.AddTask | repository/inmemory/repository.go:49-71 | same list and answer as the heap-free repository, and field by field the task that was asked for; keeps map and heap in agreement |
| InMemory.InMemoryRepository.GetById | repository/inmemory/repository.go:73-87 | same answer as the heap-free repository |
| InMemory.InMemoryRepository.UpdateById | repository/inmemory/repository.go:89-113 | same list and error as the heap-free repository, and field by field what was given or else what was there; the heap is re-ordered in place and every back-pointer stays right |
| InMemory.InMemoryRepository.Cancel | repository/inmemory/repository.go:115-137 | same list and same error; exactly the cancelled task leaves the heap |
| InMemory.InMemoryRepository.MarkAsDispatched | repository/inmemory/repository.go:139-158 | same list and same error; exactly the dispatched task leaves the heap |
| InMemory.InMemoryRepository.MarkAsDone | repository/inmemory/repository.go:160-183 | same list and same error; the heap is untouched |
| InMemory.InMemoryRepository.RootIsNext | repository/inmemory/repository.go:214-222 | the heap's root is the task a scan in insertion order finds, ties included; an empty heap means nothing is scheduled |
| InMemory.InMemoryRepository.GetNext | repository/inmemory/repository.go:214-222 | the answer of the scan, and Exhausted exactly if nothing is scheduled |
| InMemory.InMemoryRepository.Find | repository/inmemory/repository.go:185-212 | exactly the tasks that the query wants, said of their own fields for every query that sets one field, in insertion order, and of these the window of offset and limit |
| InMemory.InMemoryRepository.SlotOf | repository/inmemory/repository.go:36-43 | a scheduled task's object sits at the heap slot its index names, so Fix and Remove hit it |
| InMemory.InMemoryRepository.Save | repository/inmemory/io.go:15-24 | id and task of every task in insertion order |
| InMemory.InMemoryRepository.Load | repository/inmemory/io.go:26-47 | refuses an invalid task and then changes nothing; otherwise one object per pair in order, the map holds the last of each key, the heap exactly the scheduled ones; map and heap agree, and ids are found, under exact conditions on the keys; consistent input restores the whole invariant |
| InMemory.InMemoryRepository.AgreesIff | repository/inmemory/io.go:38-45 | after a load the heap holds exactly the scheduled objects of the map if and only if no scheduled pair is followed by one with the same key |
| InMemory.InMemoryRepository.ReachableIff | repository/inmemory/io.go:38-45 | after a load the id of every task in the heap leads to it if and only if moreover every scheduled pair's key is its task's id |
| Witnesses.OverwrittenTaskStaysInHeap | repository/inmemory/io.go:38-45 | a scheduled task with a later done one under the same key: loaded without an error, in the heap but not in the map |
| Witnesses.RepeatedKeyMayAgree | repository/inmemory/io.go:38-45 | the same two in the other order: map and heap agree |
| Witnesses.ForeignKeyIsUnreachable | repository/inmemory/io.go:38-45 | a scheduled task under a foreign key: map and heap agree, but its id is not found |
| TaskListLaws.SaveLoadRoundTrip | repository/inmemory/io.go:15-47 | loading what was saved restores the whole list exactly if every task is valid, and is refused exactly otherwise |
| TaskListLaws.UpdateKeepsValidity | repository/inmemory/repository.go:107-112 | exactly which parameters turn a valid scheduled task into an invalid one |
| TaskListLaws.NormalizeIsRedundant | def/task_param.go:54-69 | normalizing a parameter first changes no update |
| TaskListLaws.UpdateThenUpdate | def/task.go:180-201 | two updates are one update by the merged parameter |
| TaskListLaws.ParamMonoid | def/task_param.go:22-30 | merging parameters is associative with the empty parameter as unit |
| TaskListLaws.UpdateIsAction | def/task.go:180-221 | any sequence of updates is one update by the folded parameter, nil maps and cleared deadlines included |
| TaskListLaws.UpdateByIdIsAction | repository/inmemory/repository.go:89-113 | any sequence of UpdateById calls on a scheduled task leaves the same repository as one call |
| TaskListLaws.UpdateByIdAllStores | repository/inmemory/repository.go:89-113 | a run of UpdateById calls takes the stored task through the updates one after the other and leaves the other tasks alone |
| TaskListLaws.CallEvolves | repository/inmemory/repository.go:49-183 | one call moves each task at most one step of its life cycle, and state and timestamps agree afterwards |
| TaskListLaws.RunKeepsLifeCycle | repository/inmemory/repository.go:49-183 | over every run ids are distinct, state and timestamps agree, and cancelled, done and failed tasks never change again |
| TaskListLaws.RefusalReported | def/err_kind.go:10-61 | a refusal has an error exactly if some timestamp is set (or the dispatch one is missing, for MarkAsDone) |
| TaskListLaws.NoSilentRefusal | def/err_kind.go:28-61 | in every reachable repository an operation refused by state reports exactly the kind of that state |
| TaskListLaws.ErrorsMeanUnchanged | repository/inmemory/repository.go:115-158 | an error means nothing changed; no error means the task was scheduled and now is cancelled or dispatched |
| TaskListLaws.DrainSorts | repository/inmemory/repository.go:139-158 | repeating GetNext and taking the task out terminates and visits every scheduled task exactly once in the documented order |
| TaskListLaws.DrainStep | repository/inmemory/repository.go:115-158 | one round of the drain is GetNext followed by MarkAsDispatched or Cancel of the id it returned |
| Query.RoundingChangesIff | def/task_param.go:150-153 | exactly where rounding a time matcher changes its answer about a stored time |
| Query.FoundAsGivenIff | def/task_param.go:141-148 | a new task is found by the values it was added with exactly if its deadline is none or a whole millisecond |
| HookTimer.MutationHookTimer.UpdateTimer | repository/mution_hook_timer.go:53-81 | a refresh of a started timer drains a stale firing, then caches and arms for the next task or clears everything |
| HookTimer.MutationHookTimer.AddTask | repository/mution_hook_timer.go:83-92 | refreshes exactly if the cache is empty or the placeholder precedes the cached task |
| HookTimer.MutationHookTimer.UpdateById | repository/mution_hook_timer.go:94-133 | refreshes exactly in the cases listed by UpdateRefreshes, and otherwise changes nothing |
| HookTimer.MutationHookTimer.Cancel | repository/mution_hook_timer.go:135-141 | refreshes exactly if the cache is empty or holds that id |
| HookTimer.MutationHookTimer.MarkAsDispatched | repository/mution_hook_timer.go:143-151 | refreshes exactly if the cache holds that id |
| HookTimer.MutationHookTimer.StopTimer | repository/mution_hook_timer.go:160-173 | clears the cache and drains a stale firing; the last error stays |
| TimerSafety.CarrierRefreshes | repository/mution_hook_timer.go:86-133 | a notification that carries an instant before the cached one forces a refresh |
| TimerSafety.StepKeeps | repository/repository.go:32-72 | every step of mutators, notifications, clock and scheduler keeps the invariant of the timer |
| TimerSafety.NeverOversleeps | repository/mution_hook_timer.go:53-151 | in every run with UpdateById, a scheduled task before the cached instant has a pending notification that will force a refresh |
| TimerSafety.SettledTimerIsEarlyEnough | repository/mution_hook_timer.go:53-81 | with no notification pending, an armed or fired timer is at or before every scheduled task |
| TimerSafety.NeverEarly | scheduler/scheduler.go:91-102 | in every run, the timer branch taken in one piece accepts only tasks that are due |
| TimerSafety.NextScheduledIsTarget | repository/mution_hook_timer.go:175-179 | in every run NextScheduled reports an instant exactly if a task is cached, and it is the one the timer is armed for or has fired for, or one whose firing was received and is past |
| TimerSafety.AcceptedEarlyIff | scheduler/scheduler.go:91-102 | in every run, with others between the three looks, a task is accepted ahead of its time exactly if the timer is armed for a later instant by then |
| TimerSafety.DueIfTargetUnchanged | scheduler/scheduler.go:91-102 | a corollary: an accepted task is due if the timer's target is still the instant that fired |
| WakeUp.PlaceholderDecides | repository/mution_hook_timer.go:83-92 | the far-future placeholder precedes the cached task exactly if the task really added does |
| WakeUp.UpdateStaysExactIff | repository/mution_hook_timer.go:94-133 | after UpdateById an exact cache stays exact or is refreshed exactly if the update is not one of the hidden ones |
| WakeUp.StepStaysExact | repository/repository.go:32-72 | every step without a hidden update keeps the cache exact or a refreshing notification pending |
| WakeUp.SettledCacheIsExact | repository/mution_hook_timer.go:53-151 | on such runs, with the timer started and nothing pending, the cached id is what GetNext answers |
| WakeUp.NoLostWakeUp | scheduler/scheduler.go:61-104 | on such runs, while a task is scheduled, an armed or fired timer, a refreshing notification, the cached task in hand, or a pending error is left to wake the scheduler |
| WakeUp.RetireRefreshesIff | repository/mution_hook_timer.go:135-151 | from an exact cache, Cancel and MarkAsDispatched refresh exactly when the cache would stop being exact |
| WakeUp.RestartHeals | scheduler/scheduler.go:65-73 | a step that finds an error of GetNext or of the timer restarts the timer, and the cache is exact if GetNext answers then |
| WakeUp.HealedRunsStayAwake | scheduler/scheduler.go:61-104 | whatever faults and hidden updates came before, a tame run after such a restart loses no wake-up |
| LostWakeUp.LosesWakeUpIff | repository/mution_hook_timer.go:94-133 | after UpdateById of a settled state, some run without further hidden updates leaves a scheduled task with nothing to wake the scheduler, exactly if the update was a hidden one |
| LostWakeUp.HiddenStrands | scheduler/scheduler.go:91-102 | once a hidden update was notified, a firing that the timer branch drops or spends on another task strands the cached one, if need be with a rival added beside it |
| LostWakeUp.StrandedForever | scheduler/scheduler.go:61-104 | what is stranded stays so over every run of clock, notifications and scheduler steps |
| Witnesses.UpdateLosesWakeUp | repository/mution_hook_timer.go:103-116 | a run with UpdateById after which a scheduled task is left and nothing wakes the scheduler |
| Witnesses.ArmedForOneIsSettled | repository/mution_hook_timer.go:53-81 | the settled states are reached: adding one task and starting the timer leads to one |
| Witnesses.RearmingHandsOutEarly | scheduler/scheduler.go:91-102 | a run in which a re-armed timer lets a task through before its time |
| Delivery.StepKeepsBooks | scheduler/scheduler.go:61-104 | every step keeps history, states, reserved and abandoned results in balance for every id |
| Delivery.DispatchedAtMostOnce | scheduler/scheduler.go:168-199 | in every run an id passes the fetcher at most once and never if it was cancelled, and yields at most one Dispatched and one TaskDone |
| Delivery.WorkInFlightConserved | scheduler/scheduler.go:84-90 | with live contexts the dispatched tasks are exactly the reserved results and the consumed ones that were context.Canceled, each once |
| Scheduler.Repository.AddTask | repository/repository.go:32-41 | the core's answer, and the hook told of it exactly if there was no error |
| Scheduler.Repository.UpdateById | repository/repository.go:47-54 | the core's answer, and the hook told of it exactly if there was no error |
| Scheduler.Repository.Cancel | repository/repository.go:56-63 | the core's answer, and the hook told of it exactly if there was no error |
| Scheduler.Repository.MarkAsDispatched | repository/repository.go:65-72 | the core's answer, and the hook told of it exactly if there was no error |
| Scheduler.StepRuns | scheduler/scheduler.go:61-104 | without interference one Step is a certain run of the step system |
| Scheduler.Scheduler.Reserve | scheduler/scheduler.go:186-196 | a result is reserved exactly if the dispatcher returned a channel, and it is the result of the fetched task's work |
| Scheduler.Scheduler.DispatchTask | scheduler/scheduler.go:168-199 | dispatching over the real repository, hook, worker pool and queue is the dispatch step followed by its notification, and adds the one result of the fetched task's work to the queue |
| Scheduler.Scheduler.TakeResult | scheduler/scheduler.go:84-90 | a reserved result leaves the queue; without an error the dispatched task becomes done, with another error than context.Canceled failed with its text, with that one it stays and counts as abandoned; the answer is that of MarkAsDone |
| Scheduler.Scheduler.TakeTimer | scheduler/scheduler.go:91-102 | the timer branch is receive, GetNext and compare of the step system |
| Scheduler.Scheduler.Step | scheduler/scheduler.go:61-104 | Step over the real objects is a run of the step system; its returned state names what that run did, the result it recorded and how, and the error it met; every reserved result is accounted for; it never hands out a task early |
| WorkerPool.Exec | dispatcher/workerpool/workerpool.go:38-85 | one fetch result, and one work result exactly if the fetch succeeded, then both channels closed; an unknown work id comes before a cancelled context, and that before the work's own result |
| WorkerPool.Dispatch | dispatcher/workerpool/workerpool.go:118-143 | a channel holding the one work result or an error, never both |
| WorkerPool.ReservedResult | scheduler/scheduler.go:168-199 | a result is reserved exactly if the fetch succeeded, and it is the work's result and not the nil of an empty channel |
| Mutator.MutateOffset | mutator/randomize_shceduled_at.go:69-90 | a random mutation moves the time by an offset in [Min, Max), or (Max, Min] if reversed, and nothing else |
| Mutator.MutateNow | mutator/scheduled_at_now.go:24-28 | ScheduleAtNow puts the floor of the clock in place of the time, floors the deadline and touches nothing else |
| Mutator.LabelsDecide | mutator/store.go:37-62 | which labels make which mutators, in which order, with the min label as lower and the max label as upper bound, and exactly when loading fails |
| Mutator.LabelsBoundOffset | mutator/randomize_shceduled_at.go:14-90 | a parameter with the two bound labels has its time moved by an offset between the two durations |
| Mutator.ApplyAll | mutator/mutator.go:19-24 | the mutators applied one after the other, each to the outcome of the one before |
| CronItems.Entry.Param | cron/table.go:65-81 | the schedule's parameter with the schedule's hash in its meta map, and no advance |
| CronItems.Entry.Next | cron/table.go:84-90 | the same parameter, and the entry advanced to the unmutated instant |
| CronList.PopKeepsOneEach | cron/cron.go:176-201 | popping keeps exactly one pending occurrence for every entry and no other, and keeps the set of entries |
| CronList.OccurrenceStandsFor | cron/cron.go:189-201 | a pending occurrence is the floor of the schedule's instant, plus an offset in the mutator's range if it is randomized |
| CronList.OccurrenceAtNow | cron/cron.go:189-201 | an occurrence of an entry that asks to be scheduled at once is at the floor of the clock |
| Mutator.ApplyChangesTimes | mutator/mutator.go:19-24 | mutators change times only, whatever they draw |
| CronList.OccurrenceBearsKey | cron/table.go:23-41 | whatever the mutators do, an occurrence has the work id, priority, parameter and meta data that its entry's key is made of, and its schedule's deadline floored |
| CronList.NoDrift | cron/cron.go:189-201 | after any pops the n-th occurrence of each key stands for its schedule iterated n times from its start: offsets never accumulate |
| CronList.PopMerges | cron/cron.go:176-201 | popping unmutated schedules that never step back is a merge: times never decrease, each key contributes a prefix of its iterated schedule, and nothing before everything pending is left out |
| CronList.EveryCallPops | cron/cron.go:176-187 | a store with entries is never exhausted |
| CronList.EditKeepsOneEach | cron/cron.go:98-122 | an edit whose new keys are free leaves exactly one pending occurrence per entry |
| CronList.EditKeepsTheRest | cron/cron.go:98-122 | kept entries keep their state and occurrence, removed ones lose theirs, and a key added again has the new ones |
| CronList.WithoutKeepsOrder | cron/cron.go:104-114 | the occurrences an edit keeps stay in the same order |
| CronList.EditStaysOnPlan | cron/cron.go:125-152 | after an edit kept entries continue from the occurrence they had reached and new ones begin, so NoDrift and PopMerges apply again |
| CronItems.EditHolds | cron/cron.go:98-122 | deleting from and appending to the shared objects is the edit of what they stand for |
| CronEdits.AbsentIs | cron/cron.go:139-144 | what is added is exactly what the store does not hold, in the order of the caller's list and as often as listed there |
| CronEdits.RefusedIffClash | cron/cron.go:63-76 | an edit is refused exactly if a new entry's key is kept by another entry, is new twice without being removed, or asks for unreadable mutators |
| CronEdits.ExchangedIsEdit | cron/cron.go:98-152 | after an edit every new entry's key is there, held by the last new entry with it, and awaited; old keys stay with their entry exactly if the list has it, unless added again; nothing else is there |
| CronItems.HeadTimer | cron/cron.go:203-214 | the timer is idle exactly if nothing is pending, and else armed for the time of the occurrence that comes first |
| CronItems.ListedIsSorted | cron/cron.go:154-164 | the listing is sorted and has every pending occurrence once |
| Cron.CronStore.HeadIsNext | cron/cron.go:166-174 | the heap's root is the occurrence that a scan in insertion order finds |
| Cron.CronStore.Peek | cron/cron.go:166-174 | the answer of the scan, and Exhausted exactly if nothing is pending |
| Cron.CronStore.Pop | cron/cron.go:176-187 | store and answer are those of the heap-free Pop, and the timer is reset for the new head |
| Cron.CronStore.PushNext | cron/cron.go:189-201 | the entry advances and its next occurrence takes the place of the popped one |
| Cron.CronStore.ResetTimer | cron/cron.go:203-214 | the clock is armed for the head, or idle with nothing pending; no stale firing is left |
| Cron.CronStore.Prepare | cron/cron.go:51-95 | succeeds exactly if no added key is taken or repeated without being removed and all mutators can be read; collects one entry and occurrence per key |
| Cron.CronStore.UpdateTask | cron/cron.go:51-123 | refused exactly in those cases and then leaves entries and schedule alone; otherwise exchanges removed keys for new entries |
| Cron.CronStore.EditTask | cron/cron.go:125-152 | refused exactly if a new entry clashes, and then neither entries nor schedule change; otherwise every new entry of the caller's list is in and awaited, what the list leaves out is gone unless added again, what it keeps is kept, each new entry begins where it was; the timer is reset |
| Cron.CronStore.New | cron/cron.go:32-49 | refused exactly for a repeated key or unreadable mutators; otherwise every given entry's key is there, held by the last entry with it, and has its first occurrence pending |
| Cron.CronStore.Schedule | cron/cron.go:154-164 | lists what is pending in order from a clone and keeps the store valid although the clone overwrites shared back-pointers |
| VolatileList.FetchSucceedsIff | scheduler/repository.go:67-93 | the fetcher succeeds exactly for the head and only after GetNext showed it, and pops it then |
| VolatileList.FetchOfUnshownLoses | scheduler/repository.go:67-93 | dispatching a head that was never shown pops it and fails |
| VolatileList.RecordTells | scheduler/repository.go:48-100 | GetById knows exactly what was shown and neither finished nor withdrawn since |
| VolatileList.RunKeepsOrderly | scheduler/repository.go:48-100 | over every run what is recorded of a pending occurrence is that occurrence, and nothing fetched is pending |
| VolatileList.FetchedAtMostOnce | scheduler/repository.go:48-100 | over every run of GetNext, fetches, MarkAsDone, edits of the cron store and UpdateTasks with other stores, no occurrence passes the fetcher twice |
| Volatile.VolatileTaskRepo.GetNext | scheduler/repository.go:57-66 | the head, which is recorded |
| Volatile.VolatileTaskRepo.MarkAsDispatched | scheduler/repository.go:67-93 | store, record and answer of the model on values, over the real cron store |
| Row.Format | cron/row.go:71-96 | prints the text of the expression, which reads back as its six lists in cron's order behind the words of its location |
| Row.TextReadsBack | cron/row.go:71-96 | the last six words of the text read, by a decimal reader of its own, as second, minute, hour, dom, month and dow in this order, a star as none; the words before are those of the location |
| Row.TextInjective | cron/row.go:71-96 | different expressions print differently, whatever their locations |
| Row.ParseRawExpression | cron/row.go:22-62 | which parser is given which text, and that this text becomes the hash |
| Row.WordsAppend | cron/row.go:31-40 | a space separates words, so words of a printed expression are those of its location and of its fields |
| Row.FieldsAreWords | cron/row.go:79-95 | the printed fields are exactly six words, and none of them sets a location |
| Row.FormatAgrees | cron/row.go:22-62 | parsing the printed text is parsing the expression, with the same hash, exactly if the location has no '@' and adds no counted word |
| Row.OrdinaryLocationAgrees | cron/row.go:22-62 | in particular for every location without white space and '@' |
| Row.RowIsKeyStable | cron/row.go:160-172 | a row's key can be read at every instant without a panic, and is then the same at every instant, exactly if its meta data is not a nil map |
| Row.ExpressionsKeepKeysApart | cron/row.go:160-172 | rows with different expressions never share a key |

## Left out

- The ent repository and its generated code, whose behaviour depends on SQL; RevertDispatched would break the life-cycle invariant.
- Scheduler.Retry, which dispatches without MarkAsDispatched, so that at-most-once does not hold for it.
- The inside of the event queue, the worker pool, the ordered map, the mockable clock and the cron expression parsers.
- Go's 64-bit limits: integers are unbounded, so overflow of times, durations and the insertion counter is not modelled.
- JSON: two maps have equal texts exactly if they are equal, so a key holds the maps themselves; decoding rows and parsing durations are parameters or absent.
- Sharing of maps between values: a schedule that hands out one map is not seen to have it written to by Entry.next, and Clone has nothing to do.
- The 64 KiB limit on a word in bufio.Scanner, beyond which ParseRawExpression stops counting.
- The number of workers and waiting for one: Dispatch is one call that either reaches a worker or fails with the context's error.
- Interleavings inside one call of the in-memory repository or the cron store (both lock), and inside one volatileTaskRepo.MarkAsDispatched or fetch, which are one step.
- Cron.CronStore.EditTask: requires schedules whose key does not depend on the instant, which rows satisfy, and takes the list the edit function returned, so the function does not itself advance entries.
- Cron.CronStore.Prepare: requires schedules whose key does not depend on the instant, which rows satisfy and the identity that a schedule hash stands for suggests; of others the store keeps the key of the first occurrence, which `Entry.Param` no longer gives.
- Cron.CronStore.UpdateTask: requires such schedules too; it would remove others by a key that they are no longer stored under.
- Cron.CronStore.New: requires such schedules too, since it is an UpdateTask of an empty store.
- Cron.CronStore.PushNext: one clock reading serves the mutators and the task's creation time.
- VolatileList.FetchedAtMostOnce: a store given to UpdateTasks has ids of its own; giving back a store that was in use before is not modelled.
- Which of several pending notifications or ready select cases comes first: runs allow every order.
- ParamMutatingRepository, which applies the loaded mutators to the parameter of AddTask and passes everything else on.
- Error texts, which `Step` gets as a parameter, loggers, StepState.Match and the validity reports, which would only add easy members.
