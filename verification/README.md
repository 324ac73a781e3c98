# EntangledMPI: a verified model

EntangledMPI runs each logical MPI rank (a *job*) on several processes: a head, `rank_list[0]`, and its replicas. It recovers
when processes die and moves replicas between jobs while the program runs. This project models that machinery in Dafny and
proves what it is for.

- **Recovery.** A process is a number that never changes, the world is the sequence of the processes in rank order, and every
  process carries its own job list, `rank_2_job`, ignore list, rank and head flag. `Mpi`, `NodeState`, `Ulfm`, `Repair`,
  `Recovery`, `Heads` and `Communicators` say what a shrink, an `update_job_list`, a parsed map and a re-split do to them.
- **Collectives.** `Agreement`, `Bcast` and `Reduce` run the retry loops of `MPI_Bcast` and `MPI_Reduce` at all processes at
  once. Who dies in which MPI call, who of them still contributes to it, and who sees it fail is an arbitrary schedule; every
  claim is about all schedules. `Folding` says what the result of a reduction is; `MissedHead`
  follows `MPI_Reduce` when its test for a lost head gives the wrong answer.
- **Point-to-point.** `Channels` interleaves the fan-out loops of `MPI_Send` and `MPI_Recv` of all workers, with crashes;
  `Async` has `MPI_Irecv` and `MPI_Wait` on an aggregate request.
- **Remapping.** `Manager` has the job map of the Go manager, `Text`, `MapFiles`, `Parse` and `Publish` the map file as text
  and its two readers, `Rounds` whole sequences of versions, `Selector` the choice of ranks to kill.
- **State transfer.** `HeapSeg` has the allocation registry and its replay on another process, `Checkpoint` and
  `CheckpointFile` the checkpoint file.

Code that changes things in place is a method on arrays or objects (the compaction of rank lists, the linked registry, the job
map, the scanner, the file stream, the aggregate request), proved against a function on values; the properties are lemmas about
those functions. `dafny verify dfyconfig.toml` checks everything.

## Assumptions

- MPI: `Comm_split` sorts stably by key (section 6.4.2 of MPI 3.1), a shrink keeps the rank order, messages between two
  processes with one tag do not overtake each other (section 3.5 of MPI 3.1). `Comm_agree` reports an unhandled failure to all
  survivors and otherwise gives all of them the same AND; a process that dies in it may or may not have contributed. A collective
  fails only if a member of its communicator died. A failing broadcast leaves each byte of a buffer old or new; a failing
  receive each byte old or that of the message that was arriving; a failing reduction anything.
- `MPI_Reduce`: at most two workers per job (the cap in src/manager/manager/manager.go:208 and
  src/manager/fault_injector/selector/selector.go:14), equal send buffers in a job, not more than one repair in one agreement
  (as src/mpi/init.c:693-696 expects), and a root test that says yes whenever a head died (its comment, src/mpi/ulfm.c:214-216).
  The last two are not preconditions of `Reduce.Run`: it reports in `multi` and `missed` when a run breaks them.
- Remapping: every version is parsed by everybody before the next is written, without a shrink in between. Random draws are
  arbitrary; termination of `Assign` needs draws that are fair.
- State transfer: one receiver at a time; pointer variables lie outside heap blocks; the allocator returns addresses not in use.
  The globals of the framework are in its own library, outside the data segments that a checkpoint saves.

## Findings

What the code does not do, each with the exact condition or an input:

- The test for a lost head compares renumbered lists with old ranks: with jobs [0,2] and [1,3] and process 1 dead it says no
  (`Heads.RootTestMissesAHead`); after one failure it is about the process one rank further (`Heads.RootTestForOneFailure`).
  When it says no after the head of the root job died in the job broadcast, `MPI_Reduce` returns with a wrong receive buffer
  (`MissedHead.ResultIsLost`).
- `rep_remove` leaves `head` or `tail` stale exactly when it takes an end element out of a longer list
  (`HeapSeg.Registry.Remove`).
- `rep_clear_discontiguous` frees a block twice exactly when two entries share one, as an alias and its source do
  (`HeapSeg.ClearsIffOwnBlocks`, `HeapSeg.AliasBlocksClearing`).
- The receiver of a heap takes over the sender's count but enters no aliases (`HeapSeg.AliasesAreNotReentered`), and gets only
  the low word of the size total (`HeapSeg.TransferHeapSeg`). An alias that was reassigned is pulled back to its source
  (`HeapSeg.IsomorphicIffCurrent`).
- A checkpoint whose count differs from the length of the registry is not read to its end, or past it
  (`Checkpoint.FileIsUsedUpIffCountIsRight`); aliases come back as separate blocks (`Checkpoint.AliasesAreLost`).
- `Assign` never ends when `Choose` took one of two ranks with different stack addresses and no other job has room for it
  (`Manager.MixedAddressesGetStuck`; exact condition in `Manager.AssignEndsIffRoomy`).
- `wait_for_agg_request` gives up in the sixth attempt even when that one succeeds (`Async.EndsWellIff`).

## Model

| member | source | states |
|---|---|---|
| Recovery.RunKeepsInv | src/mpi/ulfm.c:20-171 | over every run of crashes, non-aborting shrinks, ignore-marks and remaps, all processes of the world hold the tables of one and the same partition of the current world into jobs, and that partition is computed from the events alone |
| Recovery.StepKeepsInv | src/mpi/ulfm.c:80-171 | any one of these steps takes the invariant of one partition to the invariant of the partition the step leads to |
| Recovery.RecoverKeepsInv | src/mpi/ulfm.c:80-130 | after a shrink the survivors all describe the old partition with the dead taken out |
| Recovery.NoticeKeepsInv | src/mpi/ulfm.c:131-171 | marking failed ranks as ignored leaves the partition alone and never marks a live process |
| Recovery.RemapKeepsInv | src/mpi/comm.c:47-145 | after a map was parsed everywhere, all processes describe the partition of the map |
| Recovery.InitEstablishesInv | src/mpi/comm.c:15-45 | after `init_node` with the first map the invariant holds and nobody is in transit, whatever the fresh `rank_2_job` contained |
| Recovery.EverybodyAgrees | src/mpi/ulfm.c:20-55 | under the invariant any two processes hold equal lists, and nobody has a live rank marked as ignored |
| Recovery.TableInvertsLists | src/mpi/ulfm.c:42 | `rank_2_job` is the inverse of the lists: it names the one job that lists a rank, at every rank of the world |
| Recovery.OneHeadPerJob | src/mpi/ulfm.c:49-53 | in every job exactly one process has the head flag, the first of its list |
| Recovery.RepairedKnows | src/mpi/ulfm.c:20-55 | one `update_job_list` takes a correct picture of the old world to a correct picture of the shrunk one, or aborts because some job lost everybody |
| Recovery.AbortsAreUniform | src/mpi/ulfm.c:32-38 | `update_job_list` aborts at one survivor if and only if some job has lost its last worker, so all survivors decide alike |
| Recovery.ParsedKnows | src/mpi/comm.c:60-138 | a process that finds its job marked, or stays in its job, knows the new partition after parsing, and its role in the handshake |
| Recovery.ParsedFields | src/mpi/comm.c:102-137 | job id, head flag, transit state and age after parsing, in terms of the map as a whole instead of the order of reading |
| Recovery.ParsedTables | src/mpi/comm.c:80-138 | job list and `rank_2_job` after parsing are those of the map |
| Ulfm.Job.CompactInPlace | src/mpi/ulfm.c:25-46 | the in-place loop over one rank list leaves the renumbered survivors in their old order, stamps exactly their entries of the two tables, and fails if and only if nobody is left |
| Ulfm.RepairTables | src/mpi/ulfm.c:23-47 | the nested loops of `update_job_list` on the real arrays compute the repaired tables as values, aborting in the same cases |
| Ulfm.Process.UpdateJobList | src/mpi/ulfm.c:20-55 | the whole of `update_job_list` on the mutable process: new lists, tables, rank and head flag, or the abort |
| Ulfm.Process.NoteFailures | src/mpi/ulfm.c:159-170 | the marking loop adds the translated failed ranks to `rank_ignore_list` and nothing else |
| Ulfm.StampJobsAt | src/mpi/ulfm.c:42 | writing job numbers list by list leaves at each rank the last job that lists it and keeps all other entries |
| Repair.CompactIsShrink | src/mpi/ulfm.c:25-46 | compacting a rank list under the translation of a shrink is filtering the list of processes, in order |
| Repair.RepairRefinesFilter | src/mpi/ulfm.c:20-55 | the repaired job table, read as processes of the shrunk world, is the old one without the dead; None exactly when a list becomes empty |
| Repair.CompactTwice | src/mpi/ulfm.c:25-46 | compacting under two translations is compacting once under their composition |
| Repair.TranslationsCompose | src/mpi/ulfm.c:102-107 | the translations of two shrinks in a row compose to that of one shrink by both sets |
| Repair.TwoRecoveriesAreOne | src/mpi/ulfm.c:20-55 | two recoveries equal one under the composed translation: lists, rank, head, and `rank_2_job` and ignore entries of every listed rank; and one aborts exactly when the other does |
| Repair.RecoveringTwice | src/mpi/ulfm.c:80-130 | recovering from the death of d1 and then of d2 leaves a survivor with the same view as recovering from d1 and d2 at once |
| Heads.PromotionIsExact | src/mpi/ulfm.c:49-53 | a survivor turns from non-head to head if and only if the old head died and it is the first survivor in the old order; no head steps down |
| Heads.SomeonePromotedIffHeadDied | src/mpi/ulfm.c:49-53 | some member of a surviving job is promoted if and only if the head of that job died |
| Agreement.PromotionIsNoticed | src/mpi/init.c:120-133 | a promoted process that takes part in the agreement keeps the agreed AND from being -1 |
| Repair.FirstAbortIsFinal | src/mpi/ulfm.c:32-38 | if the recovery from d1 aborts, so does the one from d1 and d2 at once |
| Communicators.ActiveCommNamesJobs | src/mpi/comm.c:150-198 | under the invariant `active_comm` has one member per job and rank i is the head of job i, so an application root passes unchanged |
| Communicators.WorldJobCommHasHeadFirst | src/mpi/comm.c:150-198 | rank 0 of each `world_job_comm` is the head of the job, the other workers follow in world order |
| Mpi.SplitIsStable | src/mpi/comm.c:150-198 | the model of `Comm_split` keeps the old rank order among members with one key (section 6.4.2 of MPI 3.1) |
| Mpi.SplitIsSorted | src/mpi/comm.c:150-198 | the model of `Comm_split` orders its members by key |
| Communicators.TransitAfterParse | src/mpi/comm.c:102-137 | the SENDER / RECEIVER / neither decision each process takes alone, in terms of the old and the new partition |
| Communicators.HandshakeFits | src/mpi/comm.c:209-252 | these decisions fit: in every migration communicator with a RECEIVER there is exactly one SENDER, at rank 0, who leads the job and was in it before, and every newcomer takes part |
| Communicators.NewcomerIsMarked | src/mpi/comm.c:113-118 | whoever is new in a job finds the update bit of that job set |
| Agreement.AndIsGood | src/mpi/init.c:1328-1337 | the agreed AND means success if and only if every contributor passed success |
| Agreement.FailedAgreeIsHarmless | src/mpi/init.c:1328-1337 | an agreement that fails, whoever took part and whoever had its flag overwritten, turns no failure into a success and no unanimous success into a failure |
| Agreement.AgreementSucceeds | src/mpi/init.c:126-133 | the value of the last agreement of a loop: success means everybody left passed it and nobody was promoted; failure means somebody did not, or a head was lost |
| Agreement.FailedAgree | src/mpi/init.c:126-133 | one failed agreement, the repair by the error handler and the marking of promotions keep the loop invariant and shrink the world |
| Agreement.AgreeLoop | src/mpi/init.c:126-133 | the agreement loop ends for every fault schedule: with one agreed value and equal repaired tables at all survivors, with an abort only if a job lost its last worker, or with nobody left; the living at the end are exactly those the schedule spared |
| Agreement.HeadsBetween | src/mpi/init.c:126-133 | if two repairs in a row leave all heads in place, so did the first alone |
| Bcast.RootIsHead | src/mpi/init.c:673-679 | every process reads the same root rank from its own list, that of the head of the root job |
| Bcast.SuccessMeansDelivered | src/mpi/init.c:673-711 | when the agreed flag is 1, every survivor holds the data of the root job |
| Bcast.FailureCostsAMember | src/mpi/init.c:673-711 | when the agreed flag is 0, the world has lost a member since the trial began |
| Bcast.TrialKeepsData | src/mpi/init.c:673-711 | a trial, torn buffers included, leaves the live workers of the root job with the data |
| Bcast.Trial | src/mpi/init.c:673-711 | one trial at all processes: agreed outcome, data delivered on success, a smaller world otherwise; survivors as the schedule says |
| Bcast.Broadcast | src/mpi/init.c:656-716 | for every schedule and any number of workers per job: on success all survivors leave in the same trial with the data of the root job; trials are at most 1 plus the processes lost, so running out of trials, at the tenth, takes more than 8 deaths; the other endings happen only when a job, or everybody, is dead |
| Reduce.PartsOfJobs | src/mpi/init.c:1011-1013 | what `PMPI_Reduce` combines on `active_comm` are the contributions of the jobs, in job order |
| Reduce.SuccessKeepsHeads | src/mpi/init.c:126-133 | with at most two workers per job, an agreed -1 means that no head was lost since the call began |
| Reduce.FailureLosesHead | src/mpi/init.c:126-133 | if everybody passed -1 and another value is agreed, a head was lost |
| Reduce.MainPhase | src/mpi/init.c:1011-1022 | after the reduction and its agreement: -1 means the head of the root job has the fold of the contributions of all jobs, anything else that a head was lost |
| Reduce.JobPhase | src/mpi/init.c:1026-1038 | after the broadcast in the root job and its agreement: -1 means its live workers all have the result, anything else that a lost head is in the failed group of the last repair |
| Reduce.JobRounds | src/mpi/init.c:1024-1042 | the inner do-while ends for every schedule and every answer of the root test; with one repair per agreement and no missed head it ends with the result delivered or a head lost; a test that keeps its promise never misses one |
| Reduce.OneMoreFirstHead | src/mpi/init.c:994-1050 | every repair that loses a head loses one of the heads the call started with |
| Reduce.Run | src/mpi/init.c:994-1050 | `MPI_Reduce` as a whole, for every crash schedule that leaves each job a live worker: when it returns, every live worker of the root job holds the fold of the operator over the contributions of all jobs, in job order (what a fold is: `Folding`); trials are at most 1 plus the first heads lost, so running out, at the tenth, takes more than 8. Assumed: at most two workers per job, equal send buffers in a job; excused are runs with two repairs in one agreement (`multi`, at least two processes lost) and runs in which the root test said no although a head died (`missed`, never with a test that keeps its promise) |
| Reduce.RunSum | src/mpi/init.c:994-1050 | `MPI_Reduce` with a sum: when it returns, under the assumptions of `Reduce.Run`, every live worker of the root job has the sum of what the jobs contributed |
| Folding.FoldOfConcat | src/mpi/init.c:1011-1013 | for an associative operator, reducing two groups of jobs and combining the two results is reducing all of them |
| Folding.FoldOfPermutation | src/mpi/init.c:1011-1013 | for an associative and commutative operator the order of the contributions does not matter |
| Folding.SumOfFold | src/mpi/init.c:1011-1013 | with + the result is the sum of all contributions |
| Folding.MaximumOfFold | src/mpi/init.c:1011-1013 | with the larger of two as operator, the result is one of the contributions and none is larger |
| MissedHead.AnswerAt | src/mpi/ulfm.c:214-253 | when only the head d of the root job is lost, the root test as coded says yes, at every survivor, if and only if the process one rank behind d is a head |
| MissedHead.ResultIsLost | src/mpi/init.c:1024-1042 | if the test says no there, the broadcast is repeated from the promoted worker, everybody agrees on -1 and returns, and that worker is left with what the failed broadcast had put into its buffer |
| Heads.RootTest | src/mpi/ulfm.c:214-253 | the loops of `is_failed_node_world_job_comm_root` answer whether some current list starts with one of the old ranks of the failed |
| Heads.RootTestMeaning | src/mpi/ulfm.c:214-253 | the answer is yes if and only if a head of the repaired table has inherited the old rank of a dead process |
| Heads.RootTestForOneFailure | src/mpi/ulfm.c:214-253 | after one failure: yes if and only if the process one rank behind the dead one is a head, where the comment promises yes if and only if the dead one was |
| Heads.RootTestMissesAHead | src/mpi/ulfm.c:214-253 | jobs [0,2] and [1,3], process 1 dies: a head died and the answer is no |
| Channels.StepKeepsInv | src/mpi/init.c:434-551 | every step of the send and receive fan-out loops, with crashes and torn receive buffers, keeps each physical lane equal to the part of the logical stream its receiver still lacks |
| Channels.StepRefines | src/mpi/init.c:434-551 | every step of the replicated system is invisible to the jobs or is exactly one send or FIFO receive of the system without replicas |
| Channels.RunKeepsInv | src/mpi/init.c:434-551 | this holds after every step of every interleaving that leaves each job a live worker, for deterministic job programs |
| Channels.LoadedAfterFail | src/mpi/init.c:526-544 | a receive that fails half way cannot spoil a buffer that a live worker has filled: what arrives from the dead worker is the same message |
| Channels.ReplicasAgree | src/mpi/init.c:434-551 | replicas of a job at the same program point have made the same calls and received the same messages |
| Channels.NthReceive | src/mpi/init.c:492-551 | the n-th receive of a tag leaves the n-th message of the source job, the one each source worker sends n-th |
| Channels.SameEvent | src/mpi/init.c:492-551 | a replica that is behind repeats, call by call, the event its fellow replica has had |
| Channels.NeverStuck | src/mpi/init.c:434-551 | whoever has died, a process inside a call can go on unless it waits for a live worker that has not sent yet |
| Channels.TagsNameSenders | src/shared.h:33 | wire tags of different senders or different tags below 100 are different |
| Manager.InitialIsComplete | src/manager/manager/manager.go:126-139 | `InitJobMap` deals rank r to job r % jobs: rank j leads job j, rank j + jobs is its replica, so every rank is placed once and each job gets one or two, for jobs <= ranks <= 2 * jobs |
| Manager.ChosenKeepsRanks | src/manager/manager/manager.go:170-195 | `Choose` moves ranks to its list and loses or copies none, whatever it draws |
| Manager.AssignedKeepsRanks | src/manager/manager/manager.go:197-220 | `Assign` moves ranks from the list to jobs and loses or copies none, at any point of its loop |
| Manager.RoundIsSafe | src/manager/manager/manager.go:170-220 | after `Choose` and `Assign`: every rank exactly as often as before, one or two ranks per job, element 0 of each job was in it before, and a job not marked is unchanged |
| Manager.ChosenCanBePlaced | src/manager/manager/manager.go:170-220 | if all ranks of each job share a stack address before `Choose`, there is room per address for everything it took |
| Manager.ChosenAsDrawn | src/manager/manager/manager.go:170-195 | which ranks `Choose` has taken after any number of rounds: as many as there were first draws of jobs with two ranks, up to n, each the rank its index names |
| Manager.FewerMeansExhausted | src/manager/manager/manager.go:175-184 | if fewer than n ranks were taken, every job that was drawn is left with one |
| Manager.AssignedJob | src/manager/manager/manager.go:204-216 | a job keeps its ranks and its first one, gets at most one more, from the list, not one that was there before, with the same stack address, and is marked exactly when it does |
| Manager.ReaddressedIsPlaceable | src/manager/manager/manager.go:344-348 | new stack addresses leave one per job if and only if the ranks of each job have reported the same one |
| Manager.SlotsLeft | src/manager/manager/manager.go:197-220 | each placement uses up exactly one slot of the stack address of the rank |
| Manager.SomeJobAccepts | src/manager/manager/manager.go:197-217 | while a rank is unplaced some job would accept it |
| Manager.AssignEndsIffRoomy | src/manager/manager/manager.go:197-217 | with fair draws `Assign` ends if and only if every stack address has as many free slots as waiting ranks |
| Manager.MixedAddressesGetStuck | src/manager/manager/manager.go:197-217 | a job whose two ranks have different stack addresses: after `Choose` takes one, no draws ever place it |
| Manager.JobMap.Choose | src/manager/manager/manager.go:170-195 | on the job objects: at most n ranks are taken, one at the first draw of each job with two ranks, the one the index draw names, in the order of the draws; the other rank stays in a marked job, and no other job is touched |
| Manager.JobMap.Assign | src/manager/manager/manager.go:197-220 | the retry loop on the job objects ends under fair draws, with all ranks placed as the value function says |
| Manager.JobMap.Update | src/manager/manager/manager.go:54-76 | one version of the map: everything `Choose` took is placed again by `Assign`, which ends, and the result is safe in the sense of `RoundIsSafe` |
| Manager.JobMap.WriteToFile | src/manager/manager/manager.go:251-288 | what is written is the printed form of the job map, which is scanned back as the version itself (`Publish.PrintedIsWritten`) |
| Rounds.CompleteIsPartition | src/manager/manager/manager.go:126-139 | a job map that holds each rank once is a partition of the world into jobs |
| Rounds.EveryVersionIsComplete | src/manager/manager/manager.go:54-76 | no version of any sequence of rounds loses or duplicates a rank or leaves a job without one or two |
| Rounds.MarksAreHonest | src/manager/manager/manager.go:164-220 | a job with Modified 0 has the list last written; element 0 of every job was in it one version before |
| Rounds.EveryVersionIsKnown | src/mpi/comm.c:47-145 | over every sequence of written and parsed versions, each process knows the jobs of the current version: its `job_id` is the job that lists it |
| Rounds.EveryHandshakeFits | src/mpi/comm.c:209-252 | after every later version each migration communicator with a receiver has exactly one sender, at rank 0, who leads the job and was in it in the version before; every newcomer is in it |
| Text.ScanPrinted | src/mpi/comm.c:60-100 | `fscanf("%d")` reads back what `Itoa` printed, up to the next character that is no digit |
| MapFiles.ScanOfPrinted | src/manager/manager/manager.go:251-288 | scanning what `WriteToFile` prints gives back each update bit, worker count and rank in order, for every job map without empty jobs, whatever explanation follows |
| MapFiles.SplitOfPrinted | src/manager/fault_injector/selector/selector.go:19-52 | the tab-splitting parser of the fault injector reads the same ranks as the scanner, for job maps with one or two ranks per job |
| Rounds.CountIsSize | src/manager/manager/manager.go:156-162 | the number of ranks in the first line is the number of processes, for every version of the map |
| Text.SignsAreRead | src/mpi/comm.c:60-100 | a sign in front of a number is read by the scanner and by `Atoi`, a lone sign by neither |
| MapFiles.PanicsIffMoreThanTwo | src/manager/fault_injector/selector/selector.go:38-47 | a printed line makes the splitter of the fault injector panic if and only if its job has more than two ranks |
| Parse.ParseMapFile | src/mpi/comm.c:47-145 | the scanning loops of `parse_map_file`, on a file that meets its assertions, leave the process in the state the value function describes, with a fresh job list |
| Parse.InitReplicationMap | src/manager/fault_injector/selector/selector.go:19-52 | the reading loop computes the split map; None where the Go code panics |
| Publish.PrintedIsParsed | src/mpi/comm.c:60-138 | the printed form of a version meets the assertions of `parse_map_file` and is parsed as that version |
| Publish.Publish | src/mpi/comm.c:47-145 | manager and process together: after `WriteToFile` and `parse_map_file` the process has the tables of the version written |
| Publish.PrintedIsWritten | src/manager/manager/manager.go:251-288 | scanning the printed form of a version gives back the version, the number of processes in its first line included |
| Publish.StartNode | src/mpi/comm.c:15-45 | `init_node`: the first parse mallocs `rank_2_job` with as many entries as the file names cores, and leaves the process in the state the value function describes |
| Publish.PublishFirst | src/mpi/comm.c:75-77 | for the first version written that many entries are enough: nothing is assumed of the size of any table |
| Selector.TakingSpares | src/manager/fault_injector/selector/selector.go:101-153 | a rank taken without KillEvenIfNotReplicated leaves its job another worker that is not queued |
| Selector.LookMeaning | src/manager/fault_injector/selector/selector.go:101-153 | `getNew` takes the rank of the first draw that qualifies: of the image asked for, not queued, its job keeping another one; it gives up at exactly the sixth draw of a queued rank that would qualify otherwise |
| Selector.ImageOfVersion | src/manager/fault_injector/selector/selector.go:109-125 | of a version of the map, KILL_REPLICA queues the second rank of some job, KILL_COMPUTE or no options the first, anything else a rank of the map |
| Selector.Selector.GetNew | src/manager/fault_injector/selector/selector.go:101-153 | one call queues the first drawn rank that qualifies, of the image the options ask for (the replica, the first rank, or the one drawn), or nothing; at most one per job stays true |
| Selector.Selector.NextN | src/manager/fault_injector/selector/selector.go:159-179 | a run is as many calls in turn as asked for, each seeing what the earlier ones queued, errors skipped; its ranks are distinct and new, of the image asked for, at most one per job |
| Selector.RecklessTakesTheLast | src/manager/fault_injector/selector/selector.go:101-153 | the only worker of a job is taken if and only if KillEvenIfNotReplicated is set |
| Selector.KillingSparesJobs | src/mpi/ulfm.c:32-38 | whatever subset of queued ranks dies, every job of the map keeps a worker |
| Selector.InjectionNeverAborts | src/mpi/ulfm.c:32-38 | killing queued ranks in any batches never makes `update_job_list` abort at any survivor |
| HeapSeg.Registry.Append | src/replication/heapseg.c:13-31 | the doubly linked list, head and tail hold the old entries followed by the new one |
| HeapSeg.Registry.Remove | src/replication/heapseg.c:33-53 | the element is unlinked, and head and tail fit the list again if and only if it was the only element or not at an end |
| HeapSeg.Registry.Malloc | src/replication/heapseg.c:120-141 | a new block, the variable set to it, one more entry, counters raised |
| HeapSeg.Registry.AssignContext | src/replication/heapseg.c:105-118 | the variable gets the pointer of its source and is entered as an alias of it |
| HeapSeg.Registry.ClearDiscontiguous | src/replication/heapseg.c:82-103 | frees the block of every entry in order, skipping NULL; false exactly when one is freed twice or was never allocated |
| HeapSeg.ClearsIffOwnBlocks | src/replication/heapseg.c:82-103 | clearing succeeds if and only if every entry that is not NULL has an allocated block of its own; what is left are the other blocks |
| HeapSeg.AliasBlocksClearing | src/replication/heapseg.c:82-103 | a registry with an alias beside its source, not NULL, cannot be cleared |
| HeapSeg.ReplayAll | src/replication/heapseg.c:210-270 | the transfer loop at both ends leaves the receiver with the replayed memory and registry (what that is: `HeapSeg.RegistryIsMirrored`, `HeapSeg.IsomorphicIffCurrent`), and the sender with its own |
| HeapSeg.TransferHeapSeg | src/replication/heapseg.c:160-273 | it succeeds if and only if the receiver can clear its old registry; then, for a well kept registry of the sender, the copy is isomorphic if and only if every alias still equals its source; of the size total only the low word arrives; the new registry mirrors the allocations of the sender and can be cleared |
| HeapSeg.RegistryIsMirrored | src/replication/heapseg.c:255-269 | entry by entry the receiver registers the allocations of the sender, in order, with place, link and size as sent and the address where its own block now is |
| HeapSeg.NewBlocksAreEntered | src/replication/heapseg.c:210-270 | the receiver has its old blocks and one block for each entry of its new registry, no two entries sharing one |
| HeapSeg.ClearingUndoesTransfer | src/replication/heapseg.c:82-103 | clearing the registry that a transfer has built succeeds and leaves exactly the blocks from before the transfer |
| HeapSeg.TransferTwice | src/replication/heapseg.c:160-273 | after a transfer that went well, a second one goes well too |
| HeapSeg.IsomorphicIffCurrent | src/replication/heapseg.c:160-273 | every container points to a block with the sender's bytes and two containers share a block exactly when they do on the sender, through alias chains too, if and only if no alias was reassigned since it was registered |
| HeapSeg.CopyIsIsomorphic | src/replication/heapseg.c:210-270 | the same for each prefix of the list, by rounds |
| HeapSeg.AliasFollowsSource | src/replication/heapseg.c:230-240 | on the receiver an alias always shares the block of its source |
| HeapSeg.RestIsUntouched | src/replication/heapseg.c:210-270 | blocks of the receiver that were not freed and variables that are no containers keep their contents |
| HeapSeg.AliasesAreNotReentered | src/replication/heapseg.c:230-240 | the receiver's own list is shorter than the count by the number of aliases |
| Checkpoint.RoundTrip | src/checkpoint/full_context.c:26-186 | saving p and restoring it in q, with no aliases sharing variables, count equal to list length, variables outside heap blocks and the same stack base: data, stack and heap contents are those of p, every variable points to a fresh block of its own, and exactly what was written is read |
| Checkpoint.FileIsUsedUpIffCountIsRight | src/checkpoint/full_context.c:87-107 | the file is read to its end, neither more nor less, if and only if the count is the length of the registry |
| Checkpoint.CountTooLarge | src/checkpoint/full_context.c:162-181 | too large a count runs into the end of the file |
| Checkpoint.CountTooSmall | src/checkpoint/full_context.c:162-181 | too small a count leaves entries unread |
| Checkpoint.AliasesAreLost | src/checkpoint/full_context.c:162-181 | after a restore no two registered variables share a block |
| Checkpoint.SegmentsWouldOverwrite | src/checkpoint/full_context.c:114-131 | were the data segment restored after the heap, its variables would point to the old blocks again |
| Checkpoint.StackBack | src/replication/stackseg.c:93-100 | the stack comes back at the distance from its base that it had, for any base |
| Checkpoint.MovedBytes | src/replication/stackseg.c:93-100 | byte by byte: the restored stack is the saved one moved with its base, up to four bytes above it, and nothing else is touched |
| Checkpoint.FileInOrder | src/checkpoint/full_context.c:26-112 | the file from its first byte to its last: sizes and data segments, context, stack, count, entries, the two continuation counters |
| Checkpoint.EntryInOrder | src/checkpoint/full_context.c:92-106 | each entry is the four words of its struct and behind them what its variable points to |
| CheckpointFile.InitCkpt | src/checkpoint/full_context.c:26-46 | the ordered writes produce the file the value function describes |
| CheckpointFile.InitCkptRestore | src/checkpoint/full_context.c:114-131 | the ordered reads, from any file, end in the state the value function describes or fail when it does |
| CheckpointFile.SaveHeapSeg | src/checkpoint/full_context.c:87-107 | the loop over the registry appends count, entries and block contents in list order |
| CheckpointFile.RestoreEntries | src/checkpoint/full_context.c:162-181 | the restore loop is the repeated reading of one entry, and fails at the first that is cut short |
| Async.AggRequest.CopyOut | src/mpi/async.c:322-327 | the chosen slot is copied to the buffer of the caller, also when there is only one slot |
| Async.Irecv | src/mpi/init.c:1228-1311 | one slot and one posted receive for each worker of the source job that is not ignored |
| Async.Wait | src/mpi/async.c:140-336 | with a status: the first attempt that brings a message without an error of a worker not ignored decides, its first such slot is copied and its job reported; the program exits if and only if none of the first five attempts does |
| Async.EndsWellIff | src/mpi/async.c:188-212 | the call returns if and only if one of five attempts brings a message of a worker that is not ignored |
| Async.SourceIsTheJob | src/mpi/async.c:322-327 | the reported source of any slot is the job that was asked for |
| Async.Receive | src/mpi/init.c:1228-1324 | Irecv then Wait from a named job whose workers send equal payloads: the buffer holds the message and the reported source is that job |

## Left out

- Reduce.Run: promises the result only for runs without `multi` and `missed`; what a run with two repairs in one agreement leaves in the buffers is not stated.
- Parse.ParseMapFile: is for files that scan and meet the assertions of the code; on any other file the C code aborts or reads garbage, and the model has no result.
- Bcast.Trial: the shrink that the error handler runs inside a failing broadcast on the world is counted as the repair of the agreement that follows.
- Agreement.AgreeLoop: all processes go through an agreement in lock-step; that `PMPIX_Comm_agree` is uniform is assumed, not proved.
- Selector.Selector.GetNew: the endless loop of `getNew` is followed for a bounded number of rounds, any number.
- Channels.StepKeepsInv: no shrink while messages are in flight, since the old communicator is discarded with them.
- Async.Irecv: a failed `PMPI_Irecv` that is posted again after a repair.
- HeapSeg.TransferHeapSeg: the CONTIGUOUS state and `rep_clear`, which nothing sets or calls.
- Checkpoint.RoundTrip: a moved stack base, where pointers into the stack would be stale; only the stack bytes are followed there (`Checkpoint.StackBack`).
- MPI_Scatter, MPI_Gather, MPI_Allgather and MPI_Allreduce: they lack the promotion check of Reduce, so no result holds of them in general.
- MPI_ANY_SOURCE receives, whose tag no sender uses, and MPI_Wait with MPI_STATUS_IGNORE, which skips the copy.
- `rep_free`: beyond the unlinking in `HeapSeg.Registry.Remove` it only frees one block.
- `setjmp` and `longjmp`, stack switching, pointer mangling and the parsing of /proc in src/replication/rep.c.
- The distributions of src/manager/rng; draws are parameters. Job map keys are positions; the explanation behind a map file is a parameter.
- Overflow of `int` counters and of scanned numbers, except for the size total of the registry.
- MPI internals, file times, logging, network.stat, ssh, timing, mutexes and the Fortran wrappers.
