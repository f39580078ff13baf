# Verified models of six programs

This project models the algorithmic cores of six programs of the repository and proves what they are for:

1. **push_swap**: the two-stack sorter on heap-allocated doubly linked lists. Files `push_swap_*.dfy`.
2. **philosopher**: the dining philosophers as a step relation over program counters and mutex owners. Files `dining_*.dfy`.
3. **irc**: the server state machine, its line reader and parser, and the MODE mini-language. Files `irc_*.dfy`.
4. **so_long**: map validation against gameplay. Files `so_long_*.dfy`.
5. **PmergeMe**: merge-insertion sort. File `pmergeme.dfy`.
6. **get_next_line**: the line reader over a static buffer. Files `get_next_line.dfy` and `text_lines.dfy`.

`collections.dfy` holds facts about finite sets and sequences that several of them use, `limits.dfy` the ranges of C's integers. `dafny verify dfyconfig.toml` checks everything.

Where a program changes things step by step, so does the model: lists are nodes with `next` and `prev`, the flood fill marks an array in place, the server's handlers reassign its two maps, the reader writes its buffer. Each such method is proved against a function or a predicate on the state before and after, and the properties are proved about those. For the handlers of the IRC server the functions (`IrcNet`) follow the branches of the program; what they mean is said in `IrcEffect` and, for JOIN, PART and KICK over all the names they are given, in `IrcMembership`, as relations between the two states.

## The main results

**push_swap.** For every list of pairwise distinct ints, replaying the printed program with an interpreter that knows only the instruction set gives the sorted list and an empty second stack, in at most n * n instructions (in fact 3n(n + 1)/4), and in none exactly when the input is sorted: `PushSwapSmall.PushSwap`. Three values are sorted in as few instructions as any program needs (`PushSwapBig.ThreeIsFewest`). On the way: the pointer surgery keeps both lists well linked and disjoint; every push of the second phase goes onto the cyclic successor, so A stays a rotation of an increasing list whatever order B is in (`PushSwapInsert.StepTwoRound`); each round of the first phase prints exactly the instructions `MoveCost` says, and the whole phase their sum (`PushSwapRound.StepOneRound`, `PushSwapBig.StepOne`). Sorting and the instruction bound assume nothing about the `cheap` flags, which the program never initialises (push_swap/srcs/utils_2.c:83-96). A round moves a node of least cost if and only if some such node has no flagged one before it (`PushSwapRound.StepOneRound`), so every round does where no flag was set at first (`PushSwapBig.StepOne`); `PushSwapTrace.FlagSpoils` is a round that one flag left over spoils.

**philosopher.** For any number n >= 2 of philosophers and every interleaving with the monitor: no deadlock (`DiningSafety.NoDeadlock`), and no single thread is stuck either: threads never wait for one another in a circle (`DiningProgress.NoCircle`), and from every thread a chain of waiting threads climbs to one that can move (`DiningProgress.NoThreadStuck`); no data race: each flag, meal count, meal time and line is touched only by the thread that owns the mutex for it (`DiningProgress.NoDataRace`); neighbours never eat at once, `all_ate` is set only when every count has reached the target although the scan locks one philosopher at a time, at most one "died" line is printed and it is true, at most one line is printed after a stop flag is set (`DiningSafety.AlwaysSafe`), and once a flag is set at most 55n + 6 more steps are made and then every thread has returned (`DiningStop.JoinsComplete`). The monitor, by its own steps alone and whatever the others do between them, sets `all_ate` when all have eaten enough (`DiningWatch.AllAteIsSet`) and ends the simulation when somebody has starved and does not eat again (`DiningWatch.StarvedIsFound`). Every philosopher prints the lines of its routine in order, five for every meal counted (`DiningRoutine.LinesFollowMeals`). A "died" line need not be the last, since the flag is set after it is printed (philosopher/philo_death_check.c:54-56): `DiningLast.DiedNotLast` is a run of two philosophers in which a line follows, and `DiningLast.DiedLastExactly` says that in a finished run one follows if and only if some philosopher read the flags for a print after the monitor had left its own and before it set the flag.

**irc.** Every state reachable by any sequence of connections, lines and hang-ups satisfies one invariant: members are live, registered and linked both ways, operators are members, nobody is both member and invited, no channel is empty, nicknames are unique up to case, registered means exactly password, nickname and user name given, and no connection is left waiting to be closed (`IrcRun.ServerSound`). No command oversteps: modes and invitations are an operator's, a restricted topic an operator's and any other a member's, membership one's own unless an operator kicks, and a client that is not registered changes no channel (`IrcEffect.CommandRightful`). What a JOIN, a PART or a KICK does to each channel is fixed by the state before it and the names, keys and users it was given (`IrcMembership.JoinListExactly`, `PartListExactly`, `KickListExactly`). What a MODE text makes of the four modes of any channel is decided by the last letter read for each (`IrcModes.ModesExactly`). The announced modes are a normal form of a MODE command (`IrcMode.NormalForm`), and the announced line, read as a command, does what the original did (`IrcAnnounce.AnnouncedReplays`). Canonical messages parse back (`IrcParse.RoundTrip`), also with any number of spaces between their parameters and white space at the ends of the line (`IrcLetters.LineParses`), lines arrive as they were sent whichever way they were ended (`IrcClient.WireRoundTrip`), and the answer to a MODE query, sent back as a line by an operator, restores invitation, topic, key and limit modes on a channel that has none (`IrcRun.ServerRestores`).

Five things that sound true of the server are not, and each has its exact condition and an input:

- "A change of modes is announced": exactly when the mode string meets no unknown letter (`IrcAnnounce.AnnouncedExactly`, `IrcMode.ChangeUnannounced`).
- "Every channel has an operator": every event keeps it except a MODE command whose text leaves no member an operator, and that one breaks it (`IrcOperators.EventOperatedExactly`, `IrcOperators.ModeOperatedExactly`, `IrcOperators.LastOperatorGoes`); a run without such a command keeps it throughout (`IrcOperators.ServerOperated`).
- "Whoever is invited is connected": every event keeps it except the end of the connection of an invited client, and that one breaks it (`IrcInvites.EventInvitedExactly`, `IrcInvites.InvitedGone`).
- "Whoever is invited is registered": every event keeps it except an INVITE by an operator that finds a client which is not registered, and a connection that is given an invited descriptor (`IrcGuests.EventGuestsExactly`). `INVITE`, two spaces and the channel find a client without a nickname (`IrcGuests.UnregisteredInvited`, a run from the empty server), but a client that has sent NICK alone is found by its nickname as well (`IrcGuests.NickIsNotEnough`).
- "Whoever holds an invitation is whom it was given to": along a run this holds of every invitation if and only if no connection is given a descriptor that is invited somewhere (`IrcGuests.HeldExactly`). Where one is, a channel for the invited can let in a client nobody invited (`IrcInvites.StrangerEnters`, and a run from the empty server in `IrcInvites.StrangerInside`).

**so_long.** A well-formed map is accepted if and only if some sequence of key presses wins it (`SoLongGame.AcceptedIffWinnable`), the program starts a game exactly on accepted maps and wins exactly when the keys win (`SoLongGame.SoLong`); from the text of the file on, it starts a game exactly on the texts of well-formed maps that can be won (`SoLongFile.Run`), ragged ones being refused (`SoLongFile.MapTextExactly`); what each key does is said by its code (`SoLongLevel.PressExactly`, `SoLongGame.Game.KPress`); and along any play the door is open exactly when no coin is left and the player stands on a free cell (`SoLongLevel.PressAllSound`).

**PmergeMe.** The result is the ascending permutation of the input, found with at most n * ceil(log2 n) element comparisons (`PmergeMe.FordJohnsonSort`), and the overloads on vectors and on deques, each with its own loops, agree (`PmergeMe.SortBoth`, `PmergeMe.SortedUnique`).

**get_next_line.** For any NUL-free content, any BUFFER_SIZE and any chunking by `read`, successive calls return the content cut after each newline and then NULL, never writing outside the buffer (`GetNextLine.Reader.ReadAll`); that cut is the only one with complete lines (`TextLines.CutUnique`).

## Where the code and what is said about it differ

- push_swap: `med` does not always choose the shorter direction; `PushSwapMove.DistanceIsShortest` says exactly when it does (not for the middle of an odd list).
- push_swap: the cost of `get_cost_a` adds both distances also where the joint rotation shares them, so the move of least cost need not print the least. It does if and only if no move that shares its turns needs fewer of them, counted by its larger distance (`PushSwapTrace.LeastPrintedExactly`); the input 5 0 10 3 1 2 7 is one where it does not (`PushSwapTrace.LeastCostPrintsMore`), and it always prints less than twice the least (`PushSwapTrace.CheapestWithinTwice`).
- so_long: a square map is refused, though nothing else is wrong with it (so_long/srcs/errors.c:100; `SoLongFile.GoodMap`).
- irc: `std::atoi` outside the range of int is undefined; the model follows the usual `strtol` saturation and conversion.
- get_next_line: `ft_strchr(line, '\0')` never finds anything, so a call always reads on to a newline or the end (`GetNextLine.StrChr`).

## Model

| member | source | states |
|---|---|---|
| `PushSwapList.Stack.Len` | push_swap/srcs/utils_3.c:74-89 | the length of the list |
| `PushSwapList.Stack.Last` | push_swap/srcs/sorting_1.c:79-87 | the walk ends on the last node |
| `PushSwapList.Stack.SwapData` | push_swap/srcs/utils_1.c:79-86 | the two top values change places, the nodes stay and stay linked |
| `PushSwapList.Stack.MoveUp` | push_swap/srcs/utils_3.c:29-43 | the list stays well linked (acyclic, next and prev inverse, head.prev null) and is rotated left by one, nodes and values alike |
| `PushSwapList.Stack.MoveDown` | push_swap/srcs/utils_3.c:45-59 | the same, rotated right by one |
| `PushSwapList.GiveTopLink` | push_swap/srcs/utils_3.c:15-27 | the top node moves from one list to the other; both stay well linked and disjoint |
| `PushSwapList.LinkedUp` | push_swap/srcs/utils_3.c:29-43 | the five pointer writes of moveup leave next and prev mutually inverse on the rotated sequence |
| `PushSwapList.LinkedDown` | push_swap/srcs/utils_3.c:45-59 | the same for movedown |
| `PushSwapList.LinkedPop` | push_swap/srcs/utils_3.c:19-22 | taking the head off leaves a well-linked rest |
| `PushSwapList.LinkedPush` | push_swap/srcs/utils_3.c:23-26 | a detached node put in front gives a well-linked list |
| `PushSwapList.AddLink` | push_swap/srcs/utils_2.c:90-96 | one fresh node behind the last one |
| `PushSwapList.FillLink` | push_swap/srcs/utils_2.c:37-57 | a well-linked list of fresh nodes holding the values in order |
| `PushSwapInstr.StepKeeps` | push_swap/srcs/actions_1.c:16-76 | no instruction adds or loses a value on the two stacks together |
| `PushSwapInstr.ExecKeeps` | push_swap/srcs/actions_2.c:16-35 | no printed program does |
| `PushSwapInstr.ExecDistinct` | push_swap/srcs/utils_1.c:64-73 | from distinct values every program reaches stacks with distinct, disjoint values |
| `PushSwapInstr.InstructionSet` | push_swap/srcs/actions_1.c:16-76 | on stacks written top first: what s, p, r and rr do to A, and that nothing is done to a stack too short for it |
| `PushSwapInstr.InstructionsOnB` | push_swap/srcs/actions_2.c:16-35 | the instructions on B do what those on A do with the stacks exchanged, the double ones both |
| `PushSwapOrder.SortedIsAscending` | push_swap/srcs/utils_4.c:15-24 | on distinct values the test of is_sorted means strictly increasing |
| `PushSwapOrder.CyclicRuns` | push_swap/srcs/sorting_2.c:65-76 | cyclic order by positions: two increasing runs, the second below the first, in both directions |
| `PushSwapOrder.RotKeepsCyclic` | push_swap/srcs/sorting_2.c:72 | rotating keeps the cyclic order |
| `PushSwapOrder.InsertKeepsCyclic` | push_swap/srcs/sorting_2.c:73 | pushing any new value onto its cyclic successor keeps the cyclic order |
| `PushSwapOrder.MinOnTopSorts` | push_swap/srcs/sorting_2.c:23-33 | cyclic order with the least value on top is increasing order |
| `PushSwapSorter.Sorter.SwapTwo` | push_swap/srcs/actions_1.c:16-33 | swaps the two top values and prints the matching letter only when there are two; the printed program still replays to the lists |
| `PushSwapSorter.Sorter.PaPb` | push_swap/srcs/actions_1.c:44-54 | moves the top node across and prints one instruction, or does nothing on an empty list; replay kept |
| `PushSwapSorter.Sorter.RaRb` | push_swap/srcs/actions_1.c:57-69 | rotates up and prints only when the list has two nodes or more; replay kept |
| `PushSwapSorter.Sorter.Rr` | push_swap/srcs/actions_1.c:71-76 | both lists turn and one instruction is printed that does both |
| `PushSwapSorter.Sorter.RraRrb` | push_swap/srcs/actions_2.c:16-28 | rotates down and prints only when the list has two nodes or more; replay kept |
| `PushSwapSorter.Sorter.Rrr` | push_swap/srcs/actions_2.c:30-35 | both lists turn back and one instruction is printed |
| `PushSwapScan.IsSorted` | push_swap/srcs/utils_4.c:15-24 | true exactly when the values never descend |
| `PushSwapScan.Unfinished` | push_swap/srcs/sorting_2.c:40 | the loop condition: more than three nodes and not sorted |
| `PushSwapScan.FindSmallest` | push_swap/srcs/utils_4.c:26-40 | the least value of the list |
| `PushSwapScan.FindBiggest` | push_swap/srcs/utils_4.c:42-56 | the greatest value of the list |
| `PushSwapScan.GetSmallest` | push_swap/srcs/utils_5.c:15-33 | a node of the list holding the least value; null exactly on the empty list |
| `PushSwapScan.GetBiggest` | push_swap/srcs/utils_5.c:35-53 | a node holding the greatest value; null exactly on the empty list |
| `PushSwapScan.SetIndex` | push_swap/srcs/sorting_3.c:31-52 | index is the position, med marks the upper half |
| `PushSwapScan.FindPredecessor` | push_swap/srcs/sorting_3.c:62-78 | the node with the greatest value below, or the greatest of all when none is below |
| `PushSwapScan.FindSuccessor` | push_swap/srcs/sorting_3.c:91-107 | the node with the least value above, or the least of all when none is above |
| `PushSwapScan.SetTargetA` | push_swap/srcs/sorting_3.c:54-81 | every node of A aims at its cyclic predecessor in B |
| `PushSwapScan.SetTargetB` | push_swap/srcs/sorting_3.c:83-110 | every node of B aims at its cyclic successor in A |
| `PushSwapScan.PriceNode` | push_swap/srcs/sorting_3.c:123-130 | cost is the distance of the node plus the distance of its target |
| `PushSwapScan.GetCostA` | push_swap/srcs/sorting_3.c:112-132 | the same for every node of A |
| `PushSwapScan.SetCheapest` | push_swap/srcs/utils_4.c:58-76 | the first node of least cost is flagged and no other flag changes |
| `PushSwapScan.GetCheapest` | push_swap/srcs/utils_4.c:78-90 | the first flagged node |
| `PushSwapRotate.RotateSolo` | push_swap/srcs/actions_2.c:53-62 | terminates with the node on top, whatever med says; prints exactly the turns in that direction |
| `PushSwapRotate.Rr2` | push_swap/srcs/actions_2.c:37-43 | terminates after min(i, j) joint turns, both lists turned by that much, then freshly indexed |
| `PushSwapRotate.Rrr2` | push_swap/srcs/actions_2.c:45-51 | the same downwards, and no turn at all if one of the two nodes is on top |
| `PushSwapMove.TurnsIsDistance` | push_swap/srcs/sorting_3.c:123-129 | the turns rotate_solo makes are the distance get_cost_a priced |
| `PushSwapMove.DistanceIsShortest` | push_swap/srcs/sorting_3.c:41-48 | the direction of med is a shortest one if and only if the node is not the middle of an odd list; else one turn is lost |
| `PushSwapMove.JointUpCost` | push_swap/srcs/sorting_2.c:56-57 | after the joint rotation up med keeps both directions, and all turns add up to the larger distance |
| `PushSwapMove.JointDownCost` | push_swap/srcs/sorting_2.c:58-59 | the same downwards |
| `PushSwapMove.JointTurn` | push_swap/srcs/sorting_2.c:56-59 | after either joint rotation, or none, single rotations on still bring the same two nodes on top at the stated total |
| `PushSwapMove.PushTogether` | push_swap/srcs/sorting_2.c:60-62 | the single rotations and the push bring the two nodes together at the stated total |
| `PushSwapMove.MoveAToB` | push_swap/srcs/sorting_2.c:51-63 | the first flagged node ends on top of B above its target, the lists rotated so; prints the larger distance plus one when the directions agree, the sum plus one when not |
| `PushSwapRound.PriceAll` | push_swap/srcs/sorting_2.c:42-46 | both lists indexed, targets and costs set, the first node of least cost flagged and no other flag changed |
| `PushSwapRound.LeastIsCheapest` | push_swap/srcs/utils_4.c:64-74 | least stored cost means no other value of A has a cheaper move onto its predecessor |
| `PushSwapRound.FirstIsFirst` | push_swap/srcs/utils_4.c:64-74 | the first node of least stored cost is the first place of A with a cheapest move |
| `PushSwapRound.ChosenCheapest` | push_swap/srcs/utils_4.c:78-90 | the first flagged node is a cheapest one if and only if some cheapest one had no flag set before it, whatever the flags held |
| `PushSwapRound.StepOneRound` | push_swap/srcs/sorting_2.c:40-48 | the first node that is flagged or the first cheapest moves from A onto its predecessor in B at MoveCost instructions; it is a cheapest one if and only if some cheapest one had no flag before it; the flags afterwards are those before, turned alike, and the one set |
| `PushSwapBig.Three` | push_swap/srcs/sorting_1.c:50-77 | sorts any unsorted three values by the program ThreeProgram says |
| `PushSwapBig.PushThree` | push_swap/srcs/sorting_2.c:38-39 | the first three nodes move to B in three instructions |
| `PushSwapBig.StepOneLoop` | push_swap/srcs/sorting_2.c:40-48 | the rounds played lead from the first stacks and flags to the last and print their summed MoveCost |
| `PushSwapBig.StepOne` | push_swap/srcs/sorting_2.c:36-49 | ends with A sorted or of three nodes, B of three at least; prints three pushes and the rounds, nothing else, within the summed bound; every round is a cheapest one if and only if no flag left over spoils one, so always when none was set |
| `PushSwapBig.ThreeIsFewest` | push_swap/srcs/sorting_1.c:50-77 | no program that sorts the three values is shorter |
| `PushSwapTrace.MoveCostBound` | push_swap/srcs/sorting_2.c:51-63 | a move prints at most half the values plus two |
| `PushSwapTrace.TotalCostBound` | push_swap/srcs/sorting_2.c:40-48 | any number of rounds prints at most that many times the bound of one |
| `PushSwapTrace.PlayedFair` | push_swap/srcs/sorting_2.c:40-48 | every round takes one value from A to B |
| `PushSwapTrace.AllCheapestExactly` | push_swap/srcs/sorting_2.c:40-48 | every round moves a cheapest node if and only if in each some cheapest node has no flagged one before it |
| `PushSwapTrace.ClearPlay` | push_swap/srcs/utils_4.c:58-76 | where no flag is set at first none is left over later, and every round moves a cheapest node |
| `PushSwapTrace.FlagSpoils` | push_swap/srcs/utils_2.c:83-96 | after the pushes of 5, 0 and 10, one flag left over on the value 1 makes it move instead of 12 |
| `PushSwapTrace.LeastPrintedExactly` | push_swap/srcs/sorting_2.c:51-63 | the move of least cost prints the least if and only if no move whose turns are shared prints less, said of the distances |
| `PushSwapTrace.CheapestWithinTwice` | push_swap/srcs/sorting_3.c:123-130 | the move of least cost prints less than twice what any other move onto a predecessor would |
| `PushSwapTrace.LeastCostPrintsMore` | push_swap/srcs/sorting_3.c:123-130 | on the input 5 0 10 3 1 2 7 the first round prints three instructions where another move would print two |
| `PushSwapInsert.StepTwoRound` | push_swap/srcs/sorting_2.c:67-74 | the top of B goes onto its cyclic successor; A stays cyclically sorted; prints exactly the turns in the direction of med and the push |
| `PushSwapInsert.StepTwo` | push_swap/srcs/sorting_2.c:65-76 | B ends empty and A cyclically sorted, within the summed bound |
| `PushSwapInsert.SmallestUp` | push_swap/srcs/sorting_1.c:89-101 | A is rotated so that its least value is on top, by exactly the turns in the direction of med |
| `PushSwapInsert.BigBound` | push_swap/srcs/sorting_2.c:15-34 | the bounds of the phases add up to 3n(n + 1)/4 for every split of the n values |
| `PushSwapInsert.AlgoVegan` | push_swap/srcs/sorting_2.c:15-34 | more than five values: A ends strictly increasing, B empty, the program replays, within the bound |
| `PushSwapSmall.StackedPush` | push_swap/srcs/sorting_1.c:40-41 | pushing the least of A keeps B descending and below A |
| `PushSwapSmall.StackedPull` | push_swap/srcs/sorting_1.c:45-46 | pulling the top of such a B keeps A increasing |
| `PushSwapSmall.DietRound` | push_swap/srcs/sorting_1.c:34-42 | the least value comes on top by exactly the turns med chooses, and is pushed if and only if A is not sorted then |
| `PushSwapSmall.FinishDiet` | push_swap/srcs/sorting_1.c:43-46 | three remaining values are sorted and everything pulled back in order |
| `PushSwapSmall.DietAlgo` | push_swap/srcs/sorting_1.c:28-48 | two to five values sorted, with the count bounded; two by sa alone, three by the program of Three alone |
| `PushSwapSmall.PickSort` | push_swap/srcs/sorting_1.c:15-26 | any distinct list ends strictly increasing in A, B empty, the program replaying to it; nothing is printed when it is sorted already |
| `PushSwapSmall.PushSwap` | push_swap/push_swap.c:29-50 | the printed program, run by the instruction set alone, sorts the input: increasing permutation, empty B, at most n * n instructions, and none if and only if the input is sorted |
| `DiningInit.InitPhilo` | philosopher/philo_init.c:22-46 | ids from 1, counts 0, each right fork the left fork of the next, the last one the first; no mutex shared otherwise |
| `DiningInit.OrderIsModelled` | philosopher/philo_routine.c:15-30 | the two mutexes a thread locks are the ones the model names First and Second, in that order |
| `DiningInit.NamesAreMutexes` | philosopher/philo_init.c:35-41 | two lock names are the same mutex only if they are the same name |
| `DiningLocks.PTracks` | philosopher/philo_routine.c:15-72 | at every step a philosopher locks only what it does not hold and unlocks only what it holds |
| `DiningLocks.MTracks` | philosopher/philo_death_check.c:15-93 | the same for the main thread |
| `DiningLocks.StepOwned` | philosopher/philo_utils.c:72-79 | every step keeps: each mutex is owned exactly by the thread whose place says so |
| `DiningLocks.ForksAscend` | philosopher/philo_routine.c:17-28 | fork order follows a ranking for every n, also for the last of an odd number, who takes two even forks |
| `DiningLocks.PBelow` | philosopher/philo_routine.c:32-54 | whatever a philosopher waits for ranks above all it holds: forks, then m_philo, then print, then dead |
| `DiningLocks.MBelow` | philosopher/philo_death_check.c:52-93 | the same for the monitor |
| `DiningLocks.HolderMoves` | philosopher/philo_routine.c:15-54 | the owner of the highest ranked held mutex can move |
| `DiningLocks.SomeoneMoves` | philosopher/philo.c:15-25 | unless all threads are done some thread can move, joins included |
| `DiningLocks.NothingOwned` | philosopher/philo_routine.c:44-53 | when all threads have returned no mutex is held |
| `DiningSafety.EaterHasBoth` | philosopher/philo_routine.c:32-54 | a philosopher at the table owns both its forks |
| `DiningSafety.NeighboursTakeTurns` | philosopher/philo_routine.c:32-54 | two neighbours are never at the table together |
| `DiningSafety.StepFlags` | philosopher/philo_death_check.c:15-71 | only the monitor sets a flag, never both |
| `DiningSafety.StepMeals` | philosopher/philo_death_check.c:37-48 | counts already scanned stay high enough, so all_ate is set only when every count is |
| `DiningSafety.StepDeath` | philosopher/philo_death_check.c:52-59 | every step keeps: a philosopher being announced dead has starved too long and cannot eat meanwhile; one line at most |
| `DiningSafety.DeathIsTrue` | philosopher/philo_death_check.c:82-86 | a "died" line names a philosopher who has not eaten for longer than time_to_die |
| `DiningSafety.DeathsAreTrue` | philosopher/philo_death_check.c:73-93 | the same for every "died" line of every run |
| `DiningSafety.StepLate` | philosopher/philo_utils.c:72-79 | every step keeps: at most one line after a flag is set, by the thread that had read the flags clear |
| `DiningSafety.RunInv` | philosopher/philo_routine.c:56-72 | all the invariants hold along any run |
| `DiningSafety.NoDeadlock` | philosopher/philo_routine.c:15-72 | in every reachable state some thread can move or all are done |
| `DiningSafety.AlwaysSafe` | philosopher/philo_death_check.c:15-93 | in every reachable state: exclusion, truthful flags, one death, one late line, no mutex left held |
| `DiningStop.PLeftDrops` | philosopher/philo_utils.c:57-70 | with a flag set every step of a philosopher counts down |
| `DiningStop.MLeftDrops` | philosopher/philo_death_check.c:73-93 | the same for the main thread |
| `DiningStop.RunCountsDown` | philosopher/philo_utils.c:57-79 | along any run the steps made since the flag was set are paid for by the measure, and the flag stays set |
| `DiningStop.JoinsComplete` | philosopher/philo.c:15-25 | after a flag is set at most 55n + 6 steps follow, and where none follows every thread has returned |
| `DiningProgress.OwnerFacts` | philosopher/philo_routine.c:15-54 | the owner of a mutex is alive, joins nobody and asks only for mutexes ranked above it |
| `DiningProgress.WaitsLower` | philosopher/philo_routine.c:15-54 | waiting, for a mutex or in a join, always goes upwards in rank |
| `DiningProgress.NoCircle` | philosopher/philo_routine.c:15-54 | threads never wait for one another in a circle |
| `DiningProgress.ChainMoves` | philosopher/philo.c:15-25 | from every thread a climbing chain of waiting threads leads to one that can move |
| `DiningProgress.NoThreadStuck` | philosopher/philo.c:15-25 | so in every state of every run, for every thread that has started and not returned |
| `DiningProgress.FlagsGuarded` | philosopher/philo_death_check.c:54-71 | the flags are set only by the owner of dead, and where a step of any other thread leads does not depend on them |
| `DiningProgress.MealsGuarded` | philosopher/philo_routine.c:39-42 | the count and the time of a meal are written only by the owner of that m_philo, and where a step of any other thread leads does not depend on them |
| `DiningProgress.LinesGuarded` | philosopher/philo_utils.c:72-79 | only the owner of print writes a line |
| `DiningProgress.NoDataRace` | philosopher/philo_death_check.c:23-93 | the three together, at every step of every run |
| `DiningWatch.AllAteIsSet` | philosopher/philo_death_check.c:23-50 | where the monitor finds nobody dead and every count reached, all_ate is set exactly from its next 3n + 3 own steps on, whatever the others do between them |
| `DiningWatch.TooFewGoesOn` | philosopher/philo_death_check.c:38-47 | a count read as too low leads the monitor in two own steps to the scan for the starved, with no flag set |
| `DiningWatch.DeathIsTold` | philosopher/philo_death_check.c:52-59 | a philosopher who has starved as the monitor comes to test it has its line printed within six own steps of the monitor, and philo_died is set exactly from the ninth on |
| `DiningWatch.StarvedIsFound` | philosopher/philo_death_check.c:73-93 | wherever the monitor is in its loop, a philosopher who has starved and does not eat again ends the simulation within 6n + 11 own steps of the monitor |
| `DiningRoutine.LinesFollowMeals` | philosopher/philo_routine.c:56-72 | the lines of a philosopher come in the order of the routine: two forks, eating, sleeping, thinking; until a flag is set exactly five for every meal counted and those of the round begun |
| `DiningRoutine.MealCounts` | philosopher/philo_routine.c:39-42 | at every step of a run: a meal adds one to the count and sets the time to the clock, and nothing else touches either |
| `DiningRoutine.NapEnds` | philosopher/philo_utils.c:57-70 | ft_usleep returns if and only if its time is over or a flag was read, and asks for the flags in every pass |
| `DiningRoutine.NapsFirst` | philosopher/philo_routine.c:43-71 | forks are put down, thinking is announced and a new round begins only after the nap before it; the thread returns only when the test of the flags says so |
| `DiningLast.TrailsExactly` | philosopher/philo_death_check.c:52-59 | at every point of a run: a line has followed "died" or is bound to if and only if some philosopher slipped in between |
| `DiningLast.DiedLastExactly` | philosopher/philo_death_check.c:52-59 | in a finished run a line follows "died" if and only if some philosopher read the flags for a print between the end of the monitor's print and the setting of philo_died |
| `DiningLast.DiedNotLast` | philosopher/philo_utils.c:72-79 | a run of two philosophers whose log goes on after "died" |
| `IrcText.JoinSplit` | irc/src/Utils.cpp:6-22 | joining the pieces gives the string back and no piece holds the delimiter |
| `IrcText.BuildSplit` | irc/src/Utils.cpp:6-22 | the loop computes Split |
| `IrcText.BuildTrim` | irc/src/Utils.cpp:24-33 | the two index loops compute Trim |
| `IrcText.TrimSame` | irc/src/Utils.cpp:24-33 | a string without white space at its ends is its own trim |
| `IrcText.BuildUpper` | irc/src/Utils.cpp:35-41 | every letter in upper case, the rest as it was |
| `IrcText.AtoiItoa` | irc/src/Utils.cpp:43-48 | atoi reads back what itoa prints, for every non-negative int |
| `IrcClient.Buffer.PopLine` | irc/src/Client.cpp:42-52 | takes exactly the first complete line off, without its newline and one carriage return in front of it; nothing changes when there is none |
| `IrcClient.Buffer.Receive` | irc/src/Server.cpp:266-273 | all complete lines are handed out and the rest stays |
| `IrcClient.Buffer.ReceiveAll` | irc/src/Server.cpp:258-288 | the lines depend on the bytes only, not on how they were cut into pieces |
| `IrcClient.PoppedAppend` | irc/src/Client.cpp:35-52 | reading on from what is pending gives the same lines as reading everything at once |
| `IrcClient.NothingPending` | irc/src/Client.cpp:42-46 | what stays holds no complete line |
| `IrcClient.WireRoundTrip` | irc/src/Client.cpp:47-50 | lines ended by CR LF or by a newline alone, in any mixture, arrive as they were, and what follows the last one stays |
| `IrcParse.CollectParams` | irc/src/Server.cpp:330-348 | the index loop computes the parameters |
| `IrcParse.ProcessLine` | irc/src/Server.cpp:304-351 | the tokeniser computes Parse; a blank line gives no command |
| `IrcParse.ParamsRoundTrip` | irc/src/Server.cpp:331-347 | canonical parameters read back one by one |
| `IrcParse.RoundTrip` | irc/src/Server.cpp:304-351 | a canonical message (RFC 2812, section 2.3.1) reads back to its command and parameters |
| `IrcLetters.SpaceExactly` | irc/src/Utils.cpp:23-32 | white space is the six characters std::isspace knows |
| `IrcLetters.UpperExactly` | irc/src/Utils.cpp:35-41 | each of the 26 letters becomes the upper-case one in its place, and every other character stays |
| `IrcLetters.NicknameExactly` | irc/src/Utils.cpp:50-65 | one to nine letters, digits, underscores and hyphens, no digit first |
| `IrcLetters.ChannelNameExactly` | irc/src/Utils.cpp:67-70 | a # and at least one character behind it |
| `IrcLetters.TrimExactly` | irc/src/Utils.cpp:23-32 | all white space at both ends goes and nothing else |
| `IrcLetters.ItoaExactly` | irc/src/Utils.cpp:43-48 | decimal digits without leading zeros |
| `IrcLetters.AtoiExactly` | irc/src/CommandHandler.cpp:597 | the number behind white space and at most one sign, up to the first character that is no digit |
| `IrcLetters.AtoiNone` | irc/src/CommandHandler.cpp:597 | 0 where no digit stands there |
| `IrcLetters.ToIntExactly` | irc/src/CommandHandler.cpp:597 | a value an int holds stays as it is; others wrap around after saturation to a long |
| `IrcLetters.GappedParams` | irc/src/Server.cpp:331-347 | any number of spaces between parameters separates them as one does; a colon takes the rest |
| `IrcLetters.LineParses` | irc/src/Server.cpp:304-351 | a whole line: white space at its ends, a prefix or none, the command in either case, parameters with any number of spaces between them |
| `IrcMode.NormalForm` | irc/src/CommandHandler.cpp:475-633 | what the handler notes has the same effect on the same channel, is noted again unchanged, uses all its arguments; empty only if the channel is unchanged |
| `IrcMode.ChangeUnannounced` | irc/src/CommandHandler.cpp:622-633 | a concrete change that is not announced |
| `IrcMode.LoopFits` | irc/src/CommandHandler.cpp:485-628 | MODE keeps the channel invariant and touches no member, invitation, name or topic |
| `IrcMode.ModesRestored` | irc/src/Server.cpp:476-495 | the letters and arguments of a query set all four modes on a channel without any |
| `IrcMode.ModeLineParses` | irc/src/Server.cpp:476-495 | the answer to a query sent as a MODE line parses to those letters and arguments |
| `IrcMode.QueryRestores` | irc/src/CommandHandler.cpp:459-463 | both together: query, send back, same modes |
| `IrcNet.FindExactly` | irc/src/Server.cpp:466-474 | the lookup finds the client of lowest descriptor with that nickname up to case, and none exactly when there is none |
| `IrcInv.MembersLive` | irc/src/Server.cpp:440-456 | in a sound state every member is connected and registered |
| `IrcInv.JoinKeeps` | irc/src/CommandHandler.cpp:149-209 | JOIN keeps the invariant |
| `IrcInv.CreatorOperates` | irc/src/CommandHandler.cpp:158-185 | the creator is the only member and an operator |
| `IrcInv.JoinExactly` | irc/src/CommandHandler.cpp:165-184 | a client enters an existing channel if and only if invitation, key and limit allow; not as operator; the invitation is used up; no other channel changes |
| `IrcInv.LeaveKeeps` | irc/src/CommandHandler.cpp:279-284 | PART and KICK keep the invariant, and the channel left is erased or has an operator |
| `IrcInv.KickAllKeeps` | irc/src/CommandHandler.cpp:312-347 | a whole KICK keeps the invariant |
| `IrcInv.PartAllKeeps` | irc/src/CommandHandler.cpp:262-285 | a whole PART keeps the invariant |
| `IrcInv.InviteKeeps` | irc/src/CommandHandler.cpp:350-390 | INVITE keeps the invariant |
| `IrcInv.TopicKeeps` | irc/src/CommandHandler.cpp:392-427 | TOPIC keeps the invariant |
| `IrcInv.ModeKeeps` | irc/src/CommandHandler.cpp:429-634 | MODE keeps the invariant |
| `IrcInv.NickKeeps` | irc/src/CommandHandler.cpp:71-103 | NICK keeps nicknames unique up to case, and the registration rule |
| `IrcInv.PassKeeps` | irc/src/CommandHandler.cpp:49-69 | PASS keeps the invariant |
| `IrcInv.UserKeeps` | irc/src/CommandHandler.cpp:105-120 | USER keeps the invariant |
| `IrcInv.CloseKeeps` | irc/src/Server.cpp:246-256 | closing keeps the invariant; every channel left is erased or has an operator; the client is in none |
| `IrcInv.CommandKeeps` | irc/src/CommandHandler.cpp:9-47 | every command keeps the invariant |
| `IrcInv.KickKeeps` | irc/src/CommandHandler.cpp:314-346 | one channel of a KICK keeps the invariant |
| `IrcInv.EventKeeps` | irc/src/Server.cpp:209-288 | every connection, line and hang-up does |
| `IrcInv.ModeReplays` | irc/src/CommandHandler.cpp:629-633 | the noted modes and arguments as a command do what the original command did, and are noted again |
| `IrcMembership.JoinListExactly` | irc/src/CommandHandler.cpp:137-210 | JOIN over all its names: an existing channel is joined if and only if it is named with a key beside it that, with the invitation and the limit, lets the client in, and as a plain member; a new one is founded if and only if it is named and the name is valid, with the client as operator; no other channel changes |
| `IrcMembership.PartListExactly` | irc/src/CommandHandler.cpp:255-286 | PART over all its names: a channel is left if and only if it is named and the client is on it, gone if that empties it and else with an operator; no other channel changes |
| `IrcMembership.KickedNext` | irc/src/CommandHandler.cpp:312-347 | each further name of a KICK removes its target, unless the kicker has removed itself before |
| `IrcMembership.KickListExactly` | irc/src/CommandHandler.cpp:303-348 | KICK over all its names: off a channel the client operates go exactly the targets named for it that are on it, up to the client itself; the channel is gone if that empties it and else has an operator; no other channel changes |
| `IrcMembership.JoinShortKeys` | irc/src/CommandHandler.cpp:152 | of two channels named with one key beside the first, the second is tried without a key |
| `IrcMembership.KickOneUser` | irc/src/CommandHandler.cpp:331 | one user given for two channels is kicked from both |
| `IrcMembership.HandedOn` | irc/src/Server.cpp:392-409 | leaving takes the client out of members, operators and invited; the lowest member left takes over exactly when no operator is left; nothing else of the channel changes |
| `IrcMembership.CloseExactly` | irc/src/Server.cpp:440-456 | a client going away leaves exactly its channels, each gone when that empties it and else with an operator; every other channel and client is as before |
| `IrcEffect.PassExactly` | irc/src/CommandHandler.cpp:49-69 | PASS: accepted if and only if it is the password and the client is not registered yet, doomed if and only if it is another; registered exactly with all three parts; nothing else changes |
| `IrcEffect.NickExactly` | irc/src/CommandHandler.cpp:71-103 | NICK: taken if and only if it is valid and no other client has it in any case; nothing else changes |
| `IrcEffect.UserExactly` | irc/src/CommandHandler.cpp:105-120 | USER: the names are taken if and only if the client is not registered and gave four parameters; nothing else changes |
| `IrcEffect.QuitCloses` | irc/src/CommandHandler.cpp:288-301 | a QUIT line ends in exactly the state a hang-up leaves |
| `IrcEffect.WrongPasswordCloses` | irc/src/CommandHandler.cpp:61-66 | so does a wrong password |
| `IrcEffect.InviteExactly` | irc/src/CommandHandler.cpp:350-390 | INVITE: the client found by the nickname is invited if and only if the sender operates the channel and the client is not on it; nothing else changes |
| `IrcEffect.TopicExactly` | irc/src/CommandHandler.cpp:392-427 | TOPIC: set if and only if the sender is a member and, where the topic is restricted, an operator; nothing else changes |
| `IrcEffect.ModeEffect` | irc/src/CommandHandler.cpp:429-634 | MODE: at most one channel changes, operated by the sender, and no membership, invitation, name or topic |
| `IrcEffect.CommandRightful` | irc/src/CommandHandler.cpp:9-47 | every command: modes and invitations only by an operator, a topic only by a member who may, membership of others only by a kicking operator, no channel by the unregistered, no other client but for its set of channels |
| `IrcRun.ClosingExactly` | irc/src/Server.cpp:266-273 | a command dooms a connection if and only if it is QUIT or a wrong PASS of a client not registered, and only its own |
| `IrcRun.EventSound` | irc/src/Server.cpp:209-288 | every event keeps the invariant and leaves no connection waiting to be closed |
| `IrcRun.ServerSound` | irc/src/Server.cpp:209-256 | every reachable state satisfies both |
| `IrcRun.ServerRestores` | irc/src/Server.cpp:304-351 | the answer to a MODE query on one channel, sent as a line by an operator of another of that name without modes, gives it the same modes and changes nothing else |
| `IrcAnnounce.AnnouncedExactly` | irc/src/CommandHandler.cpp:504-509 | a change is announced if and only if the mode string meets no unknown letter, a condition on the text and the number of arguments only |
| `IrcAnnounce.LoopLetters` | irc/src/CommandHandler.cpp:511-628 | the noted modes are letters the handler knows, the noted arguments some of those given |
| `IrcAnnounce.PrefixIgnored` | irc/src/Server.cpp:313-319 | a prefix and the line ending do not change what a line says |
| `IrcAnnounce.AnnouncedParses` | irc/src/CommandHandler.cpp:629-633 | the announced line, read as text, is MODE with the noted modes and arguments, when the arguments are words and the prefix has no space |
| `IrcAnnounce.AnnouncedReplays` | irc/src/CommandHandler.cpp:629-633 | sent by the operator it does what the original command did, and is announced again |
| `IrcAnnounce.MessageText` | irc/src/CommandHandler.cpp:631-632 | the announced line, character by character |
| `IrcModes.ModesExactly` | irc/src/CommandHandler.cpp:485-628 | i and t are afterwards the sign of the last such letter read before the text stops, the key the argument of the last k and none after -k, the limit likewise with arguments that are no positive number skipped; without such a letter each is as before |
| `IrcModes.ModeCommandExactly` | irc/src/CommandHandler.cpp:429-634 | MODE does that to the channel it names if and only if its sender operates it, and else nothing |
| `IrcOperators.LoopOperates` | irc/src/CommandHandler.cpp:565-587 | who operates the channel after MODE, from the text, the arguments and the members alone, in both directions |
| `IrcOperators.ModeOperatedExactly` | irc/src/CommandHandler.cpp:565-587 | MODE keeps every channel operated if and only if its text leaves some member an operator |
| `IrcOperators.CommandOperatedExactly` | irc/src/CommandHandler.cpp:9-47 | a command keeps it if and only if it is not such a MODE |
| `IrcOperators.CloseOperated` | irc/src/Server.cpp:392-409 | a client going away keeps it |
| `IrcOperators.EventOperatedExactly` | irc/src/Server.cpp:209-288 | an event keeps it if and only if it is not a line with such a MODE |
| `IrcOperators.ServerOperated` | irc/src/Server.cpp:209-288 | from the empty server on, a run without such a MODE keeps every channel operated |
| `IrcOperators.LastOperatorGoes` | irc/src/CommandHandler.cpp:575-578 | such a MODE: -o by the only operator on itself |
| `IrcInvites.InvitesOutliveClients` | irc/src/Server.cpp:440-456 | closing a connection leaves every invitation as it was |
| `IrcInvites.CloseInvitedExactly` | irc/src/Server.cpp:440-456 | closing keeps every invited descriptor connected if and only if the client was invited nowhere |
| `IrcInvites.CommandInvited` | irc/src/CommandHandler.cpp:386 | every command keeps every invited descriptor connected |
| `IrcInvites.EventInvitedExactly` | irc/src/Server.cpp:246-256 | an event keeps it if and only if it does not end the connection of an invited client |
| `IrcInvites.InvitedGone` | irc/src/Server.cpp:440-456 | a run from the empty server into a state with an invited descriptor nobody is behind |
| `IrcInvites.StrangerEnters` | irc/src/CommandHandler.cpp:167-171 | from any sound state: an invited client hangs up, its descriptor is used again by any host under any free nickname, and that client joins the channel for the invited |
| `IrcInvites.StrangerInside` | irc/src/CommandHandler.cpp:167-171 | the same as a run from the empty server |
| `IrcGuests.CommandGuestsExactly` | irc/src/CommandHandler.cpp:350-390 | a command keeps every guest registered if and only if it is not an INVITE by an operator that finds an unregistered client |
| `IrcGuests.EmptyNickUnregistered` | irc/src/Server.cpp:466-474 | an empty nickname finds only clients that are not registered |
| `IrcGuests.EventGuestsExactly` | irc/src/Server.cpp:209-288 | an event keeps every guest registered if and only if it is neither such an INVITE nor a connection given an invited descriptor |
| `IrcGuests.GapInvites` | irc/src/Server.cpp:331-347 | INVITE, two spaces and a channel, sent by its operator, invites the first client without a nickname |
| `IrcGuests.UnregisteredInvited` | irc/src/CommandHandler.cpp:350-390 | a run from the empty server into a state with an invited client that never registered |
| `IrcGuests.NickIsNotEnough` | irc/src/CommandHandler.cpp:358-359 | a client that has sent NICK alone is found by its nickname and not registered |
| `IrcGuests.InvitationHeld` | irc/src/CommandHandler.cpp:386 | along a run that reuses no invited descriptor every invitation was given by an operator, and the client behind it, if any, is the one it was given to |
| `IrcGuests.ReusedNotHeld` | irc/src/Server.cpp:209-256 | a connection given an invited descriptor holds an invitation given to somebody else |
| `IrcGuests.HeldExactly` | irc/src/Server.cpp:209-288 | along a run all invitations are held by those they were given to if and only if no connection is given an invited descriptor |
| `IrcServer.Server.FindClientByNick` | irc/src/Server.cpp:466-474 | the client of lowest descriptor whose nickname matches up to case |
| `IrcServer.Server.IsNicknameInUse` | irc/src/Server.cpp:428-438 | whether another client has the nickname, up to case |
| `IrcServer.Server.AuthenticateIfReady` | irc/src/Server.cpp:416-426 | registered afterwards if and only if it was before or all three parts are there; nothing else changes |
| `IrcServer.Server.HandlePass` | irc/src/CommandHandler.cpp:49-69 | from a sound state, the outcome of PassExactly |
| `IrcServer.Server.HandleNick` | irc/src/CommandHandler.cpp:71-103 | from a sound state, the outcome of NickExactly |
| `IrcServer.Server.HandleUser` | irc/src/CommandHandler.cpp:105-120 | from a sound state, the outcome of UserExactly |
| `IrcServer.Server.HandleJoin` | irc/src/CommandHandler.cpp:137-210 | from a sound state, the outcome of JoinListExactly |
| `IrcServer.Server.HandlePart` | irc/src/CommandHandler.cpp:255-286 | the outcome of PartListExactly |
| `IrcServer.Server.HandleKick` | irc/src/CommandHandler.cpp:303-348 | the outcome of KickListExactly |
| `IrcServer.Server.HandleInvite` | irc/src/CommandHandler.cpp:350-390 | from a sound state, the outcome of InviteExactly |
| `IrcServer.Server.HandleTopic` | irc/src/CommandHandler.cpp:392-427 | the outcome of TopicExactly |
| `IrcServer.Server.ApplyLetter` | irc/src/CommandHandler.cpp:511-627 | one letter with everything the loop carries, exactly as the specification has it |
| `IrcServer.Server.ApplyModes` | irc/src/CommandHandler.cpp:485-628 | the loop with its carried sign, flags and argument index computes ModeLoop |
| `IrcServer.Server.HandleMode` | irc/src/CommandHandler.cpp:429-634 | from a sound state, the outcome of ModeCommandExactly, and the exact line announced; after a change a line if and only if no unknown letter was met |
| `IrcServer.Server.EnsureChannelHasOperator` | irc/src/Server.cpp:392-409 | the channel as it was when it is empty or has an operator, else with the lowest member as operator |
| `IrcServer.Server.RemoveClientFromChannels` | irc/src/Server.cpp:440-456 | every channel of the client is left, erased when empty |
| `IrcServer.Server.CloseClient` | irc/src/Server.cpp:246-256 | the state after a connection is closed; from a sound state, the outcome of CloseExactly |
| `IrcServer.Server.HandleCommand` | irc/src/CommandHandler.cpp:9-47 | from a sound state, nothing but what CommandRightful allows |
| `IrcServer.Server.Handle` | irc/src/Server.cpp:209-256 | one event, closing included |
| `IrcServer.Server.Serve` | irc/src/Server.cpp:209-288 | any sequence of events keeps the server sound |
| `SoLongLevel.ClosedKeepsOut` | so_long/srcs/path.c:15-30 | a set of cells that no step leaves holds no start of a walk to a cell outside |
| `SoLongLevel.PressAllSound` | so_long/srcs/game.c:15-139 | along any play: player on a free cell, door open exactly when no coin is left, won only at the open door |
| `SoLongLevel.PlayStaysJoined` | so_long/srcs/game.c:15-129 | the player and the coins taken stay within walking distance of the start |
| `SoLongLevel.CanWin` | so_long/srcs/game.c:131-139 | when the door and all coins can be walked to, some keys win |
| `SoLongLevel.WinnableIffJoined` | so_long/srcs/main.c:15-46 | a play can be won if and only if the door and every coin can be walked to |
| `SoLongLevel.PressExactly` | so_long/srcs/main.c:33-46 | each key by its code: which way it moves the player, what happens to the coin there, when the door opens and when the game ends and is won |
| `SoLongGame.Game.RecursivePath` | so_long/srcs/path.c:15-30 | terminates; true means joined to the player; false means everything newly marked is sealed off |
| `SoLongGame.Game.ResetVal` | so_long/srcs/utils.c:94-111 | no mark left, the walls as before |
| `SoLongGame.Game.Reaches` | so_long/srcs/path.c:37-44 | fill and reset: true exactly when the cell is joined to the player, and the grid is unmarked again |
| `SoLongGame.Game.Path` | so_long/srcs/path.c:32-50 | error stays 0 exactly when the door and all coins are joined to the player |
| `SoLongGame.Game.FillCtab` | so_long/srcs/path.c:70-95 | exactly the coin positions, in an array of countc |
| `SoLongGame.Game.CountLetter` | so_long/srcs/utils.c:47-67 | the number of cells holding the letter |
| `SoLongGame.Game.CheckDoubles` | so_long/srcs/errors.c:29-53 | error exactly when the letter occurs more than once |
| `SoLongGame.Game.CheckBorders` | so_long/srcs/errors.c:55-81 | error exactly when a border cell is not a wall |
| `SoLongGame.Game.SimpleChecks` | so_long/srcs/errors.c:83-105 | error exactly when coins, player or exit are missing or the map is square; for rows of unequal length see SoLongFile.ProperRectangle |
| `SoLongGame.Game.CheckInvalidChar` | so_long/srcs/errors2.c:77-101 | error exactly when a letter is not one of the five |
| `SoLongGame.Game.InitPos` | so_long/srcs/map.c:15-40 | the last player and the last exit cell in reading order; unchanged when there is none |
| `SoLongGame.Game.CheckPath` | so_long/srcs/errors2.c:36-50 | error stays 0 exactly when door and coins can be walked to, in the map itself |
| `SoLongGame.Game.CheckMap` | so_long/srcs/errors2.c:15-34 | error 0 exactly on accepted maps |
| `SoLongGame.StartSound` | so_long/srcs/errors.c:55-105 | a well-formed map starts a sound play |
| `SoLongGame.AcceptedIffWinnable` | so_long/srcs/path.c:32-50 | a well-formed map is accepted if and only if some keys win it |
| `SoLongGame.Game.CloseWin` | so_long/srcs/main.c:15-31 | victory exactly at the open door |
| `SoLongGame.Game.MoveL` | so_long/srcs/game.c:15-42 | one cell left unless a wall is there, in coordinates; the map, counter and position follow the play; every cell read is on the map |
| `SoLongGame.Game.MoveR` | so_long/srcs/game.c:44-71 | one cell right unless a wall is there, in coordinates; the map, counter and position follow the play; every cell read is on the map |
| `SoLongGame.Game.MoveU` | so_long/srcs/game.c:73-100 | one cell up unless a wall is there, in coordinates; the map, counter and position follow the play; every cell read is on the map |
| `SoLongGame.Game.MoveD` | so_long/srcs/game.c:102-129 | one cell down unless a wall is there, in coordinates; the map, counter and position follow the play; every cell read is on the map |
| `SoLongGame.Game.KPress` | so_long/srcs/main.c:33-46 | each code moves one cell its way unless a wall is there and others move nobody; the game does what the play does |
| `SoLongGame.Game.Loop` | so_long/srcs/main.c:70-72 | any sequence of keys does to the game what it does to the play |
| `SoLongGame.SoLong` | so_long/srcs/main.c:48-74 | a game starts exactly on accepted maps and is won exactly when the keys win the play; without a game nothing is won, and a well-formed map that is refused cannot be won |
| `SoLongFile.CountMap` | so_long/srcs/map.c:69-93 | the number of lines, and the width taken from the second line |
| `SoLongFile.ProperRectangle` | so_long/srcs/errors.c:107-127 | true exactly when all lines have that width, counting a newline on all but the last |
| `SoLongFile.MapTextExactly` | so_long/srcs/errors.c:107-127 | the texts that pass the checks of the rectangle and of the letters are exactly those of three rows or more of equal length, separated by newlines |
| `SoLongFile.ShownGame` | so_long/srcs/map.c:42-67 | the array that is loaded is well formed exactly when the rows are, and shows the same level and start |
| `SoLongFile.Run` | so_long/srcs/main.c:48-74 | from the text of the file and the keys: a game starts exactly on texts of well-formed maps that can be won, and is won exactly when the keys win it |
| `SoLongFile.RowPlayed` | so_long/srcs/game.c:44-71 | a map of player, coin and exit in a row: it starts a game, right twice wins it and left twice does not |
| `PmergeMe.JacobsthalSequence` | CPP/CPP_09/ex02/PmergeMe.cpp:13-35 | the Jacobsthal numbers up to the first that reaches size, and no further |
| `PmergeMe.JacobsthalOrder` | CPP/CPP_09/ex02/PmergeMe.cpp:38-61 | every position once: first those one below a Jacobsthal number, then the gaps, both ascending |
| `PmergeMe.LowerBound` | CPP/CPP_09/ex02/PmergeMe.cpp:105 | the first position not below the value, in at most as many comparisons as the length has bits |
| `PmergeMe.Pair` | CPP/CPP_09/ex02/PmergeMe.cpp:71-93 | larger of each pair to big, smaller to small, a last one alone to big; half as many comparisons as values |
| `PmergeMe.InsertAll` | CPP/CPP_09/ex02/PmergeMe.cpp:97-107 | a sorted list and all the small values, sorted, within the comparison bound |
| `PmergeMe.FordJohnsonSort` | CPP/CPP_09/ex02/PmergeMe.cpp:63-110 | terminates with the ascending permutation in at most n * ceil(log2 n) comparisons |
| `PmergeMe.Recurrence` | CPP/CPP_09/ex02/PmergeMe.cpp:71-107 | pairing, the recursive sort and the insertions add up to n * ceil(log2 n) |
| `PmergeMe.BitLengthIsLog` | CPP/CPP_09/ex02/PmergeMe.cpp:105 | the bisection bound is the rounded-up logarithm |
| `PmergeMe.SortedUnique` | CPP/CPP_09/ex02/PmergeMe.cpp:112-156 | two sorted arrangements of the same values are equal, so the container does not matter |
| `PmergeMe.PairDeque` | CPP/CPP_09/ex02/PmergeMe.cpp:116-142 | the same pairing in the overload on deques |
| `PmergeMe.InsertDeque` | CPP/CPP_09/ex02/PmergeMe.cpp:146-153 | the same insertion in the overload on deques |
| `PmergeMe.FordJohnsonSortDeque` | CPP/CPP_09/ex02/PmergeMe.cpp:112-156 | the overload on deques returns an ascending permutation |
| `PmergeMe.SortBoth` | CPP/CPP_09/ex02/main.cpp:74-78 | the two overloads give the same sequence for every input |
| `PmergeMe.JacobsthalClosed` | CPP/CPP_09/ex02/PmergeMe.cpp:13-35 | the numbers in closed form: 1, 1, 3, 5, 11, 21 and so on |
| `TextLines.LinesCut` | get_next_line/get_next_line.c:36-59 | Lines loses nothing and cuts exactly behind the newlines |
| `TextLines.CutUnique` | get_next_line/get_next_line.c:36-59 | no other sequence of pieces does |
| `TextLines.FirstLineOf` | get_next_line/get_next_line.c:54 | a newline seen ends the line whatever is read later |
| `GetNextLine.StrLen` | get_next_line/get_next_line_utils.c:15-23 | the length of the text before the NUL |
| `GetNextLine.Bzero` | get_next_line/get_next_line_utils.c:25-32 | exactly the first cells are NUL |
| `GetNextLine.StrChr` | get_next_line/get_next_line_utils.c:34-46 | whether the character is in the text; never for NUL |
| `GetNextLine.StrJoin` | get_next_line/get_next_line_utils.c:48-73 | a fresh string with both texts |
| `GetNextLine.StrDup` | get_next_line/get_next_line_utils.c:75-91 | a fresh string with the text |
| `GetNextLine.Cleanup` | get_next_line/get_next_line.c:15-34 | the first line stays in line and the rest goes to keep, inside its bounds when the rest is two shorter than keep |
| `GetNextLine.CopyRest` | get_next_line/get_next_line.c:26-30 | the second loop copies what follows the newline and the NUL, no further |
| `GetNextLine.HandedOver` | get_next_line/get_next_line.c:53-55 | the rest after a line fits the buffer, since the newline came with the last chunk |
| `GetNextLine.Reader.Read` | get_next_line/get_next_line.c:49 | any positive number of bytes up to BUFFER_SIZE, or nothing at the end |
| `GetNextLine.Reader.ReadLine` | get_next_line/get_next_line.c:48-58 | the reading loop terminates and returns the line, however the bytes are chunked |
| `GetNextLine.Reader.GetNextLine` | get_next_line/get_next_line.c:36-59 | one call returns the first line of what is left and leaves the rest; null exactly when nothing is left, with keep empty |
| `GetNextLine.Reader.ReadAll` | get_next_line/get_next_line.c:36-59 | the calls up to the first null return exactly the lines of the content |

## Left out

- push_swap: parsing and checking of the arguments; the model starts from the values `is_valid` lets through, pairwise distinct ints (push_swap/srcs/utils_1.c:52-77), at most INT_MAX of them, so that `cost` and `index` do not overflow.
- push_swap: `ss`, `get_len`, `printlink` and the functions that free the lists are not part of the sorting runs.
- philosopher: the case of one philosopher (`one_eating`), argument parsing, the time stamps in the lines, and real time: the clock is any number that never decreases, and `ft_usleep` may return at any pass.
- philosopher: the threads are modelled as a step relation and not as imperative methods, because the claims are about all interleavings.
- irc: sockets, `poll`, signals, logging, the send queue and the ping timeout; connections, lines and hang-ups are events. All replies except the MODE announcement, and the commands that only reply (PRIVMSG, WHOIS, WHO, CAP, PING, PONG).
- irc: several lines in one `recv` are separate events; lines behind one that closes the connection are not handed out by the program and are not events.
- irc: channels and clients are values in the server's maps, as in the program, so aliasing through references into the maps is not modelled.
- so_long: MiniLibX, textures and drawing, the move counter, and reading the file: the model starts from its text, without NUL characters, cut into lines as get_next_line cuts it. Ragged maps are refused before the other checks and not after them: the program reads rows up to the width of the second one before it compares their lengths.
- PmergeMe: reading the arguments and the timing; `size_t` arithmetic is unbounded; both containers are sequences, so iterator invalidation is not modelled, and comparisons are counted for the vector overload only.
- get_next_line: a read that fails with -1, and content that holds NUL characters; BUFFER_SIZE of at least 1.
- All programs: failure of `malloc`, freeing memory and process exit codes.
- The other programs of the repository: minishell, minitalk, Transcendance, Libft, ft_printf, the remaining CPP exercises, and the copy of the line reader in so_long.
- PushSwapSorter.Sorter.SwapTwo: the letter 's' that `ss` passes prints nothing, and `ss` itself is not modelled, because no sort calls it.
- GetNextLine.Cleanup: requires a newline in the line, because both calls are guarded by one.
