# nhop: failover, loads, framing - a verified model

nhop is a local proxy router. Its daemon sends each connection directly or through one of an ordered list of upstream
SOCKS5 proxies, decides which upstream is usable from probes and from real dials, and takes its configuration from an
init script whose commands it applies all at once. This project models the parts of the daemon whose correctness
depends on more than one function, and proves what they promise together:

- **Failover** (`Health`, `Selecting`, `Upstreams`, `Entries`, `Switching`, `Patrol`, `Failover`, `FailoverRuns`,
  `Routing`, `Displacement`, `Deadline`, `Counterexamples`). Dials, the patrol's probing passes and reloads share one
  verdict cell per upstream. The code that changes state step by step is modelled as classes and methods
  (`HealthHandle`, `Selection`, `Prober`, `Adopt`, `Select`), each proved equal to a function of the old state.
  `Failover.Next` is a transition system over those same functions (what a probe, a dial's end, a selection, a look
  and a publication leave, and how long the patrol sleeps); the bookkeeping of a pass - its start, its list, the
  probes still out - is the system's own. Its steps are the clock moving, a dial taking a snapshot, routing and
  ending, a pass beginning, one probe heard or lost, a pass ending, and a list being published. `Failover.Inv` is what
  every step keeps; `FailoverRuns`, `Routing`, `Displacement` and `Deadline` hold what follows for every run, every
  list and every interleaving, and `Counterexamples` concrete runs.
- **Loads** (`Forwards`, `Listeners`, `Rules`, `Staging`, `Loads`, `LoadRuns`, `CommandRuns`, `DaemonState`).
  `DaemonState.State`, `Staging.Draft` and `Listeners.Bound` are the daemon's objects with their fields and methods;
  each method is proved equal to a function on values. `Loads.Next` is the transition system of the daemon among its
  tasks: commands, reload requests, a script ending, its outcome being taken. `Loads.Inv` is what every step keeps,
  and `LoadRuns` proves that a load is all or nothing with respect to the commands it was given, and `CommandRuns`
  what every command does, live or under a run, and that the live rules and upstreams are what the history of
  effective commands amounts to.
- **HTTP** (`Text`, `Framing`, `Requests`, `Serving`, `Rewriting`, `Heads`). Reading a head from any sequence of
  reads, sending on exactly the body it declares, and rebuilding the request for the origin, stated in `Heads` in the
  words of the text itself (section 3.2.2 of RFC 9112, section 7.6.1 of RFC 9110).
- **Fan-out, rules and logs** (`FanOut`, `Rules`, `LogReading`). What a slow reader of the event stream is told it
  missed, which rule a destination is decided by, and reading the complete lines of a growing log file.

Times are integers in milliseconds. A verdict cell is named by a handle, a natural number in the transition system and
an object in the classes; handles are never reused. A step of the transition system is one atomic action of one task.
A probe is folded in one step although the code reads the verdict and then swaps it: when the probe agrees with the
verdict, or opens a sequence, the step happens at the read; when it closes a sequence, at the swap, which itself
leaves a verdict that already agrees alone.

## Where the code and its documentation differ

The model follows the code in each case.

- The comment at `nhop/src/upstream/select.rs:43-45` says a selected entry is never displaced by a lower-ranked one
  until it turns down. A pass stamps its writes with the instant it began, so a pass already out when a dial settles
  the selected entry can displace it downwards: `Counterexamples.PassUnderWayDisplacesDownwards` is such a run.
  `Displacement.DisplacedDownwardsExactly` says exactly which step does it: a probe that closes a sequence up for a
  lower-ranked entry, in a pass begun before the selected entry settled, while that entry has not held. Over whole
  runs in which its verdict stands, `Displacement.NeverDisplacedDownwards` says the comment holds exactly when there
  is no such step - that the entry, among itself and those ranked below it, stays the one selected - and
  `Displacement.NoRiskNoOvertaking` what to look for before the run. That the choice itself stays at or above the
  entry is the weaker claim: an entry ranked above may shield it (`Counterexamples.OvertakenYetShielded`).
- The comment at `nhop/src/upstream/mod.rs:486-488` counts one probe timeout per observation, so two for a verdict
  change. An upstream that changes just after its probe was heard, in a pass that stays out for another entry, costs a
  third: `Counterexamples.ThreeTimeoutsAreNeeded` is a run one millisecond short of the bound
  `Deadline.PatrolSettlesInTime` proves.
- `README.md:394` of the repository says loads are atomic. Rules, upstreams and forwards are; the front ends move
  before the forwards are tried (`nhop/src/daemon/state.rs:711-718`), so a run that is refused a forward fails with
  its front ends moved. `LoadRuns.LoadIsAtomic` states exactly when, and `LoadRuns.FailedLoadMovesFrontEnds` is such a
  run.
- The turnover lines of one verdict follow its swaps, but a line is written after its swap and outside it, so two
  racing callers can leave the file in another order: `VerdictRace.FileOrderMayDiffer`, with
  `VerdictRace.OverlapExactly` for which calls may overlap without that.
- `rewritten` writes an IPv6 host into `Host` without its brackets. `Rewriting.RebuiltReadsBack` states for which
  hosts the rebuilt request still reads as the same request, and `Rewriting.BareIpv6IsLost` is one for which it does
  not.

## Model

| member | source | states |
|---|---|---|
| Health.HealthHandle.Judging | nhop/src/upstream/health.rs:84-89 | a fresh cell is down, stamped with its creation, with no line written |
| Health.HealthHandle.Settle | nhop/src/upstream/health.rs:181-199 | one swap: the state becomes the one seen, the stamp moves only when the state does, and the old verdict is returned |
| Health.HealthHandle.SetAt | nhop/src/upstream/health.rs:139-160 | the swap, plus one line exactly when the state turned over |
| Health.LogTellsTheVerdict | nhop/src/upstream/health.rs:139-199 | for every run of observations on one cell the lines alternate starting down to up, and the last line is the verdict in force with its stamp |
| Health.StampIsStreakStart | nhop/src/upstream/health.rs:181-199 | however many confirming observations follow, the stamp is that of the observation which began the final streak |
| VerdictRace.LinesConserved | nhop/src/upstream/health.rs:139-160 | with swap and line as separate steps of racing callers, no turnover line is lost or repeated and the verdict is that of the swaps |
| VerdictRace.OldestFirstKeepsSwapOrder | nhop/src/upstream/health.rs:139-160 | if each line is written oldest first, the file is in swap order |
| VerdictRace.SwapOrderExactly | nhop/src/upstream/health.rs:139-160 | when no two lines are alike, the file is in swap order if and only if each line is written oldest first |
| VerdictRace.OverlapExactly | nhop/src/upstream/health.rs:139-160 | however the lines owed are then written, the file goes back and forth after an observation if and only if it turned nothing over or no other call's line was still unwritten |
| VerdictRace.FileOrderMayDiffer | nhop/src/upstream/health.rs:139-160 | a run of two racing callers whose file does not alternate |
| Selecting.Select | nhop/src/upstream/select.rs:46-78 | the one-pass loop returns the choice the three documented steps determine, absent exactly when all entries are down |
| Selecting.SelectionIsTheChoice | nhop/src/upstream/select.rs:29-68 | the three documented steps have exactly one answer for every list, clock and hold, and it is the one computed |
| Selecting.PassedOverExactly | nhop/src/upstream/select.rs:29-68 | an up entry is passed over for a lower-ranked one if and only if nothing at or above it has held and a lower one came up strictly before every up entry at or above it |
| Selecting.OutranksExactly | nhop/src/upstream/select.rs:36-68 | an up entry that has held, or that no lower-ranked up entry came up before, is the one selected among itself and those below it, and no other is |
| Selecting.NotDisplaced | nhop/src/upstream/select.rs:43-68 | a selected entry whose verdict stands is displaced only upwards, by an entry that has held or ties with it, when no turnover since is stamped before it |
| Selecting.FlapDamped | nhop/src/upstream/select.rs:36-68 | with later stamps strictly after it, the selected entry stays selected if and only if no higher-ranked entry has been up for the whole hold |
| Upstreams.Parse | nhop/src/proxy/mod.rs:204-219 | accepts a list if and only if every text reads and no two dial one socket, and otherwise names the first text or socket that offends |
| Upstreams.RefusalNamesTheFirst | nhop/src/proxy/mod.rs:199-219 | a refusal is about the first text that does not read or that repeats an earlier socket, and says which of the two |
| Upstreams.ParsedExactly | nhop/src/proxy/mod.rs:204-219 | the accepted list is what the texts read as, in the order written, each socket once - and nothing else is accepted |
| Entries.HandleAt | nhop/src/upstream/entries.rs:58-69 | finds a handle exactly when the list names the address, and then one of an entry at that address |
| Entries.Judge | nhop/src/upstream/entries.rs:59-69 | the inner loop finds the handle of the first listed entry at the socket |
| Entries.Adopt | nhop/src/upstream/entries.rs:52-79 | the outer loop keeps the handle of every address already judged, mints a fresh down cell for each other one, all distinct, and counts the publication, saturating at 64 bits |
| Lineage.PublishKeepsLineage | nhop/src/upstream/entries.rs:44-79 | one publication keeps: sockets distinct within each list, and two entries of any two lists share a handle if and only if they are one socket every list between them names |
| Lineage.HandleLineage | nhop/src/daemon/state.rs:105-108 | over any run of publications from an empty start that lineage holds and each list carries its number |
| Switching.Selection.Swap | nhop/src/upstream/select.rs:125-143 | one atomic swap: the cell takes the look unless its list has been replaced, and what it replaced is returned |
| Switching.Selection.Report | nhop/src/upstream/select.rs:144-166 | the line that swap is worth, its cause read off the verdicts in force when the line is made, however they moved since the swap |
| Switching.Selection.Observe | nhop/src/upstream/select.rs:113-166 | the two in a row, as one caller without interference sees them |
| Switching.Selection.CauseOf | nhop/src/upstream/select.rs:177-196 | the cause table over the entries' verdicts at that moment |
| Switching.CauseTable | nhop/src/upstream/select.rs:157-196 | every row of the table for every look: reload if and only if the lists differ, else recovered from none, held for a higher-ranked entry with the previous one up, down otherwise |
| Switching.LineNamesBothEnds | nhop/src/upstream/select.rs:147-165 | there is a line if and only if the sockets differ, and it names both written addresses |
| Switching.LogReconstructsSelection | nhop/src/upstream/select.rs:113-166 | for any sequence of looks, stale ones included, the lines form one walk by socket from the first selection to the last, never standing still |
| Switching.StaleLooksAreInvisible | nhop/src/upstream/select.rs:109-146 | the observed publication is the latest any look brought, and dropping all stale looks changes neither cell nor log |
| Switching.CauseIsSound | nhop/src/upstream/select.rs:169-196 | within one list: recovered if and only if from none, down after a down entry, and an entry whose verdict stood is left only upwards and as held |
| Switching.ReloadedExactly | nhop/src/upstream/select.rs:157-160 | a line says reload if and only if the publication changed |
| Patrol.Banked | nhop/src/upstream/mod.rs:555-565 | a handle's pending target, absent exactly when it has no sequence |
| Patrol.Prober.FindNothing | nhop/src/upstream/mod.rs:509-518 | with nothing published every sequence is dropped and the sleep is the short tick inside the cold-start window, the interval after it |
| Patrol.Prober.Begin | nhop/src/upstream/mod.rs:520-540 | a pass resets the window and is stamped with its start |
| Patrol.Prober.Advance | nhop/src/upstream/mod.rs:582-598 | a probe moves the verdict only when it contradicts it and agrees with the banked target, stamped with the pass's start, with one line |
| Patrol.Prober.Fold | nhop/src/upstream/mod.rs:549-573 | one probe looks up the sequence of its own handle and leaves at most one in the next pass's list |
| Patrol.Prober.Finish | nhop/src/upstream/mod.rs:521-528 | the next pass waits the confirm delay exactly when a sequence is pending |
| Patrol.Answered | nhop/src/upstream/mod.rs:206-293 | a dial's end moves only the handle it dialled: up when the upstream served, down when it failed, untouched when nothing was sent |
| Failover.StepKeeps | nhop/src/upstream/mod.rs:499-598 | every step of every task keeps lineage, stamps, clock, sequences, the two-probe rule, what tasks hold and the switch log's walk |
| Failover.RunKeeps | nhop/src/upstream/mod.rs:499-598 | so every run does, and published lists are only ever added to |
| FailoverRuns.TwoProbeHysteresis | nhop/src/upstream/mod.rs:539-598 | in every reachable state each probe heard turned its verdict if and only if it contradicted it and the same handle's probe of the pass before saw the same and contradicted too; one sequence at most per handle |
| FailoverRuns.ProbeTurnsExactly | nhop/src/upstream/mod.rs:582-598 | the same for the next probe, naming the one cell it moves and its stamp, under all interleavings of passes, dials and reloads |
| FailoverRuns.FirstListIsProbedAtOnce | nhop/src/upstream/mod.rs:77-103 | a first list published inside the cold-start window is reached by the patrol within one short tick |
| FailoverRuns.NeverStuck | nhop/src/upstream/mod.rs:499-530 | in every reachable state the clock may move or the patrol may act |
| FailoverRuns.LateDialReaches | nhop/src/upstream/mod.rs:242-255 | a dial ending after any number of reloads moves a listed verdict if and only if it dialled that socket and every list since its snapshot names it |
| FailoverRuns.LateProbeReaches | nhop/src/upstream/mod.rs:467-470 | a probe of a pass over a replaced list turns a listed verdict if and only if it probed that socket, every list since the probed one names it, and the two-probe rule lets it |
| Routing.RoutedExactly | nhop/src/upstream/mod.rs:177-190 | with an entry selected a `require` and a `prefer` connection both go through it, and it is up; with all down `prefer` goes direct and `require` goes through the first entry or is refused; `never` goes direct; no verdict moves |
| Routing.NewConnectionsTakeTheLiveList | nhop/src/upstream/mod.rs:177-180 | a connection made and routed without interference goes through what the list in force selects |
| Routing.RecordsTheChoice | nhop/src/upstream/mod.rs:521-523 | a routed connection records its own choice unless its list was replaced, a pass that ends records the choice of the list in force, and nothing else records anything |
| Routing.QuietPastTheWindow | nhop/src/upstream/mod.rs:98-103 | with nothing published the patrol looks again after a whole interval once 35 s have gone by, and after 250 ms at most before |
| Displacement.ServingDialIsSelected | nhop/src/upstream/mod.rs:193-236 | with nothing up when a dial ends, however long after it was routed, an entry it finds serving is the one selected |
| Displacement.ServingDialStaysSelected | nhop/src/upstream/mod.rs:193-236 | from then on, while its verdict stands, it is never displaced downwards if and only if no step overtakes it, and none does unless a pass begun earlier was out when the dial ended |
| FailoverRuns.StampsFromFloor | nhop/src/upstream/mod.rs:539-598 | over any run, every verdict that moved is stamped no earlier than the start of the pass under way, or the clock when none was |
| FailoverRuns.SettledEntryIsKept | nhop/src/upstream/select.rs:43-68 | over any run from a state whose selected entry settled no later than that floor, while its verdict stands only a higher-ranked entry that has held or ties displaces it |
| Displacement.DisplacedDownwardsExactly | nhop/src/upstream/select.rs:43-68 | in every reachable state, a step that leaves the selected entry's verdict standing displaces it downwards if and only if it is a probe closing a sequence up for a lower-ranked entry, in a pass begun before the entry settled, while the entry has not held |
| Displacement.NeverDisplacedDownwards | nhop/src/upstream/select.rs:43-68 | over any run in which the verdict stands throughout, the entry stays selected among itself and those below it if and only if no step is such a probe; and then the choice is at or above it in every state |
| Displacement.NoRiskNoOvertaking | nhop/src/upstream/mod.rs:540-594 | no run holds such a probe when no older pass has yet to hear one for a lower-ranked entry with a sequence up pending |
| FailoverRuns.FlappingPrimaryStaysOut | nhop/src/upstream/select.rs:13-45 | over any run, strictly after that floor, the entry stays selected if and only if no higher-ranked entry has been up for the whole hold |
| Counterexamples.PassUnderWayDisplacesDownwards | nhop/src/upstream/mod.rs:540-594 | a reachable state and a probe after which a lower-ranked entry displaces an entry still up |
| Counterexamples.OvertakenYetShielded | nhop/src/upstream/select.rs:43-68 | a reachable state in which the selected entry is overtaken from below but an entry above it, up with the same stamp, is chosen |
| FailoverRuns.SwitchLogIsAWalk | nhop/src/upstream/select.rs:113-166 | in every reachable state the switch log is one walk from none to the selection last observed |
| FailoverRuns.ObservedNeverGoesBack | nhop/src/upstream/select.rs:125-146 | no step takes the observed list back; a dial holding a replaced list changes nothing; a pass ends on the live list |
| FailoverRuns.ReloadedMeansReloaded | nhop/src/upstream/select.rs:157-160 | in every reachable state, below 2^64 publications, a line says reload if and only if the publication changed |
| FailoverRuns.CauseAcrossRun | nhop/src/upstream/select.rs:169-196 | across any run between two selections of one list, the cause names what happened: recovered, down or held |
| Deadline.PatrolSettlesInTime | nhop/src/upstream/mod.rs:499-598 | with no list published and no dial writing the entry, once all its probes see one state its verdict is that state after max(interval, confirm delay) + confirm delay + three probe timeouts, whatever pass was out; two for a one-entry list no older pass is out over; stamped by then |
| Deadline.BackWithinTheHold | nhop/src/upstream/select.rs:13-17 | an entry whose probes all see it up is taken over by new connections, or one above it is, one such deadline and one hold later |
| Deadline.TimeCanPass | nhop/src/upstream/mod.rs:499-530 | with an interval above zero, from every reachable state some such undisturbed run takes the clock to any later instant |
| Counterexamples.ThreeTimeoutsAreNeeded | nhop/src/upstream/mod.rs:486-488 | a run over two entries in which the verdict is still the old one a millisecond before the three-timeout deadline |
| Forwards.Push | nhop/src/proxy/mod.rs:76-90 | appends at the end, refusing a second forward on one address, and keeps one per address |
| Forwards.TargetOf | nhop/src/proxy/mod.rs:93-105 | absent exactly when the address is not declared, and otherwise a declared target |
| Forwards.TargetAt | nhop/src/proxy/mod.rs:66-105 | with one forward per address, every declared forward is found by its address |
| Listeners.Bound.Rebind | nhop/src/daemon/mod.rs:213-228 | both front ends move, keeping a listener already on its address, or neither does |
| Listeners.FrontEndsMoveTogether | nhop/src/daemon/mod.rs:213-228 | refused if and only if a needed bind is; otherwise each front end keeps its very listener when it is on the address, and is a new socket on the bound address when not |
| Listeners.Bound.RebindForwards | nhop/src/daemon/mod.rs:230-258 | opens everything missing before closing anything: the whole new set, or the old one untouched, and reports what is held |
| Listeners.Bound.IsHeld | nhop/src/daemon/mod.rs:260-271 | true exactly when a forward listener holds the address |
| Listeners.Bound.Report | nhop/src/daemon/mod.rs:287-293 | lists every held forward, dropping none |
| Listeners.ForwardsMoveAllOrNothing | nhop/src/daemon/mod.rs:230-258 | refused if and only if an address not yet held cannot be bound; otherwise what is held is exactly what is wanted with port 0 resolved, and every address in both keeps its socket |
| Matching.AcceptedExactly | nhop/src/rules/matcher.rs:75-205 | which texts are rules of which kind |
| Matching.HitsExactly | nhop/src/rules/matcher.rs:49-183 | an accepted rule hits a destination if and only if: its labels are the destination's last ones; its keyword stands somewhere in it; the ports are equal; the name reads as an address inside its network |
| Matching.SuffixMatchesLabels | nhop/src/rules/matcher.rs:93-103 | a suffix matches a host if and only if its dot-separated labels are the host's last labels |
| Rules.Pushed | nhop/src/rules/ruleset.rs:49-64 | a pushed rule keeps every id equal to its position |
| Rules.Decide | nhop/src/rules/ruleset.rs:85-121 | the two passes decide as the first match over `never` rules followed by the rest, and so as the texts of the rules say |
| Rules.DecisionFollowsTheTexts | nhop/src/rules/ruleset.rs:82-121 | the decision follows from the texts of the rules and the destination: the first `never` rule whose text hits, else the first other with its class, else direct |
| Rules.DecisionIsDetermined | nhop/src/rules/ruleset.rs:82-121 | no two decisions follow from the same texts |
| Rules.PushReadsOneMore | nhop/src/rules/ruleset.rs:49-64 | a rule is accepted if and only if its text reads as its kind, and is then the last declared |
| Rules.DecidesTheEarliest | nhop/src/rules/ruleset.rs:82-121 | the decision names the earliest matching `never` rule, else the earliest other match, and is direct only when nothing matches |
| Staging.Draft.Fail | nhop/src/daemon/staging.rs:156-161 | only the first failure is kept |
| Staging.Draft.PushRule | nhop/src/daemon/staging.rs:68-79 | appends the rule or fails the run on `add_rule` |
| Staging.Draft.Clear | nhop/src/daemon/staging.rs:82-84 | drops the staged rules and nothing else |
| Staging.Draft.SetUpstream | nhop/src/daemon/staging.rs:94-112 | replaces the staged list or fails the run, on the command the caller sent |
| Staging.Draft.Listen | nhop/src/daemon/staging.rs:115-117 | the last front-end addresses named win |
| Staging.Draft.PushForward | nhop/src/daemon/staging.rs:125-131 | appends the forward or fails the run on `add_forward` |
| Staging.FailsOnTheFirst | nhop/src/daemon/staging.rs:61-161 | after any sequence of edits the run has failed on the command of the first one turned away, and on none if none was |
| Staging.StagedAmounts | nhop/src/daemon/staging.rs:61-161 | after any edit the run holds exactly what its accepted edits amount to - rules since the last clear, last list, last addresses, all forwards - and has failed if and only if some edit was rejected |
| Loads.StepKeeps | nhop/src/daemon/state.rs:230-251 | every command, reload, script end and outcome keeps: recorded addresses are the held ones, tasks match the run in flight, each reload answered once, rules numbered, lists distinct, the run equal to its accepted edits |
| CommandRuns.OutOfPlaceIsRefused | nhop/src/daemon/state.rs:566-582 | a command carrying the id of no run in flight, or none while one is in flight, is answered so and changes nothing |
| CommandRuns.EndedRunsAreRefused | nhop/src/daemon/state.rs:566-582 | once the outcome of a run is taken, over any later steps no command carrying its id ever changes the daemon |
| CommandRuns.OwnRunTakesIn | nhop/src/daemon/state.rs:430-543 | a command under the run in flight leaves what serves traffic alone, and the run takes it in or has it rejected |
| CommandRuns.LiveEditsApply | nhop/src/daemon/state.rs:442-555 | with no run, each of the five commands has exactly its own effect and reply: the rule its text reads as appended, the rules gone, the list its texts read as published, the front ends or the forwards moved as granted; any reply but Done changes nothing |
| CommandRuns.LiveIsTheHistory | nhop/src/daemon/state.rs:422-733 | in every run from a daemon just started, rules and upstream list are what the history amounts to: live commands answered Done, a turn-off as a clear, a committing load as a clear and its accepted commands |
| CommandRuns.ReloadExactly | nhop/src/daemon/state.rs:584-620 | refused in flight or without its script; else a fresh id, nothing staged, and the script - given, else remembered, else default - remembered |
| CommandRuns.TurnOffExactly | nhop/src/daemon/state.rs:422-428 | no rule is left, unless a run is in flight |
| CommandRuns.OutcomeExactly | nhop/src/daemon/state.rs:622-721 | for every way a script ends and every bind answer, the outcome recorded, the command named and the answer given |
| CommandRuns.FailsOnTheFirstRejected | nhop/src/daemon/staging.rs:155-161 | a run in flight has failed on the command of the first edit turned away under it, whatever came later |
| LoadRuns.OutcomesAreTheCurrentRuns | nhop/src/daemon/state.rs:584-652 | scripts running plus outcomes waiting are one while a load is in flight and none otherwise, and the outcome taken is that load's |
| LoadRuns.EveryReloadIsAnsweredOnce | nhop/src/daemon/state.rs:584-652 | requests made are requests answered, plus the one in flight |
| LoadRuns.RecordedAddressesAreHeld | nhop/src/daemon/state.rs:545-555 | the recorded front-end and forward addresses always equal the held ones |
| LoadRuns.LoadingChangesNothing | nhop/src/daemon/state.rs:430-543 | while a run is in flight nothing that serves traffic changes, and the run has taken in exactly the edits accepted under its id |
| LoadRuns.FrontEndsMoveAsGranted | nhop/src/daemon/state.rs:545-550 | the front ends move if and only if every address they need is granted, each ending where it was asked or already was |
| LoadRuns.CommitApplies | nhop/src/daemon/state.rs:704-733 | a commit applies everything the edits amount to if and only if every bind is granted, and otherwise leaves rules, upstreams and forwards alone |
| LoadRuns.FinishIsAllOrNothing | nhop/src/daemon/state.rs:622-702 | taking an outcome ends the run, records it, answers its request, and is all or nothing |
| LoadRuns.LoadIsAtomic | nhop/src/daemon/state.rs:430-733 | from the reload that starts a run to the step that ends it: nothing live changes before, and that step applies exactly the edits accepted under the id, or leaves rules, upstreams and forwards as before the reload; when the front ends move regardless |
| LoadRuns.NothingVanishes | nhop/src/daemon/state.rs:430-440 | the reply for a run that ended under a command is never given |
| LoadRuns.FailedLoadMovesFrontEnds | nhop/src/daemon/state.rs:711-718 | a reachable load that fails on a forward with its front ends moved |
| DaemonState.State.constructor | nhop/src/daemon/state.rs:331-360 | a daemon just started holds nothing |
| DaemonState.State.Route | nhop/src/daemon/state.rs:566-582 | a command applies live only without a run and without an id, to the staging only with the id in flight, and nowhere otherwise |
| DaemonState.State.Rebind | nhop/src/daemon/state.rs:545-550 | moves the front ends and records them, or changes nothing |
| DaemonState.State.RebindForwards | nhop/src/daemon/state.rs:552-555 | moves the forwards and records them, or changes nothing |
| DaemonState.State.Edit | nhop/src/daemon/state.rs:442-543 | the five configuration commands, each routed and then applied to the draft or live, with its reply |
| DaemonState.State.EditDraft | nhop/src/daemon/state.rs:430-440 | an edit of the run in flight reaches its draft and nothing else |
| DaemonState.State.EditLive | nhop/src/daemon/state.rs:455-543 | an edit without a run applies at once, whole, or changes nothing and says why |
| DaemonState.State.TurnOff | nhop/src/daemon/state.rs:422-428 | clears the rules, refused during a load |
| DaemonState.State.Reload | nhop/src/daemon/state.rs:584-620 | refused during a load or without a file; otherwise a fresh id, an empty draft and the path remembered |
| DaemonState.State.Finish | nhop/src/daemon/state.rs:622-652 | takes the run out, settles it, records it and answers it |
| DaemonState.State.Settle | nhop/src/daemon/state.rs:654-702 | commits only a script that succeeded with no rejected command, and names the failed command otherwise |
| DaemonState.State.Commit | nhop/src/daemon/state.rs:704-733 | front ends, then forwards, then rules and upstreams, stopping at the first refusal |
| Framing.HeadEnd | nhop/src/proxy/http.rs:296-304 | the end of the first blank line, absent exactly when there is none |
| Framing.ReadHead | nhop/src/proxy/http.rs:275-294 | for every way the stream is split into reads: a head is found if and only if the first blank line ends within 8192 bytes, and then it ends there |
| Framing.CopyRest | nhop/src/proxy/http.rs:81-88 | copies up to the limit or the client's last byte, never reading past the limit |
| Framing.SendBody | nhop/src/proxy/http.rs:177-198 | for every split into reads and the body framing given, the bytes sent on behind the head are exactly the body's, never a pipelined one |
| Serving.Serve | nhop/src/proxy/http.rs:110-140 | for every split, a connection is served exactly when a head ends within 8192 bytes and reads as a request, and what is sent on is what that head says: a tunnel's bytes, or the rebuilt head and its body |
| Serving.DeclaredLengthIsSent | nhop/src/proxy/http.rs:396-407 | a request declaring a length in decimal has that many bytes sent on behind its rebuilt head, or all that arrive |
| Requests.KeptText | nhop/src/proxy/http.rs:371-381 | the field loop keeps exactly the labelled lines that are neither `Host` nor hop-by-hop, in order, as written |
| Requests.Rewritten | nhop/src/proxy/http.rs:350-384 | the text written piece by piece is the request line, the regenerated `Host`, the kept fields and the closing lines joined by CRLF |
| Heads.HeadExactly | nhop/src/proxy/http.rs:306-338 | a head of three fields is a request for a host and port if and only if its third is a version and its target, or for other targets its `Host` field, names them; `CONNECT` needs the port and is a tunnel, any other has the body its fields say |
| Heads.OnlyThreeFields | nhop/src/proxy/http.rs:310-320 | a head whose line is not three fields apart by single spaces is no request |
| Heads.AuthorityExactly | nhop/src/proxy/http.rs:429-454 | which host and port a text names: in brackets, or bare up to its last colon, by default port where there is none, never an empty host |
| Heads.FirstValueExactly | nhop/src/proxy/http.rs:417-427 | a field has the trimmed value of its first line, in any case and with any space around its name |
| Heads.BodyExactly | nhop/src/proxy/http.rs:396-407 | streamed if and only if some field is a transfer encoding; else what the first content length says when it is a number, and nothing when not |
| Heads.KeepsExactly | nhop/src/proxy/http.rs:371-381 | a line is kept if and only if it is a field other than `Host` and the eight hop-by-hop ones |
| Heads.KeptCounts | nhop/src/proxy/http.rs:371-381 | each kept line is kept as often as it came |
| Heads.RebuiltInFull | nhop/src/proxy/http.rs:350-394 | the rebuilt head character by character: method, the path of the target alone or `/`, the regenerated `Host`, the kept fields, the close |
| Heads.TunnelIsVerbatim | nhop/src/proxy/http.rs:177-198 | a tunnel is sent exactly what came behind its head |
| Heads.EncodedBodyIsSent | nhop/src/proxy/http.rs:177-198 | a transfer-encoded request has everything behind its head sent on |
| Text.NumberExactly | nhop/src/proxy/http.rs:403-441 | a text is read as a number up to a bound if and only if it is its decimal, behind zeros and one plus sign at most |
| Rewriting.RebuildingTwiceIsOnce | nhop/src/proxy/http.rs:343-394 | rebuilding a rebuilt request changes nothing |
| Rewriting.OneHostAndOneConnection | nhop/src/proxy/http.rs:364-383 | the rebuilt request has exactly one `Host`, one `Connection` saying close, and no other hop-by-hop field |
| Rewriting.RebuiltReadsBack | nhop/src/proxy/http.rs:306-454 | the rebuilt request reads as the same host, port and body framing if and only if the host survives being written without brackets |
| Rewriting.ReadsBackExactly | nhop/src/proxy/http.rs:364-369 | which hosts survive: no leading space or bracket, and on port 80 no colon and no trailing space |
| Rewriting.BareIpv6IsLost | nhop/src/proxy/http.rs:364-369 | a request for `http://[::1]/` no longer reads as one once rebuilt |
| FanOut.Subscriber.Offer | nhop/src/proxy/mod.rs:246-262 | an event is queued carrying the losses before it, or counted as lost, or finds the reader gone |
| FanOut.EventTx.Subscribe | nhop/src/proxy/mod.rs:309-317 | adds an empty reader owed nothing |
| FanOut.EventTx.Publish | nhop/src/proxy/mod.rs:320-326 | offers to every reader and forgets exactly those that are gone |
| FanOut.LostOnlyWhenFull | nhop/src/proxy/mod.rs:245-262 | an event is lost to a listening reader if and only if its queue holds 256; otherwise it is queued last with all losses before it, and nothing more is owed |
| FanOut.LeaversAreForgotten | nhop/src/proxy/mod.rs:320-326 | a reader that has left is offered nothing more and is forgotten at the next publication, and no other is |
| FanOut.FanOutConserves | nhop/src/proxy/mod.rs:245-326 | in every interleaving each reader gets the published stream since it joined, in order, with gaps exactly as long as its reports say; published = got + reported + owed while it listens; no queue exceeds 256 |
| LogReading.CompleteLines | nhop/src/logging.rs:147-155 | the loop returns the lines up to the last newline and how far that is |
| LogReading.ReadFrom | nhop/src/logging.rs:137-158 | the complete lines past the offset, or past the start when the file is shorter than it |
| LogReading.LinesComeBack | nhop/src/logging.rs:147-155 | lines without newlines, each ended by one, come back trimmed, each once and in order |
| LogReading.EveryLineOnce | nhop/src/logging.rs:137-158 | over any interleaving of appends and reads the offset is a line boundary and the lines returned are those before it, once each, in order; none is left right after a read |

## Left out

- Sockets, the tokio scheduler, keepalive and SOCKS5 itself: a probe or a dial is an input with one of the outcomes the
  code tells apart; the mapping of SOCKS5 errors to those outcomes is not part of this model.
- Timing of the runtime: sleeps wake exactly when due, a pass ends as soon as its last probe is heard, and one clock
  that never goes back stands for both clocks in `Failover`; `Health` and `Selecting` assume nothing about the clock.
- In `Failover`, reading the verdicts of a list, choosing and recording the choice are one step; `Switching` covers
  choices and states brought by observers in any way.
- The system's answers to binds are inputs; it is taken to grant only the address asked for, with a real port for
  port 0, and never one a live listener holds. `local_addr` failing after a bind is not modelled.
- The init script itself, its environment, process handling and signals: its end is an input with one of four outcomes.
- Load ids and the `arc` that tells lists apart are unbounded; publication counts saturate at 64 bits as in the code.
- FanOut.FanOutConserves: states the accounting below the saturation of the 64-bit loss counter.
- VerdictRace.SwapOrderExactly: holds when no two lines are alike; two identical lines may change places unnoticed.
- Deadline.TimeCanPass: with an interval of zero and no upstream published the clock of the model need not move.
- Deadline.PatrolSettlesInTime: needs every probe of the entry to report; a probe task that dies is a step of its own.
- Text is ASCII: case folding of rules, and reading addresses and networks, are arbitrary functions handed in; UTF-8
  errors in a head are not modelled.
- A drop report is the number in it, not the text it becomes.
- Following the log across its daily rotation, the windows of `--since`, and parsing log lines.
- The SOCKS5 and forward front ends and the guard against dialling oneself are not modelled.
- The commands that only report (`status`, `rules`, `test`, `doctor`), the wire format and the client.
- `HealthHandle::seed`, which only tests use.
