# A verified model of PZ Agent's deterministic machinery

PZ Agent drives a Project Zomboid character from outside the game. What it may do is decided by small
deterministic machines: goal missions that turn observations into commands, an arbiter that interrupts one goal for
another, an installer that keeps a ledger of the files it placed, a builder and two verifiers of the release archive, and
a configuration that is validated, printed and read again. This project models those machines in Dafny and proves what
their documentation promises about them, over every run, every interleaving and every input.

`dafny verify dfyconfig.toml` checks the whole of it.

## How it is laid out

* **Missions.** `MissionMoves` holds what they share: the moves a mission answers with and the log of everything it was
  told and answered. Each mission has a decision file (its state, `Decide` and `Note`, a `Run` over any sequence of
  observations, results and abandonment, and the class the program keeps, proved to follow the run of its whole call
  history), a safety file (what every run keeps), and, there or in an answers file, the whole answer to any observation
  after any run, read off the log without the decision's own functions. `CombatMission`/`CombatSafety`,
  `AvoidMission`/`AvoidSafety`/`AvoidAnswers` with `RetreatTarget`,
  `ConsumeDecision`/`ConsumeMission`/`ConsumeSafety`/`ConsumeAnswers`/`ConsumeReports`, `BuildMission`/`BuildSafety` and
  `TreatMission`/`TreatSafety`. Policies are functions of the observation about which nothing is assumed, except that a
  food policy picks from the items it was shown. Journeys are not assumed bounded: `Journey` models the walking executor
  and proves its bound, and `JourneyAnswers` each of its answers.
* **Arbitration.** `GoalQueue` is the goal channel and `GoalEffects` what each operation does to it, goal by goal;
  `Arbiter` the needs arbiter, whose class keeps sixteen ledger entries and is proved to follow a state that keeps them
  all; `ArbiterSafety` the runs of both together with everything else that can happen to the channel; `ArbiterAnswers`
  what each observation brings about.
* **Installer.** `InstallerPaths` (ledger paths), `InstallerPayload` (the plan), `Installer` (install and uninstall as
  functions of a tree, with every point at which they can be cut short), `InstallTarget` (the same, in place, and what an
  uninstall reports), `InstallerSafety`, `InstallerCleanup`, `InstallerRuns` and `InstallerRoundTrip`.
* **Release archive.** `ByteForms` (line endings, and the nesting scan against the structure of JSON), `ReleaseArchive`
  (measuring, reading the index, comparing, and the gate's second reading), `ReleaseManifest` (the manifest as it is
  written), `ReleaseBuild`, `JsonMeaning` (what JSON text stands for, and that it never stands for two things) and
  `ReleaseReading` (the manifest read back, and what that makes of a build).
* **Configuration.** `TomlText` and `TomlDocument` (printing, and a reader for the TOML v1.0.0 forms it prints),
  `TomlMeaning` (what such text stands for, and that printer and reader keep to it),
  `ConfigSchema` (validation and rendering), `ConfigMeaning` (what a validated configuration satisfies, and what is
  reported otherwise), `ConfigRoundTrip`, `ConfigTables` (the documented tables), `ConfigSize` (the
  size limit of the loader).
* `Wrappers`, `Ordering`, `Text` and `Utf8` are shared: optional values, the order of strings, cutting and gluing text,
  the bytes of a text.

Distances and stats are real numbers. A result carries its action, status and reason. Logs are values, so a property of a
run is a property of its log.

## What turned out not to hold

Each of these is a promise the code does not keep: an input, or a family of inputs, shows it, and a condition says when
the code does keep it or what it keeps instead.

* **Shoves, moves to hand and dressings have no bound of their own.** `CombatSafety.ShovesAreUnbounded`,
  `ConsumeSafety.MovesToHandAreUnbounded` and `TreatSafety.DressingsAreUnbounded` give a run of any length. What bounds
  the commands is what they are paid with: won shoves, windows and failures (`CombatSafety.CommandsBoundedByShoves`),
  candidates and journeys (`ConsumeSafety.RunBudgets`), for moves to hand successes and items retired
  (`MovesToHandArePaidFor`), successes and failures (`TreatSafety.CommandsBoundedBySuccesses`; the wound budget bounds
  the parts only, `WoundsAreBudgeted`).
* **The last candidate of a consume mission gets one command.** The budget is checked before the fetch in hand is
  driven, so every command needs a candidate left (`ConsumeSafety.CommandsNeedCandidates`). With a budget of one no
  container is ever looked into (`OneCandidateNeverTransfers`), and with any larger one some run does
  (`SecondCandidateTransfers`).
* **A probe can go out beside a step.** A retreat has at most one step in flight, but on a safe observation before any
  success it probes without waiting for it, and a result that names the step's action, the probe's own included, is
  folded as the step's. `AvoidSafety.ProbeBesideStep` says exactly when.
* **A report can say complete early.** The report of a mission that has ended names the ending; while it has none the
  report says complete exactly when a probe has gone out, and abandoning the mission does not change that
  (`ReportNamesEnding` in each safety file).
* **Surrounded, the retreat has no clearance to offer.** It keeps a distance exactly when some square of the ring does
  (`RetreatTarget.ClearanceIff`), which is a question about at most one square more than there are threats on each side
  (`ClearanceBySides`). Threats on one side of the character always leave the radius (`HalfPlaneClearance`); eight on the
  ring leave at most eight (`SurroundedHasNoClearance`).
* **The arbiter's keys are fresh for one life only.** After a restart the counter begins again while the channel still
  knows the old keys, so a crossing can be answered by a goal that ended long ago, and nothing is opened for it
  (`ArbiterSafety.RestartReplaysKey`). An interruption opens a goal exactly when its key is not one whose goal is still
  remembered (`ArbiterSafety.PreemptConserves`).
* **An upgrade cut short may not be repeatable.** The ledger then lists only what was placed before the failure, and the
  retry is refused exactly when the failing destination or a later one exists and is not the configuration
  (`InstallerRoundTrip.RetryRefusedIff`, `CutShortUpgradeStuck`).
* **A fresh install cut short may be repeated to another tree.** It makes the tree and ledger the first run would have
  made exactly when the failure left its item's destination empty, or the configuration whole
  (`RetryMakesSameTreeIff`); a configuration torn by it is kept as if it were the user's (`TornConfigStays`).
* **An upgrade forgets files its plan no longer names.** An uninstall after it takes exactly the files the plan names but
  the configuration, whatever an earlier ledger held (`InstallerRoundTrip.UpgradeForgets`).
* **An install can leave files and no record of them.** That happens exactly when a directory stands at the
  configuration's path and every destination before it is clear, or the ledger cannot be written
  (`InstallerRoundTrip.EndsIff`, which says how any install ends from the tree it starts from); the next attempt is then
  refused exactly when a destination but the configuration is there (`LostRetryIff`), so such a directory behind a first
  file ends the matter (`ConfigDirectoryLoses`).
* **An install and its uninstall can lose an empty directory of the user's**: exactly one two deep or more, on the way to
  a planned file, that held nothing but such directories (`InstallerRoundTrip.FreshRoundTripDirectories`). Every file
  is back (`FreshRoundTrip`). An install cut short leaves what the failure left of its item and the directories above it,
  and no others of its own (`CutShortDirectories`).
* **A ledger edited by hand can cost the user the configuration**, exactly when it holds a matching entry for it not
  marked preserved (`InstallerCleanup.ConfigGoesIff`, `EditedLedgerTakesConfig`); and a directory text in it that does
  not split stops an uninstall half-way for good (`BadDirectoryStops`), while one whose texts all split comes to its end
  (`FinishesIff`).
* **The nesting scan counts brackets inside strings.** It accepts a JSON text exactly when its structure, each string
  counting as it stands, rises no higher than ten (`ByteForms.ScanMeasuresShape`). So closers in a string hide any depth
  after it (`ClosersHideDepth`); without them acceptance means a depth of at most ten (`AcceptedIsShallow`), and with no
  bracket in any string it is exactly that (`CleanAcceptedIff`).
* **A build can be refused by its own verifier.** Names may hold brackets, and those the names leave open add up. The
  written manifest passes the scan exactly when the names, one after another, never leave more than seven open
  (`ReleaseManifest.ManifestAccepted`), and within the ceilings that decides whether a build verifies
  (`ReleaseReading.BuildVerifiesIff`). Names without brackets always do (`BuildVerifies`); one name with eight openers
  never does (`BracketsAreRefused`).
* **The copy of a configuration that loads may not load.** It does exactly when its names, values and escapes come to no
  more than the limit of the loader (`ConfigSize.CopyLoadsIff`). A text prints in at most twice the bytes it was read
  from (`ReprintAtMostDoubles`), and tabs show that a file within the limit can print past it (`TabsOutgrowTheLimit`).

## Model

| member | source | states |
|---|---|---|
| CombatMission.EngageZombieMission.NoteResult | packages/pz_agent_cli/src/pz_agent_cli/combat_mission.py:298-320 | folds a result in as the run of the call history does: only a terminal result for the action in flight counts, a success resets the streak, and a success in the engage stage is a won window |
| CombatMission.EngageZombieMission.NextStep | packages/pz_agent_cli/src/pz_agent_cli/combat_mission.py:324-435 | answers what the run of the whole call history answers, branch for branch, and leaves the fields where that run leaves them |
| CombatMission.EngageZombieMission.MarkAbandoned | packages/pz_agent_cli/src/pz_agent_cli/combat_mission.py:257-264 | reseals only an ending still in progress |
| CombatMission.Nearest | packages/pz_agent_cli/src/pz_agent_cli/combat_mission.py:512-521 | none only of no zombies; otherwise one of them, nearer than every other or as near with a smaller reference |
| CombatSafety.RunKeeps | packages/pz_agent_cli/src/pz_agent_cli/combat_mission.py:298-452 | over every run each answer is justified by the log before it: endings replay; a command goes out exactly when the mission is free and its one target stands, and is the one the policy's verdict on that observation calls for; after a retreat only a threat refusal; completion needs a success and the target down, or gone after a window that itself succeeded |
| CombatSafety.RunBudgets | packages/pz_agent_cli/src/pz_agent_cli/combat_mission.py:159-178 | at most the window budget of engages (itself at most four), one equip, one retreat, and no command behind a full failure streak |
| CombatSafety.EveryAnswerIsDue | packages/pz_agent_cli/src/pz_agent_cli/combat_mission.py:324-452 | over every run the whole answer to any observation, read off the log before it: which ending in which case, a probe with its number, or the command the verdict calls for; and windows, shoves, equip, target, refusal and phase are those of the log |
| CombatSafety.ResultsCount | packages/pz_agent_cli/src/pz_agent_cli/combat_mission.py:298-320 | a result enters the log exactly when nothing has ended, a command is out, and it is terminal and for the action of that command; otherwise nothing at all changes |
| CombatSafety.RetreatIsLast | packages/pz_agent_cli/src/pz_agent_cli/combat_mission.py:439-452 | after a retreat the answer is to wait for it, then a refusal naming the threat |
| CombatSafety.CommandsBoundedByShoves | packages/pz_agent_cli/src/pz_agent_cli/combat_mission.py:429-435 | the number of commands is bounded by the successful shoves, the windows and the failure limit |
| CombatSafety.ShovesAreUnbounded | packages/pz_agent_cli/src/pz_agent_cli/combat_mission.py:429-432 | for every n there is a run of n shoves with no window and no failure spent |
| CombatSafety.ReportNamesEnding | packages/pz_agent_cli/src/pz_agent_cli/combat_mission.py:257-264 | the report of a combat mission that has ended names its ending; of one that has not it says complete exactly when a probe has gone out, otherwise cancelled exactly when the mission was abandoned, otherwise in progress |
| Journey.JourneyIsBounded | packages/pz_agent_core/src/pz_agent_core/navigation/executor.py:687-758 | however a journey is driven, the steps it has handed out and its remaining fuel add up to legs plus replans, so it hands out no more |
| JourneyAnswers.EveryAnswerIsDue | packages/pz_agent_core/src/pz_agent_core/navigation/executor.py:687-820 | however a journey is driven, its next answer is read off the trail of views and results: when it arrives, opens a door, steps, or is refused and why |
| RetreatTarget.Ring | packages/pz_agent_cli/src/pz_agent_cli/avoid_mission.py:620-631 | exactly the squares at Chebyshev distance r, each once, in scan order: 8r of them |
| RetreatTarget.FindOpenGround | packages/pz_agent_cli/src/pz_agent_cli/avoid_mission.py:513-538 | the one ring square that beats every other: more clearance from all threats, ties to the earlier square |
| RetreatTarget.FindTarget | packages/pz_agent_cli/src/pz_agent_cli/avoid_mission.py:497-538 | a remembered zone centre in range, nearest first, before any open ground; else the open-ground square; else nothing |
| RetreatTarget.HalfPlaneClearance | packages/pz_agent_cli/src/pz_agent_cli/avoid_mission.py:513-538 | threats that keep to one side of the character leave a clearance of at least the ring radius |
| RetreatTarget.SingleThreatClearance | packages/pz_agent_cli/src/pz_agent_cli/avoid_mission.py:513-538 | with one threat at distance d the clearance is exactly the ring radius plus d |
| RetreatTarget.ClearanceIff | packages/pz_agent_cli/src/pz_agent_cli/avoid_mission.py:513-538 | for every distance, the choice keeps it from all threats exactly when some ring square does |
| RetreatTarget.ClearanceBySides | packages/pz_agent_cli/src/pz_agent_cli/avoid_mission.py:513-538 | side by side: exactly when, on one of the four sides, the first square or the first one past some threat is that far from all of them |
| RetreatTarget.SurroundedHasNoClearance | packages/pz_agent_cli/src/pz_agent_cli/avoid_mission.py:513-538 | eight threats on the ring leave the choice a clearance of at most eight |
| AvoidMission.AvoidMission.NoteResult | packages/pz_agent_cli/src/pz_agent_cli/avoid_mission.py:351-373 | folds a result in as the run of the call history does |
| AvoidMission.AvoidMission.NextStep | packages/pz_agent_cli/src/pz_agent_cli/avoid_mission.py:377-451 | answers what the run of the whole call history answers |
| AvoidMission.AvoidMission.WalksOn | packages/pz_agent_cli/src/pz_agent_cli/avoid_mission.py:414-448 | the loop over legs and refused journeys computes the walk the run takes |
| AvoidSafety.RunKeeps | packages/pz_agent_cli/src/pz_agent_cli/avoid_mission.py:351-594 | over every run each answer is justified: endings replay, a blind observation refuses, safety outranks every budget, a step in flight is waited out, and a step continues the newest leg or begins a later one aimed from that very observation; work done is paid for out of a fixed budget |
| AvoidAnswers.EveryAnswerIsDue | packages/pz_agent_cli/src/pz_agent_cli/avoid_mission.py:377-495 | over every run the whole answer to any observation: an unsafe look tries the leg in hand and then new ones, each aimed from that look; a refusal comes exactly when every journey tried was refused and the streak is full, no leg is left or there is nowhere to go; a wait exactly when a journey has arrived; a step is the first that is not refused |
| AvoidAnswers.LegBegins | packages/pz_agent_cli/src/pz_agent_cli/avoid_mission.py:414-495 | with no leg in hand, one left, the streak short, a target, and a first view that has not arrived and finds a route, the answer is the first step of the next leg, aimed at that target |
| AvoidAnswers.ResultsCount | packages/pz_agent_cli/src/pz_agent_cli/avoid_mission.py:351-373 | a result counts exactly when it ends the step in flight; it clears or adds to the streak and the journey in hand takes it in |
| AvoidAnswers.SummaryAgrees | packages/pz_agent_cli/src/pz_agent_cli/avoid_mission.py:321-347 | threats at the start and the nearest before and after are those of the first and the newest look that had any tier |
| AvoidSafety.RetreatEnds | packages/pz_agent_cli/src/pz_agent_cli/avoid_mission.py:377-495 | legs stay within their budget, and the mission is sealed once its working calls exceed every leg's steps and retirement plus the probes |
| AvoidSafety.CompletesExactlyWhenSafe | packages/pz_agent_cli/src/pz_agent_cli/avoid_mission.py:453-471 | the first completion answers an observation that is itself safe, after a success, and such an observation always completes |
| AvoidSafety.ProbeBesideStep | packages/pz_agent_cli/src/pz_agent_cli/avoid_mission.py:351-415 | with a step in flight a probe goes out exactly on a safe observation before any success with probes left, and a result is then accepted exactly when it is terminal and names the action of the step |
| AvoidSafety.ReportNamesEnding | packages/pz_agent_cli/src/pz_agent_cli/avoid_mission.py:309-317 | the report of a retreat that has ended names its ending; of one that has not it says complete exactly when a probe has gone out, otherwise cancelled exactly when the mission was abandoned, otherwise in progress |
| ConsumeMission.ConsumeMission.NoteResult | packages/pz_agent_cli/src/pz_agent_cli/consume_mission.py:539-647 | folds a result in as the run of the call history does, stage by stage |
| ConsumeMission.ConsumeMission.NextStep | packages/pz_agent_cli/src/pz_agent_cli/consume_mission.py:649-709 | answers what the run of the whole call history answers |
| ConsumeMission.ConsumeMission.HuntsOn | packages/pz_agent_cli/src/pz_agent_cli/consume_mission.py:701-709 | the inner loop ends, by remaining budget and then stage, with the answer the hunt has |
| ConsumeMission.ConsumeMission.Prefilters | packages/pz_agent_cli/src/pz_agent_cli/consume_mission.py:732-751 | keeps exactly the items on offer, in order, and records the withheld once |
| ConsumeMission.ConsumeMission.FindsNextTail | packages/pz_agent_cli/src/pz_agent_cli/consume_mission.py:827-876 | the best remembered container not yet visited, by category, distance and reference |
| ConsumeMission.ConsumeMission.SettlesVerify | packages/pz_agent_cli/src/pz_agent_cli/consume_mission.py:711-728 | credits a consume only on a reading strictly below the one it was sent at, and retires the item otherwise |
| ConsumeSafety.RunKeeps | packages/pz_agent_cli/src/pz_agent_cli/consume_mission.py:539-1029 | over every run the fields agree with the log: the command in flight is the one the stage is for, candidates spent are consumes plus containers started, and the moved flag holds exactly when some consume is on the books and some reading fell |
| ConsumeSafety.EveryAnswerIsJustified | packages/pz_agent_cli/src/pz_agent_cli/consume_mission.py:649-1029 | whatever the run so far, the next answer replays an ending or waits out a command; takes a container strictly further along walk, open, inspect, transfer and never back; consumes, moves or transfers only an unreserved item of the need never retired; completes only on a reading at target or strictly below the one at its consume; and splits the exhausted endings by what was verified |
| ConsumeAnswers.EveryAnswerIsDue | packages/pz_agent_cli/src/pz_agent_cli/consume_mission.py:649-1029 | over every run the whole ending, read off the log: at or below the target complete exactly after a success, else a numbered probe while probes remain, else a refusal; above it a command, or complete exactly when some reading dropped after a consume, exhausted without progress exactly when one did not, else nothing found |
| ConsumeAnswers.EveryCommandIsDue | packages/pz_agent_cli/src/pz_agent_cli/consume_mission.py:690-973 | over every run the exact command: what is carried first and as the policy picks, a container fetched one stage at a time on the success of the one before, the container begun the best left, and no ending while a carried item or a container is worth trying |
| ConsumeAnswers.ResultsCount | packages/pz_agent_cli/src/pz_agent_cli/consume_mission.py:539-647 | a result counts exactly when it ends the command in flight; which results clear, keep or add to the failure count, and what a journey in hand takes in |
| ConsumeAnswers.TurnsAside | packages/pz_agent_cli/src/pz_agent_cli/consume_mission.py:878-973 | a turn that sends nothing has reached its container or puts it aside, and why, and whether that counts as a failure |
| ConsumeAnswers.DiscoverSays | packages/pz_agent_cli/src/pz_agent_cli/consume_mission.py:800-825 | what an observation adds to the containers remembered: the first sixty-four objects near by that are containers with a square and a reference |
| ConsumeReports.SummaryAgrees | packages/pz_agent_cli/src/pz_agent_cli/consume_mission.py:505-532 | over every run, while there is no ending, the report's first and newest readings are those of the log, and what it says was consumed is, in order, what each consume asked for whose next reading was lower |
| ConsumeReports.LookTakes | packages/pz_agent_cli/src/pz_agent_cli/consume_mission.py:649-728 | a call takes its reading exactly when nothing has ended or is in flight, the failures are not full and there is one; it then notes it, adds one credit exactly when a lower one was owed, and otherwise leaves the books alone |
| ConsumeReports.LookKeepsBack | packages/pz_agent_cli/src/pz_agent_cli/consume_mission.py:690-751 | what a call reports withheld: with a look to take above the target and candidates left, exactly what of the items it looks through is wanted, not given up and reserved; otherwise nothing more |
| ConsumeReports.ResultBooks | packages/pz_agent_cli/src/pz_agent_cli/consume_mission.py:575-647 | what a result adds to the report: the container a successful transfer took from, or the item or container given up and why; a failed walk adds nothing |
| ConsumeSafety.RunBudgets | packages/pz_agent_cli/src/pz_agent_cli/consume_mission.py:690-709 | consumes plus containers started equal what is spent and stay within the candidates; all other commands but moves to hand stay within a whole journey and three for each candidate but the last, which gets one |
| ConsumeSafety.CommandsNeedCandidates | packages/pz_agent_cli/src/pz_agent_cli/consume_mission.py:690-709 | over every run a command goes out only while a candidate is left, and a container is looked into or taken from only with one already started: the last candidate gets one command |
| ConsumeSafety.OneCandidateNeverTransfers | packages/pz_agent_cli/src/pz_agent_cli/consume_mission.py:690-709 | with a budget of one no container is ever inspected or taken from |
| ConsumeSafety.SecondCandidateTransfers | packages/pz_agent_cli/src/pz_agent_cli/consume_mission.py:690-709 | with any larger budget there is a run that looks into a container and takes from it |
| ConsumeSafety.MovesToHandArePaidFor | packages/pz_agent_cli/src/pz_agent_cli/consume_mission.py:539-647 | over every run the moves to hand are no more than those that succeeded, the items retired and the one in flight |
| ConsumeSafety.MovesToHandAreUnbounded | packages/pz_agent_cli/src/pz_agent_cli/consume_mission.py:780-788 | for every n there is a run of n moves to hand with no candidate and no failure spent |
| ConsumeSafety.ReportNamesEnding | packages/pz_agent_cli/src/pz_agent_cli/consume_mission.py:495-503 | the report of a consume mission that has ended names its ending; of one that has not it says complete exactly when a probe has gone out, otherwise cancelled exactly when the mission was abandoned, otherwise in progress |
| BuildMission.BuildStructureMission.NoteResult | packages/pz_agent_cli/src/pz_agent_cli/build_mission.py:476-494 | folds a result in as the run of the call history does |
| BuildMission.BuildStructureMission.NextStep | packages/pz_agent_cli/src/pz_agent_cli/build_mission.py:498-570 | answers what the run of the whole call history answers |
| BuildSafety.RunKeeps | packages/pz_agent_cli/src/pz_agent_cli/build_mission.py:498-654 | over every run each answer is justified: the one command goes out exactly when none has, the square shows nothing new and the policy accepts that observation, and it names the given structure and square; completion is exactly a difference from the first reading after a success; fruitless looks are waited out and then reported |
| BuildSafety.RunBudgets | packages/pz_agent_cli/src/pz_agent_cli/build_mission.py:286-307 | at most one build command, and an ending within attempts plus looks plus probes calls that have nothing in flight |
| BuildSafety.EveryAnswerIsDue | packages/pz_agent_cli/src/pz_agent_cli/build_mission.py:498-654 | over every run the whole answer to any observation, read off the log: what stood on the square at first, what has risen since, and from that completion, probe, wait, refusal with its reason, or the one command |
| BuildSafety.ResultsCount | packages/pz_agent_cli/src/pz_agent_cli/build_mission.py:476-494 | a result enters the log exactly when nothing has ended, the command is out, and it is terminal and for a build; otherwise nothing at all changes |
| BuildSafety.SummaryAgrees | packages/pz_agent_cli/src/pz_agent_cli/build_mission.py:400-453 | attempts, builds, looks, placed, refusal and phase of the report are those of the log |
| BuildSafety.ReportNamesEnding | packages/pz_agent_cli/src/pz_agent_cli/build_mission.py:414-422 | the report of a build mission that has ended names its ending; of one that has not it says complete exactly when a probe has gone out, otherwise cancelled exactly when the mission was abandoned, otherwise in progress |
| TreatMission.TreatWoundsMission.NoteResult | packages/pz_agent_cli/src/pz_agent_cli/care_mission.py:380-404 | folds a result in as the run of the call history does |
| TreatMission.TreatWoundsMission.NextStep | packages/pz_agent_cli/src/pz_agent_cli/care_mission.py:406-482 | answers what the run of the whole call history answers |
| TreatSafety.RunKeeps | packages/pz_agent_cli/src/pz_agent_cli/care_mission.py:380-482 | over every run each answer is justified: a command goes out exactly when the policy names a dressing for a part within the wound budget, and is that choice's; completion is exactly nothing bleeding after a success, with the streak short |
| TreatSafety.WoundsAreBudgeted | packages/pz_agent_cli/src/pz_agent_cli/care_mission.py:380-482 | no more parts than the budget are started, and the report names exactly the parts whose own bandage succeeded |
| TreatSafety.EveryAnswerIsDue | packages/pz_agent_cli/src/pz_agent_cli/care_mission.py:406-482 | over every run the whole answer to any observation, read off the log: which ending in which case, a probe with its number, or the dressing the policy chose |
| TreatSafety.ResultsCount | packages/pz_agent_cli/src/pz_agent_cli/care_mission.py:380-404 | a result enters the log exactly when nothing has ended, a command is out, and it is terminal and for the action of that command; otherwise nothing at all changes |
| TreatSafety.PhaseAgrees | packages/pz_agent_cli/src/pz_agent_cli/care_mission.py:248-257 | the phase is that of the command in flight |
| TreatSafety.CommandsBoundedBySuccesses | packages/pz_agent_cli/src/pz_agent_cli/care_mission.py:406-482 | the number of commands is at most the failure limit times one more than the successes |
| TreatSafety.DressingsAreUnbounded | packages/pz_agent_cli/src/pz_agent_cli/care_mission.py:406-482 | for every n there is a run of n dressings of one reopening wound that neither budget nor streak ends |
| TreatSafety.ReportNamesEnding | packages/pz_agent_cli/src/pz_agent_cli/care_mission.py:264-272 | the report of a treat-wounds mission that has ended names its ending; of one that has not it says complete exactly when a probe has gone out, otherwise cancelled exactly when the mission was abandoned, otherwise in progress |
| GoalQueue.ApplyKeeps | packages/pz_agent_core/src/pz_agent_core/goals/queue.py:338-835 | no operation breaks the channel: at most one active goal, never more open than the cap, marks only on waiting goals held in front, cancels only for open goals |
| GoalEffects.ApplyHasEffect | packages/pz_agent_core/src/pz_agent_core/goals/queue.py:338-835 | what every operation does goal by goal: which submission opens, repeats or refuses, which waiting goal starts, whom each stop lever, cancel and ending closes and how, and that nothing else changes |
| GoalEffects.SuspendParks | packages/pz_agent_core/src/pz_agent_core/goals/queue.py:508-597 | the first reason in order why a suspension is refused, or the one goal changed and its rank |
| GoalEffects.SubmitFrontLeads | packages/pz_agent_core/src/pz_agent_core/goals/queue.py:350-425 | a front submission repeats, refuses, or opens one goal a rank ahead of every waiting one |
| GoalQueue.SubmitFrontKeeps | packages/pz_agent_core/src/pz_agent_core/goals/queue.py:350-425 | a front submission opens a goal, ahead of everything waiting, exactly when there is room and its key is not known; otherwise the goals are untouched |
| GoalQueue.SuspendKeeps | packages/pz_agent_core/src/pz_agent_core/goals/queue.py:508-597 | suspension succeeds exactly for the active, uncancelled goal with suspensions left, which then waits ahead of the whole backlog; otherwise nothing changes |
| GoalQueue.SuspendThenFront | packages/pz_agent_core/src/pz_agent_core/goals/queue.py:350-597 | a goal suspended before a front submission waits behind the submitted goal and nothing else |
| GoalQueue.NextFrontRank | packages/pz_agent_core/src/pz_agent_core/goals/queue.py:920-938 | a negative rank one below the lowest waiting, or minus one |
| Arbiter.NeedsArbiter.See | packages/pz_agent_cli/src/pz_agent_cli/arbiter.py:251-285 | folds an observation in as the state with the whole decision history does, while keeping sixteen ledger entries |
| Arbiter.NeedsArbiter.Record | packages/pz_agent_cli/src/pz_agent_cli/arbiter.py:431-454 | appends a decision under the next key of the whole history and lets the oldest entries go |
| Arbiter.NeedsArbiter.Close | packages/pz_agent_cli/src/pz_agent_cli/arbiter.py:417-429 | replaces the outcome of the entry under a key if the ledger still holds it |
| Arbiter.LedgerSlides | packages/pz_agent_cli/src/pz_agent_cli/arbiter.py:431-454 | a new decision goes in last under a key no entry held has and no earlier decision had, a full ledger lets exactly its oldest entry go, and every key held is the number of its decision |
| ArbiterAnswers.EverySightIsAnswered | packages/pz_agent_cli/src/pz_agent_cli/arbiter.py:251-413 | over every run what an observation does: settles what is in flight with how its goal ended, and between two different observations, autonomous, with nothing in flight, attempts the first trigger by urgency that fired between their raw values, standing down for the first reason that holds and otherwise interrupting |
| ArbiterSafety.PreemptConserves | packages/pz_agent_cli/src/pz_agent_cli/arbiter.py:335-413 | an attempt interrupts exactly when there is room and the active goal, if any, serves another need, is not cancelled and has suspensions left; otherwise the channel is untouched; interrupting parks the active goal, opens at most one goal, and does so exactly when its fresh key names no remembered goal |
| ArbiterSafety.RunKeeps | packages/pz_agent_cli/src/pz_agent_cli/arbiter.py:251-454 | over every run of observations and channel operations the only undecided decision is the newest, while its preemption is in flight, and no goal injected earlier is still open |
| ArbiterSafety.NeverEvictedUnsettled | packages/pz_agent_cli/src/pz_agent_cli/arbiter.py:406-454 | the bounded ledger holds the in-flight decision as its newest entry and every other entry it holds is settled |
| ArbiterSafety.SuspendedGoalIsNext | packages/pz_agent_cli/src/pz_agent_cli/arbiter.py:335-413 | whatever happens meanwhile, a suspended goal that stays waiting and uncancelled is next to start, or the preemption in flight is |
| ArbiterSafety.KeysAreFresh | packages/pz_agent_cli/src/pz_agent_cli/arbiter.py:363-391 | while nobody else submits under the arbiter's keys no injection is refused and each opens a goal nobody opened before |
| ArbiterSafety.RestartReplaysKey | packages/pz_agent_cli/src/pz_agent_cli/arbiter.py:363-391 | with a channel restored from an earlier life the first crossing is answered by a goal already ended and none is opened |
| InstallerPaths.SplitExactly | installer/pz_agent_installer.py:251-277 | splitting accepts exactly the joins of components that stay inside the target and gives them back |
| InstallerPaths.RefusedForFirst | installer/pz_agent_installer.py:251-277 | the problem a text is refused for is the first it suffers from: not relative, a backslash, a piece that traverses, a drive, too many pieces |
| InstallerPayload.PlanPayload | installer/pz_agent_installer.py:517-541 | a plan exists exactly when the eligible files are some, few enough, small enough and address the target, and copies exactly those in order with their roles; otherwise the first of these that fails |
| InstallerPayload.PayloadMakesPlan | installer/pz_agent_installer.py:619-637 | a payload that is one directory tree makes distinct destinations, none inside another and none the ledger; the configuration and the launcher are in the plan, each at its own place with its own role and content, and everything else is the mod's |
| Installer.ReadLedgerIff | installer/pz_agent_installer.py:581-599 | a ledger is read exactly when it is one and every entry in it addresses a file inside the target; otherwise which of the two is wrong |
| InstallTarget.Target.Audit | installer/pz_agent_installer.py:544-578 | passes exactly when every destination is absent, the configuration, or recorded and unchanged; otherwise names the first that is not |
| InstallTarget.Target.InstallPlan | installer/pz_agent_installer.py:639-708 | leaves the tree and outcome of the specified install, wherever the environment makes it fail |
| InstallTarget.Target.UninstallAll | installer/pz_agent_installer.py:742-790 | leaves the tree and outcome of the specified uninstall, takes what the ledger claims, the ledger, then directories, and reports each entry and the directories that went |
| InstallTarget.ReportTells | installer/pz_agent_installer.py:742-790 | an uninstall reports removed, once, exactly the claimed files that were there; what it reports kept was there, what it reports missing is not there at the end, and every entry is reported once |
| InstallTarget.Target.RemoveListed | installer/pz_agent_installer.py:777-803 | removes listed directories that are empty when their turn comes, up to the first text that does not split |
| InstallerSafety.AuditStaysValid | installer/pz_agent_installer.py:639-699 | while the write loop runs every destination still ahead passes the audit that let it begin |
| InstallerSafety.InstallTouchesOnlyItsOwn | installer/pz_agent_installer.py:601-708 | an install, finished or cut short, removes nothing and changes only the ledger and planned files an unchanged record accounts for, never a configuration that is there |
| InstallerCleanup.UninstallRemovesExactly | installer/pz_agent_installer.py:742-790 | an uninstall changes no file and removes only claimed files and the ledger, and unless a removal is refused, exactly those, whether or not a directory text stops it |
| InstallerCleanup.RefusedRemovalStops | installer/pz_agent_installer.py:742-775 | a removal the environment refuses stops the uninstall there: what the entries before it claim is gone and every directory stands |
| InstallerCleanup.ConfigGoesIff | installer/pz_agent_installer.py:760-775 | under a readable ledger the configuration goes exactly when it holds a matching entry for it that is not preserved |
| InstallerCleanup.PlacedKeepsConfig | installer/pz_agent_installer.py:622-637 | no ledger an install writes holds such an entry |
| InstallerCleanup.EditedLedgerTakesConfig | installer/pz_agent_installer.py:760-775 | a ledger edited to drop the mark costs the user the configuration |
| InstallerCleanup.BadDirectoryStops | installer/pz_agent_installer.py:776-781 | a directory text that does not split stops the uninstall after files and ledger are gone, and no second run can finish it |
| InstallerCleanup.FinishesIff | installer/pz_agent_installer.py:776-790 | once the ledger is read, an uninstall comes to its end exactly when every directory text it holds splits |
| InstallerCleanup.UninstallLeavesNoneEmpty | installer/pz_agent_installer.py:777-803 | an uninstall that comes to its end leaves no recorded directory empty |
| InstallerCleanup.StaysIff | installer/pz_agent_installer.py:777-803 | of a falling list of directories one stays exactly when a file, or a directory not listed, lay below it before |
| InstallerCleanup.DirectoryGoesIff | installer/pz_agent_installer.py:742-803 | after a whole uninstall a directory is gone exactly when the ledger records it and no file that was kept and no directory not recorded lay below it |
| InstallerRuns.RunKeeps | installer/pz_agent_installer.py:601-790 | over installs whole or cut short, uninstalls and user changes, every entry of a standing ledger describes content an install wrote there, and only the configuration is preserved |
| InstallerRuns.OnlyItsOwnWork | installer/pz_agent_installer.py:544-803 | so a file an install overwrites or an uninstall removes holds exactly what an install once wrote at that path, and is never the configuration |
| InstallerRoundTrip.FreshRoundTrip | installer/pz_agent_installer.py:601-790 | into a target with no ledger and out again every file is back as it was, and the configuration stays |
| InstallerRoundTrip.FreshRoundTripDirectories | installer/pz_agent_installer.py:601-803 | and of its directories exactly those are lost that are two deep or more, on the way to a planned file, and held nothing but such directories; no new one is left but the outermost |
| InstallerRoundTrip.LedgerTells | installer/pz_agent_installer.py:639-708 | the ledger of an install, finished or cut short, names each placed file in order with its role, digest and preservation, and of the directories exactly those two deep or more above an item reached, each once |
| InstallerRoundTrip.CutShortDirectories | installer/pz_agent_installer.py:601-803 | an install cut short and taken back leaves, of the directories two deep or more it made, exactly those above what the failure left of its item |
| InstallerRoundTrip.RefusedIff | installer/pz_agent_installer.py:544-681 | an install does not begin, and changes nothing, exactly when the ledger cannot be read or a destination but the configuration is taken by something no unchanged record accounts for |
| InstallerRoundTrip.ReinstallIsIdle | installer/pz_agent_installer.py:639-708 | installing the same plan over a finished install changes the ledger file alone |
| InstallerRoundTrip.RetryRefusedIff | installer/pz_agent_installer.py:670-686 | after an install cut short the retry is refused exactly when the failing destination or a later one is there and is not the configuration |
| InstallerRoundTrip.FreshRetryRefusedIff | installer/pz_agent_installer.py:670-686 | into a target with no ledger that is a question about the failing item alone |
| InstallerRoundTrip.RetryMakesSameTreeIff | installer/pz_agent_installer.py:649-708 | a fresh install cut short is repeated to the very tree and ledger it would have made exactly when the failure left its item's destination empty, or the configuration with the whole of its planned content |
| InstallerRoundTrip.CutShortUpgradeStuck | installer/pz_agent_installer.py:670-686 | an upgrade cut short before a file it was to replace is refused ever after |
| InstallerRoundTrip.TornConfigStays | installer/pz_agent_installer.py:649-661 | a configuration left by the failure is kept by the retry, whose tree is the one the first run would have made exactly when nothing of it was torn |
| InstallerRoundTrip.EndsIff | installer/pz_agent_installer.py:639-708 | from the tree, the plan and the fault: an install that began comes to its end, is cut short at an item, or leaves no record, the last exactly when a directory stands at the configuration with every earlier destination clear, or the ledger cannot be written |
| InstallerRoundTrip.LostRetryIff | installer/pz_agent_installer.py:544-578 | with no ledger the next attempt is refused exactly when a destination but the configuration is there |
| InstallerRoundTrip.ConfigDirectoryLoses | installer/pz_agent_installer.py:649-681 | a directory at the configuration, with the destinations before it clear and at least one of them, loses the record, and every later attempt is refused |
| InstallerRoundTrip.UpgradeForgets | installer/pz_agent_installer.py:699-790 | whatever ledger stood before, what an uninstall after an install leaves is exactly every file the plan does not name and the configuration, and the files there were are as they were |
| ByteForms.CrlfTwiceIsOnce | packaging/windows/build_rc.py:289-298 | line endings are converted idempotently on all byte strings |
| ByteForms.EveryLfFollowsCr | packaging/windows/build_rc.py:289-298 | every LF of the output follows a CR |
| ByteForms.CrlfKeepsLines | packaging/windows/build_rc.py:289-298 | collapsing the output gives what collapsing the input gives |
| ByteForms.RefuseDeepNesting | packaging/windows/build_rc.py:846-881 | accepts exactly the texts no prefix of which opens more than ten brackets it does not close |
| ByteForms.ScanMeasuresShape | packaging/windows/build_rc.py:846-881 | any JSON text, however spaced and whatever its strings hold, is accepted exactly when its structure, with each string and name counting as it stands, rises no higher than ten |
| ByteForms.AcceptedIsShallow | packaging/windows/build_rc.py:846-881 | for JSON with no closing bracket in a string, acceptance implies a depth of at most ten |
| ByteForms.CleanAcceptedIff | packaging/windows/build_rc.py:846-881 | with no bracket in any string acceptance is exactly a depth of at most ten |
| ByteForms.ClosersHideDepth | packaging/windows/build_rc.py:866-881 | a value of any depth is accepted if a string before its nesting closes enough |
| ReleaseArchive.PortableIff | packaging/windows/build_rc.py:517-540 | a member name is portable exactly when its pieces all go down and it holds no control character |
| ReleaseArchive.ProblemIsFirst | packaging/windows/build_rc.py:517-540 | the problem reported of a name is the first it suffers from, and none exactly when it suffers from none |
| ReleaseArchive.CheckedNames | packaging/windows/build_rc.py:678-707 | passes exactly archives within the member ceiling whose names are portable and distinct; otherwise the first problem, a repeat reported being a repeat |
| ReleaseArchive.Measure | packaging/windows/build_rc.py:710-756 | succeeds exactly within the size ceilings, with the seal of every member; otherwise names the ceiling the first member past one is over |
| ReleaseArchive.ReadIndex | packaging/windows/build_rc.py:788-837 | succeeds exactly on a manifest small, shallow and well formed whose entries are usable and name each path once; otherwise the first of these that fails |
| ReleaseArchive.VerifyArchive | packaging/windows/build_rc.py:884-950 | gives a verdict exactly when names, sizes and index are in order, and otherwise the first problem; missing are exactly the names an entry has and no member, or the manifest, unlisted the members no entry has, changed those whose digest or size an entry contradicts, absent the required names no member has |
| ReleaseArchive.IntactIff | packaging/windows/build_rc.py:613-620 | the index is intact exactly when it is the table of every member but the manifest |
| ReleaseArchive.RecordedDigests | scripts/check_release.py:375-419 | certifies exactly a manifest that claims something, whose every claim is so, and that leaves no other member unclaimed |
| ReleaseArchive.VerifiersAgree | scripts/check_release.py:375-419 | on a usable, non-empty index that does not name itself the gate and the verifier agree; intact always implies certified; an index naming itself is never intact |
| ReleaseBuild.Build | packaging/windows/build_rc.py:1008-1030 | the manifest first, then every file exactly once, in order of name, with its line endings converted when its kind asks for it and as it stands otherwise |
| ReleaseBuild.BuildIgnoresOrder | packaging/windows/build_rc.py:1008-1016 | two enumerations of the same files named apart build the same archive |
| ReleaseManifest.ManifestAccepted | packaging/windows/build_rc.py:846-881 | the scan lets the written manifest through exactly when the names of its files, one after another, never leave more than seven brackets open |
| JsonMeaning.OneMeaning | packaging/windows/build_rc.py:805-811 | a JSON text that stands for a value stands for no other, and ends where it ends |
| JsonMeaning.SomeLoader | packaging/windows/build_rc.py:805-811 | so there is a loader that reads every text as the grammar says |
| ReleaseReading.ManifestSays | packaging/windows/build_rc.py:953-977 | read by any such loader, the manifest names the format and the versions, every file with its digest and size in order, every component with what it misses, and is complete exactly when none misses anything |
| ReleaseReading.ManifestReadsBack | packaging/windows/build_rc.py:788-837 | and the verifier reads out of it exactly the claims of the build |
| ReleaseReading.BuildVerifiesIff | packaging/windows/build_rc.py:987-1037 | a build of portable files named apart, read with any loader that keeps to the grammar, gets a verdict exactly when it is within the ceilings and its names never leave more than seven brackets open, and the verdict is that the index is intact |
| ReleaseReading.BuildVerifies | packaging/windows/build_rc.py:987-1037 | so a build within the ceilings whose names hold no bracket verifies and its index is intact |
| ReleaseBuild.BracketsAreRefused | packaging/windows/build_rc.py:377-393 | for every n above seven a portable name with n opening brackets makes an archive its own verifier refuses |
| TomlText.StringReads | packages/pz_agent_cli/src/pz_agent_cli/config.py:365-382 | every text is read back out of the basic string it prints as |
| TomlText.ValueReads | packages/pz_agent_cli/src/pz_agent_cli/config.py:334-346 | every printed flag, number, text and array reads back as itself, whatever ends it |
| TomlMeaning.PrintedStands | packages/pz_agent_cli/src/pz_agent_cli/config.py:334-382 | every printed value is TOML text that stands for it |
| TomlMeaning.ReadStands | packages/pz_agent_cli/src/pz_agent_cli/config.py:500-515 | what is read of a value stands for it, and what is left is the rest: the reader takes nothing the grammar does not |
| TomlMeaning.TextIsRead | packages/pz_agent_cli/src/pz_agent_cli/config.py:500-515 | and every basic string the grammar allows, eight-digit escapes aside, is read as what it stands for |
| TomlMeaning.LineStands | packages/pz_agent_cli/src/pz_agent_cli/config.py:500-515 | a line read is empty, a header of bare names joined by dots, or a bare name set to what its text stands for |
| TomlMeaning.ReadNamesOnce | packages/pz_agent_cli/src/pz_agent_cli/config.py:500-515 | a document that is read names nothing twice |
| TomlDocument.FileReads | packages/pz_agent_cli/src/pz_agent_cli/config.py:321-331 | printed sections read back as the sections they were printed from |
| ConfigSchema.CleanList | packages/pz_agent_cli/src/pz_agent_cli/config.py:603-637 | the entries of a list once each in order, or the first entry's fault |
| ConfigSchema.CheckSection | packages/pz_agent_cli/src/pz_agent_cli/config.py:523-555 | checks a section into the values as specified, recursing into sub-tables before keys |
| ConfigSchema.ValidateDocument | packages/pz_agent_cli/src/pz_agent_cli/config.py:462-489 | a configuration exactly when no table, key or value is at fault and nothing is wrong with the values together; otherwise every problem in the program's order |
| ConfigMeaning.ValueSays | packages/pz_agent_cli/src/pz_agent_cli/config.py:603-693 | when a raw value is kept and as what, and otherwise its one code, from the value itself: kind, both bounds, choices, at most sixty-four names, rule |
| ConfigMeaning.ValidatesAs | packages/pz_agent_cli/src/pz_agent_cli/config.py:462-555 | what validating a document answers, from what the document says: every misplaced table or key and every faulty value in order, then what is wrong with the kept values together; and with none of these, those values |
| ConfigMeaning.ValidatedFits | packages/pz_agent_cli/src/pz_agent_cli/config.py:462-693 | every validated value is its key's default, or of its kind, within its bounds, among its choices and past its rule |
| ConfigMeaning.ConfigurationFits | packages/pz_agent_cli/src/pz_agent_cli/config.py:462-693 | and with a schema fit to print the defaults are no exception |
| ConfigMeaning.ConfigurationIsSafe | packages/pz_agent_cli/src/pz_agent_cli/config.py:220-279 | every configuration of this build has a radius from 1 to 100, plans of 1 to 32 steps, no multiplayer, the panic key the mod binds and a known mode |
| ConfigSchema.RenderLines | packages/pz_agent_cli/src/pz_agent_cli/config.py:321-331 | a header, the set keys and a blank for each table in schema order |
| ConfigRoundTrip.CheckedIsFixed | packages/pz_agent_cli/src/pz_agent_cli/config.py:640-693 | checking a checked value gives it back: lower-cased choices and cleaned lists are fixed points |
| ConfigRoundTrip.PrintedConfigurationLoads | packages/pz_agent_cli/src/pz_agent_cli/config.py:321-555 | for any well-formed schema every validated configuration prints to TOML that reads back and validates to it and no other |
| ConfigTables.DocumentedConfigurationLoads | packages/pz_agent_cli/src/pz_agent_cli/config.py:220-279 | and the documented tables are such a schema |
| ConfigTables.ValidatesIff | packages/pz_agent_cli/src/pz_agent_cli/config.py:742-924 | a document is a configuration of this build exactly when no table, key or value is at fault, multiplayer is off, the panic key is the bound one, and the provider it selects, and no other, has its endpoint, its model and a corpus that is there |
| ConfigTables.OwnRulesOrdinary | packages/pz_agent_cli/src/pz_agent_cli/config.py:640-721 | the rules for hotkeys, endpoints and variable names leave the documented defaults alone |
| ConfigSize.CopyLoadsIff | packages/pz_agent_cli/src/pz_agent_cli/config.py:417-520 | the copy of a validated configuration loads as it exactly when its names, values and escapes come to no more than the limit; otherwise it is refused for its size |
| ConfigSize.ReprintAtMostDoubles | packages/pz_agent_cli/src/pz_agent_cli/config.py:365-382 | a text read from a basic string prints again in at most twice the bytes it took, for all texts |
| ConfigSize.TabsOutgrowTheLimit | packages/pz_agent_cli/src/pz_agent_cli/config.py:417-520 | under this build's own rules a file within the limit with one setting of tabs loads, and the copy of what it loads as does not |

## Left out

- The wording of reports and summary lines, redaction, locks, session identifiers and the text of idempotency keys: they
  carry no property above. A key is its serial number, and of a report what it counts and the ending it names.
- The bodies of the food, drink, medical, combat and building policies and of the threat assessment: each is a function
  of the observation about which nothing, or only what its contract says, is assumed.
- Route planning: `Journey` models an executor's budgets, failures and answers; the map is what the view says it is.
- The rest and sleep missions: one command each over the same bookkeeping as the missions modelled.
- `GoalQueue` and `Journey` are on values, not classes: their owners replace whole records, and what is proved is about
  sequences of operations. Clocks and step budgets appear in the queue as the ends they bring about, and eviction of
  finished records and trimming of keys as operations that may happen at any time.
- The restart of a channel is modelled by letting a run begin from any channel, not by reading a snapshot.
- Order and wording of findings: problems of an archive are sets of names, problems of a configuration are paths and
  codes, and suggestions for misspelt keys, warnings and remediations are left out.
- Symbolic links, permissions, letter case in file names and the search for the game's directory, the text of the
  generated configuration and launcher, and the reading of `mod.info`.
- Installer.Directories: lists directories by first appearance where the program sorts them; uninstalling sorts them
  again.
- ZIP encoding, checksums inside it, the ceiling on the file itself, the checksum sidecar, the choice of components and
  the list of required members: an archive is its named contents.
- The JSON reader itself: `ReleaseReading` takes it as a function that reads text as the grammar of RFC 8259 says, which
  `JsonMeaning.SomeLoader` shows can be; the manifest itself is written out, scanned and read back. Fractions, nulls and
  escapes of surrogate pairs are given no meaning.
- ReleaseBuild.Build: puts each file in its place by name as it comes, where the program collects them and sorts once.
- The containment check of evidence paths in the release gate.
- TomlDocument.ReadDocument: reads the TOML that is printed, with arrays allowed a trailing comma; comments, other string
  forms, other numbers, dates, inline tables, arrays of tables and keys before the first header are refused.
- ConfigSchema.ValidateDocument: takes as parameters what is checked elsewhere: lower-casing, endpoints, variable names,
  the corpus directory and the provider's typed configuration; `ConfigTables.OwnRules` says what each is asked.
- The decoding of a configuration file: a file is its characters, and its size is that of their UTF-8 form.
