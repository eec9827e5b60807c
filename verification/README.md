# Verification of the workflow engine

This project models, in Dafny, the parts of the repository that decide what happens: the
engine that runs agents over a graph of steps, the scheduler above it, the protocol that reads
a verdict out of a reply, and the transformations that turn a run's records into a
conversation, a timeline and a side-by-side diff.

**The engine.** A definition is a graph of steps. Dependency edges decide when a step may
start; a rework edge sends finished work back to an earlier step, within a budget of its own. A
run holds one node per step (pending, running, completed, paused, failed), the rework counters
and an inbox per step. Every transition of `engine.go` and `loop.go` is a method proved against
a function of the old run, and the theorems are about those functions and about all schedules
of a state machine built from them (`Scheduler.dfy`): starts, reports, failures, interruptions,
loop rounds, and the human steps (messages, pauses, resumes, cancels), in any order. What must
never happen is proved of every such schedule; that something can happen is proved of schedules
that keep to the scheduler's discipline, which starts the first ready steps that fit before it
takes the next result (`Promptness.dfy`). Order and bounded work are carried over any number of edits
of the definition (`Editing.dfy`).

**What is proved of it.** Automatic work is bounded, by a potential that every execution
lowers, and always ends. A run is *closed* when every completed or running step has its
dependencies completed; each transition keeps a run closed, or does so exactly under a stated
condition. A run never gets stuck. Reopening for mail has a closed form that does not depend on
the order of the scan. A loop round opens like a fresh run.

**The views.** The depth of a step in the chart and on the canvas is its longest dependency
chain. The timeline's lanes separate overlapping runs with the fewest lanes possible. Merging
history and live frames converges. The order of the conversation does not depend on map order.
Every record ends in exactly one place, results stay with their calls, and reusing the entries
of the last build gives what building anew gives. At most one brace of a reply starts a JSON
object that runs to its end, and a report followed by a JSON object, bare or fenced, is accepted
exactly when it leaves no fence open and the object is acceptable. The diff keeps both sides.

## Findings

Where a property one would expect turned out not to hold of the code, the project states the
exact condition under which it does, and shows an input on which it fails.

- Rework leaves side branches alone. If something lies below a rework target that is neither
  reopened nor below the rework's source (`OrderSafety.Overlooked`), some schedule that keeps to the
  scheduler's discipline leaves it standing on a target that is set back, and, as soon as two steps
  may run at once, the scheduler can by itself come to run it side by side with the target it
  depends on; if nothing does, no schedule ever does either (`OrderSafety.OrderExactly`). The steps
  a, b and c, where b and c depend on a and b may send work back to it, are a valid definition of
  this kind (`Examples.ForkOverlooks`).
- Resuming from a named step can leave another stopped step behind, and then, and only then, the
  scheduler can by itself end blocked (`Progress.ResumeBlocksExactly`). In the same fork b asks a
  question and the run is resumed from c (`Examples.ForkLeavesWaiting`).
- The notice on a paused run names the steps its message reaches exactly when no step without a
  stored node becomes ready on resuming: the notice probes stored nodes only, resuming adds the
  missing ones (`Composer.NoticeExactly`). It misses c in a run from before c was added
  (`Examples.NoticeMisses`).
- Merged records keep the time of the first arrival, so two arrival orders agree on the content
  of every record, and on the records themselves exactly when the first arrivals' times agree
  (`Transcript.TranscriptConverges`). Two revisions of one record with different times end as
  different records in the two orders (`Transcript.FirstArrivalShows`).
- The definition may be edited while a run rests. A resume that takes the edit up keeps the run in
  order exactly when every step that stays completed depends, by the new definition, on completed
  steps only (`Editing.TakenUp`). An edit that makes a completed step wait for one still to run does
  not (`Examples.EditMisfits`). A new loop round takes up any edit.
- A verdict is lost exactly when the run is not running, the verdict is unknown, or it is a
  rework whose target no rework edge out of the step leads to or, without a target, from a step
  that has not exactly one (`Scheduler.RefusedExactly`, `Engine.TakenExactly`). A report that arrives after a
  sibling has paused the run is therefore counted as a failure of its step, whatever it said; on
  the last attempt it also overwrites the reason of the pause (`Scheduler.VerdictLost`), so a run
  no longer says that a question is waiting (`Scheduler.QuestionOverwritten`,
  `Examples.ForkLosesQuestion`).

## Layout

| file | models |
|---|---|
| Text.dfy, Collections.dfy | trimming and string order; sequences without repeats |
| Graph.dfy, Validation.dfy | graph.go; validation.go |
| Engine.dfy, Resuming.dfy, Ordering.dfy, Effects.dfy | engine.go and loop.go: transitions, resumes and rounds, what they keep, and what they write, field by field |
| Scheduler.dfy, WorkBound.dfy, OrderSafety.dfy, Progress.dfy | the schedules of scheduler.go and the theorems over all of them |
| Promptness.dfy | which of them keep to the scheduler's own discipline: what it starts next, and when it takes a result |
| Editing.dfy | schedules over which the definition is edited: usecase.go, execution_refresh.go |
| Composer.dfy | the notice on a paused run |
| Examples.dfy | a definition and runs of it that show the findings |
| Levels.dfy | depths in workflow_flow.go and workflow_dag.go |
| Json.dfy, JsonText.dfy | the JSON grammar (RFC 8259, sections 2 to 7), as rules and as what a printer writes |
| Protocol.dfy, Replies.dfy | protocol.go, and what it makes of reports that end with a JSON object |
| Timeline.dfy, TimelineRows.dfy | conversation_timeline.go: lanes, and rows |
| Transcript.dfy, Conversation.dfy, Pairing.dfy, Grouping.dfy, Entries.dfy | transcript.go and conversation.go |
| Review.dfy | review_controls.go |

`dafny verify dfyconfig.toml` checks the whole project.

## Model

| member | source | states |
|---|---|---|
| Graph.Upstream | internal/domain/workflows/graph.go:10-18 | lists exactly the steps a step directly depends on, in edge order |
| Graph.Downstream | internal/domain/workflows/graph.go:21-29 | lists exactly the steps that directly depend on a step, in edge order |
| Graph.ReworkEdges | internal/domain/workflows/graph.go:32-40 | the rework edges out of a step, in edge order |
| Graph.EntrySteps | internal/domain/workflows/graph.go:43-51 | the steps without a dependency, in definition order |
| Graph.SinkSteps | internal/domain/workflows/graph.go:54-62 | the steps nothing depends on, in definition order |
| Graph.UpstreamOrder | internal/domain/workflows/graph.go:10-18 | the dependencies of a step are exactly the sources of its dependency edges, one for each, in edge order |
| Graph.DownstreamOrder | internal/domain/workflows/graph.go:21-29 | and so the steps that depend on it |
| Graph.ReworkOrder | internal/domain/workflows/graph.go:32-40 | and its rework edges |
| Graph.EntriesOrder | internal/domain/workflows/graph.go:43-51 | and the entry steps, in definition order |
| Graph.SinksOrder | internal/domain/workflows/graph.go:54-62 | and the steps nothing depends on |
| Graph.EntryExists | internal/domain/workflows/graph.go:43-51 | an acyclic definition with a step has an entry step, so taking the first one is safe |
| Graph.SinkBelow | internal/domain/workflows/graph.go:54-62 | every step is a sink or leads to one |
| Graph.Descendants | internal/domain/workflows/graph.go:66-80 | the search ends on every graph and returns exactly the steps reachable over dependency edges |
| Graph.ReworkPath | internal/domain/workflows/graph.go:85-94 | the target, the source, and the steps below the one and above the other |
| Graph.ReworkSetIsBetween | internal/domain/workflows/graph.go:82-94 | a step is reopened by a rework if and only if it lies on a dependency path from the target to the source |
| Graph.EdgeKeyInjective | internal/domain/workflows/graph.go:97 | two edges between identifiers never share a rework counter |
| Graph.FindStep | internal/domain/workflows/graph.go:100-107 | finds a step exactly when the id is one of the definition, and then the step with that id |
| Graph.Minimal | internal/domain/workflows/graph.go:66-80 | without a cycle every set of steps has, at or above each of its members, one with no dependency in the set |
| Validation.Normalize | internal/domain/workflows/validation.go:36-70 | the definition with its defaults filled in |
| Validation.NormalizedSameGraph | internal/domain/workflows/validation.go:36-70 | normalising changes no neighbour list and is idempotent |
| Validation.IsAcyclic | internal/domain/workflows/validation.go:194-220 | counting off dependencies accepts a definition if and only if no step reaches itself |
| Validation.TopologicalAcyclic | internal/domain/workflows/validation.go:194-220 | a listing that respects dependencies and holds every edge end leaves no room for a cycle |
| Validation.ReworkUpstream | internal/domain/workflows/validation.go:174-178 | checks exactly that each rework edge goes to a step above its source |
| Validation.WritersSeparated | internal/domain/workflows/validation.go:179-187 | checks exactly that any two steps that may write are ordered by dependencies |
| Validation.Validate | internal/domain/workflows/validation.go:74-192 | accepts a definition if and only if its normal form is valid |
| Validation.FieldsExactly | internal/domain/workflows/validation.go:81-172 | which fields a well-formed definition has: identifiers, names that say something, limits between 1 and 50 and between 1 and 100, no step twice, edges of known kind between two different steps, none twice |
| Validation.WritersExactly | internal/domain/workflows/validation.go:179-187 | every step counts as a writer but an agent in a read-only sandbox |
| Engine.NewRun | internal/domain/workflows/engine.go:33-61 | succeeds exactly for a valid definition and a non-blank id; the run is ready, all steps pending, at the first entry step |
| Effects.FreshEffect | internal/domain/workflows/engine.go:33-61 | a new run, field by field: a new node for every step and none else |
| Engine.Start | internal/domain/workflows/engine.go:63-76 | succeeds exactly for a ready run of a valid definition; adds missing nodes and changes nothing else but status and time |
| Engine.ReadySteps | internal/domain/workflows/engine.go:80-98 | the pending steps with all dependencies completed, in definition order |
| Engine.ReadyExactly | internal/domain/workflows/engine.go:80-98 | a step is listed if and only if it is pending and all its dependencies are completed |
| Engine.ReadyOrder | internal/domain/workflows/engine.go:80-98 | each once for each time it is defined, in definition order |
| Engine.AllCompleted | internal/domain/workflows/engine.go:101-108 | true exactly when there is a step and all are completed |
| Engine.ReworkEdge | internal/domain/workflows/engine.go:192-209 | with a target the first rework edge out of the step to it, without one the only rework edge out of the step, and an error exactly when there is no such edge |
| Engine.ChosenExactly | internal/domain/workflows/engine.go:192-209 | of every definition, valid or not: a verdict is taken over an edge if and only if it stands at such a place among the edges |
| Engine.TakenExactly | internal/domain/workflows/engine.go:192-209 | on a valid definition a verdict is taken over an edge if and only if it is a rework edge out of the step and leads to the target or, none being named, is the only one |
| Engine.CheckOutcome | internal/domain/workflows/engine.go:179-190 | rejects exactly unknown verdicts and reworks for which there is no such edge |
| Engine.ApplyOutcome | internal/domain/workflows/engine.go:114-176 | the whole new run for each verdict, and each error |
| Effects.PassEffect | internal/domain/workflows/engine.go:114-138 | a pass, field by field: the step keeps what it said, its errors, failures and messages are cleared, and no other node and no other field changes |
| Effects.AskEffect | internal/domain/workflows/engine.go:139-144 | a question, field by field: the step and the run stop, and the run says what was asked |
| Effects.ReworkEffect | internal/domain/workflows/engine.go:145-171 | a rework with rounds left, node by node and field by field: one round counted, the steps between pending, and the target told the feedback, or the summary where the feedback is blank |
| Effects.LimitEffect | internal/domain/workflows/engine.go:152-163 | a rework without rounds left, field by field: only the step and the run stop |
| Engine.RecordStepFailure | internal/domain/workflows/engine.go:221-239 | the step has one more failure and keeps its inbox; below the limit it is pending and the run goes on, at the limit step and run are paused for it; no other stored node, counter or session changes |
| Effects.FailureNode | internal/domain/workflows/engine.go:221-239 | a failure, field by field: the step keeps what it said, its messages and its attempts |
| Engine.Deliver | internal/domain/workflows/engine.go:275-289 | a blank message changes nothing; any other is appended to the inbox of its step, whose status and failures stay, and no other node and nothing else of the run changes |
| Ordering.DeliveredNode | internal/domain/workflows/engine.go:275-289 | a delivery, node by node: one node gains exactly one message, every other stays |
| Engine.Pause | internal/domain/workflows/engine.go:354-368 | only a running run of a valid definition is paused; nodes stay |
| Engine.Cancel | internal/domain/workflows/engine.go:373-386 | only a ready or paused run is cancelled; nodes stay |
| Engine.EnsureNodes | internal/domain/workflows/engine.go:400-409 | every step has a node afterwards and stored nodes stay as they are |
| Resuming.ReopenForInbox | internal/domain/workflows/engine.go:244-264 | although the scan changes the run, the result is a function of the input: exactly the completed steps at or below a completed step with mail become pending, each reported once |
| Resuming.NoMailLeft | internal/domain/workflows/engine.go:244-264 | afterwards no completed step keeps a message |
| Effects.MailEffect | internal/domain/workflows/engine.go:244-264 | reopening for mail changes nothing but the status of the completed steps at or below a completed step with a message |
| Resuming.Resume | internal/domain/workflows/engine.go:296-350 | each error, and otherwise the run that the next row describes |
| Effects.ResumeEffect | internal/domain/workflows/engine.go:296-350 | a resume, named step or not, node by node and field by field: exactly the intended steps restart, with errors and failures cleared and all else kept, and the message of the person stands once in the inbox of the named step or, where none is named, of each step that starts next |
| Resuming.NextLoopRound | internal/domain/workflows/loop.go:11-44 | only a completed looping run of a valid definition goes on, and there is a first entry step to go on at |
| Ordering.SentBackNode | internal/domain/workflows/engine.go:143-171 | a granted rework, node by node: the steps between go back to pending with everything else kept, the target gains exactly one message, no other node changes |
| Ordering.ReworkVerdict | internal/domain/workflows/engine.go:143-171 | below the limit exactly the steps between are reopened and one round counted; at the limit only the source stops and the run pauses |
| Ordering.PassClosed | internal/domain/workflows/engine.go:114-142 | a pass keeps a closed run closed if and only if the dependencies of the step are completed |
| Ordering.StepBackClosed | internal/domain/workflows/engine.go:221-239 | setting back or pausing a step that was not completed keeps a run closed |
| Ordering.ReworkClosed | internal/domain/workflows/engine.go:166-171 | a granted rework keeps a closed run closed if and only if nothing completed or running lies below the target outside the reopened path |
| Ordering.MailClosed | internal/domain/workflows/engine.go:244-264 | reopening for mail keeps a closed run closed if and only if no running step rests on a reopened one |
| Ordering.ResumeClosed | internal/domain/workflows/engine.go:296-340 | every branch of a resume keeps a closed run closed |
| Ordering.ActiveUnrelated | internal/domain/workflows/engine.go:80-98 | in a closed run no dependency path joins two steps that are running or ready |
| Ordering.OneWriter | internal/domain/workflows/validation.go:179-187 | in a closed run of a valid definition at most one step that may write is running or ready |
| Ordering.NeverStuck | internal/domain/workflows/engine.go:80-98 | with every step pending or completed and not all completed, some step is ready |
| Ordering.CompletedResumeReady | internal/domain/workflows/engine.go:305-332 | resuming a fully completed run without naming a step leaves exactly the sinks ready, in definition order |
| Ordering.PlainResumeStatus | internal/domain/workflows/engine.go:305-340 | after a plain resume every step is completed as before, or pending |
| Ordering.PlainResumeReady | internal/domain/workflows/engine.go:305-340 | a plain resume of a run with work left has a ready step |
| Ordering.PlainResumeDelivers | internal/domain/workflows/engine.go:341-350 | a non-blank message reaches every step that starts next, once each, and nobody else |
| Ordering.NextRoundNode | internal/domain/workflows/loop.go:22-44 | the next round, node by node: pending, no failures, attempts kept, each entry with exactly one more message, other inboxes as they were |
| Effects.NextRoundEffect | internal/domain/workflows/loop.go:22-44 | the next round, field by field: steps forget all but attempts and messages, and the opening message goes to the steps without dependencies |
| Effects.SummariesExactly | internal/domain/workflows/loop.go:24-38 | the opening message lists the summary of each step that has one, and nothing else |
| Ordering.NextRoundRun | internal/domain/workflows/loop.go:22-36 | sessions stay, rework budgets start over, the round counts one more |
| Ordering.NextRoundFrontier | internal/domain/workflows/loop.go:22-44 | the next round is closed and its ready steps are the entry steps in order |
| Scheduler.ReportPasses | internal/usecase/workflows/scheduler.go:297-350 | a pass completes its step, clears its failures and inbox, and touches no other |
| Scheduler.ReportGrants | internal/usecase/workflows/scheduler.go:297-350 | a granted rework reopens exactly the steps between and spends one round of its edge |
| Scheduler.FailureStepsBack | internal/usecase/workflows/scheduler.go:297-350 | a failure concerns its step alone: pending with one more failure, or paused together with the run |
| Scheduler.ReportStepsBack | internal/usecase/workflows/scheduler.go:297-350 | every report that neither passes nor is granted a rework concerns its step alone: pending with one more failure, or paused together with the run |
| Scheduler.RefusedExactly | internal/domain/workflows/engine.go:114-164 | the engine refuses a verdict if and only if the run is not running, the verdict is unknown, or it is a rework with no edge among those of the definition that it can be taken over |
| Scheduler.VerdictLost | internal/usecase/workflows/scheduler.go:329-333 | a refused verdict leaves nothing but a failure: verdict, summary and inbox stay as they were, other nodes too, and at the limit step and run are paused, with the failure as the reason whatever it was before |
| Scheduler.QuestionOverwritten | internal/usecase/workflows/scheduler.go:297-350 | after a question a sibling on its last attempt reports, no matter what: both are paused and the run names the failure, not the question |
| Effects.BeginEffect | internal/usecase/workflows/scheduler.go:207-236 | steps that start have one attempt more and no error; what they said and their messages stay |
| Effects.LeftEffect | internal/usecase/workflows/scheduler.go:303-318 | a step that was interrupted is to run again and one that could not run stops, neither with a failure |
| Effects.RemindEffect | internal/usecase/workflows/scheduler.go:319-323 | a step that ended without a verdict finds a reminder in its inbox, besides its failure |
| Effects.SettledExactly | internal/usecase/workflows/scheduler.go:339-345 | after a report or a failure the run is completed exactly when it was running, no pause is pending and every step is completed |
| Scheduler.WithinRoom | internal/usecase/workflows/scheduler.go:197-206 | in every schedule no more steps are in flight than the concurrency limit allows |
| Scheduler.ResumedBecame | internal/domain/workflows/engine.go:305-350 | a resume sets exactly the intended steps to pending and changes no other status |
| Scheduler.ShapeKept | internal/usecase/workflows/scheduler.go:38-169 | every event keeps the steps in flight and the running steps in agreement |
| Scheduler.ShapeAlways | internal/usecase/workflows/scheduler.go:38-169 | and so does every schedule |
| WorkBound.AutomaticStep | internal/usecase/workflows/scheduler.go:180-350 | no automatic event breaks the failure or rework limits, and every execution lowers the potential |
| WorkBound.PotentialPays | internal/usecase/workflows/scheduler.go:38-169 | over every automatic schedule, executions plus what is left of the potential stay within the cap for each round |
| WorkBound.WorkIsBounded | internal/domain/workflows/engine.go:114-239 | every schedule of starts, reports, failures, interruptions and rounds executes at most steps x failure limit x (1 + sum of rework limits) steps a round, and no edge exceeds its limit |
| WorkBound.ResumeWithinLimits | internal/domain/workflows/engine.go:296-350 | a plain resume of a paused run starts within the limits again |
| WorkBound.RoundsStayWithin | internal/domain/workflows/engine.go:152-164 | no event whatever, human steps included, takes an edge over its rework limit |
| WorkBound.GrantsBounded | internal/domain/workflows/engine.go:152-164 | in every schedule without a resume, with messages, reopening, cancellations and pauses, the reworks granted on an edge number at most its limit for each round begun |
| WorkBound.RoundsCounted | internal/domain/workflows/loop.go:22-36 | in every schedule, resumes included, the loop round grows by one with each round begun and by nothing else |
| WorkBound.LoopBudgets | internal/domain/workflows/loop.go:11-44 | in a looping run without a resume they number at most the limit times the loop round reached; without any human step the executions number at most the cap times it |
| WorkBound.AutomaticEnds | internal/usecase/workflows/scheduler.go:38-169 | every such schedule is bounded in length, starts and interruptions included |
| OrderSafety.OrderlyAlways | internal/usecase/workflows/scheduler.go:38-169 | on a contained definition every schedule, human steps included, stays closed with exactly the running steps in flight |
| Promptness.FillFits | internal/usecase/workflows/scheduler.go:180-206 | what the scheduler starts next are ready steps not in flight, each once, within the limit, and nothing only when there is no room or none waits |
| Promptness.FillFirst | internal/usecase/workflows/scheduler.go:200-206 | of two steps that wait the one that comes first in the definition is started if the other is, and a step is left waiting only when the limit is reached |
| Promptness.WaitingExactly | internal/usecase/workflows/scheduler.go:180-187 | the steps waiting to be started are exactly the ready ones not in flight |
| OrderSafety.ReachBoth | internal/usecase/workflows/scheduler.go:68-143 | two uncompleted steps of which neither holds the other back come to run side by side under the scheduler's discipline, while whatever else is in flight passes, wherever they stand in the definition |
| OrderSafety.ReachAlone | internal/usecase/workflows/scheduler.go:68-143 | with any limit, a step that has nothing stopped above it and that another does not hold back comes to run alone, while what was completed or had stopped stays so |
| OrderSafety.Overtake | internal/domain/workflows/graph.go:82-94 | where a step is overlooked by a rework edge and two steps may run at once, the scheduler can by itself come to run it together with the target it depends on |
| OrderSafety.LeftStanding | internal/domain/workflows/graph.go:82-94 | whatever the concurrency limit, a schedule of the scheduler's discipline leaves it completed or running on a target that is set back: without any person when two steps may run at once, else after a question and two resumes |
| OrderSafety.OrderExactly | internal/domain/workflows/graph.go:82-94 | a valid definition stays closed over all schedules if and only if no rework edge overlooks a step; it never runs a step with one that depends on it if and only if that holds or only one step may run at a time; both also over the schedules of the scheduler's discipline alone, for every limit |
| OrderSafety.WritersNeverMeet | internal/domain/workflows/validation.go:179-187 | on a contained definition no schedule lets two steps that may write run or be ready at once |
| Editing.TakenUp | internal/usecase/workflows/usecase.go:344-412 | a definition taken up at rest, by a resume or a loop round, leaves the run in order if and only if what a resume leaves completed rests, by that definition, on completed steps |
| Editing.OrderlyEdits | internal/usecase/workflows/usecase.go:344-412 | over any number of edits to contained definitions that fit, and any schedules between them, the run stays in order |
| Editing.EditedRuns | internal/usecase/workflows/execution_refresh.go:85-125 | from the start of a run: in order, and no two steps that may write run or are ready at once, whatever is edited in between |
| Editing.LimitsTakenUp | internal/usecase/workflows/usecase.go:344-412 | a definition taken up starts within its limits if and only if no step that a resume leaves alone has used up its failures; a loop round always does |
| Editing.EditedWork | internal/usecase/workflows/execution_refresh.go:85-125 | over any number of edits automatic work executes at most, for each round begun, the cap of the definition it is begun under |
| Editing.KeysKept | internal/domain/workflows/engine.go:400-409 | under one definition no event adds a node that is not there already |
| Editing.StoredAlways | internal/domain/workflows/engine.go:400-409 | every stored node keeps having a status, under whatever definition it was stored |
| Editing.LoopResumed | internal/usecase/workflows/usecase.go:396-403 | resuming a completed looping run without naming a step is its next round, paused and resumed: a schedule of four events with exactly that run as its end |
| Progress.LeavesWaitingExactly | internal/domain/workflows/engine.go:305-340 | a resume leaves a stopped step behind if and only if it names a step that is neither that step nor above it |
| Progress.NeverBlocked | internal/usecase/workflows/scheduler.go:38-169 | without such a resume no schedule reaches a blocked run |
| Progress.ResumeBlocksExactly | internal/usecase/workflows/scheduler.go:38-169 | after a resume the scheduler alone can end blocked, and can do so under its own discipline, if and only if a stopped step was left behind |
| Progress.MailIdle | internal/usecase/workflows/scheduler.go:271-294 | in every schedule without human messages reopening for mail is the identity |
| Progress.DropReopenings | internal/usecase/workflows/scheduler.go:106-115 | in an unattended schedule without mail every reopening can be left out: same end, same executions and rounds |
| Progress.UnattendedWork | internal/usecase/workflows/scheduler.go:38-169 | so the bounds on executions, reworks and length hold of everything the scheduler does by itself, its own reopening included |
| Progress.StartedIdle | internal/usecase/workflows/scheduler.go:38-169 | a run just started is within the limits and holds no mail, so those bounds hold from there |
| Composer.Receivers | internal/app/keel/workflow_composer.go:76-88 | rewriting the stopped nodes of a copy gives the names of the steps ready in it |
| Composer.NoticeExactly | internal/app/keel/workflow_composer.go:76-88 | the notice names the steps a plain resume hands its message to if and only if no step without a stored node becomes ready |
| Composer.ReachedAreReady | internal/domain/workflows/engine.go:341-350 | the steps whose inbox the message of a plain resume lengthens are the ready ones, in order |
| Composer.NamesExactly | internal/app/keel/workflow_composer.go:76-88 | the names on the notice are the names of the steps that message reaches if and only if no step without a stored node becomes ready |
| Examples.ForkValid | internal/domain/workflows/validation.go:74-192 | the fork of a, b and c with a rework edge from b to a is a valid definition |
| Examples.ForkOverlooks | internal/domain/workflows/graph.go:82-94 | in it the rework edge overlooks c |
| Examples.ResumeElsewhere | internal/domain/workflows/engine.go:305-340 | whenever one step is neither another nor below it, the scheduler by itself can come to a state in which the one waits for an answer and a resume from the other is possible and leaves it behind |
| Examples.ForkLeavesWaiting | internal/domain/workflows/engine.go:305-340 | in the fork, from the start and under the scheduler's discipline, b comes to wait for an answer while a resume from c is possible that leaves it behind |
| Examples.NoticeMisses | internal/app/keel/workflow_composer.go:76-88 | the notice on a paused run of the fork from before c was added leaves c out |
| Examples.ForkLosesQuestion | internal/usecase/workflows/scheduler.go:297-350 | from the start of the fork, under the scheduler's discipline, b asks, c passes, and the run ends up paused for a failure of c |
| Examples.EditMisfits | internal/usecase/workflows/usecase.go:344-412 | in the fork at rest, with a and b completed and c waiting, an edit that makes b wait for c is valid, and a plain resume leaves b completed on c still to run |
| Levels.LongestChain | internal/app/keel/workflow_dag.go:46-66 | the depth of a step is the length of some dependency chain into it |
| Levels.ChainsBounded | internal/app/keel/workflow_dag.go:46-66 | and no chain into it is longer |
| Levels.DeeperThanDependencies | internal/app/keel/workflow_flow.go:167-175 | every dependency lies in an earlier column |
| Levels.LevelOrder.Visit | internal/app/keel/workflow_flow.go:219-237 | the closure ends on every graph and lists a step after everything it depends on |
| Levels.DagLevelOrder | internal/app/keel/workflow_flow.go:219-237 | a list without repeats of all steps, on acyclic definitions with every dependency earlier |
| Levels.OrderIsPermutation | internal/app/keel/workflow_flow.go:219-237 | when edges join steps it is a permutation of them |
| Levels.FlowLevels | internal/app/keel/workflow_flow.go:169-175 | the level in the run chart is the depth |
| Levels.AutoLayout.LevelOf | internal/app/keel/workflow_dag.go:46-66 | the memoised recursion ends on every graph and gives the depth on acyclic ones |
| Levels.DagAutoLayout | internal/app/keel/workflow_dag.go:46-78 | each step has a place of its own, in the column of its depth; the steps of a column stand below each other in definition order, without gaps |
| Levels.DepthIsLongest | internal/app/keel/workflow_dag.go:46-66 | together: the depth is the length of a longest chain |
| Levels.ChartAndCanvasAgree | internal/app/keel/workflow_dag.go:46-78 | laid out both ways, each step has its canvas column at its chart level, which is the length of a longest chain into it |
| Json.ValueFlat | internal/domain/workflows/protocol.go:130-144 | reading a JSON value returns to the depth it started at and never goes below it |
| Json.NoSuffixObject | internal/domain/workflows/protocol.go:130-144 | no proper suffix of a complete JSON object is one |
| Json.NoPrefixObject | internal/domain/workflows/protocol.go:130-144 | no proper prefix is either |
| JsonText.PrintAccepted | internal/domain/workflows/protocol.go:130-144 | every JSON tree, with whatever white space between its tokens, is written as a text the grammar accepts |
| JsonText.GrammarIsPrinter | internal/domain/workflows/protocol.go:130-144 | and the grammar accepts nothing else: a text is a value, or an object, if and only if it is what some tree is written as |
| Protocol.OneTerminalObject | internal/domain/workflows/protocol.go:130-144 | at most one brace of a text starts an object that runs to its end |
| Protocol.TerminalJSONObject | internal/domain/workflows/protocol.go:130-144 | returns that object, whichever way the text is scanned, and nothing exactly when there is none |
| Protocol.LinesRoundTrip | internal/domain/workflows/protocol.go:102-124 | splitting into lines and joining them gives the text back, and no line holds a line break |
| Protocol.OutcomeFenceOpen | internal/domain/workflows/protocol.go:102-124 | the fence left open by a text, line by line, closed only by its own marker |
| Protocol.FencedBlock | internal/domain/workflows/protocol.go:102-124 | a fenced block leaves a report as it found it whatever markers its body holds; without its closing line it stays open |
| Protocol.OpenerIs | internal/domain/workflows/protocol.go:111-121 | a fence is opened with the whole run of three or more backticks or tildes that the line starts with |
| Protocol.OpenExactly | internal/domain/workflows/protocol.go:102-124 | a text leaves no fence open if and only if it is made of lines outside fences and of fences, each from its opening line to the next line that is just its marker |
| Protocol.SplitOutcomeJSON | internal/domain/workflows/protocol.go:67-100 | cuts a reply whole at a leading brace, else at its closing fenced block, else at its terminal object, else not at all |
| Protocol.OneCut | internal/domain/workflows/protocol.go:67-100 | a reply has one such cut |
| Protocol.NothingAfter | internal/domain/workflows/protocol.go:22-24 | only space and a closing fence follow the JSON of a cut |
| Protocol.ParseOutcomeMessage | internal/domain/workflows/protocol.go:31-65 | with any decoder that takes only one JSON value with space around it: accepts a reply if and only if its cut decodes to a known verdict with a summary or feedback, and returns the decoded verdict and target with the blanks filled |
| Protocol.AcceptableExactly | internal/domain/workflows/protocol.go:49-61 | an outcome is acceptable if and only if its verdict is one of the three and its summary or feedback says something |
| Replies.ObjectCut | internal/domain/workflows/protocol.go:67-100 | a report followed by a JSON object is cut at that object, if it does not start with a brace and leaves no fence open; otherwise the reply is taken whole, and is no JSON value |
| Replies.ObjectReply | internal/domain/workflows/protocol.go:22-65 | so such a reply is accepted if and only if the report is of that kind and the object an acceptable outcome |
| Replies.FencedCut | internal/domain/workflows/protocol.go:67-100 | the same of a report followed by a JSON object in a fence: what is cut out is the object, without the fence and the space in it, if the fence is labelled as JSON, or not at all |
| Replies.FencedReply | internal/domain/workflows/protocol.go:22-65 | and such a reply is accepted if and only if that holds, the report is of that kind and the object an acceptable outcome |
| Timeline.OverlapIsCommonInstant | internal/app/keel/conversation_timeline.go:43 | for runs of positive length the comparison means sharing an instant |
| Timeline.FindCluster | internal/app/keel/conversation_timeline.go:36-48 | a maximal stretch of runs each starting before all earlier ones of it are over |
| Timeline.ClustersApart | internal/app/keel/conversation_timeline.go:36-48 | no run of a cluster overlaps a later run outside it |
| Timeline.AssignLanes | internal/app/keel/conversation_timeline.go:49-68 | runs of a lane never overlap, as many runs overlap pairwise as there are lanes, a cluster of two has two lanes, each run is in the first lane free for it, and each lane is named by the first run in it |
| Timeline.NoFewerLanes | internal/app/keel/conversation_timeline.go:49-68 | no assignment that keeps overlapping runs apart uses fewer lanes |
| Timeline.GroupRuns | internal/app/keel/conversation_timeline.go:36-76 | overlapping runs sit in different lanes of one group, only such runs are in groups, no group has a lane too many, each run is in the first lane free for it, and each lane is named by the first run in it |
| TimelineRows.GroupedIsProper | internal/app/keel/conversation_timeline.go:77-129 | the grouping is one that rows can be built from |
| TimelineRows.SpreadEntries | internal/app/keel/conversation_timeline.go:77-129 | the rows cut the conversation into consecutive stretches, each shown by one row; every place shows exactly the entries that belong there, in order; every body stands below a header of its group, and no header below a body of the same |
| TimelineRows.ShownOnce | internal/app/keel/conversation_timeline.go:77-129 | an entry is shown at its own place only |
| TimelineRows.SortStable | internal/app/keel/conversation_timeline.go:24 | runs that start at once stay in the order in which they are listed |
| TimelineRows.LaidOutApart | internal/app/keel/conversation_timeline.go:24-76 | in terms of the runs as they are listed: two that go on side by side are in different lanes of one group, and no others are in groups |
| TimelineRows.RowsKeepApart | internal/app/keel/conversation_timeline.go:85-129 | entries of runs that go on side by side stand in bodies of one group and in different columns, those of one run in one column; entries of such runs, and no others, stand in bodies |
| TimelineRows.BuildWorkflowTimeline | internal/app/keel/conversation_timeline.go:18-130 | all of this, for any order of the step runs: each entry shown once and in order, parallel runs side by side, everything else in rows of its own; a single-step workflow has no lanes |
| Transcript.Transcript.Merge | internal/app/keel/transcript.go:81-126 | the fast path equals plain concatenation; a record is taken exactly when it is new or fresher, and stays where it first appeared |
| Transcript.Transcript.History | internal/app/keel/transcript.go:132-137 | a history is merged record by record, as snapshots |
| Transcript.MergedAllKeepsBest | internal/app/keel/transcript.go:99-126 | under every key ends the content of the highest revision, at the time of the first arrival |
| Transcript.Convergent | internal/app/keel/transcript.go:51-53 | any two arrival orders with any repetitions end with the same content, and with the same records if and only if the first arrivals agree on the time |
| Transcript.TranscriptConverges | internal/app/keel/transcript.go:81-137 | the same of the transcript itself, which presents answers before it merges them: any two orders of a history, with any repetitions |
| Transcript.FirstArrivalShows | internal/app/keel/transcript.go:121-122 | two revisions of one record with different times end as different records in the two orders |
| Transcript.NeverRollsBack | internal/app/keel/transcript.go:51-53 | whatever arrives, revisions only grow, a record of the same revision is untouched, and deltas only add text |
| Transcript.GrowsByDeltas | internal/app/keel/transcript.go:99-126 | each new delta is put at the end of the text, whatever else arrives; late and repeated ones change nothing |
| Transcript.StreamedText | internal/app/keel/transcript.go:99-126 | a new snapshot followed by deltas of rising revision ends as the texts of all of them, joined |
| Transcript.EventKeyOfStep | internal/app/keel/transcript.go:69-77 | every event key starts with its step and a slash |
| Transcript.EventKeysExactly | internal/app/keel/transcript.go:69-77 | with no slash in a step or a stream, two events share a key if and only if they are of one stream of one step, both calls, both results or neither, or have no stream and the same step, number and kind |
| Transcript.GeneratedWellKeyed | internal/usecase/workflows/usecase.go:712-718 | step-run ids as they are generated hold no slash, so records of runs are ordered as the next rows say |
| Transcript.ArrivedKeyed | internal/app/keel/transcript.go:69-137 | whatever arrives, every call and result lies under the key of its event |
| Transcript.PrecedesTransitive | internal/app/keel/transcript.go:248-256 | the comparison is transitive although it mixes numbers with keys |
| Transcript.PrecedesTotal | internal/app/keel/transcript.go:248-256 | it orders any two records with different keys |
| Transcript.PrecedesIrreflexive | internal/app/keel/transcript.go:248-256 | and no record before itself |
| Transcript.SlashBreaksOrder | internal/app/keel/transcript.go:248-256 | the hypothesis is needed: with other step-run ids, with a slash in one, three records can precede each other in a circle |
| Transcript.DisplayIndependent | internal/app/keel/transcript.go:233-258 | the sorted list does not depend on the order in which the map lists its records |
| Transcript.Visible | internal/app/keel/transcript.go:233-258 | the ordered listing of exactly the records that are to be shown, no key twice |
| Transcript.ShowableExactly | internal/app/keel/transcript.go:234-246 | which records are to be shown |
| Transcript.ListingOrder | internal/app/keel/transcript.go:248-256 | a listing is read by time, at one time by number within a step, and else by key, lower characters first |
| Conversation.EveryRecordOnce | internal/app/keel/conversation.go:122-181 | every record is an item, a detail of one call, or folded into one queue row; items and details list exactly theirs, in order |
| Conversation.ResultsStayWithCalls | internal/app/keel/conversation.go:146-168 | a result is attached within its step, to an earlier call with its identifier or with none |
| Conversation.SoleSince | internal/app/keel/conversation.go:148-158 | the only outstanding call without identifier has been the only one ever since it was made |
| Conversation.CallsAreLastBindings | internal/app/keel/conversation.go:146-172 | the scan finds a call by an identifier if and only if the last record that binds the identifier, a call or an attached result, binds it to that call |
| Conversation.LastBindingDecides | internal/app/keel/conversation.go:148-168 | of any list: while calls without identifier cannot be told apart, a result reaches a call if and only if it carries an identifier whose last binding is that call |
| Conversation.BoundByItsCall | internal/app/keel/transcript.go:69-77 | in a listing of a transcript an identifier has one call and one result, so its last binding is the call that made it |
| Conversation.NoGuessing | internal/app/keel/conversation.go:148-168 | in a listing of a transcript, while calls without identifier cannot be told apart, a result reaches a call if and only if the call made the result's identifier: never a call without one |
| Conversation.PlacedWithoutGuessing | internal/app/keel/conversation.go:148-168 | and of the whole listing: a result that came while they could not be told apart is attached in the end to the call that made its identifier, or to none |
| Conversation.StepOnBatches | internal/app/keel/conversation.go:151-179 | calls cannot be told apart from the moment two are outstanding together until none is |
| Pairing.PlacedExactly | internal/app/keel/conversation.go:130-181 | where every record of a listing ends, if and only if, in terms of the records before it: a result goes to the call that made its identifier or, if none did, to the call without identifier that alone waits; a later queue notice to the first of its step; and any other record stands by itself |
| Pairing.LoneCallGetsResult | internal/app/keel/conversation.go:148-168 | a call without identifier that waits alone, with no other such call, no result taken off and nothing that ends calls since, gets the next result of its step that no call made the identifier of |
| Pairing.FirstCallGetsResult | internal/app/keel/conversation.go:148-168 | in particular the first such call of its step |
| Conversation.RowsAreFaithful | internal/app/keel/conversation.go:132-166 | rows show their records; a call is settled by its last result and failed if any of them is; a queue row says what its step last said |
| Grouping.GroupsAreMaximal | internal/app/keel/conversation.go:182-201 | the cards flatten back to the items in order, are of one step and kind, and none could be longer |
| Grouping.OnlyArrangement | internal/app/keel/conversation.go:182-201 | no other arrangement has these properties |
| Grouping.CardsExactly | internal/app/keel/conversation.go:182-201 | in terms of the records: what a person said, prose, errors, transitions, queue notices and file changes stand alone; a card holds the thoughts of one step, or what else one step did; neighbouring cards differ in step or in that |
| Entries.CopyOf | internal/app/keel/conversation.go:61-77 | the copy kept for a record or a new one, with the present content and no details |
| Entries.CardOf | internal/app/keel/conversation.go:79-94 | the card kept for its first copy or a new one, holding that copy alone |
| Entries.ScanEntry | internal/app/keel/conversation.go:130-181 | one round over the entries does to the heap what the scan does to the records |
| Entries.PlaceEntry | internal/app/keel/conversation.go:183-200 | one item joins the last card or starts a row of its own |
| Entries.BuildConversation | internal/app/keel/conversation.go:122-202 | with a cache or without, the entries show the conversation of the records, with every record at its place by the rows above; no transcript record is written; the cache is fit for the next build |
| Entries.CacheIsInvisible | internal/app/keel/conversation.go:52-56 | two builds of the same records are alike row by row, whatever caches they used |
| Entries.SetHeading | internal/app/keel/workflow_composer.go:112-139 | writing a heading on a row between builds leaves the cache fit |
| Entries.SetHeadings | internal/app/keel/workflow_composer.go:112-139 | and so does writing any number of them, each on its row |
| Entries.BuildBeside | internal/app/keel/conversation.go:52-56 | a build with the cache and one without, one after the other, give lists that are alike row by row |
| Entries.RebuildMany | internal/app/keel/conversation.go:52-56 | and they still do after any number of builds with that cache, with whatever headings written on the rows of each |
| Review.PairedLines | internal/app/keel/review_controls.go:132-162 | in each block of changes the j-th deletion stands beside the j-th addition, other lines stand in both columns |
| Review.ColumnsComplete | internal/app/keel/review_controls.go:132-162 | the left column is the lines not added, the right column those not deleted, in order |
| Review.PairsRoundTrip | internal/app/keel/review_controls.go:132-182 | pairing the lines that aligned pairs are written out as gives the pairs back |
| Review.WithoutWhitespaceChanges | internal/app/keel/review_controls.go:163-182 | the lines of the pairs, those that differ only in white space made one unchanged line |
| Review.SqueezedAlike | internal/app/keel/review_controls.go:167 | two lines count as alike if and only if their characters other than white space are the same, in the same order |
| Review.MergedLine | internal/app/keel/review_controls.go:163-173 | a deletion and an addition that are alike become one unchanged line: the added one, with the number of the deleted one; others stay |
| Review.BothSidesKept | internal/app/keel/review_controls.go:163-182 | the old side keeps its numbers and its texts up to white space, the new side its numbers and texts |
| Review.HidingOnce | internal/app/keel/review_controls.go:163-182 | hiding a second time changes nothing |
| Review.NothingLeftToHide | internal/app/keel/review_controls.go:163-182 | no pair is left that differs only in white space |

## Left out

- Wording: the texts of failure, rework-limit and loop messages, of headings and of status labels are opaque; only whether a text is blank is modelled.
- Validation.Normalize: the defaults of a step's kind, worker, effort and timeout and of the layout are left out; no modelled transition reads them.
- Validation.Validate: the checks of runtime, worker, sandbox, command and timeout and the list of issues are left out; the model gives one verdict, valid or not.
- The concurrency limit is fixed for a schedule, and the settings of steps, the failure limit and the rework limits are fixed between a resume or loop round and the next, while the code reads them again before every start.
- A refresh of those settings that fails stops the run with its steps still marked as running, and the next start sets them back; the model has them interrupted, so that a plain resume keeps the failures counted so far, where the code forgets them.
- Revisions, task ids and other fields of a run that no transition reads.
- Stores, locks, processes, agent adapters and events: the scheduler is a state machine over the engine's transitions, and an error of a store is not an event of it.
- Delivery of a message to a step that is running: the model delivers it to the inbox at any time, as the engine does; how the scheduler avoids losing it is not modelled.
- Protocol.ParseOutcomeMessage: takes the JSON decoder as a parameter, of which it asks only that it takes nothing but JSON values; number ranges, duplicate keys and the decoder's depth limit are not modelled.
- Json: works on characters rather than UTF-8 bytes; an invalid byte sequence has no counterpart.
- Time is an integer, an unfinished run ends at no time, and equal instants in different zones are one integer.
- Go's maps have no order; where the code ranges over one, the model takes an arbitrary one.
- Composer.Receivers: models the names of the receivers; the sentence that gives the reason of the pause is left out.
- Levels: pixel positions other than those of the automatic layout.
- TimelineRows.SpreadEntries: the labels that name the run inside a lane and the page a body belongs to are left out.
- Transcript.Visible: sorting is modelled by insertion; on records with different keys any sort gives the same list.
- Transcript.Transcript.Merge: attachments, file changes and secret answers are opaque; rows written directly for the prompt, instructions and transitions are taken as given records.
- Entries: slices are values, so reuse of a backing array is not modelled; reuse of the entry objects is.
- Entries.BuildConversation: the records must be distinct objects that the cache does not own, as the transcript's are.
- Rendering, menus, windows, settings, the terminal and the update helper: user interface and smaller parts.
