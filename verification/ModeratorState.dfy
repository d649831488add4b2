/** The moderator's per-scope state: the pure transition of one cycle (src/moderator/runner.ts)
    and the row it is loaded from and saved to (src/moderator/state.ts). */
module ModeratorState {
  import opened SeqTools

  const RECENT_MESSAGES_CAP := 50
  const ACTIVE_STUDENTS_CAP := 50
  const ACTIVE_WORKERS_CAP := 10
  const NOTES_CAP := 20

  datatype Message = Message(ts: string, fromUserId: string, fromLabel: Option<string>, text: string,
                             messageId: Option<int>, isAddressed: bool)

  datatype WorkerStatus = Running | Completed | Failed

  datatype Worker = Worker(taskId: string, roleKey: string, task: string, startedAt: string,
                           placeholder: Option<int>, status: WorkerStatus,
                           result: Option<string>, error: Option<string>)

  datatype Student = Student(userId: string, displayName: Option<string>, lastSeenAt: string)

  datatype State = State(recentMessages: seq<Message>, activeStudents: seq<Student>,
                         activeWorkers: seq<Worker>, notes: seq<string>, messagesSinceLastReview: nat)

  const NewState := State([], [], [], [], 0)

  datatype Trigger = MessageTrigger(message: Message)
                   | WorkerResult(taskId: string, success: bool, result: string)
                   | Cron

  datatype Task = Task(taskId: string, roleKey: string, prompt: string)

  /** The parts of an LLM decision the state depends on. */
  datatype Decision = Decision(answerTasks: seq<Task>, noteAppend: string)

  /* ------------------------- one cycle's transition -------------------------- */

  function SeeStudent(students: seq<Student>, m: Message): seq<Student> {
    if students == [] then [Student(m.fromUserId, m.fromLabel, m.ts)]
    else if students[0].userId == m.fromUserId then [students[0].(lastSeenAt := m.ts)] + students[1..]
    else [students[0]] + SeeStudent(students[1..], m)
  }

  predicate HasTask(workers: seq<Worker>, taskId: string) {
    exists w <- workers :: w.taskId == taskId
  }

  function Spawn(workers: seq<Worker>, t: Task, now: string): seq<Worker> {
    if HasTask(workers, t.taskId) then workers
    else workers + [Worker(t.taskId, t.roleKey, t.prompt, now, None, Running, None, None)]
  }

  function SpawnAll(workers: seq<Worker>, tasks: seq<Task>, now: string): seq<Worker> {
    if tasks == [] then workers
    else Spawn(SpawnAll(workers, tasks[..|tasks| - 1], now), tasks[|tasks| - 1], now)
  }

  function Finish(w: Worker, success: bool, result: string): Worker {
    if success then w.(status := Completed, result := Some(result), error := None)
    else w.(status := Failed, result := None, error := Some(result))
  }

  function FinishFirst(workers: seq<Worker>, taskId: string, success: bool, result: string): seq<Worker> {
    if workers == [] then []
    else if workers[0].taskId == taskId then [Finish(workers[0], success, result)] + workers[1..]
    else [workers[0]] + FinishFirst(workers[1..], taskId, success, result)
  }

  function Applied(s: State, trigger: Trigger, d: Decision, now: string): State {
    var spawned := if d.answerTasks == [] then s.activeWorkers
                   else LastN(SpawnAll(s.activeWorkers, d.answerTasks, now), ACTIVE_WORKERS_CAP);
    var base := s.(activeWorkers := spawned,
                   notes := if d.noteAppend == "" then s.notes else LastN(s.notes + [d.noteAppend], NOTES_CAP));
    match trigger
    case MessageTrigger(m) =>
      base.(recentMessages := LastN(s.recentMessages + [m], RECENT_MESSAGES_CAP),
            activeStudents := SeeStudent(s.activeStudents, m),
            messagesSinceLastReview := s.messagesSinceLastReview + 1)
    case WorkerResult(id, ok, result) => base.(activeWorkers := FinishFirst(spawned, id, ok, result))
    case Cron => base
  }

  /** `while (xs.length > cap) xs.shift()` */
  method ShiftToCap<T>(xs: seq<T>, cap: nat) returns (r: seq<T>)
    ensures r == LastN(xs, cap)
  {
    r := xs;
    while |r| > cap
      invariant |r| >= |LastN(xs, cap)| && r == xs[|xs| - |r|..]
    {
      r := r[1..];
    }
  }

  lemma {:induction false} SeeStudentAt(students: seq<Student>, m: Message, idx: nat)
    requires idx <= |students| && forall i :: 0 <= i < idx ==> students[i].userId != m.fromUserId
    requires idx < |students| ==> students[idx].userId == m.fromUserId
    ensures SeeStudent(students, m) ==
            if idx < |students| then students[idx := students[idx].(lastSeenAt := m.ts)]
            else students + [Student(m.fromUserId, m.fromLabel, m.ts)]
  {
    if idx > 0 { SeeStudentAt(students[1..], m, idx - 1); }
  }

  lemma {:induction false} FinishFirstAt(workers: seq<Worker>, taskId: string, ok: bool, result: string, idx: nat)
    requires idx <= |workers| && forall i :: 0 <= i < idx ==> workers[i].taskId != taskId
    requires idx < |workers| ==> workers[idx].taskId == taskId
    ensures FinishFirst(workers, taskId, ok, result) ==
            if idx < |workers| then workers[idx := Finish(workers[idx], ok, result)] else workers
  {
    if idx > 0 { FinishFirstAt(workers[1..], taskId, ok, result, idx - 1); }
  }

  method ApplyDecisionToState(state: State, trigger: Trigger, decision: Decision, now: string) returns (r: State)
    ensures r == Applied(state, trigger, decision, now)
  {
    var recentMessages, activeWorkers := state.recentMessages, state.activeWorkers;
    var notes, activeStudents := state.notes, state.activeStudents;
    var messagesSinceLastReview := state.messagesSinceLastReview;
    if trigger.MessageTrigger? {
      var m := trigger.message;
      recentMessages := ShiftToCap(recentMessages + [m], RECENT_MESSAGES_CAP);
      messagesSinceLastReview := messagesSinceLastReview + 1;
      var idx := 0;
      while idx < |activeStudents| && activeStudents[idx].userId != m.fromUserId
        invariant idx <= |activeStudents|
        invariant forall i :: 0 <= i < idx ==> activeStudents[i].userId != m.fromUserId
      {
        idx := idx + 1;
      }
      SeeStudentAt(activeStudents, m, idx);
      if idx < |activeStudents| {
        activeStudents := activeStudents[idx := activeStudents[idx].(lastSeenAt := m.ts)];
      } else {
        activeStudents := activeStudents + [Student(m.fromUserId, m.fromLabel, m.ts)];
      }
    }
    if |decision.answerTasks| > 0 {
      for n := 0 to |decision.answerTasks|
        invariant activeWorkers == SpawnAll(state.activeWorkers, decision.answerTasks[..n], now)
      {
        var t := decision.answerTasks[n];
        assert decision.answerTasks[..n + 1][..n] == decision.answerTasks[..n];
        if HasTask(activeWorkers, t.taskId) { continue; }
        activeWorkers := activeWorkers + [Worker(t.taskId, t.roleKey, t.prompt, now, None, Running, None, None)];
      }
      assert decision.answerTasks[..|decision.answerTasks|] == decision.answerTasks;
      activeWorkers := ShiftToCap(activeWorkers, ACTIVE_WORKERS_CAP);
    }
    if trigger.WorkerResult? {
      var idx := 0;
      while idx < |activeWorkers| && activeWorkers[idx].taskId != trigger.taskId
        invariant idx <= |activeWorkers|
        invariant forall i :: 0 <= i < idx ==> activeWorkers[i].taskId != trigger.taskId
      {
        idx := idx + 1;
      }
      FinishFirstAt(activeWorkers, trigger.taskId, trigger.success, trigger.result, idx);
      if idx < |activeWorkers| {
        activeWorkers := activeWorkers[idx := Finish(activeWorkers[idx], trigger.success, trigger.result)];
      }
    }
    if decision.noteAppend != "" {
      notes := ShiftToCap(notes + [decision.noteAppend], NOTES_CAP);
    }
    r := State(recentMessages, activeStudents, activeWorkers, notes, messagesSinceLastReview);
  }

  /* ------------------------------ load and save ------------------------------ */

  /** The JSON column and counters of one `moderator.state` row; its status is kept apart. */
  datatype Row = Row(state: State, messageCount: nat, decisionCount: nat)

  /** `loadModeratorState`: a fresh state without a row, else the row trimmed to its caps. */
  function Load(row: Option<Row>): State {
    match row
    case None => NewState
    case Some(r) =>
      r.state.(recentMessages := LastN(r.state.recentMessages, RECENT_MESSAGES_CAP),
               activeStudents := LastN(r.state.activeStudents, ACTIVE_STUDENTS_CAP),
               activeWorkers := LastN(r.state.activeWorkers, ACTIVE_WORKERS_CAP),
               notes := LastN(r.state.notes, NOTES_CAP))
  }

  /** `saveModeratorState`: trims, upserts the JSON and adds to the counters. */
  function Save(row: Option<Row>, s: State, bumpMessages: nat, bumpDecisions: nat): Row {
    var trimmed := s.(recentMessages := LastN(s.recentMessages, RECENT_MESSAGES_CAP),
                      activeWorkers := LastN(s.activeWorkers, ACTIVE_WORKERS_CAP),
                      notes := LastN(s.notes, NOTES_CAP));
    match row
    case None => Row(trimmed, bumpMessages, bumpDecisions)
    case Some(r) => Row(trimmed, r.messageCount + bumpMessages, r.decisionCount + bumpDecisions)
  }

  /* ------------------------- what one cycle persists ------------------------- */

  /** Results of the workers a decision spawned, spliced back before saving. */
  datatype WorkerReport = WorkerReport(taskId: string, ok: bool, answer: string)

  function Splice(w: Worker, placeholders: map<string, int>): Worker {
    if w.taskId in placeholders then w.(placeholder := Some(placeholders[w.taskId])) else w
  }

  function Report(w: Worker, r: WorkerReport): Worker {
    if w.taskId == r.taskId then w.(status := if r.ok then Completed else Failed, result := Some(LeadingPart(r.answer)))
    else w
  }

  function LeadingPart(answer: string): string {
    if |answer| <= 200 then answer else answer[..200]
  }

  function ReportAll(workers: seq<Worker>, reports: seq<WorkerReport>): seq<Worker>
    decreases |reports|
  {
    if reports == [] then workers
    else
      var r := reports[0];
      ReportAll(seq(|workers|, i requires 0 <= i < |workers| => Report(workers[i], r)), reports[1..])
  }

  /** How a cycle that saves ended: on a cached answer, or after one LLM decision. */
  datatype Outcome = CacheHit
                   | Decided(decision: Decision, now: string, placeholders: map<string, int>,
                             reports: seq<WorkerReport>, pause: bool)

  /** The state a cycle saves, from the state it loaded. */
  function Cycled(s: State, trigger: Message, o: Outcome): State {
    match o
    case CacheHit =>
      s.(recentMessages := LastN(s.recentMessages + [trigger], RECENT_MESSAGES_CAP),
         messagesSinceLastReview := s.messagesSinceLastReview + 1)
    case Decided(d, now, placeholders, reports, _) =>
      var s' := Applied(s, MessageTrigger(trigger), d, now);
      var ws := s'.activeWorkers;
      s'.(activeWorkers := ReportAll(seq(|ws|, i requires 0 <= i < |ws| => Splice(ws[i], placeholders)), reports))
  }

  /** A cycle that saved: its trigger and outcome. */
  datatype Saved = Saved(trigger: Message, outcome: Outcome)

  function SaveCycle(row: Option<Row>, snapshot: State, e: Saved): Row {
    Save(row, Cycled(snapshot, e.trigger, e.outcome), 1, if e.outcome.CacheHit? then 0 else 1)
  }

  /** The row after running the saving cycles one after another, each from load to save. */
  function Replay(base: Option<Row>, es: seq<Saved>): Option<Row> {
    if es == [] then base
    else
      var row := Replay(base, es[..|es| - 1]);
      Some(SaveCycle(row, Load(row), es[|es| - 1]))
  }

  lemma {:induction false} ReplaySnoc(base: Option<Row>, es: seq<Saved>, e: Saved)
    ensures Replay(base, es + [e]) == Some(SaveCycle(Replay(base, es), Load(Replay(base, es)), e))
  {
    assert (es + [e])[..|es|] == es;
  }

  /* ----------------------- what a serial history leaves ---------------------- */

  function Triggers(es: seq<Saved>): seq<Message> {
    seq(|es|, i requires 0 <= i < |es| => es[i].trigger)
  }

  function NoteOf(e: Saved): seq<string> {
    if e.outcome.CacheHit? || e.outcome.decision.noteAppend == "" then [] else [e.outcome.decision.noteAppend]
  }

  function DecisionOf(e: Saved): seq<Outcome> {
    if e.outcome.CacheHit? then [] else [e.outcome]
  }

  lemma {:induction false} CycleSummary(row: Option<Row>, e: Saved)
    ensures var r, b := SaveCycle(row, Load(row), e), Load(row);
            && r.state.recentMessages == LastN(b.recentMessages + [e.trigger], RECENT_MESSAGES_CAP)
            && r.state.notes == LastN(b.notes + NoteOf(e), NOTES_CAP)
            && r.state.messagesSinceLastReview == b.messagesSinceLastReview + 1
            && r.messageCount == (if row.None? then 0 else row.value.messageCount) + 1
            && r.decisionCount == (if row.None? then 0 else row.value.decisionCount) + |DecisionOf(e)|
  {
  }

  lemma {:induction false} LastNIdempotent<T>(xs: seq<T>, n: nat)
    ensures LastN(LastN(xs, n), n) == LastN(xs, n)
  {
  }

  /** A row is a summary of the whole history: the last 50 triggers, the last 20 notes and exact
      counts, whatever caps were applied along the way. */
  lemma {:induction false} ReplaySummarises(base: Option<Row>, es: seq<Saved>)
    requires es != []
    ensures var r, b := Replay(base, es).value, Load(base);
            && r.state.recentMessages == LastN(b.recentMessages + Triggers(es), RECENT_MESSAGES_CAP)
            && r.state.notes == LastN(b.notes + FlatMap(NoteOf, es), NOTES_CAP)
            && r.state.messagesSinceLastReview == b.messagesSinceLastReview + |es|
            && r.messageCount == (if base.None? then 0 else base.value.messageCount) + |es|
            && r.decisionCount == (if base.None? then 0 else base.value.decisionCount) + |FlatMap(DecisionOf, es)|
  {
    var b, init, e := Load(base), es[..|es| - 1], es[|es| - 1];
    assert es == init + [e];
    FlatMapSnoc(NoteOf, init, e);
    FlatMapSnoc(DecisionOf, init, e);
    var ms, notes := b.recentMessages + Triggers(init), b.notes + FlatMap(NoteOf, init);
    assert b.recentMessages + Triggers(es) == ms + [e.trigger];
    assert b.notes + FlatMap(NoteOf, es) == notes + NoteOf(e);
    LastNAppend(ms, [e.trigger], RECENT_MESSAGES_CAP);
    LastNAppend(notes, NoteOf(e), NOTES_CAP);
    var row := Replay(base, init);
    CycleSummary(row, e);
    if init == [] {
      assert ms == b.recentMessages && notes == b.notes;
    } else {
      ReplaySummarises(base, init);
      LastNIdempotent(ms, RECENT_MESSAGES_CAP);
      LastNIdempotent(notes, NOTES_CAP);
    }
  }

  /* ------------------------ bounds of every saved row ------------------------ */

  ghost predicate DistinctTasks(ws: seq<Worker>) {
    forall i, j :: 0 <= i < j < |ws| ==> ws[i].taskId != ws[j].taskId
  }

  ghost predicate DistinctUsers(xs: seq<Student>) {
    forall i, j :: 0 <= i < j < |xs| ==> xs[i].userId != xs[j].userId
  }

  /** Students are trimmed on load only, so a saved row may hold one more than the cap. */
  ghost predicate Bounded(s: State) {
    && |s.recentMessages| <= RECENT_MESSAGES_CAP && |s.notes| <= NOTES_CAP
    && |s.activeWorkers| <= ACTIVE_WORKERS_CAP && DistinctTasks(s.activeWorkers)
    && |s.activeStudents| <= ACTIVE_STUDENTS_CAP + 1 && DistinctUsers(s.activeStudents)
  }

  lemma {:induction false} SpawnAllKeepsDistinct(ws: seq<Worker>, tasks: seq<Task>, now: string)
    requires DistinctTasks(ws)
    ensures DistinctTasks(SpawnAll(ws, tasks, now))
    ensures forall t <- tasks :: HasTask(SpawnAll(ws, tasks, now), t.taskId)
  {
    if tasks != [] {
      var init, t := tasks[..|tasks| - 1], tasks[|tasks| - 1];
      SpawnAllKeepsDistinct(ws, init, now);
      var before, after := SpawnAll(ws, init, now), SpawnAll(ws, tasks, now);
      assert forall w <- before :: w in after;
      assert !HasTask(before, t.taskId) ==> after[|after| - 1].taskId == t.taskId && after[|after| - 1] in after;
      forall u <- tasks ensures HasTask(after, u.taskId) {
        assert u in init || u == t;
        if u in init {
          var w :| w in before && w.taskId == u.taskId;
          assert w in after;
        }
      }
    }
  }

  lemma {:induction false} SeeStudentKeepsDistinct(xs: seq<Student>, m: Message)
    requires DistinctUsers(xs)
    ensures var r := SeeStudent(xs, m);
            && DistinctUsers(r) && |xs| <= |r| <= |xs| + 1
            && exists x <- r :: x.userId == m.fromUserId && x.lastSeenAt == m.ts
  {
    var idx := 0;
    while idx < |xs| && xs[idx].userId != m.fromUserId
      invariant idx <= |xs|
      invariant forall i :: 0 <= i < idx ==> xs[i].userId != m.fromUserId
    {
      idx := idx + 1;
    }
    SeeStudentAt(xs, m, idx);
    var r := SeeStudent(xs, m);
    assert r[idx] in r && r[idx].userId == m.fromUserId && r[idx].lastSeenAt == m.ts;
  }

  lemma {:induction false} ReportAllKeepsTasks(ws: seq<Worker>, reports: seq<WorkerReport>)
    ensures |ReportAll(ws, reports)| == |ws|
    ensures forall i :: 0 <= i < |ws| ==> ReportAll(ws, reports)[i].taskId == ws[i].taskId
    decreases |reports|
  {
    if reports != [] {
      ReportAllKeepsTasks(seq(|ws|, i requires 0 <= i < |ws| => Report(ws[i], reports[0])), reports[1..]);
    }
  }

  lemma {:induction false} CycleKeepsBounds(row: Option<Row>, e: Saved)
    requires row.Some? ==> Bounded(row.value.state)
    ensures Bounded(SaveCycle(row, Load(row), e).state)
    ensures e.outcome.Decided? ==> exists x <- SaveCycle(row, Load(row), e).state.activeStudents ::
              x.userId == e.trigger.fromUserId && x.lastSeenAt == e.trigger.ts
  {
    var s := Load(row);
    if e.outcome.Decided? {
      var d := e.outcome;
      SpawnAllKeepsDistinct(s.activeWorkers, d.decision.answerTasks, d.now);
      SeeStudentKeepsDistinct(s.activeStudents, e.trigger);
      var ws := Applied(s, MessageTrigger(e.trigger), d.decision, d.now).activeWorkers;
      assert DistinctTasks(ws);
      var spliced := seq(|ws|, i requires 0 <= i < |ws| => Splice(ws[i], d.placeholders));
      ReportAllKeepsTasks(spliced, d.reports);
      assert forall i :: 0 <= i < |ws| ==> spliced[i].taskId == ws[i].taskId;
    }
  }

  /** Every row a serial history produces stays within its caps, with distinct task and user ids. */
  lemma {:induction false} ReplayBounded(base: Option<Row>, es: seq<Saved>)
    requires base.Some? ==> Bounded(base.value.state)
    ensures var r := Replay(base, es); r.Some? ==> Bounded(r.value.state)
  {
    if es != [] {
      ReplayBounded(base, es[..|es| - 1]);
      CycleKeepsBounds(Replay(base, es[..|es| - 1]), es[|es| - 1]);
    }
  }

  /* --------------------- one student more than the cap ------------------------ */

  function Senders(es: seq<Saved>): seq<string> {
    seq(|es|, i requires 0 <= i < |es| => es[i].trigger.fromUserId)
  }

  function StudentIds(xs: seq<Student>): seq<string> {
    seq(|xs|, i requires 0 <= i < |xs| => xs[i].userId)
  }

  /** Decided cycles, each of another sender. */
  ghost predicate NewSenders(es: seq<Saved>) {
    && (forall i :: 0 <= i < |es| ==> es[i].outcome.Decided?)
    && forall i, j :: 0 <= i < j < |es| ==> es[i].trigger.fromUserId != es[j].trigger.fromUserId
  }

  lemma {:induction false} SavedStudents(row: Option<Row>, e: Saved)
    requires e.outcome.Decided?
    ensures SaveCycle(row, Load(row), e).state.activeStudents == SeeStudent(Load(row).activeStudents, e.trigger)
  {
  }

  lemma {:induction false} LoadedStudentIds(row: Row)
    ensures StudentIds(Load(Some(row)).activeStudents) == LastN(StudentIds(row.state.activeStudents), ACTIVE_STUDENTS_CAP)
  {
  }

  lemma {:induction false} SeeNewStudent(students: seq<Student>, m: Message)
    requires m.fromUserId !in StudentIds(students)
    ensures StudentIds(SeeStudent(students, m)) == StudentIds(students) + [m.fromUserId]
  {
    forall i | 0 <= i < |students| ensures students[i].userId != m.fromUserId {
      assert StudentIds(students)[i] == students[i].userId;
    }
    SeeStudentAt(students, m, |students|);
  }

  /** A cycle saves one student more than the cap exactly when it takes a decision, found the list
      full after the cut on loading, and its sender is not on it. */
  lemma {:induction false} RowExceedsStudentCapIff(row: Option<Row>, e: Saved)
    ensures var loaded, saved := Load(row).activeStudents, SaveCycle(row, Load(row), e).state.activeStudents;
            && |saved| <= ACTIVE_STUDENTS_CAP + 1
            && (|saved| > ACTIVE_STUDENTS_CAP <==>
                e.outcome.Decided? && |loaded| == ACTIVE_STUDENTS_CAP && e.trigger.fromUserId !in StudentIds(loaded))
  {
    var loaded, x := Load(row).activeStudents, e.trigger.fromUserId;
    if e.outcome.Decided? {
      SavedStudents(row, e);
      if x in StudentIds(loaded) {
        SeeKnownStudent(loaded, e.trigger);
      } else {
        SeeNewStudent(loaded, e.trigger);
        assert |StudentIds(SeeStudent(loaded, e.trigger))| == |loaded| + 1;
      }
    }
  }

  lemma {:induction false} SeeKnownStudent(students: seq<Student>, m: Message)
    requires m.fromUserId in StudentIds(students)
    ensures |SeeStudent(students, m)| == |students|
  {
    var i :| 0 <= i < |students| && StudentIds(students)[i] == m.fromUserId;
    if students[0].userId != m.fromUserId {
      assert StudentIds(students[1..])[i - 1] == m.fromUserId;
      SeeKnownStudent(students[1..], m);
    }
  }

  /** Keeping the last n before an append, and one more after it, keeps one more of the whole. */
  lemma {:induction false} LastNSnoc<T>(xs: seq<T>, x: T, n: nat)
    ensures LastN(LastN(xs, n + 1), n) == LastN(xs, n)
    ensures LastN(xs, n) + [x] == LastN(xs + [x], n + 1)
  {
  }

  /** The last 51 of these senders are the students of the row; none for no row. */
  ghost predicate HoldsLast(row: Option<Row>, senders: seq<string>) {
    match row
    case None => senders == []
    case Some(r) => StudentIds(r.state.activeStudents) == LastN(senders, ACTIVE_STUDENTS_CAP + 1)
  }

  lemma {:induction false} NewSenderIsHeld(row: Option<Row>, senders: seq<string>, e: Saved)
    requires HoldsLast(row, senders) && e.outcome.Decided? && e.trigger.fromUserId !in senders
    ensures HoldsLast(Some(SaveCycle(row, Load(row), e)), senders + [e.trigger.fromUserId])
  {
    var loaded, x := Load(row).activeStudents, e.trigger.fromUserId;
    LastNSnoc(senders, x, ACTIVE_STUDENTS_CAP);
    if row.Some? { LoadedStudentIds(row.value); }
    assert StudentIds(loaded) == LastN(senders, ACTIVE_STUDENTS_CAP);
    SavedStudents(row, e);
    SeeNewStudent(loaded, e.trigger);
  }

  /** With a new sender in every cycle a saved row holds the last 51 of them. */
  lemma {:induction false} StudentsAreLastSenders(es: seq<Saved>)
    requires NewSenders(es)
    ensures HoldsLast(Replay(None, es), Senders(es))
  {
    if es != [] {
      var n := |es| - 1;
      StudentsAreLastSenders(es[..n]);
      SendersDiffer(es, n);
      NewSenderIsHeld(Replay(None, es[..n]), Senders(es[..n]), es[n]);
      assert Senders(es) == Senders(es[..n]) + [es[n].trigger.fromUserId];
    }
  }

  lemma {:induction false} SendersDiffer(es: seq<Saved>, n: nat)
    requires NewSenders(es) && n < |es|
    ensures es[n].trigger.fromUserId !in Senders(es[..n])
  {
    forall i | 0 <= i < n ensures Senders(es[..n])[i] != es[n].trigger.fromUserId {
      assert es[..n][i] == es[i];
    }
  }

  /** So 51 cycles can leave 51 students in the row, one more than the cap kept on loading. */
  lemma {:induction false} RowCanExceedStudentCap() returns (es: seq<Saved>)
    ensures |es| == 51 && |Replay(None, es).value.state.activeStudents| == ACTIVE_STUDENTS_CAP + 1
  {
    var answer := Decided(Decision([], ""), "", map[], [], false);
    es := seq(51, i requires 0 <= i < 51 => Saved(Message("", seq(i, _ => 'a'), None, "", None, false), answer));
    forall i, j | 0 <= i < j < |es| ensures es[i].trigger.fromUserId != es[j].trigger.fromUserId {
      assert |es[i].trigger.fromUserId| == i && |es[j].trigger.fromUserId| == j;
    }
    StudentsAreLastSenders(es);
    var students := Replay(None, es).value.state.activeStudents;
    assert |StudentIds(students)| == |students|;
  }
}
