/** What a decision, its workers' reports and a save leave of a moderator state, list by list
    (src/moderator/runner.ts, src/moderator/state.ts). */
module ModeratorTransitions {
  import opened SeqTools
  import opened ModeratorState

  /* ----------------------------------- students --------------------------------- */

  /** The students after a message: only the sender's first entry is touched, and only when it was
      last seen; a new sender comes last, under the label of the message. */
  lemma {:induction false} SenderIsSeen(students: seq<Student>, m: Message, i: nat)
    ensures var after := SeeStudent(students, m);
            var known := exists s <- students :: s.userId == m.fromUserId;
            && |after| == |students| + (if known then 0 else 1)
            && (!known ==> after == students + [Student(m.fromUserId, m.fromLabel, m.ts)])
            && (i < |students| ==>
                  after[i] == if students[i].userId == m.fromUserId && forall j :: 0 <= j < i ==> students[j].userId != m.fromUserId
                              then Student(m.fromUserId, students[i].displayName, m.ts) else students[i])
  {
    if exists s <- students :: s.userId == m.fromUserId {
      var idx := FirstStudent(students, m.fromUserId);
      SeeStudentAt(students, m, idx);
    } else {
      forall j | 0 <= j < |students| ensures students[j].userId != m.fromUserId { assert students[j] in students; }
      SeeStudentAt(students, m, |students|);
    }
  }

  lemma {:induction false} FirstStudent(students: seq<Student>, id: string) returns (idx: nat)
    requires exists s <- students :: s.userId == id
    ensures idx < |students| && students[idx].userId == id && forall j :: 0 <= j < idx ==> students[j].userId != id
  {
    if students[0].userId == id {
      idx := 0;
    } else {
      assert exists s <- students[1..] :: s.userId == id;
      var n := FirstStudent(students[1..], id);
      idx := n + 1;
      forall j | 0 <= j < idx ensures students[j].userId != id { if j > 0 { assert students[1..][j - 1].userId != id; } }
    }
  }

  /* ----------------------------------- workers ---------------------------------- */

  /** A worker just spawned for a task. */
  function Fresh(t: Task, now: string): Worker {
    Worker(t.taskId, t.roleKey, t.prompt, now, None, Running, None, None)
  }

  /** The workers of one task id, in order. */
  function With(ws: seq<Worker>, id: string): seq<Worker> {
    if ws == [] then []
    else With(ws[..|ws| - 1], id) + if ws[|ws| - 1].taskId == id then [ws[|ws| - 1]] else []
  }

  /** The first task of an id. */
  function FirstTask(tasks: seq<Task>, id: string): Option<Task> {
    if tasks == [] then None else if tasks[0].taskId == id then Some(tasks[0]) else FirstTask(tasks[1..], id)
  }

  lemma {:induction false} FirstTaskSnoc(tasks: seq<Task>, t: Task, id: string)
    ensures FirstTask(tasks + [t], id) == if FirstTask(tasks, id).Some? then FirstTask(tasks, id)
                                          else if t.taskId == id then Some(t) else None
  {
    if tasks == [] {
      assert [] + [t] == [t] && [t][1..] == [];
    } else {
      FirstTaskSnoc(tasks[1..], t, id);
      assert (tasks + [t])[1..] == tasks[1..] + [t];
    }
  }

  lemma {:induction false} WithSome(ws: seq<Worker>, id: string)
    ensures With(ws, id) != [] <==> HasTask(ws, id)
  {
    if ws != [] {
      var n := |ws| - 1;
      WithSome(ws[..n], id);
      assert ws[n] in ws && forall w :: w in ws <==> w in ws[..n] || w == ws[n];
    }
  }

  /** A decision keeps the workers there are, in their places, and spawns one running worker for each
      task id that had none, from the first task of that id. */
  lemma {:induction false} TasksSpawnWorkers(ws: seq<Worker>, tasks: seq<Task>, now: string, id: string)
    ensures var all := SpawnAll(ws, tasks, now);
            && ws <= all
            && With(all, id) == if HasTask(ws, id) then With(ws, id)
                                else match FirstTask(tasks, id) { case None => [] case Some(t) => [Fresh(t, now)] }
  {
    WithSome(ws, id);
    if tasks != [] {
      var init, t := tasks[..|tasks| - 1], tasks[|tasks| - 1];
      assert tasks == init + [t];
      TasksSpawnWorkers(ws, init, now, id);
      FirstTaskSnoc(init, t, id);
      SpawnedWith(SpawnAll(ws, init, now), t, now, id);
    }
  }

  lemma {:induction false} SpawnedWith(ws: seq<Worker>, t: Task, now: string, id: string)
    ensures ws <= Spawn(ws, t, now)
    ensures With(Spawn(ws, t, now), id) == if t.taskId == id && With(ws, id) == [] then [Fresh(t, now)] else With(ws, id)
  {
    WithSome(ws, id);
    assert (ws + [Fresh(t, now)])[..|ws|] == ws;
  }

  /** What a worker's result leaves of its entry. */
  function Finished(w: Worker, success: bool, result: string): Worker {
    Worker(w.taskId, w.roleKey, w.task, w.startedAt, w.placeholder, if success then Completed else Failed,
           if success then Some(result) else None, if success then None else Some(result))
  }

  /** A worker's result marks the first worker of its task, and no other. */
  lemma {:induction false} ResultFinishesWorker(ws: seq<Worker>, id: string, success: bool, result: string, i: nat)
    ensures var after := FinishFirst(ws, id, success, result);
            && |after| == |ws|
            && (i < |ws| ==>
                  after[i] == if ws[i].taskId == id && forall j :: 0 <= j < i ==> ws[j].taskId != id
                              then Finished(ws[i], success, result) else ws[i])
  {
    if ws != [] && ws[0].taskId != id && i > 0 {
      ResultFinishesWorker(ws[1..], id, success, result, i - 1);
      if i < |ws| {
        assert (forall j :: 0 <= j < i ==> ws[j].taskId != id) <==> forall j :: 0 <= j < i - 1 ==> ws[1..][j].taskId != id by {
          forall j | 0 < j < i ensures ws[j] == ws[1..][j - 1] {}
        }
      }
    } else if ws != [] && ws[0].taskId != id {
      ResultFinishesWorker(ws[1..], id, success, result, 0);
    }
  }

  /** The last report on a task. */
  function LastReport(reports: seq<WorkerReport>, id: string): Option<WorkerReport> {
    if reports == [] then None
    else if LastReport(reports[1..], id).Some? then LastReport(reports[1..], id)
    else if reports[0].taskId == id then Some(reports[0]) else None
  }

  /** Reports leave a worker completed or failed, as the last one on its task says, with at most 200
      characters of its answer; everything else of it stays, and so do workers not reported on. */
  lemma {:induction false} ReportsSettleWorkers(ws: seq<Worker>, reports: seq<WorkerReport>, i: nat)
    requires i < |ws|
    ensures var after := ReportAll(ws, reports);
            && |after| == |ws|
            && match LastReport(reports, ws[i].taskId)
               case None => after[i] == ws[i]
               case Some(r) =>
                 && after[i] == ws[i].(status := if r.ok then Completed else Failed, result := after[i].result)
                 && after[i].result.Some? && after[i].result.value <= r.answer
                 && |after[i].result.value| == if |r.answer| < 200 then |r.answer| else 200
    decreases |reports|
  {
    if reports != [] {
      var next := seq(|ws|, j requires 0 <= j < |ws| => Report(ws[j], reports[0]));
      ReportsSettleWorkers(next, reports[1..], i);
    }
  }

  /* ---------------------------------- one cycle --------------------------------- */

  /** What a cycle saves for the workers: those its decision leaves, at most the last ten if it spawned
      any, each with its placeholder and its last report; an answer from the cache touches none. */
  lemma {:induction false} CycleLeavesWorkers(s: State, trigger: Message, o: Outcome, i: nat)
    ensures o.CacheHit? ==> Cycled(s, trigger, o).activeWorkers == s.activeWorkers && Cycled(s, trigger, o).activeStudents == s.activeStudents
    ensures o.Decided? ==>
              var left := if o.decision.answerTasks == [] then s.activeWorkers
                          else LastN(SpawnAll(s.activeWorkers, o.decision.answerTasks, o.now), 10);
              var after := Cycled(s, trigger, o).activeWorkers;
              && |after| == |left|
              && (i < |left| ==>
                    && after[i].taskId == left[i].taskId && after[i].roleKey == left[i].roleKey && after[i].task == left[i].task
                    && after[i].startedAt == left[i].startedAt && after[i].error == left[i].error
                    && after[i].placeholder == (if left[i].taskId in o.placeholders then Some(o.placeholders[left[i].taskId]) else left[i].placeholder)
                    && match LastReport(o.reports, left[i].taskId)
                       case None => after[i].status == left[i].status && after[i].result == left[i].result
                       case Some(r) =>
                         && after[i].status == (if r.ok then Completed else Failed)
                         && after[i].result.Some? && after[i].result.value <= r.answer
                         && |after[i].result.value| == if |r.answer| < 200 then |r.answer| else 200)
  {
    if o.Decided? {
      var ws := Applied(s, MessageTrigger(trigger), o.decision, o.now).activeWorkers;
      var spliced := seq(|ws|, j requires 0 <= j < |ws| => Splice(ws[j], o.placeholders));
      ReportsKeepCount(spliced, o.reports);
      if i < |ws| { ReportsSettleWorkers(spliced, o.reports, i); }
    }
  }

  lemma {:induction false} ReportsKeepCount(ws: seq<Worker>, reports: seq<WorkerReport>)
    ensures |ReportAll(ws, reports)| == |ws|
    decreases |reports|
  {
    if reports != [] { ReportsKeepCount(seq(|ws|, j requires 0 <= j < |ws| => Report(ws[j], reports[0])), reports[1..]); }
  }

  /* -------------------------------- load and save ------------------------------- */

  /** Every list of the state is within its cap. */
  predicate WithinCaps(s: State) {
    |s.recentMessages| <= 50 && |s.activeStudents| <= 50 && |s.activeWorkers| <= 10 && |s.notes| <= 20
  }

  /** Loading cuts each list to its last elements, never more than needed, and a state within the caps
      comes back from the table as it was saved. */
  lemma {:induction false} SavedStatesLoad(row: Option<Row>, s: State, messages: nat, decisions: nat)
    ensures WithinCaps(Load(row))
    ensures WithinCaps(s) ==> Load(Some(Save(row, s, messages, decisions))) == s
    ensures row.Some? && WithinCaps(row.value.state) ==> Load(row) == row.value.state
    ensures row.None? ==> Load(row) == State([], [], [], [], 0)
    ensures Load(Some(Save(row, s, messages, decisions))).messagesSinceLastReview == s.messagesSinceLastReview
    ensures var r := Save(row, s, messages, decisions);
            && r.messageCount == messages + (if row.None? then 0 else row.value.messageCount)
            && r.decisionCount == decisions + (if row.None? then 0 else row.value.decisionCount)
  {
  }

  /** Cutting a list keeps its end, and as much of it as the cap allows. */
  lemma {:induction false} LastAreKept<T>(xs: seq<T>, n: nat)
    ensures var kept := LastN(xs, n);
            && |kept| == (if |xs| < n then |xs| else n)
            && forall i :: 0 <= i < |kept| ==> kept[i] == xs[|xs| - |kept| + i]
  {
  }

  /** Triggers other than messages leave the messages, the students and the counter alone; a note is
      appended whatever the trigger. */
  lemma {:induction false} OtherTriggersLeaveMessages(s: State, t: Trigger, d: Decision, now: string)
    ensures var after := Applied(s, t, d, now);
            && (d.noteAppend == "" ==> after.notes == s.notes)
            && (d.noteAppend != "" ==> after.notes == LastN(s.notes + [d.noteAppend], 20))
            && (!t.MessageTrigger? ==> after.recentMessages == s.recentMessages && after.activeStudents == s.activeStudents
                                       && after.messagesSinceLastReview == s.messagesSinceLastReview)
            && (t.WorkerResult? && d.answerTasks == [] ==>
                  after.activeWorkers == FinishFirst(s.activeWorkers, t.taskId, t.success, t.result))
  {
  }
}
