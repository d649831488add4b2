/** What holds in every run of the moderator: one cycle of a scope at a time, in queue order,
    with no lost update, and a pause that no cycle undoes. */
module ModeratorRuns {
  import opened SeqTools
  import opened ModeratorState
  import opened ModeratorProtocol

  /* -------------------------------- the invariant ----------------------------- */

  ghost predicate NoneBetween(cs: seq<Cycle>, scope: string, lo: int, hi: int)
    requires 0 <= lo && hi <= |cs|
  {
    forall j :: lo <= j < hi ==> cs[j].scope != scope
  }

  /** The mutex names the last queued cycle of each scope, through its `finally` promise. */
  ghost predicate MutexInv(s: Service) {
    forall scope ::
      match Get(s.scopeMutex, scope)
      case None => NoneBetween(s.cycles, scope, 0, |s.cycles|)
      case Some(p) => p.Finally? && p.cycle < |s.cycles| && s.cycles[p.cycle].scope == scope
                      && NoneBetween(s.cycles, scope, p.cycle + 1, |s.cycles|)
  }

  /** Each cycle waits for the previous cycle of its scope. */
  ghost predicate ChainInv(cs: seq<Cycle>) {
    forall i :: 0 <= i < |cs| ==>
      match cs[i].prev
      case None => NoneBetween(cs, cs[i].scope, 0, i)
      case Some(p) => p.Finally? && p.cycle < i && cs[p.cycle].scope == cs[i].scope
                      && NoneBetween(cs, cs[i].scope, p.cycle + 1, i)
  }

  /** A cycle that has started found every earlier cycle of its scope settled. */
  ghost predicate Exclusive(cs: seq<Cycle>) {
    forall i, j :: 0 <= i < j < |cs| && cs[i].scope == cs[j].scope && !cs[j].phase.Waiting? ==> cs[i].phase.Settled?
  }

  function OutcomeOf(phase: Phase): Option<Outcome> {
    if phase.Ended? || phase.Settled? then phase.outcome else None
  }

  function SaveBy(scope: string): Cycle -> seq<Saved> {
    (c: Cycle) => if c.scope == scope && OutcomeOf(c.phase).Some?
                  then [Saved(c.trigger, OutcomeOf(c.phase).value)] else []
  }

  /** The cycles of a scope that saved, in queue order. */
  function SavedIn(cs: seq<Cycle>, scope: string): seq<Saved> {
    FlatMap(SaveBy(scope), cs)
  }

  /** Every row is what its saving cycles leave when run one after another. */
  ghost predicate RowsInv(s: Service, base: map<string, Row>) {
    forall scope :: Get(s.rows, scope) == Replay(Get(base, scope), SavedIn(s.cycles, scope))
  }

  /** What a running cycle has loaded is still what the table holds. */
  ghost predicate FreshSnapshots(s: Service) {
    forall c <- s.cycles :: c.phase.Loaded? || c.phase.Checked? ==> c.phase.snapshot == Load(Get(s.rows, c.scope))
  }

  ghost predicate SerialInv(s: Service, base: map<string, Row>) {
    MutexInv(s) && ChainInv(s.cycles) && Exclusive(s.cycles) && RowsInv(s, base) && FreshSnapshots(s)
  }

  /* ---------------------------- every step keeps it --------------------------- */

  lemma {:induction false} SameOutcomeSameSaves(s: Service, i: nat, phase: Phase, scope: string)
    requires i < |s.cycles| && OutcomeOf(phase) == OutcomeOf(s.cycles[i].phase)
    ensures SavedIn(SetPhase(s, i, phase).cycles, scope) == SavedIn(s.cycles, scope)
  {
    FlatMapUpdate(SaveBy(scope), s.cycles, i, s.cycles[i].(phase := phase));
    FlatMapUpdate(SaveBy(scope), s.cycles, i, s.cycles[i]);
    assert s.cycles[i := s.cycles[i]] == s.cycles;
  }

  lemma {:induction false} NewSaveIsLast(cs: seq<Cycle>, i: nat, o: Outcome, scope: string)
    requires i < |cs| && cs[i].phase.Checked? && Exclusive(cs)
    ensures SavedIn(cs[i := cs[i].(phase := Ended(Some(o)))], scope) ==
            SavedIn(cs, scope) + if cs[i].scope == scope then [Saved(cs[i].trigger, o)] else []
  {
    var c, rest, f := cs[i], cs[i + 1..], SaveBy(scope);
    FlatMapUpdate(f, cs, i, c.(phase := Ended(Some(o))));
    FlatMapUpdate(f, cs, i, c);
    assert cs[i := c] == cs;
    if c.scope == scope {
      forall d <- rest ensures f(d) == [] {
        var j :| 0 <= j < |rest| && rest[j] == d;
        assert cs[i + 1 + j] == d;
      }
      FlatMapNothing(f, rest);
    }
  }

  lemma {:induction false} WaitingSavesNothing(cs: seq<Cycle>, c: Cycle, scope: string)
    requires c.phase.Waiting?
    ensures SavedIn(cs + [c], scope) == SavedIn(cs, scope)
  {
    FlatMapSnoc(SaveBy(scope), cs, c);
    assert SavedIn(cs, scope) + [] == SavedIn(cs, scope);
  }

  lemma {:induction false} EnqueueKeepsMutex(s: Service, key: string, batch: seq<Message>)
    requires MutexInv(s) && batch != []
    ensures MutexInv(Enqueues(s, key, batch))
  {
    var s', n := Enqueues(s, key, batch), |s.cycles|;
    forall scope
      ensures match Get(s'.scopeMutex, scope)
              case None => NoneBetween(s'.cycles, scope, 0, |s'.cycles|)
              case Some(p) => p.Finally? && p.cycle < |s'.cycles| && s'.cycles[p.cycle].scope == scope
                              && NoneBetween(s'.cycles, scope, p.cycle + 1, |s'.cycles|)
    {
      if scope != s'.cycles[n].scope {
        assert Get(s'.scopeMutex, scope) == Get(s.scopeMutex, scope);
      }
    }
  }

  lemma {:induction false} EnqueueKeepsOrder(s: Service, key: string, batch: seq<Message>)
    requires MutexInv(s) && ChainInv(s.cycles) && Exclusive(s.cycles) && batch != []
    ensures ChainInv(Enqueues(s, key, batch).cycles) && Exclusive(Enqueues(s, key, batch).cycles)
  {
    var cs, n := Enqueues(s, key, batch).cycles, |s.cycles|;
    assert cs == s.cycles + [cs[n]] && Get(s.scopeMutex, cs[n].scope) == cs[n].prev;
  }

  lemma {:induction false} EnqueueKeepsSerial(s: Service, base: map<string, Row>, key: string, batch: seq<Message>)
    requires SerialInv(s, base) && batch != []
    ensures SerialInv(Enqueues(s, key, batch), base)
  {
    EnqueueKeepsMutex(s, key, batch);
    EnqueueKeepsOrder(s, key, batch);
    var s', c := Enqueues(s, key, batch), Enqueues(s, key, batch).cycles[|s.cycles|];
    assert s'.cycles == s.cycles + [c] && s'.rows == s.rows;
    assert RowsInv(s', base) by {
      forall scope ensures SavedIn(s'.cycles, scope) == SavedIn(s.cycles, scope) {
        WaitingSavesNothing(s.cycles, c, scope);
      }
    }
  }

  lemma {:induction false} PhaseChangeKeepsOrder(s: Service, i: nat, phase: Phase)
    requires MutexInv(s) && ChainInv(s.cycles) && Exclusive(s.cycles) && i < |s.cycles|
    requires s.cycles[i].phase.Settled? ==> phase.Settled?
    requires !phase.Waiting? && (s.cycles[i].phase.Waiting? ==> MayStart(s, s.cycles[i]))
    ensures var s' := SetPhase(s, i, phase); MutexInv(s') && ChainInv(s'.cycles) && Exclusive(s'.cycles)
  {
    var s' := SetPhase(s, i, phase);
    var c := s.cycles[i];
    assert forall j :: 0 <= j < |s.cycles| ==> s'.cycles[j].scope == s.cycles[j].scope && s'.cycles[j].prev == s.cycles[j].prev;
    forall scope, lo: int, hi: int | 0 <= lo && hi <= |s.cycles| && NoneBetween(s.cycles, scope, lo, hi)
      ensures NoneBetween(s'.cycles, scope, lo, hi) {}
    forall j, k | 0 <= j < k < |s.cycles| && s.cycles[j].scope == s.cycles[k].scope && !s'.cycles[k].phase.Waiting?
      ensures s'.cycles[j].phase.Settled?
    {
      if k == i && c.phase.Waiting? {
        assert c.prev.Some? ==> j <= c.prev.value.cycle;
      }
    }
  }

  lemma {:induction false} StartKeepsSerial(s: Service, base: map<string, Row>, i: nat, phase: Phase)
    requires SerialInv(s, base) && i < |s.cycles| && s.cycles[i].phase != phase
    requires match phase
             case Waiting => false
             case Loaded(st) => MayStart(s, s.cycles[i]) && st == Load(Get(s.rows, s.cycles[i].scope))
             case Checked(st) => s.cycles[i].phase == Loaded(st)
             case Ended(o) => o.None? && (MayStart(s, s.cycles[i]) || s.cycles[i].phase.Loaded? || s.cycles[i].phase.Checked?)
             case Settled(o) => s.cycles[i].phase == Ended(o)
    ensures SerialInv(SetPhase(s, i, phase), base)
  {
    var s' := SetPhase(s, i, phase);
    PhaseChangeKeepsOrder(s, i, phase);
    forall scope ensures SavedIn(s'.cycles, scope) == SavedIn(s.cycles, scope) {
      SameOutcomeSameSaves(s, i, phase, scope);
    }
    forall d <- s'.cycles | d.phase.Loaded? || d.phase.Checked?
      ensures d.phase.snapshot == Load(Get(s'.rows, d.scope))
    {
      assert d in s.cycles || d == s.cycles[i].(phase := phase);
      assert s.cycles[i] in s.cycles;
    }
  }

  lemma {:induction false} SaveKeepsRow(cs: seq<Cycle>, rows: map<string, Row>, base: Option<Row>, i: nat, o: Outcome, scope: string)
    requires i < |cs| && cs[i].phase.Checked? && Exclusive(cs)
    requires Get(rows, scope) == Replay(base, SavedIn(cs, scope))
    requires cs[i].scope == scope ==> cs[i].phase.snapshot == Load(Get(rows, scope))
    ensures var c := cs[i];
            var row := SaveCycle(Get(rows, c.scope), c.phase.snapshot, Saved(c.trigger, o));
            Get(rows[c.scope := row], scope) == Replay(base, SavedIn(cs[i := c.(phase := Ended(Some(o)))], scope))
  {
    NewSaveIsLast(cs, i, o, scope);
    var es := SavedIn(cs, scope);
    if scope == cs[i].scope {
      ReplaySnoc(base, es, Saved(cs[i].trigger, o));
    } else {
      assert es + [] == es;
    }
  }

  lemma {:induction false} SaveKeepsSnapshots(s: Service, i: nat, o: Outcome)
    requires FreshSnapshots(s) && Exclusive(s.cycles) && i < |s.cycles| && s.cycles[i].phase.Checked?
    ensures FreshSnapshots(Saves(s, i, o))
  {
    var s', c := Saves(s, i, o), s.cycles[i];
    forall d <- s'.cycles | d.phase.Loaded? || d.phase.Checked?
      ensures d.phase.snapshot == Load(Get(s'.rows, d.scope))
    {
      var j :| 0 <= j < |s'.cycles| && s'.cycles[j] == d;
      assert s.cycles[j] == d && d in s.cycles && d.scope != c.scope;
    }
  }

  lemma {:induction false} SaveKeepsSerial(s: Service, base: map<string, Row>, i: nat, o: Outcome)
    requires SerialInv(s, base) && i < |s.cycles| && s.cycles[i].phase.Checked?
    ensures SerialInv(Saves(s, i, o), base)
  {
    PhaseChangeKeepsOrder(s, i, Ended(Some(o)));
    var s', mid := Saves(s, i, o), SetPhase(s, i, Ended(Some(o)));
    SaveKeepsSnapshots(s, i, o);
    assert RowsInv(s', base) by {
      assert s.cycles[i] in s.cycles;
      forall scope ensures Get(s'.rows, scope) == Replay(Get(base, scope), SavedIn(s'.cycles, scope)) {
        SaveKeepsRow(s.cycles, s.rows, Get(base, scope), i, o, scope);
      }
    }
    assert MutexInv(s') by {
      assert s'.cycles == mid.cycles && s'.scopeMutex == mid.scopeMutex;
    }
  }

  lemma {:induction false} StepKeepsSerial(s: Service, base: map<string, Row>, e: Event)
    requires SerialInv(s, base) && Enabled(s, e)
    ensures SerialInv(Step(s, e), base)
  {
    match e
    case Fire(id) =>
      var key := s.timers[id].key;
      var s0 := s.(timers := s.timers - {id});
      if key in s.buffers && s.buffers[key].messages != [] {
        var s1 := s0.(buffers := s0.buffers - {key});
        KeepsSerialBeside(s, s1, base);
        EnqueueKeepsSerial(s1, base, key, s.buffers[key].messages);
      } else {
        KeepsSerialBeside(s, Step(s, e), base);
      }
    case LoadState(i) => StartKeepsSerial(s, base, i, Step(s, e).cycles[i].phase);
    case CheckStatus(i) => StartKeepsSerial(s, base, i, Step(s, e).cycles[i].phase);
    case SaveState(i, o) => SaveKeepsSerial(s, base, i, o);
    case Fail(i) => StartKeepsSerial(s, base, i, Ended(None));
    case SettleCycle(i) => StartKeepsSerial(s, base, i, Settled(s.cycles[i].phase.outcome));
    case Arrive(_, _, _) => KeepsSerialBeside(s, Step(s, e), base);
    case Pass(_) => KeepsSerialBeside(s, Step(s, e), base);
    case Operator(_, _) => KeepsSerialBeside(s, Step(s, e), base);
  }

  lemma {:induction false} KeepsSerialBeside(s: Service, s': Service, base: map<string, Row>)
    requires SerialInv(s, base)
    requires s'.cycles == s.cycles && s'.scopeMutex == s.scopeMutex && s'.rows == s.rows
    ensures SerialInv(s', base)
  {
    assert forall scope :: SavedIn(s'.cycles, scope) == SavedIn(s.cycles, scope);
  }

  /* ------------------------------ theorems on runs ---------------------------- */

  lemma {:induction false} RunKeepsInvariants(run: seq<Service>, es: seq<Event>, k: nat)
    requires Run(run, es) && k < |run|
    ensures DebounceInv(run[k]) && SerialInv(run[k], run[0].rows)
  {
    if k == 0 {
      var s := run[0];
      assert forall scope :: SavedIn(s.cycles, scope) == [];
    } else {
      RunKeepsInvariants(run, es, k - 1);
      assert StepAt(run, es, k - 1);
      StepKeepsDebounce(run[k - 1], es[k - 1]);
      StepKeepsSerial(run[k - 1], run[0].rows, es[k - 1]);
    }
  }

  /** In no state of any run are two cycles of one scope between load and settlement, and they
      get there in queue order. */
  lemma {:induction false} CyclesOfAScopeNeverOverlap(run: seq<Service>, es: seq<Event>, k: nat, i: nat, j: nat)
    requires Run(run, es) && k < |run|
    requires i < j < |run[k].cycles| && run[k].cycles[i].scope == run[k].cycles[j].scope
    ensures run[k].cycles[j].phase.Waiting? || run[k].cycles[i].phase.Settled?
  {
    RunKeepsInvariants(run, es, k);
  }

  /** No update is lost: at every moment a scope's row is the one a serial execution of its saving
      cycles, in queue order, would have produced. */
  lemma {:induction false} RowsAreSerial(run: seq<Service>, es: seq<Event>, k: nat, scope: string)
    requires Run(run, es) && k < |run|
    ensures Get(run[k].rows, scope) == Replay(Get(run[0].rows, scope), SavedIn(run[k].cycles, scope))
  {
    RunKeepsInvariants(run, es, k);
  }

  /** Hence the saved recent messages are the last 50 triggers of the cycles that saved, after those
      of the row the service started with, and the counters have grown by those cycles. */
  lemma {:induction false} RowsSummariseSavedCycles(run: seq<Service>, es: seq<Event>, k: nat, scope: string)
    requires Run(run, es) && k < |run|
    ensures var base, saved, row := Get(run[0].rows, scope), SavedIn(run[k].cycles, scope), Get(run[k].rows, scope);
            && (saved == [] ==> row == base)
            && (saved != [] ==>
                  && row.Some?
                  && var r, b := row.value, Load(base);
                     && r.state.recentMessages == LastN(b.recentMessages + Triggers(saved), RECENT_MESSAGES_CAP)
                     && r.state.notes == LastN(b.notes + FlatMap(NoteOf, saved), NOTES_CAP)
                     && r.state.messagesSinceLastReview == b.messagesSinceLastReview + |saved|
                     && r.messageCount == (if base.None? then 0 else base.value.messageCount) + |saved|
                     && r.decisionCount == (if base.None? then 0 else base.value.decisionCount)
                                           + |FlatMap(DecisionOf, saved)|)
            && ((base.Some? ==> Bounded(base.value.state)) && row.Some? ==> Bounded(row.value.state))
  {
    RowsAreSerial(run, es, k, scope);
    var base, saved := Get(run[0].rows, scope), SavedIn(run[k].cycles, scope);
    if saved != [] { ReplaySummarises(base, saved); }
    if base.Some? ==> Bounded(base.value.state) { ReplayBounded(base, saved); }
  }

  /** Every message accepted under a key is in exactly one trigger or still buffered, in arrival
      order; each trigger joins its batch, and was cut after a full debounce of silence. */
  lemma {:induction false} MessagesAreConserved(run: seq<Service>, es: seq<Event>, k: nat, key: string)
    requires Run(run, es) && k < |run|
    ensures ArrivedOf(run[k], key) == Fired(run[k], key) + PendingOf(run[k], key)
    ensures forall c <- run[k].cycles :: c.batch != [] && c.trigger == TriggerOf(c.batch)
              && c.quietSince + run[k].debounceMs <= c.firedAt
    ensures forall t <- run[k].timers, u <- run[k].timers :: run[k].timers[t].key == run[k].timers[u].key ==> t == u
    ensures key in run[k].buffers <==> exists t <- run[k].timers :: run[k].timers[t].key == key
  {
    RunKeepsInvariants(run, es, k);
    if key in run[k].buffers {
      assert run[k].buffers[key].timer in run[k].timers;
    }
  }

  /* ----------------------------------- pausing -------------------------------- */

  /** Only an operator ends a pause: no cycle, whatever it saves, makes a paused scope live. */
  lemma {:induction false} PauseSticks(s: Service, e: Event, scope: string)
    requires Enabled(s, e) && StatusOf(s, scope) == Some(Paused)
    requires !(e.Operator? && e.scope == scope)
    ensures StatusOf(Step(s, e), scope) == Some(Paused)
  {
  }

  /** An archived scope is not protected that way: it stays archived exactly when the step is not
      a save of that scope asking to pause. */
  lemma {:induction false} ArchiveSticksIff(s: Service, e: Event, scope: string)
    requires Enabled(s, e) && StatusOf(s, scope) == Some(Archived)
    requires !(e.Operator? && e.scope == scope)
    ensures StatusOf(Step(s, e), scope) == Some(Archived)
       <==> !(e.SaveState? && s.cycles[e.cycle].scope == scope && e.result.Decided? && e.result.pause)
  {
  }

  lemma {:induction false} RunSnoc(run: seq<Service>, es: seq<Event>, e: Event, s: Service)
    requires Run(run, es) && Enabled(run[|es|], e) && s == Step(run[|es|], e)
    ensures Run(run + [s], es + [e])
  {
    var run', es' := run + [s], es + [e];
    forall i | 0 <= i < |es'| ensures StepAt(run', es', i) {
      if i < |es| { assert StepAt(run, es, i); }
    }
  }

  /** One message, left alone for a debounce, becomes the first cycle of its scope. */
  lemma {:induction false} ArchiveRunBegins(scope: string, user: string, m: Message, run: seq<Service>, es: seq<Event>)
      returns (run': seq<Service>, es': seq<Event>)
    requires SplitKey(BufferKey(scope, user)) == (scope, user) && Run(run, es) && es == []
    ensures Run(run', es') && |es'| == 3
    ensures var s3 := run'[3];
            && |s3.cycles| == 1 && s3.cycles[0].scope == scope && MayStart(s3, s3.cycles[0])
            && s3.rows == run[0].rows && s3.status == run[0].status
  {
    var s := run[0];
    var s1 := Step(s, Arrive(scope, user, m));
    assert [] + [m] == [m];
    assert s1.buffers[BufferKey(scope, user)] == Buffer([m], 0);
    var s2 := Step(s1, Pass(s.debounceMs));
    var s3 := Step(s2, Fire(0));
    RunSnoc(run, es, Arrive(scope, user, m), s1);
    RunSnoc(run + [s1], es + [Arrive(scope, user, m)], Pass(s.debounceMs), s2);
    RunSnoc(run + [s1] + [s2], es + [Arrive(scope, user, m)] + [Pass(s.debounceMs)], Fire(0), s3);
    run', es' := run + [s1] + [s2] + [s3], es + [Arrive(scope, user, m)] + [Pass(s.debounceMs)] + [Fire(0)];
  }

  /** An operator archives the scope while its only cycle is about to save a decision to pause. */
  lemma {:induction false} ArchiveRunEnds(scope: string, o: Outcome, run: seq<Service>, es: seq<Event>)
      returns (run': seq<Service>, es': seq<Event>)
    requires Run(run, es) && |es| == 3 && o.Decided? && o.pause
    requires var s3 := run[3];
             && |s3.cycles| == 1 && s3.cycles[0].scope == scope && MayStart(s3, s3.cycles[0])
             && scope in s3.rows && Get(s3.status, scope) == Some(Live)
    ensures Run(run', es') && |es'| == 7 && es'[5] == Operator(scope, Archived) && es'[6] == SaveState(0, o)
    ensures StatusOf(run'[6], scope) == Some(Archived) && StatusOf(run'[7], scope) == Some(Paused)
  {
    var s3 := run[3];
    var s4 := Step(s3, LoadState(0));
    var s5 := Step(s4, CheckStatus(0));
    var s6 := Step(s5, Operator(scope, Archived));
    var s7 := Step(s6, SaveState(0, o));
    RunSnoc(run, es, LoadState(0), s4);
    var run4, es4 := run + [s4], es + [LoadState(0)];
    RunSnoc(run4, es4, CheckStatus(0), s5);
    var run5, es5 := run4 + [s5], es4 + [CheckStatus(0)];
    RunSnoc(run5, es5, Operator(scope, Archived), s6);
    var run6, es6 := run5 + [s6], es5 + [Operator(scope, Archived)];
    RunSnoc(run6, es6, SaveState(0, o), s7);
    run', es' := run6 + [s7], es6 + [SaveState(0, o)];
  }

  /** And such a run exists from any live row. */
  lemma {:induction false} ArchivedCanTurnPaused(scope: string, user: string, m: Message, row: Row, o: Outcome, ms: nat)
      returns (run: seq<Service>, es: seq<Event>)
    requires SplitKey(BufferKey(scope, user)) == (scope, user) && o.Decided? && o.pause
    ensures Run(run, es) && |es| == 7 && es[5] == Operator(scope, Archived) && es[6] == SaveState(0, o)
    ensures StatusOf(run[6], scope) == Some(Archived) && StatusOf(run[7], scope) == Some(Paused)
  {
    var s0 := Start(ms, 0, map[scope := row], map[scope := Live]);
    run, es := [s0], [];
    run, es := ArchiveRunBegins(scope, user, m, run, es);
    run, es := ArchiveRunEnds(scope, o, run, es);
  }

  ghost predicate HasChecked(s: Service, scope: string) {
    exists c <- s.cycles :: c.scope == scope && c.phase.Checked?
  }

  /** Saves made so far, plus one if a cycle is already past its status check. */
  ghost function SaveBudget(s: Service, scope: string): nat {
    |SavedIn(s.cycles, scope)| + if HasChecked(s, scope) then 1 else 0
  }

  lemma {:induction false} SaveSpendsBudget(s: Service, i: nat, o: Outcome, scope: string)
    requires Exclusive(s.cycles) && i < |s.cycles| && s.cycles[i].phase.Checked?
    ensures SaveBudget(Saves(s, i, o), scope) <= SaveBudget(s, scope)
  {
    NewSaveIsLast(s.cycles, i, o, scope);
    var cs := Saves(s, i, o).cycles;
    assert s.cycles[i] in s.cycles;
    forall d <- cs | d.scope == scope && d.phase.Checked? ensures d in s.cycles && s.cycles[i].scope != scope {
      var j :| 0 <= j < |cs| && cs[j] == d;
      assert s.cycles[j] == d;
    }
  }

  lemma {:induction false} PhaseChangeSpendsNothing(s: Service, i: nat, phase: Phase, scope: string)
    requires i < |s.cycles| && OutcomeOf(phase) == OutcomeOf(s.cycles[i].phase) && !phase.Checked?
    ensures SaveBudget(SetPhase(s, i, phase), scope) <= SaveBudget(s, scope)
  {
    SameOutcomeSameSaves(s, i, phase, scope);
    var cs := SetPhase(s, i, phase).cycles;
    forall d <- cs | d.phase.Checked? ensures d in s.cycles {
      var j :| 0 <= j < |cs| && cs[j] == d;
      assert s.cycles[j] == d;
    }
  }

  lemma {:induction false} PausedBudgetNeverGrows(s: Service, e: Event, scope: string)
    requires Exclusive(s.cycles) && Enabled(s, e) && StatusOf(s, scope) == Some(Paused)
    ensures SaveBudget(Step(s, e), scope) <= SaveBudget(s, scope)
  {
    var s' := Step(s, e);
    match e
    case Fire(id) =>
      if |s'.cycles| > |s.cycles| {
        var c := s'.cycles[|s.cycles|];
        assert s'.cycles == s.cycles + [c];
        WaitingSavesNothing(s.cycles, c, scope);
      }
    case SaveState(i, o) => SaveSpendsBudget(s, i, o, scope);
    case LoadState(i) => PhaseChangeSpendsNothing(s, i, s'.cycles[i].phase, scope);
    case CheckStatus(i) =>
      if s.cycles[i].scope == scope {
        PhaseChangeSpendsNothing(s, i, Ended(None), scope);
      } else {
        SameOutcomeSameSaves(s, i, s'.cycles[i].phase, scope);
        forall d <- s'.cycles | d.scope == scope && d.phase.Checked? ensures d in s.cycles {
          var j :| 0 <= j < |s'.cycles| && s'.cycles[j] == d;
          assert s.cycles[j] == d;
        }
      }
    case Fail(i) => PhaseChangeSpendsNothing(s, i, Ended(None), scope);
    case SettleCycle(i) => PhaseChangeSpendsNothing(s, i, Settled(s.cycles[i].phase.outcome), scope);
    case Arrive(_, _, _) =>
    case Pass(_) =>
    case Operator(_, _) =>
  }

  ghost predicate PausedWithin(s: Service, scope: string, budget: nat) {
    StatusOf(s, scope) == Some(Paused) && SaveBudget(s, scope) <= budget
  }

  lemma {:induction false} PausedStepKeepsBudget(s: Service, e: Event, scope: string, budget: nat)
    requires Exclusive(s.cycles) && Enabled(s, e) && !(e.Operator? && e.scope == scope)
    requires PausedWithin(s, scope, budget)
    ensures PausedWithin(Step(s, e), scope, budget)
  {
    PauseSticks(s, e, scope);
    PausedBudgetNeverGrows(s, e, scope);
  }

  /** Only an operator ends a pause, and no cycle that had not passed its status check before it
      gets to save. */
  lemma {:induction false} PausedRunKeepsBudget(run: seq<Service>, es: seq<Event>, scope: string, first: nat, last: nat)
    requires Run(run, es) && first <= last < |run| && StatusOf(run[first], scope) == Some(Paused)
    requires forall k :: first <= k < last ==> !(es[k].Operator? && es[k].scope == scope)
    ensures PausedWithin(run[last], scope, SaveBudget(run[first], scope))
    decreases last - first
  {
    if first < last {
      var s, e := run[last - 1], es[last - 1];
      PausedRunKeepsBudget(run, es, scope, first, last - 1);
      assert Exclusive(s.cycles) by { RunKeepsInvariants(run, es, last - 1); }
      assert Enabled(s, e) && run[last] == Step(s, e) by { assert StepAt(run, es, last - 1); }
      PausedStepKeepsBudget(s, e, scope, SaveBudget(run[first], scope));
    }
  }

  /** Once a scope is paused and until an operator acts on it, at most one more cycle saves:
      the one that had already passed its status check. */
  lemma {:induction false} AtMostOneSaveAfterPause(run: seq<Service>, es: seq<Event>, scope: string, first: nat, last: nat)
    requires Run(run, es) && first <= last < |run| && StatusOf(run[first], scope) == Some(Paused)
    requires forall k :: first <= k < last ==> !(es[k].Operator? && es[k].scope == scope)
    ensures |SavedIn(run[last].cycles, scope)| <=
            |SavedIn(run[first].cycles, scope)| + if HasChecked(run[first], scope) then 1 else 0
  {
    PausedRunKeepsBudget(run, es, scope, first, last);
  }

  /** The mutex entry of a scope is never removed: the `finally` callback compares the stored
      promise with one that is never stored. */
  lemma {:induction false} MutexNeverShrinks(run: seq<Service>, es: seq<Event>, k: nat, scope: string)
    requires Run(run, es) && k < |es| && scope in run[k].scopeMutex
    ensures scope in run[k + 1].scopeMutex
  {
    RunKeepsInvariants(run, es, k);
    assert StepAt(run, es, k);
  }

  /* ---------------------------------- progress -------------------------------- */

  /** The steps a cycle itself takes. */
  predicate IsCycleStep(e: Event) {
    e.LoadState? || e.CheckStatus? || e.SaveState? || e.Fail? || e.SettleCycle?
  }

  ghost predicate CanMove(s: Service, i: nat) {
    Enabled(s, LoadState(i)) || Enabled(s, CheckStatus(i)) || Enabled(s, Fail(i)) || Enabled(s, SettleCycle(i))
  }

  lemma {:induction false} SomeCycleCanMove(s: Service, i: nat) returns (j: nat)
    requires ChainInv(s.cycles) && i < |s.cycles| && !s.cycles[i].phase.Settled?
    ensures j <= i && s.cycles[j].scope == s.cycles[i].scope && !s.cycles[j].phase.Settled? && CanMove(s, j)
  {
    var prev := s.cycles[i].prev;
    if s.cycles[i].phase.Waiting? && prev.Some? && !Resolved(s, prev.value) {
      j := SomeCycleCanMove(s, prev.value.cycle);
    } else {
      j := i;
    }
  }

  /** What is left to do: the phases each cycle still has to go through. */
  function WorkOf(phase: Phase): nat {
    match phase
    case Waiting => 4
    case Loaded(_) => 3
    case Checked(_) => 2
    case Ended(_) => 1
    case Settled(_) => 0
  }

  function Work(cs: seq<Cycle>): nat {
    if cs == [] then 0 else Work(cs[..|cs| - 1]) + WorkOf(cs[|cs| - 1].phase)
  }

  lemma {:induction false} WorkChanges(cs: seq<Cycle>, i: nat, c: Cycle)
    requires i < |cs|
    ensures Work(cs[i := c]) == Work(cs) - WorkOf(cs[i].phase) + WorkOf(c.phase)
  {
    var n := |cs| - 1;
    if i == n {
      assert cs[i := c][..n] == cs[..n];
    } else {
      WorkChanges(cs[..n], i, c);
      assert cs[i := c][..n] == cs[..n][i := c];
    }
  }

  lemma {:induction false} CycleStepUsesWork(s: Service, e: Event)
    requires Enabled(s, e) && IsCycleStep(e)
    ensures Work(Step(s, e).cycles) < Work(s.cycles)
  {
    var c, cs := e.cycle, Step(s, e).cycles;
    assert cs == s.cycles[c := cs[c]];
    WorkChanges(s.cycles, c, cs[c]);
  }

  /** The queue of a scope never stalls: while a cycle is unsettled, it or one before it in its
      scope can take a step, and every step a cycle takes uses up work, so that all cycles queued
      settle after finitely many of them. */
  lemma {:induction false} QueueNeverStalls(run: seq<Service>, es: seq<Event>, k: nat, i: nat)
    requires Run(run, es) && k < |es| && i < |run[k].cycles| && !run[k].cycles[i].phase.Settled?
    ensures exists j: nat :: j <= i && run[k].cycles[j].scope == run[k].cycles[i].scope && CanMove(run[k], j)
    ensures IsCycleStep(es[k]) ==> Work(run[k + 1].cycles) < Work(run[k].cycles)
  {
    RunKeepsInvariants(run, es, k);
    var j := SomeCycleCanMove(run[k], i);
    assert StepAt(run, es, k);
    if IsCycleStep(es[k]) { CycleStepUsesWork(run[k], es[k]); }
  }
}
