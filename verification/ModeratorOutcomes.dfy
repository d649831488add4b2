/** What becomes of messages, cycles and scopes in a run of the moderator, told by the events of the
    run and the tables they found (src/moderator/service.ts). */
module ModeratorOutcomes {
  import opened SeqTools
  import opened ModeratorState
  import opened ModeratorProtocol
  import opened ModeratorRuns
  import Strings

  /* ------------------------------- how a cycle ends ----------------------------- */

  /** The state table has a row for the scope, and it says paused or archived. */
  ghost predicate OnHold(s: Service, scope: string) {
    scope in s.rows && scope in s.status && (s.status[scope] == Paused || s.status[scope] == Archived)
  }

  /** Event j is cycle i's status check, and it finds the scope on hold. */
  ghost predicate HoldAt(run: seq<Service>, es: seq<Event>, j: nat, i: nat)
    requires |run| == |es| + 1 && j < |es|
  {
    es[j] == CheckStatus(i) && i < |run[j].cycles| && OnHold(run[j], run[j].cycles[i].scope)
  }

  ghost predicate FoundHold(run: seq<Service>, es: seq<Event>, k: nat, i: nat)
    requires |run| == |es| + 1 && k <= |es|
  {
    exists j :: 0 <= j < k && HoldAt(run, es, j, i)
  }

  ghost predicate Failed(es: seq<Event>, k: nat, i: nat)
    requires k <= |es|
  {
    exists j :: 0 <= j < k && es[j] == Fail(i)
  }

  ghost predicate SavedAs(es: seq<Event>, k: nat, i: nat, o: Outcome)
    requires k <= |es|
  {
    exists j :: 0 <= j < k && es[j] == SaveState(i, o)
  }

  ghost predicate NeverSaved(es: seq<Event>, k: nat, i: nat)
    requires k <= |es|
  {
    forall o :: !SavedAs(es, k, i, o)
  }

  /** Nothing that ends cycle i has happened yet. */
  ghost predicate Open(run: seq<Service>, es: seq<Event>, k: nat, i: nat)
    requires |run| == |es| + 1 && k <= |es|
  {
    !Failed(es, k, i) && !FoundHold(run, es, k, i) && NeverSaved(es, k, i)
  }

  predicate Over(phase: Phase) { phase.Ended? || phase.Settled? }

  /** The phase of cycle i agrees with the events so far. */
  ghost predicate Told(run: seq<Service>, es: seq<Event>, k: nat, i: nat)
    requires |run| == |es| + 1 && k <= |es|
  {
    if i >= |run[k].cycles| || !Over(run[k].cycles[i].phase) then Open(run, es, k, i)
    else match run[k].cycles[i].phase.outcome
      case None => (Failed(es, k, i) || FoundHold(run, es, k, i)) && NeverSaved(es, k, i)
      case Some(o) => !Failed(es, k, i) && !FoundHold(run, es, k, i)
                      && forall o' :: SavedAs(es, k, i, o') <==> o' == o
  }

  lemma {:induction false} OneMoreEvent(run: seq<Service>, es: seq<Event>, k: nat, i: nat)
    requires |run| == |es| + 1 && 0 < k <= |es|
    ensures Failed(es, k, i) <==> Failed(es, k - 1, i) || es[k - 1] == Fail(i)
    ensures FoundHold(run, es, k, i) <==> FoundHold(run, es, k - 1, i) || HoldAt(run, es, k - 1, i)
    ensures forall o :: SavedAs(es, k, i, o) <==> SavedAs(es, k - 1, i, o) || es[k - 1] == SaveState(i, o)
  {
  }

  /** The events that touch the phase of cycle i. */
  predicate Touches(e: Event, i: nat) {
    match e
    case LoadState(j) => j == i
    case CheckStatus(j) => j == i
    case SaveState(j, _) => j == i
    case Fail(j) => j == i
    case SettleCycle(j) => j == i
    case _ => false
  }

  lemma {:induction false} UntouchedPhase(s: Service, e: Event, i: nat)
    requires Enabled(s, e) && !Touches(e, i)
    ensures var s' := Step(s, e);
            if i < |s.cycles| then i < |s'.cycles| && s'.cycles[i] == s.cycles[i]
            else i < |s'.cycles| ==> s'.cycles[i].phase.Waiting?
  {
  }

  lemma {:induction false} TouchedPhase(s: Service, e: Event, i: nat)
    requires Enabled(s, e) && Touches(e, i)
    ensures i < |s.cycles| == |Step(s, e).cycles|
    ensures var before, after := s.cycles[i].phase, Step(s, e).cycles[i].phase;
            match e
            case LoadState(_) => !Over(before) && !Over(after)
            case CheckStatus(_) => !Over(before) && if OnHold(s, s.cycles[i].scope) then after == Ended(None) else !Over(after)
            case SaveState(_, o) => !Over(before) && after == Ended(Some(o))
            case Fail(_) => !Over(before) && after == Ended(None)
            case SettleCycle(_) => Over(before) && Over(after) && after.outcome == before.outcome
            case _ => true
  {
  }

  lemma {:induction false} ToldNext(run: seq<Service>, es: seq<Event>, k: nat, i: nat)
    requires |run| == |es| + 1 && 0 < k <= |es| && StepAt(run, es, k - 1) && Told(run, es, k - 1, i)
    ensures Told(run, es, k, i)
  {
    if Touches(es[k - 1], i) {
      ToldTouched(run, es, k, i);
    } else {
      OneMoreEvent(run, es, k, i);
      UntouchedPhase(run[k - 1], es[k - 1], i);
    }
  }

  lemma {:induction false} ToldTouched(run: seq<Service>, es: seq<Event>, k: nat, i: nat)
    requires |run| == |es| + 1 && 0 < k <= |es| && StepAt(run, es, k - 1) && Told(run, es, k - 1, i)
    requires Touches(es[k - 1], i)
    ensures Told(run, es, k, i)
  {
    OneMoreEvent(run, es, k, i);
    TouchedPhase(run[k - 1], es[k - 1], i);
  }

  lemma {:induction false} CyclesAreTold(run: seq<Service>, es: seq<Event>, k: nat, i: nat)
    requires Run(run, es) && k <= |es|
    ensures Told(run, es, k, i)
  {
    if k > 0 {
      CyclesAreTold(run, es, k - 1, i);
      assert StepAt(run, es, k - 1);
      ToldNext(run, es, k, i);
    }
  }

  /** A cycle that is over, settled or not, has saved exactly unless a call of it failed or its
      status check found a row of its scope that was paused or archived; what it saved is the
      outcome of its one save. Until then none of these has happened to it. */
  lemma {:induction false} CycleSavesUnlessHeldOrFailed(run: seq<Service>, es: seq<Event>, k: nat, i: nat)
    requires Run(run, es) && k <= |es| && i < |run[k].cycles|
    ensures var phase := run[k].cycles[i].phase;
            && (Over(phase) ==>
                  && (NeverSaved(es, k, i) <==> Failed(es, k, i) || FoundHold(run, es, k, i))
                  && forall o :: SavedAs(es, k, i, o) <==> phase.outcome == Some(o))
            && (!Over(phase) ==> Open(run, es, k, i))
  {
    CyclesAreTold(run, es, k, i);
    var phase := run[k].cycles[i].phase;
    if Over(phase) && phase.outcome.Some? { assert SavedAs(es, k, i, phase.outcome.value); }
  }

  /* ---------------------------------- debouncing -------------------------------- */

  ghost predicate ArrivesAt(e: Event, key: string) {
    e.Arrive? && BufferKey(e.scope, e.user) == key
  }

  lemma {:induction false} ClockStep(s: Service, e: Event)
    requires Enabled(s, e)
    ensures var s' := Step(s, e);
            && s'.debounceMs == s.debounceMs && s.now <= s'.now
            && s'.lastAt == if e.Arrive? then s.lastAt[BufferKey(e.scope, e.user) := s.now] else s.lastAt
  {
    match e
    case Arrive(scope, user, m) => ArrivalSetsClock(s, BufferKey(scope, user), m);
    case Fire(id) => BatchKeepsClock(s.(timers := s.timers - {id}), s.timers[id].key);
    case SaveState(i, o) => SaveKeepsClock(s, i, o);
    case Pass(_) =>
    case LoadState(_) =>
    case CheckStatus(_) =>
    case Fail(_) =>
    case SettleCycle(_) =>
    case Operator(_, _) =>
  }

  lemma {:induction false} ArrivalSetsClock(s: Service, key: string, m: Message)
    ensures var s' := Arrives(s, key, m); s'.debounceMs == s.debounceMs && s'.now == s.now && s'.lastAt == s.lastAt[key := s.now]
  {
  }

  lemma {:induction false} BatchKeepsClock(s: Service, key: string)
    ensures var s' := ProcessesBuffer(s, key); s'.debounceMs == s.debounceMs && s'.now == s.now && s'.lastAt == s.lastAt
  {
  }

  lemma {:induction false} SaveKeepsClock(s: Service, i: nat, o: Outcome)
    requires i < |s.cycles| && s.cycles[i].phase.Checked?
    ensures var s' := Saves(s, i, o); s'.debounceMs == s.debounceMs && s'.now == s.now && s'.lastAt == s.lastAt
  {
  }

  lemma {:induction false} ClockNext(run: seq<Service>, es: seq<Event>, k: nat, key: string)
    requires Run(run, es) && k < |es|
    ensures run[k + 1].debounceMs == run[k].debounceMs && run[k].now <= run[k + 1].now
    ensures Get(run[k + 1].lastAt, key) == if ArrivesAt(es[k], key) then Some(run[k].now) else Get(run[k].lastAt, key)
  {
    var s' := run[k + 1];
    assert s'.debounceMs == run[k].debounceMs && run[k].now <= s'.now
           && s'.lastAt == if es[k].Arrive? then run[k].lastAt[BufferKey(es[k].scope, es[k].user) := run[k].now] else run[k].lastAt by {
      assert StepAt(run, es, k);
      ClockStep(run[k], es[k]);
    }
  }

  lemma {:induction false} DebounceIsConstant(run: seq<Service>, es: seq<Event>, k: nat)
    requires Run(run, es) && k <= |es|
    ensures run[k].debounceMs == run[0].debounceMs
  {
    if k > 0 {
      DebounceIsConstant(run, es, k - 1);
      ClockNext(run, es, k - 1, "");
    }
  }

  /** lastAt is the time of the last arrival under a key. */
  lemma {:induction false} LastArrival(run: seq<Service>, es: seq<Event>, k: nat, key: string)
    requires Run(run, es) && k <= |es|
    ensures key in run[k].lastAt ==>
              && (exists j :: 0 <= j < k && ArrivesAt(es[j], key) && run[j].now == run[k].lastAt[key])
              && forall j :: 0 <= j < k && ArrivesAt(es[j], key) ==> run[j].now <= run[k].lastAt[key]
    ensures key in run[k].lastAt ==> run[k].lastAt[key] <= run[k].now
    ensures (exists j :: 0 <= j < k && ArrivesAt(es[j], key)) ==> key in run[k].lastAt
  {
    if k > 0 {
      LastArrival(run, es, k - 1, key);
      ClockNext(run, es, k - 1, key);
    }
  }

  /** A buffer is cut into a trigger only after debounceMs without a message under its key. */
  lemma {:induction false} FiresAfterSilence(run: seq<Service>, es: seq<Event>, k: nat, j: nat, id: nat)
    requires Run(run, es) && j < k < |es| && es[k] == Fire(id)
    ensures id in run[k].timers
    ensures ArrivesAt(es[j], run[k].timers[id].key) ==> run[j].now + run[0].debounceMs <= run[k].now
  {
    assert StepAt(run, es, k);
    RunKeepsInvariants(run, es, k);
    DebounceIsConstant(run, es, k);
    LastArrival(run, es, k, run[k].timers[id].key);
  }

  /** And as soon as that long has passed, its timer may fire. */
  lemma {:induction false} SilentBufferMayFire(run: seq<Service>, es: seq<Event>, k: nat, key: string)
    requires Run(run, es) && k <= |es| && key in run[k].buffers
    requires forall j :: 0 <= j < k && ArrivesAt(es[j], key) ==> run[j].now + run[0].debounceMs <= run[k].now
    ensures Enabled(run[k], Fire(run[k].buffers[key].timer)) && run[k].timers[run[k].buffers[key].timer].key == key
  {
    RunKeepsInvariants(run, es, k);
    DebounceIsConstant(run, es, k);
    LastArrival(run, es, k, key);
  }

  lemma {:induction false} JoinedLines(batch: seq<Message>)
    requires batch != []
    ensures JoinLines(batch) == Strings.Join(seq(|batch|, i requires 0 <= i < |batch| => batch[i].text), "\n")
  {
    var texts := seq(|batch|, i requires 0 <= i < |batch| => batch[i].text);
    if |batch| > 1 {
      JoinedLines(batch[1..]);
      assert texts[1..] == seq(|batch| - 1, i requires 0 <= i < |batch| - 1 => batch[1..][i].text);
    }
  }

  /** A trigger is the last message of its batch with another text, which splits at line breaks into
      the texts of the batch, in order, if none of them holds a line break. */
  lemma {:induction false} TriggerHoldsEveryText(batch: seq<Message>)
    requires batch != []
    ensures TriggerOf(batch).(text := "") == batch[|batch| - 1].(text := "")
    ensures (forall i :: 0 <= i < |batch| ==> !Strings.Contains(batch[i].text, "\n")) ==>
              Strings.Split(TriggerOf(batch).text, "\n") == seq(|batch|, i requires 0 <= i < |batch| => batch[i].text)
  {
    var texts := seq(|batch|, i requires 0 <= i < |batch| => batch[i].text);
    JoinedLines(batch);
    if forall i :: 0 <= i < |batch| ==> !Strings.Contains(batch[i].text, "\n") {
      Strings.SplitJoin(texts, "\n");
    }
  }

  /* ------------------------------------ pauses ---------------------------------- */

  ghost predicate PausesAt(s: Service, e: Event, scope: string) {
    || (e == Operator(scope, Paused) && scope in s.rows)
    || (e.SaveState? && e.cycle < |s.cycles| && s.cycles[e.cycle].scope == scope && e.result.Decided? && e.result.pause)
  }

  ghost predicate ResumesAt(s: Service, e: Event, scope: string) {
    e.Operator? && e.scope == scope && e.status != Paused && scope in s.rows
  }

  /** Paused by event j - 1, or from the start for j = 0, and not resumed by an operator since. */
  ghost predicate PausedSince(run: seq<Service>, es: seq<Event>, k: nat, scope: string, j: nat)
    requires |run| == |es| + 1 && k <= |es|
  {
    && j <= k
    && (if j == 0 then StatusOf(run[0], scope) == Some(Paused) else PausesAt(run[j - 1], es[j - 1], scope))
    && forall l :: j <= l < k ==> !ResumesAt(run[l], es[l], scope)
  }

  lemma {:induction false} StatusStep(s: Service, e: Event, scope: string)
    requires Enabled(s, e)
    ensures StatusOf(Step(s, e), scope) == Some(Paused) <==>
              PausesAt(s, e, scope) || (StatusOf(s, scope) == Some(Paused) && !ResumesAt(s, e, scope))
  {
  }

  lemma {:induction false} StatusNext(run: seq<Service>, es: seq<Event>, k: nat, scope: string)
    requires Run(run, es) && k < |es|
    ensures StatusOf(run[k + 1], scope) == Some(Paused) <==>
              PausesAt(run[k], es[k], scope) || (StatusOf(run[k], scope) == Some(Paused) && !ResumesAt(run[k], es[k], scope))
  {
    assert StepAt(run, es, k);
    StatusStep(run[k], es[k], scope);
  }

  /** A scope is paused exactly from a pause, by an operator or asked for by a save, until an operator
      sets another status. */
  lemma {:induction false} PausedIff(run: seq<Service>, es: seq<Event>, k: nat, scope: string)
    requires Run(run, es) && k <= |es|
    ensures StatusOf(run[k], scope) == Some(Paused) <==> exists j :: PausedSince(run, es, k, scope, j)
  {
    if k == 0 {
      assert StatusOf(run[0], scope) == Some(Paused) <==> PausedSince(run, es, 0, scope, 0);
    } else {
      var p := k - 1;
      PausedIff(run, es, p, scope);
      StatusNext(run, es, p, scope);
      if PausesAt(run[p], es[p], scope) { assert PausedSince(run, es, k, scope, k); }
      if j: nat :| PausedSince(run, es, p, scope, j) {
        if !ResumesAt(run[p], es[p], scope) { assert PausedSince(run, es, k, scope, j); }
      }
      if j: nat :| PausedSince(run, es, k, scope, j) {
        if j < k { assert PausedSince(run, es, p, scope, j); }
      }
    }
  }

  /** The first save of a scope gives it a row, live unless the save asks to pause; any later one
      leaves its status alone unless it asks that. */
  lemma {:induction false} SavesLeaveStatus(s: Service, i: nat, o: Outcome)
    requires Enabled(s, SaveState(i, o)) && !(o.Decided? && o.pause)
    ensures var scope := s.cycles[i].scope;
            var before, after := StatusOf(s, scope), StatusOf(Step(s, SaveState(i, o)), scope);
            after == if before.None? then Some(Live) else before
  {
  }
}
