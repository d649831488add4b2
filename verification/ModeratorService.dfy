/** The service object itself: closures over Maps, updated in place (src/moderator/service.ts).
    Each method is one step of the protocol. */
module ModeratorService {
  import opened SeqTools
  import opened ModeratorState
  import opened ModeratorProtocol

  class Moderator {
    const debounceMs: nat
    var now: nat
    var buffers: map<string, Buffer>
    var timers: map<nat, Timer>
    var nextTimer: nat
    var scopeMutex: map<string, Promise>
    var cycles: seq<Cycle>
    var rows: map<string, Row>
    var status: map<string, Status>
    ghost var arrived: map<string, seq<Message>>
    var lastAt: map<string, nat>

    ghost function View(): Service
      reads this
    {
      Service(debounceMs, now, buffers, timers, nextTimer, scopeMutex, cycles, rows, status, arrived, lastAt)
    }

    constructor (debounceMs: nat, now: nat, rows: map<string, Row>, status: map<string, Status>)
      ensures View() == Start(debounceMs, now, rows, status)
    {
      this.debounceMs, this.now, this.rows, this.status := debounceMs, now, rows, status;
      buffers, timers, nextTimer := map[], map[], 0;
      scopeMutex, cycles := map[], [];
      arrived, lastAt := map[], map[];
    }

    method OnMessageReceived(scope: string, user: string, message: Message)
      modifies this
      ensures View() == Step(old(View()), Arrive(scope, user, message))
    {
      Debounce(BufferKey(scope, user), message);
    }

    /** Appends to the key's buffer and restarts its timer. */
    method Debounce(key: string, message: Message)
      modifies this
      ensures View() == Arrives(old(View()), key, message)
    {
      ghost var all := ArrivedOf(View(), key) + [message];
      var pending := [];
      if key in buffers {
        var existing := buffers[key];
        pending := existing.messages;
        timers := timers - {existing.timer};
      }
      timers := timers[nextTimer := Timer(key, now + debounceMs)];
      buffers := buffers[key := Buffer(pending + [message], nextTimer)];
      nextTimer := nextTimer + 1;
      arrived := arrived[key := all];
      lastAt := lastAt[key := now];
    }

    method EnqueueScopeCycle(key: string, messages: seq<Message>)
      requires messages != []
      modifies `cycles, `scopeMutex
      ensures View() == Enqueues(old(View()), key, messages)
    {
      var (scope, user) := SplitKey(key);
      var trigger := JoinBatch(messages);
      var prev := if scope in scopeMutex then Some(scopeMutex[scope]) else None;
      var quietSince := if key in lastAt then lastAt[key] else 0;
      scopeMutex := scopeMutex[scope := Finally(|cycles|)];
      cycles := cycles + [Cycle(scope, user, trigger, prev, Waiting, key, messages, quietSince, now)];
    }

    method ProcessBufferFor(key: string)
      modifies `buffers, `cycles, `scopeMutex
      ensures View() == ProcessesBuffer(old(View()), key)
    {
      if key !in buffers { return; }
      var messages := buffers[key].messages;
      buffers := buffers - {key};
      if messages == [] { return; }
      EnqueueScopeCycle(key, messages);
    }

    method TimerFires(id: nat)
      requires Enabled(View(), Fire(id))
      modifies this
      ensures View() == Step(old(View()), Fire(id))
    {
      var key := timers[id].key;
      timers := timers - {id};
      ProcessBufferFor(key);
    }

    method LoadCycleState(i: nat)
      requires Enabled(View(), LoadState(i))
      modifies `cycles
      ensures View() == Step(old(View()), LoadState(i))
    {
      var scope := cycles[i].scope;
      var row := if scope in rows then Some(rows[scope]) else None;
      cycles := cycles[i := cycles[i].(phase := Loaded(Load(row)))];
    }

    method CheckScopeStatus(i: nat)
      requires Enabled(View(), CheckStatus(i))
      modifies `cycles
      ensures View() == Step(old(View()), CheckStatus(i))
    {
      var c := cycles[i];
      if c.scope in rows && c.scope in status && (status[c.scope].Paused? || status[c.scope].Archived?) {
        cycles := cycles[i := c.(phase := Ended(None))];
      } else {
        cycles := cycles[i := c.(phase := Checked(c.phase.snapshot))];
      }
    }

    method FinishCycle(i: nat, outcome: Outcome)
      requires Enabled(View(), SaveState(i, outcome))
      modifies `cycles, `rows, `status
      ensures View() == Step(old(View()), SaveState(i, outcome))
    {
      var c := cycles[i];
      var updated := RunToSave(c.phase.snapshot, c.trigger, outcome);
      var row := if c.scope in rows then Some(rows[c.scope]) else None;
      var current := if c.scope in rows && c.scope in status then status[c.scope] else Live;
      rows := rows[c.scope := Save(row, updated, 1, if outcome.CacheHit? then 0 else 1)];
      status := status[c.scope := if outcome.Decided? && outcome.pause then Paused else current];
      cycles := cycles[i := c.(phase := Ended(Some(outcome)))];
    }

    method SettleFinally(i: nat)
      requires Enabled(View(), SettleCycle(i))
      modifies `cycles, `scopeMutex
      ensures View() == Step(old(View()), SettleCycle(i))
    {
      var c := cycles[i];
      if c.scope in scopeMutex && scopeMutex[c.scope] == Next(i) {
        scopeMutex := scopeMutex - {c.scope};
      }
      cycles := cycles[i := c.(phase := Settled(c.phase.outcome))];
    }
  }

  /** `messages.map((m) => m.text).join("\n")` under the last message's other fields. */
  method JoinBatch(messages: seq<Message>) returns (trigger: Message)
    requires messages != []
    ensures trigger == TriggerOf(messages)
  {
    var n := |messages| - 1;
    var flat := messages[n].text;
    while n > 0
      invariant 0 <= n < |messages| && flat == JoinLines(messages[n..])
    {
      n := n - 1;
      assert messages[n..][1..] == messages[n + 1..];
      flat := messages[n].text + "\n" + flat;
    }
    assert messages[0..] == messages;
    trigger := messages[|messages| - 1].(text := flat);
  }

  /** The stretch of a cycle between its status check and its save. */
  method RunToSave(state: State, trigger: Message, outcome: Outcome) returns (updated: State)
    ensures updated == Cycled(state, trigger, outcome)
  {
    match outcome
    case CacheHit =>
      updated := state.(recentMessages := LastN(state.recentMessages + [trigger], RECENT_MESSAGES_CAP),
                        messagesSinceLastReview := state.messagesSinceLastReview + 1);
    case Decided(decision, now, placeholders, reports, _) =>
      updated := ApplyDecisionToState(state, MessageTrigger(trigger), decision, now);
      var ws := updated.activeWorkers;
      var workers := seq(|ws|, i requires 0 <= i < |ws| => Splice(ws[i], placeholders));
      ghost var spliced := workers;
      for n := 0 to |reports|
        invariant ReportAll(spliced, reports) == ReportAll(workers, reports[n..])
      {
        var r := reports[n];
        assert reports[n..][0] == r && reports[n..][1..] == reports[n + 1..];
        workers := seq(|workers|, i requires 0 <= i < |workers| => Report(workers[i], r));
      }
      updated := updated.(activeWorkers := workers);
  }
}
