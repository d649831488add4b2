/** The moderator service as a step relation (src/moderator/service.ts): messages arrive and are
    debounced, timers fire, and cycles of any number of scopes load, check, save and settle in
    any interleaving. A step is a stretch of the source between two awaits. */
module ModeratorProtocol {
  import opened SeqTools
  import opened Strings
  import opened ModeratorState

  /* ----------------------------------- keys ---------------------------------- */

  const KEY_SEPARATOR := "::"

  function BufferKey(scope: string, user: string): string {
    scope + KEY_SEPARATOR + user
  }

  /** `const [scopeKey, userId] = key.split("::")`; a part that is missing reads as "". */
  function SplitKey(key: string): (string, string) {
    var parts := Split(key, KEY_SEPARATOR);
    (parts[0], if |parts| > 1 then parts[1] else "")
  }

  lemma {:induction false} SplitFirst(a: string, b: string)
    requires forall i :: 0 <= i < |a| ==> !OccursAt(KEY_SEPARATOR, a + KEY_SEPARATOR + b, i)
    ensures Split(a + KEY_SEPARATOR + b, KEY_SEPARATOR) == [a] + Split(b, KEY_SEPARATOR)
  {
    var s := a + KEY_SEPARATOR + b;
    assert OccursAt(KEY_SEPARATOR, s, |a|);
    IndexOfIsFirst(s, KEY_SEPARATOR, 0);
    assert IndexOf(s, KEY_SEPARATOR, 0) == |a|;
    assert s[..|a|] == a && s[|a| + 2..] == b;
  }

  /** Where the first separator of a buffer key is. */
  lemma {:induction false} FirstSeparator(scope: string, user: string)
    ensures OccursAt(KEY_SEPARATOR, BufferKey(scope, user), |scope|)
    ensures IndexOf(BufferKey(scope, user), KEY_SEPARATOR, 0) == |scope|
       <==> !Contains(scope, KEY_SEPARATOR) && (scope == "" || scope[|scope| - 1] != ':')
  {
    var s := BufferKey(scope, user);
    IndexOfIsFirst(s, KEY_SEPARATOR, 0);
    assert OccursAt(KEY_SEPARATOR, s, |scope|);
    forall k | 0 <= k < |scope| - 1
      ensures OccursAt(KEY_SEPARATOR, s, k) <==> OccursAt(KEY_SEPARATOR, scope, k)
    {
      assert s[k..k + 2] == scope[k..k + 2];
    }
    if |scope| > 0 {
      assert s[|scope| - 1..|scope| + 1] == [scope[|scope| - 1], ':'];
      assert OccursAt(KEY_SEPARATOR, s, |scope| - 1) <==> scope[|scope| - 1] == ':';
    }
  }

  /** Splitting a buffer key recovers scope and user exactly when neither contains "::" and the
      scope does not end in ':'. */
  lemma {:induction false} SplitKeyInverts(scope: string, user: string)
    ensures SplitKey(BufferKey(scope, user)) == (scope, user)
       <==> !Contains(scope, KEY_SEPARATOR) && !Contains(user, KEY_SEPARATOR)
            && (scope == "" || scope[|scope| - 1] != ':')
  {
    var s := BufferKey(scope, user);
    var i := IndexOf(s, KEY_SEPARATOR, 0);
    FirstSeparator(scope, user);
    IndexOfIsFirst(s, KEY_SEPARATOR, 0);
    assert SplitKey(s).0 == s[..i];
    assert s[..|scope|] == scope;
    if i == |scope| {
      SplitFirst(scope, user);
      var j := IndexOf(user, KEY_SEPARATOR, 0);
      IndexOfIsFirst(user, KEY_SEPARATOR, 0);
      assert Split(user, KEY_SEPARATOR)[0] == if j < 0 then user else user[..j];
    }
  }

  /* ----------------------------------- state --------------------------------- */

  datatype Status = Live | Paused | Archived

  datatype Timer = Timer(key: string, due: nat)

  datatype Buffer = Buffer(messages: seq<Message>, timer: nat)

  /** Where a queued cycle stands. Waiting: behind the promise of its predecessor. Loaded: has
      read its state row. Checked: has found the scope live. Ended: its own promise is settled.
      Settled: the `finally` callback ran, so its successor may start. */
  datatype Phase = Waiting
                 | Loaded(snapshot: State)
                 | Checked(snapshot: State)
                 | Ended(outcome: Option<Outcome>)
                 | Settled(outcome: Option<Outcome>)

  /** `next` of a cycle, and `next.finally(...)`, which is what the mutex map stores. */
  datatype Promise = Next(cycle: nat) | Finally(cycle: nat)

  /** batch, quietSince and firedAt record where the trigger came from. */
  datatype Cycle = Cycle(scope: string, user: string, trigger: Message, prev: Option<Promise>, phase: Phase,
                         key: string, batch: seq<Message>, quietSince: nat, firedAt: nat)

  datatype Service = Service(
    debounceMs: nat,
    now: nat,
    buffers: map<string, Buffer>,
    timers: map<nat, Timer>,
    nextTimer: nat,
    scopeMutex: map<string, Promise>,
    cycles: seq<Cycle>,
    rows: map<string, Row>,
    status: map<string, Status>,
    // history: every message accepted under a key, and when the last one came
    arrived: map<string, seq<Message>>,
    lastAt: map<string, nat>)

  function Get<K, V>(m: map<K, V>, k: K): Option<V> {
    if k in m then Some(m[k]) else None
  }

  function ArrivedOf(s: Service, key: string): seq<Message> {
    if key in s.arrived then s.arrived[key] else []
  }

  function PendingOf(s: Service, key: string): seq<Message> {
    if key in s.buffers then s.buffers[key].messages else []
  }

  function Start(debounceMs: nat, now: nat, rows: map<string, Row>, status: map<string, Status>): Service {
    Service(debounceMs, now, map[], map[], 0, map[], [], rows, status, map[], map[])
  }

  /* -------------------------------- the triggers ----------------------------- */

  function JoinLines(ms: seq<Message>): string
    requires ms != []
  {
    if |ms| == 1 then ms[0].text else ms[0].text + "\n" + JoinLines(ms[1..])
  }

  function TriggerOf(batch: seq<Message>): Message
    requires batch != []
  {
    batch[|batch| - 1].(text := JoinLines(batch))
  }

  /* ----------------------------------- steps --------------------------------- */

  datatype Event =
    | Arrive(scope: string, user: string, message: Message)
    | Pass(ms: nat)
    | Fire(timer: nat)
    | LoadState(cycle: nat)
    | CheckStatus(cycle: nat)
    | SaveState(cycle: nat, result: Outcome)
    | Fail(cycle: nat)
    | SettleCycle(cycle: nat)
    | Operator(scope: string, status: Status)

  /** `onMessageReceived` once the message has passed its filters. */
  function Arrives(s: Service, key: string, m: Message): Service {
    var id := s.nextTimer;
    var kept := if key in s.buffers then s.timers - {s.buffers[key].timer} else s.timers;
    s.(buffers := s.buffers[key := Buffer(PendingOf(s, key) + [m], id)],
       timers := kept[id := Timer(key, s.now + s.debounceMs)],
       nextTimer := id + 1,
       arrived := s.arrived[key := ArrivedOf(s, key) + [m]],
       lastAt := s.lastAt[key := s.now])
  }

  /** `enqueueScopeCycle` */
  function Enqueues(s: Service, key: string, batch: seq<Message>): Service
    requires batch != []
  {
    var (scope, user) := SplitKey(key);
    var quiet := if key in s.lastAt then s.lastAt[key] else 0;
    s.(cycles := s.cycles + [Cycle(scope, user, TriggerOf(batch), Get(s.scopeMutex, scope), Waiting,
                                   key, batch, quiet, s.now)],
       scopeMutex := s.scopeMutex[scope := Finally(|s.cycles|)])
  }

  /** `processBufferFor` */
  function ProcessesBuffer(s: Service, key: string): Service {
    if key !in s.buffers then s
    else
      var messages := s.buffers[key].messages;
      var s' := s.(buffers := s.buffers - {key});
      if messages == [] then s' else Enqueues(s', key, messages)
  }

  function SetPhase(s: Service, i: nat, phase: Phase): Service
    requires i < |s.cycles|
  {
    s.(cycles := s.cycles[i := s.cycles[i].(phase := phase)])
  }

  predicate Resolved(s: Service, p: Promise) {
    p.cycle < |s.cycles| && match p
      case Next(i) => s.cycles[i].phase.Ended? || s.cycles[i].phase.Settled?
      case Finally(i) => s.cycles[i].phase.Settled?
  }

  predicate MayStart(s: Service, c: Cycle) {
    c.phase.Waiting? && (c.prev.Some? ==> Resolved(s, c.prev.value))
  }

  predicate Enabled(s: Service, e: Event) {
    match e
    case Arrive(_, _, _) => true
    case Pass(_) => true
    case Fire(id) => id in s.timers && s.timers[id].due <= s.now
    case LoadState(i) => i < |s.cycles| && MayStart(s, s.cycles[i])
    case CheckStatus(i) => i < |s.cycles| && s.cycles[i].phase.Loaded?
    case SaveState(i, _) => i < |s.cycles| && s.cycles[i].phase.Checked?
    case Fail(i) => i < |s.cycles| &&
      (MayStart(s, s.cycles[i]) || s.cycles[i].phase.Loaded? || s.cycles[i].phase.Checked?)
    case SettleCycle(i) => i < |s.cycles| && s.cycles[i].phase.Ended?
    case Operator(_, _) => true
  }

  function StatusOf(s: Service, scope: string): Option<Status> {
    if scope in s.rows then Get(s.status, scope) else None
  }

  /** The saving cycle's upsert: the JSON row, and the status column only when it asks to pause. */
  function Saves(s: Service, i: nat, o: Outcome): Service
    requires i < |s.cycles| && s.cycles[i].phase.Checked?
  {
    var c := s.cycles[i];
    var row := SaveCycle(Get(s.rows, c.scope), c.phase.snapshot, Saved(c.trigger, o));
    var asked := if o.Decided? && o.pause then Some(Paused) else None;
    var current := match StatusOf(s, c.scope) { case None => Live case Some(st) => st };
    SetPhase(s, i, Ended(Some(o))).(
      rows := s.rows[c.scope := row],
      status := s.status[c.scope := match asked { case None => current case Some(st) => st }])
  }

  function Step(s: Service, e: Event): Service
    requires Enabled(s, e)
  {
    match e
    case Arrive(scope, user, m) => Arrives(s, BufferKey(scope, user), m)
    case Pass(ms) => s.(now := s.now + ms)
    case Fire(id) => ProcessesBuffer(s.(timers := s.timers - {id}), s.timers[id].key)
    case LoadState(i) => SetPhase(s, i, Loaded(Load(Get(s.rows, s.cycles[i].scope))))
    case CheckStatus(i) =>
      var st := StatusOf(s, s.cycles[i].scope);
      SetPhase(s, i, if st == Some(Paused) || st == Some(Archived) then Ended(None)
                     else Checked(s.cycles[i].phase.snapshot))
    case SaveState(i, o) => Saves(s, i, o)
    case Fail(i) => SetPhase(s, i, Ended(None))
    case SettleCycle(i) =>
      var scope := s.cycles[i].scope;
      var s' := SetPhase(s, i, Settled(s.cycles[i].phase.outcome));
      if Get(s.scopeMutex, scope) == Some(Next(i)) then s'.(scopeMutex := s.scopeMutex - {scope}) else s'
    case Operator(scope, st) => if scope in s.rows then s.(status := s.status[scope := st]) else s
  }

  ghost predicate StepAt(run: seq<Service>, es: seq<Event>, i: nat)
    requires |run| == |es| + 1 && i < |es|
  {
    Enabled(run[i], es[i]) && run[i + 1] == Step(run[i], es[i])
  }

  /** A run: the states visited, one step apart, from a service just started. */
  ghost predicate Run(run: seq<Service>, es: seq<Event>) {
    && |run| == |es| + 1
    && run[0] == Start(run[0].debounceMs, run[0].now, run[0].rows, run[0].status)
    && forall i :: 0 <= i < |es| ==> StepAt(run, es, i)
  }

  /* ------------------------------ debounce invariant -------------------------- */

  function BatchOf(key: string): Cycle -> seq<Message> {
    (c: Cycle) => if c.key == key then c.batch else []
  }

  /** The batches cut from a key so far, in the order their cycles were queued. */
  function Fired(s: Service, key: string): seq<Message> {
    FlatMap(BatchOf(key), s.cycles)
  }

  /** Timers and buffers correspond one to one, and a timer waits out the silence. */
  ghost predicate TimersMatch(s: Service) {
    && (forall key <- s.buffers ::
          && s.buffers[key].messages != [] && key in s.lastAt
          && s.buffers[key].timer in s.timers
          && s.timers[s.buffers[key].timer] == Timer(key, s.lastAt[key] + s.debounceMs))
    && (forall id <- s.timers ::
          id < s.nextTimer && s.timers[id].key in s.buffers && s.buffers[s.timers[id].key].timer == id)
  }

  ghost predicate Conserved(s: Service) {
    forall key :: ArrivedOf(s, key) == Fired(s, key) + PendingOf(s, key)
  }

  ghost predicate CyclesFaithful(s: Service) {
    forall c <- s.cycles :: c.batch != [] && c.trigger == TriggerOf(c.batch)
                            && c.quietSince + s.debounceMs <= c.firedAt && (c.scope, c.user) == SplitKey(c.key)
  }

  ghost predicate DebounceInv(s: Service) {
    TimersMatch(s) && Conserved(s) && CyclesFaithful(s)
  }

  lemma {:induction false} SetPhaseKeepsDebounce(s: Service, i: nat, phase: Phase)
    requires DebounceInv(s) && i < |s.cycles|
    ensures DebounceInv(SetPhase(s, i, phase))
  {
    forall key ensures Fired(SetPhase(s, i, phase), key) == Fired(s, key) {
      FlatMapUpdate(BatchOf(key), s.cycles, i, s.cycles[i].(phase := phase));
      FlatMapUpdate(BatchOf(key), s.cycles, i, s.cycles[i]);
      assert s.cycles[i := s.cycles[i]] == s.cycles;
    }
  }

  lemma {:induction false} FireConserves(s: Service, id: nat)
    requires DebounceInv(s) && Enabled(s, Fire(id))
    ensures Conserved(Step(s, Fire(id)))
  {
    var s' := Step(s, Fire(id));
    var c := s'.cycles[|s.cycles|];
    assert s'.cycles == s.cycles + [c];
    forall key ensures ArrivedOf(s', key) == Fired(s', key) + PendingOf(s', key) {
      FlatMapSnoc(BatchOf(key), s.cycles, c);
      assert ArrivedOf(s, key) == Fired(s, key) + PendingOf(s, key);
    }
  }

  lemma {:induction false} FireKeepsDebounce(s: Service, id: nat)
    requires DebounceInv(s) && Enabled(s, Fire(id))
    ensures DebounceInv(Step(s, Fire(id)))
  {
    FireConserves(s, id);
  }

  lemma {:induction false} ArriveKeepsTimers(s: Service, key: string, m: Message)
    requires TimersMatch(s)
    ensures TimersMatch(Arrives(s, key, m))
  {
  }

  lemma {:induction false} ArriveConserves(s: Service, key: string, m: Message)
    requires Conserved(s)
    ensures Conserved(Arrives(s, key, m))
  {
    var s' := Arrives(s, key, m);
    forall k ensures ArrivedOf(s', k) == Fired(s', k) + PendingOf(s', k) {
      var fired, pending := Fired(s, k), PendingOf(s, k);
      assert ArrivedOf(s, k) == fired + pending;
      assert Fired(s', k) == fired;
      if k == key { assert fired + (pending + [m]) == fired + pending + [m]; }
    }
  }

  lemma {:induction false} ArriveKeepsDebounce(s: Service, key: string, m: Message)
    requires DebounceInv(s)
    ensures DebounceInv(Arrives(s, key, m))
  {
    ArriveKeepsTimers(s, key, m);
    ArriveConserves(s, key, m);
  }

  lemma {:induction false} StepKeepsDebounce(s: Service, e: Event)
    requires DebounceInv(s) && Enabled(s, e)
    ensures DebounceInv(Step(s, e))
  {
    match e
    case Arrive(scope, user, m) => ArriveKeepsDebounce(s, BufferKey(scope, user), m);
    case Fire(id) => FireKeepsDebounce(s, id);
    case LoadState(i) => SetPhaseKeepsDebounce(s, i, Step(s, e).cycles[i].phase);
    case CheckStatus(i) => SetPhaseKeepsDebounce(s, i, Step(s, e).cycles[i].phase);
    case SaveState(i, o) =>
      SetPhaseKeepsDebounce(s, i, Ended(Some(o)));
      assert Step(s, e).cycles == SetPhase(s, i, Ended(Some(o))).cycles;
      assert forall key :: Fired(Step(s, e), key) == Fired(SetPhase(s, i, Ended(Some(o))), key);
      KeepsDebounceBeside(SetPhase(s, i, Ended(Some(o))), Step(s, e));
    case Fail(i) => SetPhaseKeepsDebounce(s, i, Ended(None));
    case SettleCycle(i) =>
      var phase := Settled(s.cycles[i].phase.outcome);
      SetPhaseKeepsDebounce(s, i, phase);
      KeepsDebounceBeside(SetPhase(s, i, phase), Step(s, e));
    case Pass(_) => KeepsDebounceBeside(s, Step(s, e));
    case Operator(_, _) => KeepsDebounceBeside(s, Step(s, e));
  }

  /** Rows, status, mutex and clock play no part in the debounce invariant. */
  lemma {:induction false} KeepsDebounceBeside(s: Service, s': Service)
    requires DebounceInv(s)
    requires s' == s.(now := s'.now, rows := s'.rows, status := s'.status, scopeMutex := s'.scopeMutex)
    ensures DebounceInv(s')
  {
    assert forall key :: Fired(s', key) == Fired(s, key) && PendingOf(s', key) == PendingOf(s, key)
                         && ArrivedOf(s', key) == ArrivedOf(s, key);
  }
}
