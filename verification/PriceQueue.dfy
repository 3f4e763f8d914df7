/** The market price task queue (main/tasks.py, MarketPriceTaskQueueManager): clients queue pairs
    in Redis, tasks move them out and fetch their prices. Every Redis command, and the pipeline
    as a whole, is one atomic step; steps of clients and tasks interleave freely. */
module PriceQueue {
  import opened Prelude

  type TaskId = nat
  type ClientId = nat

  // ---------- Pair names ----------

  function AssetNameToCoinId(name: string): string {
    if name == "BCH" then "bitcoin-cash" else name
  }

  /** construct_pair, for a currency that is already stripped and in lower case. */
  function ConstructPair(coin: string, currency: string): Option<string> {
    var coinId := AssetNameToCoinId(coin);
    if coinId == "" || currency == "" then None else Some(coinId + ":" + currency)
  }

  function ColonAt(s: string): (p: nat)
    ensures p <= |s|
    ensures ':' !in s[..p]
    ensures p < |s| ==> s[p] == ':'
  {
    if s == "" || s[0] == ':' then 0 else 1 + ColonAt(s[1..])
  }

  /** deconstruct_pair_name: a split at the first colon; without one the unpacking raises. */
  function DeconstructPairName(pair: string): (string, string)
    requires ':' in pair
  {
    var p := ColonAt(pair);
    (pair[..p], pair[p + 1..])
  }

  lemma {:induction false} ColonInside(coinId: string, currency: string)
    ensures ':' in coinId + ":" + currency
    ensures ColonAt(coinId + ":" + currency) == ColonAt(coinId)
  {
    var pair := coinId + ":" + currency;
    assert pair[|coinId|] == ':';
    if coinId != "" && coinId[0] != ':' {
      ColonInside(coinId[1..], currency);
      assert pair[1..] == coinId[1..] + ":" + currency;
    }
  }

  /** Splitting undoes joining exactly for coin ids without a colon. */
  lemma DeconstructUndoesConstruct(coin: string, currency: string)
    requires ConstructPair(coin, currency).Some?
    ensures var pair := ConstructPair(coin, currency).value;
            && ':' in pair
            && (DeconstructPairName(pair) == (AssetNameToCoinId(coin), currency) <==> ':' !in AssetNameToCoinId(coin))
  {
    var coinId := AssetNameToCoinId(coin);
    var pair := coinId + ":" + currency;
    ColonInside(coinId, currency);
    var p := ColonAt(coinId);
    if ':' in coinId {
      assert p < |coinId|;
      assert |pair[..p]| != |coinId|;
    } else {
      assert p == |coinId|;
      assert pair[..p] == coinId && pair[p + 1..] == currency;
    }
  }

  /** A pair starts with the coin's own name, only BCH goes by its coin id; it ends with the currency. */
  lemma PairNames(coin: string, currency: string)
    requires coin != "" && currency != ""
    ensures ConstructPair(coin, currency).Some?
    ensures var pair := ConstructPair(coin, currency).value;
            pair == (if coin == "BCH" then "bitcoin-cash" else coin) + ":" + currency
    ensures ConstructPair("", currency).None? && ConstructPair(coin, "").None?
    ensures ConstructPair("BCH", currency) == ConstructPair("bitcoin-cash", currency)
  {
  }

  ghost function CoinIds(pairs: set<string>): set<string> {
    set p | p in pairs && ':' in p :: DeconstructPairName(p).0
  }

  ghost function Currencies(pairs: set<string>): set<string> {
    set p | p in pairs && ':' in p :: DeconstructPairName(p).1
  }

  /** The names loop of a task: coin ids and currencies of all its pairs. */
  method CollectNames(pairs: set<string>) returns (coinIds: set<string>, currencies: set<string>)
    requires forall p | p in pairs :: ':' in p
    ensures coinIds == CoinIds(pairs) && currencies == Currencies(pairs)
  {
    coinIds, currencies := {}, {};
    var rest := pairs;
    while rest != {}
      invariant rest <= pairs
      invariant coinIds == CoinIds(pairs - rest) && currencies == Currencies(pairs - rest)
      decreases rest
    {
      var pair :| pair in rest;
      var names := DeconstructPairName(pair);
      coinIds := coinIds + {names.0};
      currencies := currencies + {names.1};
      assert pairs - (rest - {pair}) == (pairs - rest) + {pair};
      rest := rest - {pair};
    }
    assert pairs - rest == pairs;
  }

  /** A batch asks for every coin id and currency that made one of its pairs. */
  lemma BatchCoversPair(pairs: set<string>, coin: string, currency: string)
    requires ConstructPair(coin, currency).Some? && ConstructPair(coin, currency).value in pairs
    requires ':' !in AssetNameToCoinId(coin)
    ensures AssetNameToCoinId(coin) in CoinIds(pairs) && currency in Currencies(pairs)
  {
    DeconstructUndoesConstruct(coin, currency);
  }

  /** A batch of one pair covers it exactly when the coin id has no colon. */
  lemma SingleBatchCoversExactlyWithoutColon(coin: string, currency: string)
    requires ConstructPair(coin, currency).Some?
    ensures var pairs := {ConstructPair(coin, currency).value};
            AssetNameToCoinId(coin) in CoinIds(pairs) && currency in Currencies(pairs)
            <==> ':' !in AssetNameToCoinId(coin)
  {
    DeconstructUndoesConstruct(coin, currency);
    var pair := ConstructPair(coin, currency).value;
    if AssetNameToCoinId(coin) in CoinIds({pair}) && currency in Currencies({pair}) {
      assert DeconstructPairName(pair) == (AssetNameToCoinId(coin), currency);
    }
  }

  // ---------- The protocol ----------

  /** A task between its Redis commands. Moved: the pairs are registered, the fetch is next.
      Fetched: the fetch was attempted, the deregistration is next. */
  datatype Task =
    | Started
    | HasRead(pairs: set<string>)
    | Moved(pairs: set<string>)
    | Fetched(pairs: set<string>)
    | Done

  datatype State = State(
    queue: set<string>,
    taskOf: map<string, TaskId>,
    lastCall: real,
    clients: map<ClientId, string>,
    tasks: map<TaskId, Task>)

  datatype Event =
    | Check(client: ClientId, coin: string, currency: string)
    | Add(client: ClientId)
    | Queue(coin: string, currency: string)
    | Start(task: TaskId)
    | ReadQueue(task: TaskId)
    | MovePairs(task: TaskId, now: real)
    | Fetch(task: TaskId)
    | Cleanup(task: TaskId)

  const INITIAL := State({}, map[], 0.0, map[], map[])

  ghost function Step(s: State, event: Event): State {
    match event
    case Check(client, coin, currency) =>
      var pair := ConstructPair(coin, currency);
      if client in s.clients || pair.None? || pair.value in s.taskOf then s
      else s.(clients := s.clients[client := pair.value])
    case Add(client) =>
      if client !in s.clients then s
      else s.(queue := s.queue + {s.clients[client]}, clients := s.clients - {client})
    case Queue(coin, currency) =>
      var pair := ConstructPair(coin, currency);
      if pair.None? then s else s.(queue := s.queue + {pair.value})
    case Start(task) =>
      if task in s.tasks then s else s.(tasks := s.tasks[task := Started])
    case ReadQueue(task) =>
      if !(task in s.tasks && s.tasks[task].Started?) then s
      else s.(tasks := s.tasks[task := if s.queue == {} then Done else HasRead(s.queue)])
    case MovePairs(task, now) =>
      if !(task in s.tasks && s.tasks[task].HasRead?) then s
      else
        var pairs := s.tasks[task].pairs;
        State(
          s.queue - pairs,
          s.taskOf + map p | p in pairs :: task,
          now,
          s.clients,
          s.tasks[task := Moved(pairs)])
    case Fetch(task) =>
      if !(task in s.tasks && s.tasks[task].Moved?) then s
      else s.(tasks := s.tasks[task := Fetched(s.tasks[task].pairs)])
    case Cleanup(task) =>
      if !(task in s.tasks && s.tasks[task].Fetched?) then s
      else s.(taskOf := s.taskOf - s.tasks[task].pairs, tasks := s.tasks[task := Done])
  }

  datatype EnqueueResult = NoPair | Running(task: TaskId) | Wait(seconds: real) | RunNow

  /** Redis, with the program counters of the clients and tasks that use it. */
  class PriceTaskQueue {
    var queue: set<string>
    var taskOf: map<string, TaskId>
    var lastCall: real
    var clients: map<ClientId, string>
    var tasks: map<TaskId, Task>

    ghost function Shared(): State
      reads this
    {
      State(queue, taskOf, lastCall, clients, tasks)
    }

    constructor ()
      ensures Shared() == INITIAL
    {
      queue, taskOf, lastCall, clients, tasks := {}, map[], 0.0, map[], map[];
    }

    /** First half of enqueue: a pair that a task holds is not queued again. */
    method CheckRunning(client: ClientId, coin: string, currency: string) returns (r: EnqueueResult)
      requires client !in clients
      modifies this`clients
      ensures Shared() == Step(old(Shared()), Check(client, coin, currency))
      ensures r.Running? <==> ConstructPair(coin, currency).Some? && ConstructPair(coin, currency).value in taskOf
      ensures r.Running? ==> r.task == taskOf[ConstructPair(coin, currency).value]
      ensures r.NoPair? <==> ConstructPair(coin, currency).None?
      ensures r.RunNow? <==>
                ConstructPair(coin, currency).Some? && ConstructPair(coin, currency).value !in taskOf
    {
      var pair := ConstructPair(coin, currency);
      if pair.None? {
        return NoPair;
      }
      if pair.value in taskOf {
        return Running(taskOf[pair.value]);
      }
      clients := clients[client := pair.value];
      return RunNow;
    }

    /** Second half of enqueue: the pair joins the queue; the caller may have to wait. */
    method AddPair(client: ClientId, now: real) returns (r: EnqueueResult)
      requires client in clients
      modifies this`queue, this`clients
      ensures Shared() == Step(old(Shared()), Add(client))
      ensures r == if lastCall > now - 5.0 then Wait(lastCall - (now - 5.0)) else RunNow
    {
      queue := queue + {clients[client]};
      clients := clients - {client};
      var waitTime := lastCall - (now - 5.0);
      return if waitTime > 0.0 then Wait(waitTime) else RunNow;
    }

    /** queue_pairs for one pair, without the check. */
    method QueuePair(coin: string, currency: string)
      modifies this`queue
      ensures Shared() == Step(old(Shared()), Queue(coin, currency))
    {
      var pair := ConstructPair(coin, currency);
      if pair.Some? {
        queue := queue + {pair.value};
      }
    }

    method StartTask(task: TaskId)
      modifies this`tasks
      ensures Shared() == Step(old(Shared()), Start(task))
    {
      if task !in tasks {
        tasks := tasks[task := Started];
      }
    }

    method ReadPairs(task: TaskId)
      requires task in tasks && tasks[task].Started?
      modifies this`tasks
      ensures Shared() == Step(old(Shared()), ReadQueue(task))
    {
      var pairSet := queue;
      if pairSet == {} {
        tasks := tasks[task := Done];
        return;
      }
      tasks := tasks[task := HasRead(pairSet)];
    }

    /** The pipeline: register the pairs, take them off the queue, stamp the call. */
    method ExecutePipeline(task: TaskId, now: real)
      requires task in tasks && tasks[task].HasRead?
      modifies this
      ensures Shared() == Step(old(Shared()), MovePairs(task, now))
    {
      var pairs := tasks[task].pairs;
      taskOf := taskOf + map p | p in pairs :: task;
      queue := queue - pairs;
      lastCall := now;
      tasks := tasks[task := Moved(pairs)];
    }

    /** The fetch asks for all its coin ids in all its currencies; what comes back is not modelled. */
    method FetchPrices(task: TaskId) returns (coinIds: set<string>, currencies: set<string>)
      requires task in tasks && tasks[task].Moved? && WellNamed(Shared())
      modifies this`tasks
      ensures Shared() == Step(old(Shared()), Fetch(task))
      ensures coinIds == CoinIds(old(tasks)[task].pairs) && currencies == Currencies(old(tasks)[task].pairs)
    {
      coinIds, currencies := CollectNames(tasks[task].pairs);
      tasks := tasks[task := Fetched(tasks[task].pairs)];
    }

    method ClearPairs(task: TaskId)
      requires task in tasks && tasks[task].Fetched?
      modifies this`taskOf, this`tasks
      ensures Shared() == Step(old(Shared()), Cleanup(task))
    {
      taskOf := taskOf - tasks[task].pairs;
      tasks := tasks[task := Done];
    }
  }

  function PairsOf(task: Task): set<string> {
    match task
    case Started => {}
    case Done => {}
    case HasRead(pairs) => pairs
    case Moved(pairs) => pairs
    case Fetched(pairs) => pairs
  }

  /** Every name in circulation has a colon, so no task's split raises. */
  ghost predicate WellNamed(s: State) {
    && (forall p | p in s.queue :: ':' in p)
    && (forall c | c in s.clients :: ':' in s.clients[c])
    && (forall t | t in s.tasks :: forall p | p in PairsOf(s.tasks[t]) :: ':' in p)
  }

  ghost predicate Registered(task: Task, pair: string) {
    (task.Moved? || task.Fetched?) && pair in task.pairs
  }

  /** Every entry of the pair-to-task map names a task in flight that holds the pair. */
  ghost predicate MapNamesTasksInFlight(s: State) {
    forall p | p in s.taskOf :: s.taskOf[p] in s.tasks && Registered(s.tasks[s.taskOf[p]], p)
  }

  ghost function Run(events: seq<Event>): State {
    if events == [] then INITIAL else Step(Run(events[..|events| - 1]), events[|events| - 1])
  }

  lemma StepKeepsMap(s: State, event: Event)
    requires MapNamesTasksInFlight(s)
    ensures MapNamesTasksInFlight(Step(s, event))
  {
    var after := Step(s, event);
    forall p | p in after.taskOf
      ensures after.taskOf[p] in after.tasks && Registered(after.tasks[after.taskOf[p]], p)
    {
      if p in s.taskOf {
        assert s.taskOf[p] in s.tasks && Registered(s.tasks[s.taskOf[p]], p);
      }
    }
  }

  lemma StepKeepsNames(s: State, event: Event)
    requires WellNamed(s)
    ensures WellNamed(Step(s, event))
  {
    if event.Check? && ConstructPair(event.coin, event.currency).Some? {
      DeconstructUndoesConstruct(event.coin, event.currency);
    }
    if event.Queue? && ConstructPair(event.coin, event.currency).Some? {
      DeconstructUndoesConstruct(event.coin, event.currency);
    }
  }

  lemma {:induction false} RunKeepsInvariants(events: seq<Event>)
    ensures WellNamed(Run(events)) && MapNamesTasksInFlight(Run(events))
  {
    if events != [] {
      var s, event := Run(events[..|events| - 1]), events[|events| - 1];
      RunKeepsInvariants(events[..|events| - 1]);
      StepKeepsNames(s, event);
      StepKeepsMap(s, event);
    }
  }

  ghost predicate Queues(s: State, event: Event, pair: string) {
    || (event.Add? && event.client in s.clients && s.clients[event.client] == pair)
    || (event.Queue? && ConstructPair(event.coin, event.currency) == Some(pair))
  }

  /** A task that is about to fetch a batch with this pair. */
  ghost predicate AboutToFetch(s: State, task: TaskId, pair: string) {
    task in s.tasks && s.tasks[task].Moved? && pair in s.tasks[task].pairs
  }

  ghost predicate Fetches(s: State, event: Event, pair: string) {
    event.Fetch? && AboutToFetch(s, event.task, pair)
  }

  ghost predicate FetchedSince(events: seq<Event>, i: nat, pair: string) {
    exists j :: i < j < |events| && Fetches(Run(events[..j]), events[j], pair)
  }

  ghost predicate Accounted(events: seq<Event>, i: nat, pair: string) {
    || pair in Run(events).queue
    || (exists task :: AboutToFetch(Run(events), task, pair))
    || FetchedSince(events, i, pair)
  }

  /** One step never loses a pair: it stays queued, or is held, or the step is its fetch. */
  lemma StepKeepsPair(s: State, event: Event, pair: string)
    requires pair in s.queue || exists task :: AboutToFetch(s, task, pair)
    ensures pair in Step(s, event).queue || (exists task :: AboutToFetch(Step(s, event), task, pair))
            || Fetches(s, event, pair)
  {
    var after := Step(s, event);
    if pair in s.queue {
      if pair !in after.queue {
        assert AboutToFetch(after, event.task, pair);
      }
    } else {
      var task :| AboutToFetch(s, task, pair);
      if !Fetches(s, event, pair) {
        assert AboutToFetch(after, task, pair);
      }
    }
  }

  /** In every interleaving, a pair queued at step i is still queued, or held by a task that is
      about to fetch it, or was fetched at a later step. */
  lemma {:induction false} NoPairIsLost(events: seq<Event>, i: nat, pair: string)
    requires i < |events| && Queues(Run(events[..i]), events[i], pair)
    ensures Accounted(events, i, pair)
  {
    var front, last := events[..|events| - 1], events[|events| - 1];
    if i < |events| - 1 {
      assert front[..i] == events[..i];
      NoPairIsLost(front, i, pair);
      if FetchedSince(front, i, pair) {
        var j :| i < j < |front| && Fetches(Run(front[..j]), front[j], pair);
        assert events[..j] == front[..j] && events[j] == front[j];
      } else {
        StepKeepsPair(Run(front), last, pair);
        assert Fetches(Run(front), last, pair) ==> Fetches(Run(events[..|events| - 1]), events[|events| - 1], pair);
      }
    } else {
      assert pair in Run(events).queue;
    }
  }

  /** Nothing but its own fetch makes a task let go of the pairs it holds. */
  lemma {:induction false} OnlyFetchReleases(events: seq<Event>, more: seq<Event>, task: TaskId, pair: string)
    requires AboutToFetch(Run(events), task, pair)
    requires Fetch(task) !in more
    ensures AboutToFetch(Run(events + more), task, pair)
  {
    if more == [] {
      assert events + more == events;
    } else {
      var front := more[..|more| - 1];
      OnlyFetchReleases(events, front, task, pair);
      assert (events + more)[..|events + more| - 1] == events + front;
      assert more[|more| - 1] in more;
    }
  }

  ghost predicate Quiescent(s: State) {
    forall t | t in s.tasks :: s.tasks[t].Started? || s.tasks[t].Done?
  }

  /** Once all tasks have run out, the map is empty and every queued pair is still in the queue or
      was fetched after it was queued, by a batch that covers its coin id and currency. */
  lemma QuiescentMeansFetched(events: seq<Event>, i: nat, coin: string, currency: string)
    requires Quiescent(Run(events))
    requires ConstructPair(coin, currency).Some? && ':' !in AssetNameToCoinId(coin)
    requires i < |events| && Queues(Run(events[..i]), events[i], ConstructPair(coin, currency).value)
    ensures Run(events).taskOf == map[]
    ensures ConstructPair(coin, currency).value in Run(events).queue
            || exists j :: i < j < |events| && FetchCovers(Run(events[..j]), events[j], coin, currency)
  {
    RunKeepsInvariants(events);
    assert forall p | p in Run(events).taskOf :: Registered(Run(events).tasks[Run(events).taskOf[p]], p);
    var pair := ConstructPair(coin, currency).value;
    NoPairIsLost(events, i, pair);
    if FetchedSince(events, i, pair) {
      var j :| i < j < |events| && Fetches(Run(events[..j]), events[j], pair);
      BatchCoversPair(Run(events[..j]).tasks[events[j].task].pairs, coin, currency);
      assert FetchCovers(Run(events[..j]), events[j], coin, currency);
    }
  }

  /** A fetch step whose coin ids and currencies include the two. */
  ghost predicate FetchCovers(s: State, event: Event, coin: string, currency: string) {
    && event.Fetch? && event.task in s.tasks && s.tasks[event.task].Moved?
    && AssetNameToCoinId(coin) in CoinIds(s.tasks[event.task].pairs)
    && currency in Currencies(s.tasks[event.task].pairs)
  }

  // ---------- What the map knows ----------

  ghost predicate Holds(s: State, task: TaskId, pair: string) {
    task in s.tasks && Registered(s.tasks[task], pair)
  }

  /** Every task in flight that holds a pair finds it in the map. */
  ghost predicate MapKnowsHolders(s: State) {
    forall task, pair | Holds(s, task, pair) :: pair in s.taskOf
  }

  ghost predicate Clears(s: State, event: Event, pair: string) {
    event.Cleanup? && event.task in s.tasks && s.tasks[event.task].Fetched? && pair in s.tasks[event.task].pairs
  }

  ghost predicate Moves(s: State, event: Event, pair: string) {
    event.MovePairs? && event.task in s.tasks && s.tasks[event.task].HasRead? && pair in s.tasks[event.task].pairs
  }

  /** The step is the cleanup of one holder of a pair that another task holds too. */
  ghost predicate CutsOff(s: State, event: Event) {
    exists task, pair :: Clears(s, event, pair) && task != event.task && Holds(s, task, pair)
  }

  /** One step, on the map entry of one pair. */
  lemma MapEntryStep(s: State, event: Event, pair: string)
    ensures pair in Step(s, event).taskOf <==>
              Moves(s, event, pair) || (pair in s.taskOf && !Clears(s, event, pair))
  {
  }

  /** One step, on one task's hold of one pair. */
  lemma HolderStep(s: State, event: Event, task: TaskId, pair: string)
    ensures Holds(Step(s, event), task, pair) <==>
              (Moves(s, event, pair) && event.task == task)
              || (Holds(s, task, pair) && !(Clears(s, event, pair) && event.task == task))
  {
  }

  /** The map goes on knowing every holder exactly until a task cleans up a pair that another
      task holds as well. */
  lemma StepKeepsHoldersKnownExactly(s: State, event: Event)
    requires MapKnowsHolders(s)
    ensures MapKnowsHolders(Step(s, event)) <==> !CutsOff(s, event)
  {
    var after := Step(s, event);
    forall task, pair
      ensures Holds(after, task, pair) && pair !in after.taskOf <==>
                Clears(s, event, pair) && task != event.task && Holds(s, task, pair)
    {
      MapEntryStep(s, event, pair);
      HolderStep(s, event, task, pair);
    }
  }

  /** Step i cleaned up the pair while the task held it as well, and no later step registered the
      pair again. */
  ghost predicate CutOffAt(events: seq<Event>, i: int, task: TaskId, pair: string) {
    && 0 <= i < |events|
    && Clears(Run(events[..i]), events[i], pair) && events[i].task != task && Holds(Run(events[..i]), task, pair)
    && forall k | i < k < |events| :: !MovesAt(events, k, pair)
  }

  ghost predicate MovesAt(events: seq<Event>, k: int, pair: string)
    requires 0 <= k < |events|
  {
    Moves(Run(events[..k]), events[k], pair)
  }

  ghost predicate CutOff(events: seq<Event>, task: TaskId, pair: string) {
    exists i :: CutOffAt(events, i, task, pair)
  }

  lemma CutOffExtends(events: seq<Event>, event: Event, task: TaskId, pair: string)
    ensures CutOff(events + [event], task, pair) <==>
              (Clears(Run(events), event, pair) && event.task != task && Holds(Run(events), task, pair))
              || (CutOff(events, task, pair) && !Moves(Run(events), event, pair))
  {
    var longer := events + [event];
    assert longer[..|events|] == events;
    assert forall k | 0 <= k < |events| :: longer[..k] == events[..k] && longer[k] == events[k];
    assert MovesAt(longer, |events|, pair) <==> Moves(Run(events), event, pair);
    forall i: int
      ensures CutOffAt(longer, i, task, pair) <==>
                if i == |events|
                then Clears(Run(events), event, pair) && event.task != task && Holds(Run(events), task, pair)
                else CutOffAt(events, i, task, pair) && !Moves(Run(events), event, pair)
    {
      if 0 <= i < |events| {
        assert forall k | i < k < |events| :: MovesAt(longer, k, pair) <==> MovesAt(events, k, pair);
      }
    }
    assert CutOffAt(longer, |events|, task, pair) ==> CutOff(longer, task, pair);
    if CutOff(events, task, pair) && !Moves(Run(events), event, pair) {
      var i :| CutOffAt(events, i, task, pair);
      assert CutOffAt(longer, i, task, pair);
    }
  }

  lemma {:induction false} HoldingTasksAreTold(events: seq<Event>, task: TaskId, pair: string)
    ensures CutOff(events, task, pair) ==> pair !in Run(events).taskOf
    ensures Holds(Run(events), task, pair) ==> (pair !in Run(events).taskOf <==> CutOff(events, task, pair))
  {
    if events != [] {
      var front, last := events[..|events| - 1], events[|events| - 1];
      HoldingTasksAreTold(front, task, pair);
      assert events == front + [last];
      CutOffExtends(front, last, task, pair);
      MapEntryStep(Run(front), last, pair);
      HolderStep(Run(front), last, task, pair);
    }
  }

  /** In every interleaving a pair that a task holds is missing from the map exactly when another
      holder cleaned it up after the last move that registered it. */
  lemma HeldPairMissingExactlyWhenCutOff(events: seq<Event>, task: TaskId, pair: string)
    requires Holds(Run(events), task, pair)
    ensures pair !in Run(events).taskOf <==> CutOff(events, task, pair)
  {
    HoldingTasksAreTold(events, task, pair);
  }

  /** Two tasks may read the same queue; the first to clean up then also removes the entry of the
      second, which is still in flight: such a cut-off is always within reach. */
  lemma MapMayMissHeldPair(s: State, a: TaskId, b: TaskId, pair: string)
    requires a != b && a in s.tasks && b in s.tasks && s.tasks[a].Started? && s.tasks[b].Started?
    requires pair in s.queue
    ensures var read := Step(Step(s, ReadQueue(a)), ReadQueue(b));
            var moved := Step(Step(read, MovePairs(a, 1.0)), MovePairs(b, 2.0));
            var after := Step(Step(moved, Fetch(a)), Cleanup(a));
            AboutToFetch(after, b, pair) && pair !in after.taskOf
  {
    var read := Step(Step(s, ReadQueue(a)), ReadQueue(b));
    assert read.tasks[a] == HasRead(s.queue) && read.tasks[b] == HasRead(s.queue);
    var moved := Step(Step(read, MovePairs(a, 1.0)), MovePairs(b, 2.0));
    assert moved.tasks[a] == Moved(s.queue) && moved.tasks[b] == Moved(s.queue);
  }

  // ---------- What enqueue and a worker achieve ----------

  /** A check leaves the client about to add its pair exactly when there is a pair that no task
      holds, and touches nothing else; the add that follows queues the pair. */
  lemma CheckThenAddQueues(s: State, client: ClientId, coin: string, currency: string)
    requires client !in s.clients
    ensures var pair, checked := ConstructPair(coin, currency), Step(s, Check(client, coin, currency));
            && (client in checked.clients <==> pair.Some? && pair.value !in s.taskOf)
            && checked.(clients := s.clients) == s
            && (client in checked.clients ==>
                  var added := Step(checked, Add(client));
                  && checked.clients[client] == pair.value
                  && added == s.(queue := s.queue + {pair.value}))
  {
    var checked := Step(s, Check(client, coin, currency));
    if client in checked.clients {
      assert s.clients[client := checked.clients[client]] - {client} == s.clients;
    }
  }

  lemma RunAppend(events: seq<Event>, event: Event)
    ensures Run(events + [event]) == Step(Run(events), event)
  {
    assert (events + [event])[..|events|] == events;
  }

  predicate IsAddOf(event: Event, client: ClientId) {
    event == Add(client)
  }

  lemma OthersKeepClient(s: State, event: Event, client: ClientId)
    requires client in s.clients && !IsAddOf(event, client)
    ensures client in Step(s, event).clients && Step(s, event).clients[client] == s.clients[client]
  {
  }

  lemma {:induction false} CheckedClientWaits(events: seq<Event>, between: seq<Event>, client: ClientId, pair: string)
    requires client in Run(events).clients && Run(events).clients[client] == pair
    requires forall e | e in between :: !IsAddOf(e, client)
    ensures client in Run(events + between).clients && Run(events + between).clients[client] == pair
  {
    if between == [] {
      assert events + between == events;
    } else {
      var front, last := between[..|between| - 1], between[|between| - 1];
      CheckedClientWaits(events, front, client, pair);
      assert events + between == events + front + [last];
      RunAppend(events + front, last);
      assert last in between;
      OthersKeepClient(Run(events + front), last, client);
    }
  }

  /** After a check that found the pair free, the client's next add queues the pair, whatever
      others do in between. */
  lemma CheckedPairGetsQueued(events: seq<Event>, client: ClientId, coin: string, currency: string,
                              between: seq<Event>)
    requires client !in Run(events).clients
    requires ConstructPair(coin, currency).Some? && ConstructPair(coin, currency).value !in Run(events).taskOf
    requires forall e | e in between :: !IsAddOf(e, client)
    ensures var before := events + [Check(client, coin, currency)] + between;
            Queues(Run(before), Add(client), ConstructPair(coin, currency).value)
  {
    var checked := events + [Check(client, coin, currency)];
    assert checked[..|checked| - 1] == events;
    CheckThenAddQueues(Run(events), client, coin, currency);
    CheckedClientWaits(checked, between, client, ConstructPair(coin, currency).value);
  }

  predicate IsStepOf(event: Event, task: TaskId) {
    match event
    case Start(t) => t == task
    case ReadQueue(t) => t == task
    case MovePairs(t, now) => t == task
    case Fetch(t) => t == task
    case Cleanup(t) => t == task
    case Check(_, _, _) => false
    case Add(_) => false
    case Queue(_, _) => false
  }

  ghost predicate IsAt(s: State, task: TaskId, at: Task) {
    task in s.tasks && s.tasks[task] == at
  }

  lemma OthersKeepWorker(s: State, event: Event, task: TaskId, at: Task)
    requires IsAt(s, task, at) && !IsStepOf(event, task)
    ensures IsAt(Step(s, event), task, at)
  {
  }

  /** Others never move a worker on. */
  lemma {:induction false} WorkerWaits(events: seq<Event>, between: seq<Event>, task: TaskId, at: Task)
    requires IsAt(Run(events), task, at)
    requires forall e | e in between :: !IsStepOf(e, task)
    ensures IsAt(Run(events + between), task, at)
  {
    if between == [] {
      assert events + between == events;
    } else {
      var front, last := between[..|between| - 1], between[|between| - 1];
      WorkerWaits(events, front, task, at);
      assert events + between == events + front + [last];
      RunAppend(events + front, last);
      assert last in between;
      OthersKeepWorker(Run(events + front), last, task, at);
    }
  }

  lemma ReadTakesQueue(s: State, task: TaskId)
    requires IsAt(s, task, Started)
    ensures var after := Step(s, ReadQueue(task));
            && after.queue == s.queue
            && IsAt(after, task, if s.queue == {} then Done else HasRead(s.queue))
  {
  }

  /** A fresh worker starts, and then reads the whole queue, whatever others do in between; it ends
      at once when the queue is empty. */
  lemma WorkerReadsQueue(events: seq<Event>, task: TaskId, between: seq<Event>)
    requires task !in Run(events).tasks
    requires forall e | e in between :: !IsStepOf(e, task)
    ensures var before := events + [Start(task)] + between;
            var queue := Run(before).queue;
            && Run(before + [ReadQueue(task)]).queue == queue
            && IsAt(Run(before + [ReadQueue(task)]), task, if queue == {} then Done else HasRead(queue))
  {
    var started := events + [Start(task)];
    RunAppend(events, Start(task));
    WorkerWaits(started, between, task, Started);
    RunAppend(started + between, ReadQueue(task));
    ReadTakesQueue(Run(started + between), task);
  }

  /** The pairs that it read leave the queue for the map, in its name, at the stamp of the step;
      whatever others do in between, its next step fetches them all, and its last one clears them. */
  lemma WorkerServesItsPairs(events: seq<Event>, task: TaskId, pairs: set<string>, now: real,
                             beforeFetch: seq<Event>, beforeCleanup: seq<Event>)
    requires IsAt(Run(events), task, HasRead(pairs))
    requires forall e | e in beforeFetch :: !IsStepOf(e, task)
    requires forall e | e in beforeCleanup :: !IsStepOf(e, task)
    ensures var moved := Run(events + [MovePairs(task, now)]);
            && moved.queue == Run(events).queue - pairs && moved.lastCall == now
            && (forall p | p in pairs :: p in moved.taskOf && moved.taskOf[p] == task)
    ensures var toFetch := events + [MovePairs(task, now)] + beforeFetch;
            var toCleanup := toFetch + [Fetch(task)] + beforeCleanup;
            && (forall p | p in pairs :: Fetches(Run(toFetch), Fetch(task), p))
            && IsAt(Run(toCleanup), task, Fetched(pairs))
            && IsAt(Run(toCleanup + [Cleanup(task)]), task, Done)
            && (forall p | p in pairs :: p !in Run(toCleanup + [Cleanup(task)]).taskOf)
  {
    var toFetch := events + [MovePairs(task, now)] + beforeFetch;
    var toCleanup := toFetch + [Fetch(task)] + beforeCleanup;
    RunAppend(events, MovePairs(task, now));
    WorkerWaits(events + [MovePairs(task, now)], beforeFetch, task, Moved(pairs));
    RunAppend(toFetch, Fetch(task));
    WorkerWaits(toFetch + [Fetch(task)], beforeCleanup, task, Fetched(pairs));
    RunAppend(toCleanup, Cleanup(task));
  }

  ghost predicate StampsAt(events: seq<Event>, k: int)
    requires 0 <= k < |events|
  {
    var s, event := Run(events[..k]), events[k];
    event.MovePairs? && event.task in s.tasks && s.tasks[event.task].HasRead?
  }

  /** The stamp is the time of the last move; an add within five seconds of it is told to wait. */
  lemma {:induction false} LastMoveStamps(events: seq<Event>, k: nat)
    requires k < |events| && StampsAt(events, k)
    requires forall j | k < j < |events| :: !StampsAt(events, j)
    ensures Run(events).lastCall == events[k].now
  {
    var front := events[..|events| - 1];
    if k < |events| - 1 {
      forall j | 0 <= j < |front|
        ensures StampsAt(front, j) <==> StampsAt(events, j)
      {
        assert front[..j] == events[..j];
      }
      LastMoveStamps(front, k);
      assert !StampsAt(events, |events| - 1);
    }
  }
}
