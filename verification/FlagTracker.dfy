/**
 internal/flag_tracker_impl.go: listeners that turn flag change events into value change events, and
 the guarantee they give over every run of updates and listeners.
 */
module FlagTracker {
  import opened DataModel
  import opened Graph
  import opened Toposort
  import opened DependencyTracking
  import opened InMemoryStore
  import opened UpdateSink
  import opened ChangeSoundness

  datatype ValueChange<V> = ValueChange(oldValue: V, newValue: V)

  // A listener for one flag; it starts by evaluating the flag.
  datatype Listener<V> =
    | Waiting(flag: string)
    | Running(flag: string, initial: V, current: V, emitted: seq<ValueChange<V>>)

  // One round of the listener's loop; value is what evaluating the flag gives at that moment.
  function Received<V(==)>(l: Listener<V>, key: string, value: V): Listener<V>
    requires l.Running?
  {
    if key != l.flag || value == l.current then l
    else l.(current := value, emitted := l.emitted + [ValueChange(l.current, value)])
  }

  class ValueChangeListener<V(==)> {
    const flagKey: string
    const id: nat
    ghost const initial: V
    var currentValue: V
    var valueCh: seq<ValueChange<V>>

    constructor (flagKey: string, id: nat, value: V)
      ensures this.flagKey == flagKey && this.id == id && View() == Running(flagKey, value, value, [])
    {
      this.flagKey, this.id, initial := flagKey, id, value;
      currentValue, valueCh := value, [];
    }

    ghost function View(): Listener<V>
      reads this
    {
      Running(flagKey, initial, currentValue, valueCh)
    }

    method ReceiveOne(broadcaster: FlagChangeBroadcaster, evaluated: V)
      requires id in broadcaster.channels.queues && broadcaster.channels.queues[id] != []
      modifies this, broadcaster
      ensures View() == Received(old(View()), old(broadcaster.channels.queues[id][0]), evaluated)
      ensures broadcaster.channels == Popped(old(broadcaster.channels), id)
    {
      var flagChange := broadcaster.channels.queues[id][0];
      broadcaster.channels := Popped(broadcaster.channels, id);
      if flagChange != flagKey {
        return;
      }
      var newValue := evaluated;
      if newValue == currentValue {
        return;
      }
      valueCh := valueCh + [ValueChange(currentValue, newValue)];
      currentValue := newValue;
    }

    // The loop of runValueChangeListener while no update comes in: it empties the queue.
    method ReceiveAll(broadcaster: FlagChangeBroadcaster, evaluated: V)
      requires id in broadcaster.channels.queues
      modifies this, broadcaster
      ensures id in broadcaster.channels.queues && broadcaster.channels.queues[id] == []
      ensures View() == if flagKey in old(broadcaster.channels.queues[id])
                        then Received(old(View()), flagKey, evaluated) else old(View())
      ensures currentValue == if flagKey in old(broadcaster.channels.queues[id]) then evaluated else old(currentValue)
      ensures valueCh ==
              old(valueCh) +
              if currentValue != old(currentValue) then [ValueChange(old(currentValue), currentValue)] else []
    {
      ghost var seen: seq<string> := [];
      while broadcaster.channels.queues[id] != []
        invariant id in broadcaster.channels.queues
        invariant seen + broadcaster.channels.queues[id] == old(broadcaster.channels.queues[id])
        invariant View() == if flagKey in seen then Received(old(View()), flagKey, evaluated) else old(View())
        decreases |broadcaster.channels.queues[id]|
      {
        seen := seen + [broadcaster.channels.queues[id][0]];
        ReceiveOne(broadcaster, evaluated);
      }
    }
  }

  // The next event of one channel is taken out of it.
  function Popped(c: Channels, id: nat): Channels
    requires id in c.queues && c.queues[id] != []
  {
    c.(queues := c.queues[id := c.queues[id][1..]])
  }

  // The listeners' channels: each value channel belongs to the flag channel its listener reads from.
  class FlagTracker {
    const broadcaster: FlagChangeBroadcaster
    var valueChangeSubscriptions: map<nat, nat>

    constructor (broadcaster: FlagChangeBroadcaster)
      ensures this.broadcaster == broadcaster && valueChangeSubscriptions == map[]
    {
      this.broadcaster := broadcaster;
      valueChangeSubscriptions := map[];
    }

    method AddFlagValueChangeListener() returns (valueCh: nat, flagCh: nat)
      modifies this, broadcaster
      ensures valueCh !in old(valueChangeSubscriptions) && flagCh !in old(broadcaster.channels.queues)
      ensures valueChangeSubscriptions == old(valueChangeSubscriptions)[valueCh := flagCh]
      ensures broadcaster.channels == Subscribed(old(broadcaster.channels), flagCh)
    {
      valueCh := FreshId(valueChangeSubscriptions.Keys);
      flagCh := broadcaster.AddListener();
      valueChangeSubscriptions := valueChangeSubscriptions[valueCh := flagCh];
    }

    method RemoveFlagValueChangeListener(valueCh: nat)
      modifies this, broadcaster
      ensures valueChangeSubscriptions == old(valueChangeSubscriptions) - {valueCh}
      ensures broadcaster.channels ==
              if valueCh in old(valueChangeSubscriptions)
              then Unsubscribed(old(broadcaster.channels), old(valueChangeSubscriptions)[valueCh])
              else old(broadcaster.channels)
    {
      if valueCh in valueChangeSubscriptions {
        broadcaster.RemoveListener(valueChangeSubscriptions[valueCh]);
      }
      valueChangeSubscriptions := valueChangeSubscriptions - {valueCh};
    }
  }

  // ---------- The whole system ----------

  datatype System<V> = System(sink: SinkState, listeners: map<nat, Listener<V>>)

  // Every public call and every round of a listener's loop is one step. keys are the announcements.
  // Subscribe and Read are those of an application that listens to flag change events itself.
  datatype Step =
    | SinkInit(data: seq<Collection>, keys: seq<string>)
    | SinkUpsert(v: Vertex, item: ItemDescriptor, keys: seq<string>)
    | AddListener(id: nat, flag: string)
    | StartListener(id: nat)
    | Receive(id: nat)
    | Subscribe(id: nat)
    | Read(id: nat)
    | RemoveListener(id: nat)

  // Evaluation is any function of what the flag can see.
  type Evaluator<!V> = (string, map<Vertex, ItemDescriptor>) -> V

  ghost function Evaluate<V>(eval: Evaluator<V>, d: DataMap, flag: string): V {
    eval(flag, SubStore(d, flag))
  }

  ghost predicate Next<V>(eval: Evaluator<V>, s: System<V>, step: Step, s': System<V>) {
    match step
    case SinkInit(data, keys) =>
      && ConsistentKinds(data)
      && InitStep(s.sink, data, {}, keys, s'.sink)
      && s'.listeners == s.listeners
    case SinkUpsert(v, item, keys) =>
      && UpsertStep(s.sink, v, item, keys, s'.sink)
      && s'.listeners == s.listeners
    case AddListener(id, flag) =>
      && id !in s.sink.channels.queues
      && s'.sink == s.sink.(channels := Subscribed(s.sink.channels, id))
      && s'.listeners == s.listeners[id := Waiting(flag)]
    case StartListener(id) =>
      && id in s.listeners && s.listeners[id].Waiting?
      && var flag := s.listeners[id].flag;
         var value := Evaluate(eval, s.sink.data, flag);
         s' == s.(listeners := s.listeners[id := Running(flag, value, value, [])])
    case Receive(id) =>
      && id in s.listeners && s.listeners[id].Running?
      && id in s.sink.channels.queues && s.sink.channels.queues[id] != []
      && var l := s.listeners[id];
         var key := s.sink.channels.queues[id][0];
         && s'.sink == s.sink.(channels := Popped(s.sink.channels, id))
         && s'.listeners == s.listeners[id := Received(l, key, Evaluate(eval, s.sink.data, l.flag))]
    case Subscribe(id) =>
      && id !in s.sink.channels.queues
      && s' == s.(sink := s.sink.(channels := Subscribed(s.sink.channels, id)))
    case Read(id) =>
      && id !in s.listeners && id in s.sink.channels.queues && s.sink.channels.queues[id] != []
      && s' == s.(sink := s.sink.(channels := Popped(s.sink.channels, id)))
    case RemoveListener(id) =>
      && s'.listeners == s.listeners
      && s'.sink == s.sink.(channels := Unsubscribed(s.sink.channels, id))
  }

  ghost predicate Initial<V>(s: System<V>) {
    s == System(SinkState(map[], map[], map[], Channels({}, map[])), map[])
  }

  // A subscribed listener with no event for its flag in its queue knows the flag's current value.
  ghost predicate UpToDate<V>(eval: Evaluator<V>, s: System<V>, id: nat) {
    id in s.listeners && s.listeners[id].Running? && id in s.sink.channels.subscribers &&
    id in s.sink.channels.queues && s.listeners[id].flag !in s.sink.channels.queues[id] ==>
      s.listeners[id].current == Evaluate(eval, s.sink.data, s.listeners[id].flag)
  }

  // The events lead from the first value to the last without a gap, and each one is a real change.
  ghost predicate Chain<V>(first: V, events: seq<ValueChange<V>>, last: V) {
    if events == [] then first == last
    else
      var e := events[|events| - 1];
      && e.newValue == last
      && e.oldValue != e.newValue
      && Chain(first, events[..|events| - 1], e.oldValue)
  }

  ghost predicate Invariant<V>(s: System<V>) {
    && Transposed(s.sink.from, s.sink.to)
    && Tracks(s.sink.from, s.sink.data)
    && s.listeners.Keys <= s.sink.channels.queues.Keys
    && s.sink.channels.subscribers <= s.sink.channels.queues.Keys
    && (forall id :: id in s.listeners && s.listeners[id].Running? ==>
          Chain(s.listeners[id].initial, s.listeners[id].emitted, s.listeners[id].current))
  }

  lemma {:induction false} SameSubStoreSameValue<V>(eval: Evaluator<V>, d: DataMap, d': DataMap, flag: string)
    requires SameSubStore(d, d', flag)
    ensures Evaluate(eval, d, flag) == Evaluate(eval, d', flag)
  {
    SameSubStoreMeansEqual(d, d', flag);
  }

  // ---------- What every step keeps ----------

  lemma {:induction false} UpdateKeepsInvariant<V>(eval: Evaluator<V>, s: System<V>, step: Step, s': System<V>)
    requires Invariant(s) && Next(eval, s, step, s') && (step.SinkInit? || step.SinkUpsert?)
    ensures Invariant(s')
  {
    match step
    case SinkInit(data, keys) => InitStores(s.sink, data, {}, keys, s'.sink);
    case SinkUpsert(v, item, keys) => UpsertTracks(s.sink, v, item, keys, s'.sink);
  }

  lemma ListenerStepKeepsInvariant<V>(eval: Evaluator<V>, s: System<V>, step: Step, s': System<V>)
    requires Invariant(s) && Next(eval, s, step, s') && !step.SinkInit? && !step.SinkUpsert?
    ensures Invariant(s')
  {
  }

  lemma {:induction false} NextKeepsInvariant<V>(eval: Evaluator<V>, s: System<V>, step: Step, s': System<V>)
    requires Invariant(s) && Next(eval, s, step, s')
    ensures Invariant(s')
  {
    if step.SinkInit? || step.SinkUpsert? {
      UpdateKeepsInvariant(eval, s, step, s');
    } else {
      ListenerStepKeepsInvariant(eval, s, step, s');
    }
  }

  // ---------- What keeps a listener up to date ----------

  // If the step is a full data set, it hides no change from the listener's flag behind an unchanged or
  // lower version. Data whose versions only advance hides none (AdvancingVersionsAreCovered).
  ghost predicate HidesNothingFrom<V>(s: System<V>, step: Step, id: nat) {
    step.SinkInit? && id in s.listeners && s.listeners[id].Running? ==>
      SilentChangesCovered(s.sink.data, Load(step.data), s.listeners[id].flag)
  }

  // An update keeps a listener up to date: either its flag is announced to it, or its value is as before.
  lemma {:induction false} UpdateKeepsUpToDate<V>(eval: Evaluator<V>, s: System<V>, keys: seq<string>, s': System<V>, id: nat)
    requires Invariant(s) && UpToDate(eval, s, id) && s'.listeners == s.listeners
    requires id in s.sink.channels.subscribers ==> s'.sink.channels == Sent(s.sink.channels, keys)
    requires s'.sink.channels.subscribers == s.sink.channels.subscribers
    requires id in s.listeners && s.listeners[id].Running? && id in s.sink.channels.subscribers && s.listeners[id].flag !in keys ==>
               SameSubStore(s.sink.data, s'.sink.data, s.listeners[id].flag)
    ensures UpToDate(eval, s', id)
  {
    if id in s.listeners && s.listeners[id].Running? && id in s.sink.channels.subscribers {
      var flag, queue := s.listeners[id].flag, s.sink.channels.queues[id];
      assert s'.sink.channels.queues[id] == queue + keys;
      if flag !in queue + keys {
        assert flag !in queue && flag !in keys;
        SameSubStoreSameValue(eval, s.sink.data, s'.sink.data, flag);
      }
    }
  }

  lemma {:induction false} InitKeepsUpToDate<V>(eval: Evaluator<V>, s: System<V>, step: Step, s': System<V>, id: nat)
    requires Invariant(s) && UpToDate(eval, s, id) && step.SinkInit? && Next(eval, s, step, s')
    requires HidesNothingFrom(s, step, id)
    ensures UpToDate(eval, s', id)
  {
    if id in s.listeners && id in s.sink.channels.subscribers {
      InitMissesNothingExactlyWhen(s.sink, step.data, step.keys, s'.sink, s.listeners[id].flag);
    }
    UpdateKeepsUpToDate(eval, s, step.keys, s', id);
  }

  lemma {:induction false} UpsertKeepsUpToDate<V>(eval: Evaluator<V>, s: System<V>, step: Step, s': System<V>, id: nat)
    requires Invariant(s) && UpToDate(eval, s, id) && step.SinkUpsert? && Next(eval, s, step, s')
    ensures UpToDate(eval, s', id)
  {
    SentNothing(s.sink.channels);
    if id in s.listeners && id in s.sink.channels.subscribers && s.listeners[id].flag !in step.keys {
      UpsertMissesNothing(s.sink, step.v, step.item, step.keys, s'.sink, s.listeners[id].flag);
    }
    UpdateKeepsUpToDate(eval, s, step.keys, s', id);
  }

  lemma ReceiveKeepsUpToDate<V>(eval: Evaluator<V>, s: System<V>, step: Step, s': System<V>, id: nat)
    requires UpToDate(eval, s, id) && (step.Receive? || step.Read?) && Next(eval, s, step, s')
    ensures UpToDate(eval, s', id)
  {
  }

  lemma ListenerStepKeepsUpToDate<V>(eval: Evaluator<V>, s: System<V>, step: Step, s': System<V>, id: nat)
    requires UpToDate(eval, s, id) && Invariant(s) && Next(eval, s, step, s')
    requires step.AddListener? || step.StartListener? || step.Subscribe? || step.RemoveListener?
    ensures UpToDate(eval, s', id)
  {
  }

  lemma {:induction false} NextKeepsUpToDate<V>(eval: Evaluator<V>, s: System<V>, step: Step, s': System<V>, id: nat)
    requires Invariant(s) && UpToDate(eval, s, id) && Next(eval, s, step, s') && HidesNothingFrom(s, step, id)
    ensures UpToDate(eval, s', id)
  {
    match step
    case SinkInit(_, _) => InitKeepsUpToDate(eval, s, step, s', id);
    case SinkUpsert(_, _, _) => UpsertKeepsUpToDate(eval, s, step, s', id);
    case Receive(_) => ReceiveKeepsUpToDate(eval, s, step, s', id);
    case Read(_) => ReceiveKeepsUpToDate(eval, s, step, s', id);
    case _ => ListenerStepKeepsUpToDate(eval, s, step, s', id);
  }

  // ---------- Every run ----------

  ghost predicate IsRun<V>(eval: Evaluator<V>, states: seq<System<V>>, steps: seq<Step>) {
    && |states| == |steps| + 1
    && Initial(states[0])
    && forall i :: 0 <= i < |steps| ==> Next(eval, states[i], steps[i], states[i + 1])
  }

  lemma {:induction false} RunKeepsInvariant<V>(eval: Evaluator<V>, states: seq<System<V>>, steps: seq<Step>, n: nat)
    requires IsRun(eval, states, steps) && n < |states|
    ensures Invariant(states[n])
  {
    if n > 0 {
      RunKeepsInvariant(eval, states, steps, n - 1);
      NextKeepsInvariant(eval, states[n - 1], steps[n - 1], states[n]);
    }
  }

  // In every reachable state of every run whose full data sets hide nothing from it, a subscribed
  // listener whose queue holds no event for its flag has the value the flag evaluates to now.
  lemma {:induction false} ListenersAreNeverStale<V>(eval: Evaluator<V>, states: seq<System<V>>, steps: seq<Step>, n: nat, id: nat)
    requires IsRun(eval, states, steps) && n < |states|
    requires forall i :: 0 <= i < n ==> HidesNothingFrom(states[i], steps[i], id)
    ensures UpToDate(eval, states[n], id)
    ensures id in states[n].sink.channels.subscribers ==> id in states[n].sink.channels.queues
  {
    RunKeepsInvariant(eval, states, steps, n);
    if n > 0 {
      RunKeepsInvariant(eval, states, steps, n - 1);
      ListenersAreNeverStale(eval, states, steps, n - 1, id);
      NextKeepsUpToDate(eval, states[n - 1], steps[n - 1], states[n], id);
    }
  }

  // In every reachable state of every run a listener's events form a gapless chain of changes, from
  // the value it started with to the one it holds.
  lemma {:induction false} EventsFormAChain<V>(eval: Evaluator<V>, states: seq<System<V>>, steps: seq<Step>, n: nat, id: nat)
    requires IsRun(eval, states, steps) && n < |states|
    requires id in states[n].listeners && states[n].listeners[id].Running?
    ensures var l := states[n].listeners[id]; Chain(l.initial, l.emitted, l.current)
  {
    RunKeepsInvariant(eval, states, steps, n);
  }

  // In every reachable state the tracker holds the references of exactly the items stored, both ways.
  lemma {:induction false} TrackerIsNeverStale<V>(eval: Evaluator<V>, states: seq<System<V>>, steps: seq<Step>, n: nat, v: Vertex)
    requires IsRun(eval, states, steps) && n < |states|
    ensures Succ(states[n].sink.from, v) == ReferencesIn(states[n].sink.data, v)
    ensures forall u :: u in Succ(states[n].sink.to, v) <==> v in ReferencesIn(states[n].sink.data, u)
  {
    RunKeepsInvariant(eval, states, steps, n);
    forall u
      ensures u in Succ(states[n].sink.to, v) <==> v in ReferencesIn(states[n].sink.data, u)
    {
      assert v in Succ(states[n].sink.from, u) <==> u in Succ(states[n].sink.to, v);
      assert Succ(states[n].sink.from, u) == ReferencesIn(states[n].sink.data, u);
    }
  }

  // ---------- A run that hides a change ----------

  function OneFlag(version: int): seq<Collection> {
    [Collection(Features, [KeyedItem("f", ItemDescriptor(version, Some(Flag([], [], 0))))])]
  }

  function OneFlagStored(version: int, channels: Channels): SinkState {
    SinkState(
      map[Features := map["f" := ItemDescriptor(version, Some(Flag([], [], 0)))]],
      map[Vertex(Features, "f") := {}], map[], channels)
  }

  lemma {:induction false} OneFlagLoaded(version: int, channels: Channels)
    ensures ConsistentKinds(OneFlag(version)) && Load(OneFlag(version)) == OneFlagStored(version, channels).data
    ensures ReferencesOf(Merged(OneFlag(version))) == OneFlagStored(version, channels).from
  {
    var data := OneFlag(version);
    var items := data[0].items;
    assert items[..0] == [] && data[..0] == [];
    assert LoadItems(items) == map["f" := items[0].item];
    assert MergedItems(map[], Features, items) == map[Vertex(Features, "f") := items[0].item];
    assert Neighbors(Features, items[0].item) == {};
  }

  // No listener is told: there is none, or the flag is stored with a higher version.
  lemma {:induction false} OneFlagInit(s: SinkState, version: int, listeners: map<nat, Listener<int>>)
    requires s.channels.subscribers == {} || exists v :: v > version && s == OneFlagStored(v, s.channels)
    ensures Next(VersionSeen, System(s, listeners), SinkInit(OneFlag(version), []), System(OneFlagStored(version, s.channels), listeners))
  {
    if s.channels.subscribers != {} {
      OlderFlagIsNoChange(s, version);
    }
    OneFlagLoaded(version, s.channels);
    var sorted := SortedWithLast(OneFlag(version), 0);
    SortPreservesMeaning(OneFlag(version), sorted);
    SentNothing(s.channels);
  }

  lemma {:induction false} OlderFlagIsNoChange(s: SinkState, version: int)
    requires exists v :: v > version && s == OneFlagStored(v, s.channels)
    ensures ChangedVertices(ReadBack(s.data, {}), Load(OneFlag(version))) == {}
  {
    OneFlagLoaded(version, s.channels);
    var d, d' := ReadBack(s.data, {}), Load(OneFlag(version));
    assert forall v :: v in VerticesOf(d) + VerticesOf(d') ==> v == Vertex(Features, "f");
    assert !IsChange(Lookup(d, Vertex(Features, "f")), Lookup(d', Vertex(Features, "f")));
  }

  // The value is the version of the flag's own item.
  function VersionSeen(flag: string, seen: map<Vertex, ItemDescriptor>): int {
    if Vertex(Features, flag) in seen then seen[Vertex(Features, flag)].version else 0
  }

  lemma {:induction false} OneFlagEvaluates(version: int, channels: Channels)
    ensures Evaluate(VersionSeen, OneFlagStored(version, channels).data, "f") == version
  {
    var d := OneFlagStored(version, channels).data;
    ReachesSelf(GraphOf(d), Vertex(Features, "f"));
    assert Sees(d, "f", Vertex(Features, "f"));
  }

  lemma {:induction false} RunOneMore<V>(eval: Evaluator<V>, states: seq<System<V>>, steps: seq<Step>, step: Step, s': System<V>)
    returns (states': seq<System<V>>, steps': seq<Step>)
    requires IsRun(eval, states, steps) && Next(eval, states[|steps|], step, s')
    ensures IsRun(eval, states', steps') && states' == states + [s'] && steps' == steps + [step]
  {
    states', steps' := states + [s'], steps + [step];
    forall i | 0 <= i < |steps'|
      ensures Next(eval, states'[i], steps'[i], states'[i + 1])
    {
      if i < |steps| {
        assert Next(eval, states[i], steps[i], states[i + 1]);
      }
    }
  }

  const NO_LISTENER := Channels({}, map[])
  const ONE_LISTENER := Channels({0}, map[0 := []])

  // Version 2 of the flag is stored, then a listener is added.
  lemma {:induction false} ListenerAdded() returns (states: seq<System<int>>, steps: seq<Step>)
    ensures IsRun(VersionSeen, states, steps) && |steps| == 2
    ensures states[2] == System(OneFlagStored(2, ONE_LISTENER), map[0 := Waiting("f")])
  {
    var empty := SinkState(map[], map[], map[], NO_LISTENER);
    states, steps := [System(empty, map[])], [];
    OneFlagInit(empty, 2, map[]);
    states, steps := RunOneMore(
      VersionSeen, states, steps, SinkInit(OneFlag(2), []), System(OneFlagStored(2, NO_LISTENER), map[]));
    assert Subscribed(NO_LISTENER, 0) == ONE_LISTENER;
    states, steps := RunOneMore(
      VersionSeen, states, steps, AddListener(0, "f"), System(OneFlagStored(2, ONE_LISTENER), map[0 := Waiting("f")]));
  }

  lemma {:induction false} ListenerStarts() returns (states: seq<System<int>>, steps: seq<Step>)
    ensures IsRun(VersionSeen, states, steps) && |steps| == 3
    ensures states[3] == System(OneFlagStored(2, ONE_LISTENER), map[0 := Running("f", 2, 2, [])])
  {
    states, steps := ListenerAdded();
    OneFlagEvaluates(2, ONE_LISTENER);
    states, steps := RunOneMore(
      VersionSeen, states, steps, StartListener(0), System(OneFlagStored(2, ONE_LISTENER), map[0 := Running("f", 2, 2, [])]));
  }

  // For example, the flag is then given anew with version 1: it is stored, no event is sent, and the
  // listener stays with the value of version 2.
  lemma {:induction false} OlderInitLeavesListenerStale() returns (states: seq<System<int>>, steps: seq<Step>)
    ensures IsRun(VersionSeen, states, steps) && |steps| == 4 && steps[3] == SinkInit(OneFlag(1), [])
    ensures states[4].sink.channels == ONE_LISTENER && !UpToDate(VersionSeen, states[4], 0)
  {
    states, steps := ListenerStarts();
    var listeners := states[3].listeners;
    OneFlagInit(OneFlagStored(2, ONE_LISTENER), 1, listeners);
    states, steps := RunOneMore(
      VersionSeen, states, steps, SinkInit(OneFlag(1), []), System(OneFlagStored(1, ONE_LISTENER), listeners));
    OneFlagEvaluates(1, ONE_LISTENER);
  }
}
