/**
 What the caches of the persistent store wrapper may and may not do: they never change an answer, and
 in infinite mode they carry the data through an outage.
 */
module CacheProofs {
  import opened DataModel
  import opened PersistentWrapper

  // One call, with the faults it meets; Expire stands for entries vanishing in between.
  datatype Operation =
    | Init(data: seq<Collection>, fault: bool)
    | Upsert(v: Vertex, item: ItemDescriptor, fault: bool, refault: bool)
    | Get(v: Vertex, fault: bool)
    | GetAll(kind: Kind, fault: bool)
    | Poll(available: bool, fault: bool)
    | Expire(items: set<Vertex>, lists: set<Kind>)

  function Do(codec: Codec, mode: Mode, s: WrapperState, op: Operation): (WrapperState, Reply) {
    match op
    case Init(data, fault) => DoInit(codec, mode, s, data, fault)
    case Upsert(v, item, fault, refault) => DoUpsert(codec, mode, s, v, item, fault, refault)
    case Get(v, fault) => DoGet(codec, mode, s, v, fault)
    case GetAll(kind, fault) => DoGetAll(codec, mode, s, kind, fault)
    case Poll(available, fault) => DoPoll(codec, mode, s, available, fault)
    case Expire(items, lists) =>
      (if mode == Expiring then s.(items := s.items - items, lists := s.lists - lists) else s, Stored)
  }

  // The same call meeting no fault.
  function Healthy(op: Operation): Operation {
    match op
    case Init(data, _) => Init(data, false)
    case Upsert(v, item, _, _) => Upsert(v, item, false, false)
    case Get(v, _) => Get(v, false)
    case GetAll(kind, _) => GetAll(kind, false)
    case Poll(available, _) => Poll(available, false)
    case Expire(_, _) => op
  }

  // ---------- Agreement of the caches with the store ----------

  ghost predicate Coherent(codec: Codec, mode: Mode, s: WrapperState) {
    && (forall v :: v in s.items ==> ItemInCore(codec, s.core, v) == Some(s.items[v]))
    && (forall kind :: kind in s.lists ==> AllInCore(codec, s.core, kind) == Some(s.lists[kind]))
    && (mode == NoCache ==> s.items == map[] && s.lists == map[])
  }

  // What is written survives serialization, and no kind is given twice with different contents.
  ghost predicate WellFormed(codec: Codec, op: Operation) {
    match op
    case Init(data, _) => ConsistentKinds(data) && forall v :: v in Merged(data) ==> SurvivesCodec(codec, v.kind, Merged(data)[v])
    case Upsert(v, item, _, _) => SurvivesCodec(codec, v.kind, item)
    case _ => true
  }

  // In infinite mode the promise only covers a store that does not fail.
  predicate Covered(mode: Mode, op: Operation) {
    mode == Infinite ==> op == Healthy(op) && !op.Poll?
  }

  lemma {:induction false} AllInCoreOtherKind(codec: Codec, core: Contents, v: Vertex, s: SerializedItem, kind: Kind)
    requires kind != v.kind
    ensures AllInCore(codec, core[v := s], kind) == AllInCore(codec, core, kind)
  {
    forall u: Vertex | u.kind == kind
      ensures u in core[v := s] <==> u in core
      ensures ItemInCore(codec, core[v := s], u) == ItemInCore(codec, core, u)
    {
    }
    if AllInCore(codec, core, kind).Some? {
      assert DecodedOfKind(codec, core[v := s], kind) == DecodedOfKind(codec, core, kind);
    } else {
      var u :| u in core && u.kind == kind && ItemInCore(codec, core, u).None?;
      assert u in core[v := s] && ItemInCore(codec, core[v := s], u).None?;
    }
  }

  lemma {:induction false} AllInCoreSameKind(codec: Codec, core: Contents, v: Vertex, s: SerializedItem, item: ItemDescriptor)
    requires Deserialize(codec, v.kind, s) == Some(item) && AllInCore(codec, core, v.kind).Some?
    ensures AllInCore(codec, core[v := s], v.kind) == Some(AllInCore(codec, core, v.kind).value[v.key := item])
  {
    var core' := core[v := s];
    forall u | u in core' && u.kind == v.kind
      ensures ItemInCore(codec, core', u).Some?
      ensures u != v ==> u in core && ItemInCore(codec, core', u) == ItemInCore(codec, core, u)
    {
    }
    var m, m' := DecodedOfKind(codec, core, v.kind), DecodedOfKind(codec, core', v.kind);
    forall k
      ensures k in m' <==> k in m[v.key := item]
      ensures k in m' && k in m[v.key := item] ==> m'[k] == m[v.key := item][k]
    {
      var u := Vertex(v.kind, k);
      assert k in m' <==> u in core';
      assert k in m <==> u in core;
    }
    assert m' == m[v.key := item];
  }

  // A store written from a map answers with that map.
  lemma {:induction false} AllInCoreWritten(codec: Codec, m: map<Vertex, ItemDescriptor>, kind: Kind)
    requires forall v :: v in m && v.kind == kind ==> SurvivesCodec(codec, v.kind, m[v])
    ensures AllInCore(codec, SerializedAll(codec, m), kind) == Some(OfKind(m, kind))
    ensures forall v :: v in m && v.kind == kind ==> ItemInCore(codec, SerializedAll(codec, m), v) == Some(m[v])
  {
    var core := SerializedAll(codec, m);
    forall v | v in m && v.kind == kind
      ensures ItemInCore(codec, core, v) == Some(m[v])
    {
      RoundTripExactlyWhen(codec, v.kind, m[v]);
    }
    assert DecodedOfKind(codec, core, kind) == OfKind(m, kind);
  }

  function OfKind(m: map<Vertex, ItemDescriptor>, kind: Kind): ItemMap {
    map v | v in m && v.kind == kind :: v.key := m[v]
  }

  lemma {:induction false} LoadedOfKind(data: seq<Collection>, kind: Kind)
    requires ConsistentKinds(data)
    ensures OfKind(Merged(data), kind) == ItemsOf(Load(data), kind)
  {
    var m, m' := OfKind(Merged(data), kind), ItemsOf(Load(data), kind);
    forall k
      ensures k in m <==> k in m'
      ensures k in m && k in m' ==> m[k] == m'[k]
    {
      MergedIsLoaded(data, Vertex(kind, k));
      assert k in m <==> Vertex(kind, k) in Merged(data);
    }
  }

  lemma {:induction false} InitKeepsCoherence(codec: Codec, mode: Mode, s: WrapperState, data: seq<Collection>, fault: bool)
    requires Coherent(codec, mode, s) && WellFormed(codec, Init(data, fault)) && Covered(mode, Init(data, fault))
    ensures Coherent(codec, mode, DoInit(codec, mode, s, data, fault).0)
  {
    if !fault {
      forall kind | kind in Load(data)
        ensures AllInCore(codec, SerializedAll(codec, Merged(data)), kind) == Some(Load(data)[kind])
      {
        AllInCoreWritten(codec, Merged(data), kind);
        LoadedOfKind(data, kind);
      }
      forall v | v in Merged(data)
        ensures ItemInCore(codec, SerializedAll(codec, Merged(data)), v) == Some(Merged(data)[v])
      {
        AllInCoreWritten(codec, Merged(data), v.kind);
      }
    }
  }

  lemma GetKeepsCoherence(codec: Codec, mode: Mode, s: WrapperState, v: Vertex, fault: bool)
    requires Coherent(codec, mode, s)
    ensures Coherent(codec, mode, DoGet(codec, mode, s, v, fault).0)
  {
  }

  lemma {:induction false} PutKeepsCoherence(codec: Codec, mode: Mode, s: WrapperState, v: Vertex, item: ItemDescriptor)
    requires Coherent(codec, mode, s) && SurvivesCodec(codec, v.kind, item)
    requires CoreAccepts(s.core, v, item.version)
    ensures Coherent(codec, mode, DoUpsert(codec, mode, s, v, item, false, false).0)
  {
    var ser := Serialize(codec, v.kind, item);
    var s' := DoUpsert(codec, mode, s, v, item, false, false).0;
    RoundTripExactlyWhen(codec, v.kind, item);
    forall kind | kind in s'.lists
      ensures AllInCore(codec, s'.core, kind) == Some(s'.lists[kind])
    {
      if kind == v.kind {
        AllInCoreSameKind(codec, s.core, v, ser, item);
      } else {
        AllInCoreOtherKind(codec, s.core, v, ser, kind);
      }
    }
  }

  lemma {:induction false} UpsertKeepsCoherence(codec: Codec, mode: Mode, s: WrapperState, v: Vertex, item: ItemDescriptor, fault: bool, refault: bool)
    requires Coherent(codec, mode, s) && SurvivesCodec(codec, v.kind, item) && (mode == Infinite ==> !fault)
    ensures Coherent(codec, mode, DoUpsert(codec, mode, s, v, item, fault, refault).0)
  {
    if !fault {
      if CoreAccepts(s.core, v, item.version) {
        PutKeepsCoherence(codec, mode, s, v, item);
      } else if mode != NoCache {
        GetKeepsCoherence(codec, mode, s.(items := s.items - {v}, lists := s.lists - {v.kind}), v, refault);
      }
    }
  }

  lemma {:induction false} DoKeepsCoherence(codec: Codec, mode: Mode, s: WrapperState, op: Operation)
    requires Coherent(codec, mode, s) && WellFormed(codec, op) && Covered(mode, op)
    ensures Coherent(codec, mode, Do(codec, mode, s, op).0)
  {
    match op
    case Init(data, fault) => InitKeepsCoherence(codec, mode, s, data, fault);
    case Upsert(v, item, fault, refault) => UpsertKeepsCoherence(codec, mode, s, v, item, fault, refault);
    case _ =>
  }

  // ---------- Transparency ----------

  // Run beside a wrapper without a cache over an equal store, every call that succeeds answers what
  // that wrapper answers when its store is healthy, and the two stores stay equal.
  ghost predicate Transparent(codec: Codec, mode: Mode, s: WrapperState, u: WrapperState, ops: seq<Operation>)
    decreases |ops|
  {
    ops == [] ||
    var (s', reply) := Do(codec, mode, s, ops[0]);
    var u' := Do(codec, NoCache, u, ops[0]).0;
    && (reply != Failed ==> reply == Do(codec, NoCache, u, Healthy(ops[0])).1)
    && s'.core == u'.core
    && Transparent(codec, mode, s', u', ops[1..])
  }

  lemma {:induction false} CachesAreTransparent(codec: Codec, mode: Mode, s: WrapperState, u: WrapperState, ops: seq<Operation>)
    requires Coherent(codec, mode, s) && Coherent(codec, NoCache, u) && s.core == u.core
    requires forall op :: op in ops ==> WellFormed(codec, op) && Covered(mode, op)
    ensures Transparent(codec, mode, s, u, ops)
    decreases |ops|
  {
    if ops != [] {
      var op := ops[0];
      assert op in ops && forall o :: o in ops[1..] ==> o in ops;
      DoKeepsCoherence(codec, mode, s, op);
      DoKeepsCoherence(codec, NoCache, u, op);
      SameCoreAfter(codec, mode, s, u, op);
      SameReply(codec, mode, s, u, op);
      CachesAreTransparent(codec, mode, Do(codec, mode, s, op).0, Do(codec, NoCache, u, op).0, ops[1..]);
    }
  }

  lemma UpsertedCore(codec: Codec, mode: Mode, s: WrapperState, v: Vertex, item: ItemDescriptor, fault: bool, refault: bool)
    ensures DoUpsert(codec, mode, s, v, item, fault, refault).0.core ==
            if !fault && CoreAccepts(s.core, v, item.version) then s.core[v := Serialize(codec, v.kind, item)] else s.core
  {
  }

  lemma {:induction false} SameCoreAfter(codec: Codec, mode: Mode, s: WrapperState, u: WrapperState, op: Operation)
    requires s.core == u.core && Covered(mode, op)
    ensures Do(codec, mode, s, op).0.core == Do(codec, NoCache, u, op).0.core
  {
    match op
    case Upsert(v, item, fault, refault) =>
      UpsertedCore(codec, mode, s, v, item, fault, refault);
      UpsertedCore(codec, NoCache, u, v, item, fault, refault);
    case _ =>
  }

  lemma SameReply(codec: Codec, mode: Mode, s: WrapperState, u: WrapperState, op: Operation)
    requires Coherent(codec, mode, s) && Coherent(codec, NoCache, u) && s.core == u.core && Covered(mode, op)
    ensures Do(codec, mode, s, op).1 != Failed ==> Do(codec, mode, s, op).1 == Do(codec, NoCache, u, Healthy(op)).1
  {
  }

  // ---------- What the answers tell ----------

  // The answer of one operation tells what it did to the store, in any cache mode.
  ghost predicate TellsTruth(codec: Codec, core: Contents, op: Operation, reply: Reply, core': Contents) {
    match op
    case Init(data, fault) =>
      && reply == (if fault then Failed else Stored)
      && core' == (if fault then core else SerializedAll(codec, Merged(data)))
    case Upsert(v, item, fault, _) =>
      && (reply == Failed <==> fault)
      && (reply == Upserted(true) <==> !fault && (v !in core || core[v].version < item.version))
      && (reply == Upserted(true) ==> v in core' && core'[v].version == item.version && core' - {v} == core - {v})
      && (reply != Upserted(true) ==> core' == core)
    case Poll(available, _) => reply == Polled(available)
    case _ => core' == core
  }

  ghost predicate Truthful(codec: Codec, mode: Mode, s: WrapperState, ops: seq<Operation>)
    decreases |ops|
  {
    ops == [] ||
    var (s', reply) := Do(codec, mode, s, ops[0]);
    TellsTruth(codec, s.core, ops[0], reply, s'.core) && Truthful(codec, mode, s', ops[1..])
  }

  lemma {:induction false} DoTellsTruth(codec: Codec, mode: Mode, s: WrapperState, op: Operation)
    ensures TellsTruth(codec, s.core, op, Do(codec, mode, s, op).1, Do(codec, mode, s, op).0.core)
  {
    match op
    case Upsert(v, item, fault, refault) =>
      var (s', reply) := Do(codec, mode, s, op);
      if fault {
        FailedUpdate(codec, mode, s, v, item, refault, s', reply);
      } else if v !in s.core || s.core[v].version < item.version {
        AcceptedUpdate(codec, mode, s, v, item, refault, s', reply);
      } else {
        RefusedUpdate(codec, mode, s, v, item, refault, s', reply);
      }
    case _ =>
  }

  // So over every run, under any failures, each update is answered true exactly if the store took it.
  lemma {:induction false} AnswersAreTruthful(codec: Codec, mode: Mode, s: WrapperState, ops: seq<Operation>)
    ensures Truthful(codec, mode, s, ops)
    decreases |ops|
  {
    if ops != [] {
      DoTellsTruth(codec, mode, s, ops[0]);
      AnswersAreTruthful(codec, mode, Do(codec, mode, s, ops[0]).0, ops[1..]);
    }
  }

  // What has been answered or accepted is answered again from the cache when the store then fails.
  lemma {:induction false} AnswersWithoutStore(codec: Codec, mode: Mode, s: WrapperState, op: Operation)
    requires mode != NoCache && Do(codec, mode, s, op).1 != Failed
    ensures var (s', reply) := Do(codec, mode, s, op);
            match op
            case Get(v, _) => DoGet(codec, mode, s', v, true) == (s', reply)
            case GetAll(kind, _) => DoGetAll(codec, mode, s', kind, true) == (s', reply)
            case Upsert(v, item, _, _) => reply == Upserted(true) ==> DoGet(codec, mode, s', v, true) == (s', GotItem(item))
            case Init(data, _) =>
              && (forall v :: v in Merged(data) ==> DoGet(codec, mode, s', v, true) == (s', GotItem(Merged(data)[v])))
              && (forall kind :: kind in Load(data) ==> DoGetAll(codec, mode, s', kind, true) == (s', GotAll(Load(data)[kind])))
            case _ => true
  {
    if op.Upsert? && Do(codec, mode, s, op).1 == Upserted(true) {
      DoTellsTruth(codec, mode, s, op);
      AcceptedUpdate(codec, mode, s, op.v, op.item, op.refault, Do(codec, mode, s, op).0, Upserted(true));
    }
  }

  // ---------- Outages in infinite mode ----------

  // Every call into the store fails, and nothing expires.
  predicate DuringOutage(op: Operation) {
    match op
    case Upsert(_, _, fault, refault) => fault && refault
    case Poll(available, fault) => !available || fault
    case Expire(_, _) => false
    case _ => op.fault
  }

  ghost predicate IsOutage(ops: seq<Operation>) {
    forall op :: op in ops ==> DuringOutage(op) && (op.Init? ==> ConsistentKinds(op.data))
  }

  // What the update would do to plain data, whatever the versions.
  function Overwritten(m: map<Vertex, ItemDescriptor>, op: Operation): map<Vertex, ItemDescriptor> {
    match op
    case Init(data, _) => Merged(data)
    case Upsert(v, item, _, _) => m[v := item]
    case _ => m
  }

  function OverwrittenAll(m: map<Vertex, ItemDescriptor>, ops: seq<Operation>): map<Vertex, ItemDescriptor>
    decreases |ops|
  {
    if ops == [] then m else OverwrittenAll(Overwritten(m, ops[0]), ops[1..])
  }

  function DoAll(codec: Codec, s: WrapperState, ops: seq<Operation>): WrapperState
    decreases |ops|
  {
    if ops == [] then s else DoAll(codec, Do(codec, Infinite, s, ops[0]).0, ops[1..])
  }

  function ItemOr(m: map<Vertex, ItemDescriptor>, v: Vertex): ItemDescriptor {
    if v in m then m[v] else NOT_FOUND
  }

  // For the SDK's kinds the cached lists hold m; a list that is not cached counts as empty.
  ghost predicate ListsHold(s: WrapperState, m: map<Vertex, ItemDescriptor>) {
    forall kind :: IsSdkKind(kind) ==> ListOf(s, kind) == OfKind(m, kind)
  }

  // So do the cached items.
  ghost predicate CacheHolds(s: WrapperState, m: map<Vertex, ItemDescriptor>) {
    && ListsHold(s, m)
    && (forall v: Vertex :: v in s.items && IsSdkKind(v.kind) ==> s.items[v] == ItemOr(m, v))
  }

  // An answer that could be given is the one that plain data would give.
  ghost predicate AnswersFrom(m: map<Vertex, ItemDescriptor>, op: Operation, reply: Reply) {
    match op
    case Get(v, _) => IsSdkKind(v.kind) && reply != Failed ==> reply == GotItem(ItemOr(m, v))
    case GetAll(kind, _) => IsSdkKind(kind) && reply != Failed ==> reply == GotAll(OfKind(m, kind))
    case _ => true
  }

  lemma OfKindPut(m: map<Vertex, ItemDescriptor>, v: Vertex, item: ItemDescriptor, kind: Kind)
    ensures OfKind(m[v := item], kind) == if kind == v.kind then OfKind(m, kind)[v.key := item] else OfKind(m, kind)
  {
  }

  lemma {:induction false} OutageInitLists(codec: Codec, s: WrapperState, data: seq<Collection>)
    requires ConsistentKinds(data)
    ensures ListsHold(DoInit(codec, Infinite, s, data, true).0, Merged(data))
  {
    var s' := DoInit(codec, Infinite, s, data, true).0;
    assert s'.lists == Load(data);
    forall kind | IsSdkKind(kind)
      ensures ListOf(s', kind) == OfKind(Merged(data), kind)
    {
      LoadedOfKind(data, kind);
    }
  }

  lemma {:induction false} OutageUpsertLists(s: WrapperState, s': WrapperState, m: map<Vertex, ItemDescriptor>, v: Vertex, item: ItemDescriptor)
    requires ListsHold(s, m) && s'.lists == s.lists[v.kind := ListOf(s, v.kind)[v.key := item]]
    ensures ListsHold(s', m[v := item])
  {
    forall kind | IsSdkKind(kind)
      ensures ListOf(s', kind) == OfKind(m[v := item], kind)
    {
      assert ListOf(s, kind) == OfKind(m, kind);
      OfKindPut(m, v, item, kind);
      assert ListOf(s', kind) == if kind == v.kind then ListOf(s, kind)[v.key := item] else ListOf(s, kind);
    }
  }

  lemma {:induction false} OutageLists(codec: Codec, s: WrapperState, m: map<Vertex, ItemDescriptor>, op: Operation)
    requires ListsHold(s, m) && DuringOutage(op) && (op.Init? ==> ConsistentKinds(op.data))
    ensures ListsHold(Do(codec, Infinite, s, op).0, Overwritten(m, op))
    ensures Do(codec, Infinite, s, op).0.core == s.core
  {
    match op
    case Init(data, _) => OutageInitLists(codec, s, data);
    case Upsert(v, item, _, _) =>
      FailedUpdate(codec, Infinite, s, v, item, true, Do(codec, Infinite, s, op).0, Do(codec, Infinite, s, op).1);
      OutageUpsertLists(s, Do(codec, Infinite, s, op).0, m, v, item);
    case Get(_, _) => assert Do(codec, Infinite, s, op).0 == s;
    case GetAll(_, _) => assert Do(codec, Infinite, s, op).0 == s;
    case Poll(_, _) => assert Do(codec, Infinite, s, op).0 == s;
  }

  lemma {:induction false} OutageStep(codec: Codec, s: WrapperState, m: map<Vertex, ItemDescriptor>, op: Operation)
    requires CacheHolds(s, m) && DuringOutage(op) && (op.Init? ==> ConsistentKinds(op.data))
    ensures CacheHolds(Do(codec, Infinite, s, op).0, Overwritten(m, op))
    ensures Do(codec, Infinite, s, op).0.core == s.core
    ensures AnswersFrom(m, op, Do(codec, Infinite, s, op).1)
  {
    OutageLists(codec, s, m, op);
    if op.GetAll? && IsSdkKind(op.kind) {
      assert ListOf(s, op.kind) == OfKind(m, op.kind);
    }
  }

  // Throughout an outage every answer from the caches is the one the overwritten data gives, and the
  // store itself is left alone.
  lemma {:induction false} OutageAnswers(codec: Codec, s: WrapperState, m: map<Vertex, ItemDescriptor>, ops: seq<Operation>, op: Operation)
    requires CacheHolds(s, m)
    requires IsOutage(ops + [op])
    ensures CacheHolds(DoAll(codec, s, ops), OverwrittenAll(m, ops))
    ensures DoAll(codec, s, ops).core == s.core
    ensures AnswersFrom(OverwrittenAll(m, ops), op, Do(codec, Infinite, DoAll(codec, s, ops), op).1)
    decreases |ops|
  {
    if ops == [] {
      assert op in ops + [op];
      OutageStep(codec, s, m, op);
    } else {
      assert ops[0] in ops + [op];
      OutageStep(codec, s, m, ops[0]);
      assert forall o :: o in ops[1..] + [op] ==> o in ops + [op];
      OutageAnswers(codec, Do(codec, Infinite, s, ops[0]).0, Overwritten(m, ops[0]), ops[1..], op);
    }
  }

  lemma {:induction false} OutageKeepsItem(codec: Codec, s: WrapperState, ops: seq<Operation>, v: Vertex)
    requires IsOutage(ops) && !Replaced(ops, v)
    ensures At(DoAll(codec, s, ops).items, v) == At(s.items, v)
    decreases |ops|
  {
    if ops != [] {
      assert ops[0] in ops && forall o :: o in ops[1..] ==> o in ops;
      assert !Replaces(ops[0], v);
      var s' := Do(codec, Infinite, s, ops[0]).0;
      if ops[0].Upsert? {
        FailedUpdate(codec, Infinite, s, ops[0].v, ops[0].item, true, s', Failed);
      } else {
        assert s' == s;
      }
      OutageKeepsItem(codec, s', ops[1..], v);
    }
  }

  // In particular an item is answered as it came in last: by itself, or in a full data set, which answers
  // nothing for what it did not hold.
  lemma {:induction false} OutageAnswersLatest(codec: Codec, s: WrapperState, ops: seq<Operation>, i: nat, v: Vertex)
    requires IsOutage(ops) && i < |ops|
    requires ops[i].Init? || (ops[i].Upsert? && ops[i].v == v)
    requires forall j :: i < j < |ops| ==> !ops[j].Init? && !(ops[j].Upsert? && ops[j].v == v)
    ensures DoGet(codec, Infinite, DoAll(codec, s, ops), v, true).1 ==
            if ops[i].Upsert? then GotItem(ops[i].item)
            else if v in Merged(ops[i].data) then GotItem(Merged(ops[i].data)[v])
            else Failed
    decreases |ops|
  {
    var s' := Do(codec, Infinite, s, ops[0]).0;
    assert ops[0] in ops && forall o :: o in ops[1..] ==> o in ops;
    if i > 0 {
      OutageAnswersLatest(codec, s', ops[1..], i - 1, v);
    } else {
      if ops[0].Upsert? {
        FailedUpdate(codec, Infinite, s, v, ops[0].item, true, s', Failed);
      }
      OutageKeepsItem(codec, s', ops[1..], v);
    }
  }

  // ---------- Recovery ----------

  lemma {:induction false} OutageListsAll(codec: Codec, s: WrapperState, m: map<Vertex, ItemDescriptor>, ops: seq<Operation>)
    requires ListsHold(s, m) && IsOutage(ops)
    ensures ListsHold(DoAll(codec, s, ops), OverwrittenAll(m, ops))
    decreases |ops|
  {
    if ops != [] {
      assert ops[0] in ops && forall o :: o in ops[1..] ==> o in ops;
      OutageLists(codec, s, m, ops[0]);
      OutageListsAll(codec, Do(codec, Infinite, s, ops[0]).0, Overwritten(m, ops[0]), ops[1..]);
    }
  }

  lemma {:induction false} CachedDataOfKind(s: WrapperState, kind: Kind)
    requires IsSdkKind(kind)
    ensures OfKind(CachedData(s.lists), kind) == ListOf(s, kind)
  {
    var m, l := OfKind(CachedData(s.lists), kind), ListOf(s, kind);
    forall k
      ensures k in m <==> k in l
      ensures k in m && k in l ==> m[k] == l[k]
    {
      assert k in m <==> Vertex(kind, k) in CachedData(s.lists);
    }
  }

  ghost predicate AllSurvive(codec: Codec, kind: Kind, items: ItemMap) {
    forall k :: k in items ==> SurvivesCodec(codec, kind, items[k])
  }

  // A recovery poll whose write succeeds leaves the store with the cached lists.
  lemma {:induction false} RecoveryWrites(codec: Codec, s: WrapperState, kind: Kind)
    requires IsSdkKind(kind) && AllSurvive(codec, kind, ListOf(s, kind))
    ensures AllInCore(codec, DoPoll(codec, Infinite, s, true, false).0.core, kind) == Some(ListOf(s, kind))
  {
    RecoveryOverwrites(codec, s);
    WrittenFromCache(codec, s, kind);
  }

  lemma {:induction false} WrittenFromCache(codec: Codec, s: WrapperState, kind: Kind)
    requires IsSdkKind(kind) && AllSurvive(codec, kind, ListOf(s, kind))
    ensures AllInCore(codec, SerializedAll(codec, CachedData(s.lists)), kind) == Some(ListOf(s, kind))
  {
    var cached := CachedData(s.lists);
    CachedDataOfKind(s, kind);
    forall v | v in cached && v.kind == kind
      ensures SurvivesCodec(codec, v.kind, cached[v])
    {
      OfKindAt(cached, v);
    }
    AllInCoreWritten(codec, cached, kind);
  }

  lemma RecoveryOverwrites(codec: Codec, s: WrapperState)
    ensures DoPoll(codec, Infinite, s, true, false).0.core == SerializedAll(codec, CachedData(s.lists))
  {
  }

  lemma {:induction false} SameOfKind(m: map<Vertex, ItemDescriptor>, m': map<Vertex, ItemDescriptor>, kind: Kind)
    requires OfKind(m, kind) == OfKind(m', kind)
    ensures forall v: Vertex :: v.kind == kind ==> At(m, v) == At(m', v)
  {
    forall v: Vertex | v.kind == kind
      ensures At(m, v) == At(m', v)
    {
      OfKindAt(m, v);
      OfKindAt(m', v);
    }
  }

  function At(m: map<Vertex, ItemDescriptor>, v: Vertex): Option<ItemDescriptor> {
    if v in m then Some(m[v]) else None
  }

  lemma OfKindAt(m: map<Vertex, ItemDescriptor>, v: Vertex)
    ensures v in m <==> v.key in OfKind(m, v.kind)
    ensures v in m ==> OfKind(m, v.kind)[v.key] == m[v]
  {
  }

  // What the store holds of a kind after an outage and a recovery poll whose write succeeds.
  function Recovered(codec: Codec, s: WrapperState, ops: seq<Operation>, kind: Kind): Option<ItemMap> {
    AllInCore(codec, DoPoll(codec, Infinite, DoAll(codec, s, ops), true, false).0.core, kind)
  }

  // After the outage, a recovery poll whose write succeeds leaves the store with what the cached lists
  // held at its start, overwritten by everything that came in during it, in order.
  lemma {:induction false} RecoveryReplaysOutage(codec: Codec, s: WrapperState, m: map<Vertex, ItemDescriptor>, ops: seq<Operation>, kind: Kind)
    requires ListsHold(s, m) && IsSdkKind(kind)
    requires IsOutage(ops)
    requires AllSurvive(codec, kind, OfKind(OverwrittenAll(m, ops), kind))
    ensures Recovered(codec, s, ops, kind) == Some(OfKind(OverwrittenAll(m, ops), kind))
  {
    OutageListsAll(codec, s, m, ops);
    RecoveryWrites(codec, DoAll(codec, s, ops), kind);
  }

  // ---------- What of the store survives an outage ----------

  // Afterwards the vertex no longer holds what it did before.
  predicate Replaces(op: Operation, v: Vertex) {
    op.Init? || (op.Upsert? && op.v == v)
  }

  predicate Replaced(ops: seq<Operation>, v: Vertex) {
    exists op :: op in ops && Replaces(op, v)
  }

  lemma {:induction false} OverwrittenPerVertex(
    m: map<Vertex, ItemDescriptor>, m': map<Vertex, ItemDescriptor>, ops: seq<Operation>, v: Vertex)
    ensures Replaced(ops, v) ==> At(OverwrittenAll(m, ops), v) == At(OverwrittenAll(m', ops), v)
    ensures !Replaced(ops, v) ==> At(OverwrittenAll(m, ops), v) == At(m, v)
    decreases |ops|
  {
    if ops != [] {
      assert ops == [ops[0]] + ops[1..];
      OverwrittenPerVertex(Overwritten(m, ops[0]), Overwritten(m', ops[0]), ops[1..], v);
      OverwrittenPerVertex(Overwritten(m', ops[0]), Overwritten(m, ops[0]), ops[1..], v);
      assert Replaced(ops, v) <==> Replaces(ops[0], v) || Replaced(ops[1..], v);
    }
  }

  // Of the kind, part has all of m or nothing.
  ghost predicate AllOrNothing(part: map<Vertex, ItemDescriptor>, m: map<Vertex, ItemDescriptor>, kind: Kind, all: bool) {
    forall v: Vertex :: v.kind == kind ==> At(part, v) == if all then At(m, v) else None
  }

  // From caches that agree with the store, a recovered store holds what it held before the outage,
  // overwritten by what came in, exactly when the kind's list was cached or all that was stored of the
  // kind has been replaced meanwhile. m is what was stored.
  lemma {:induction false} RecoveryRestoresExactlyWhen(codec: Codec, s: WrapperState, m: map<Vertex, ItemDescriptor>, ops: seq<Operation>, kind: Kind)
    requires Coherent(codec, Infinite, s) && IsSdkKind(kind)
    requires AllInCore(codec, s.core, kind) == Some(OfKind(m, kind))
    requires IsOutage(ops)
    requires AllSurvive(codec, kind, OfKind(OverwrittenAll(m, ops), kind))
    ensures Recovered(codec, s, ops, kind) == Some(OfKind(OverwrittenAll(m, ops), kind)) <==>
            kind in s.lists || forall v :: v in m && v.kind == kind ==> Replaced(ops, v)
  {
    RestoredFromLists(codec, s, m, ops, kind);
  }

  lemma {:induction false} RestoredFromLists(codec: Codec, s: WrapperState, m: map<Vertex, ItemDescriptor>, ops: seq<Operation>, kind: Kind)
    requires IsSdkKind(kind) && IsOutage(ops) && (kind in s.lists ==> s.lists[kind] == OfKind(m, kind))
    requires AllSurvive(codec, kind, OfKind(OverwrittenAll(m, ops), kind))
    ensures Recovered(codec, s, ops, kind) == Some(OfKind(OverwrittenAll(m, ops), kind)) <==>
            kind in s.lists || forall v :: v in m && v.kind == kind ==> Replaced(ops, v)
  {
    CachedAllOrNothing(s, m, kind);
    ListsHoldCached(s);
    RestoredFromPart(codec, s, CachedData(s.lists), m, ops, kind, kind in s.lists);
  }

  lemma {:induction false} RestoredFromPart(
    codec: Codec, s: WrapperState, part: map<Vertex, ItemDescriptor>, m: map<Vertex, ItemDescriptor>, ops: seq<Operation>,
    kind: Kind, all: bool)
    requires ListsHold(s, part) && IsSdkKind(kind)
    requires AllOrNothing(part, m, kind, all)
    requires IsOutage(ops)
    requires AllSurvive(codec, kind, OfKind(OverwrittenAll(m, ops), kind))
    ensures Recovered(codec, s, ops, kind) == Some(OfKind(OverwrittenAll(m, ops), kind)) <==>
            all || forall v :: v in m && v.kind == kind ==> Replaced(ops, v)
  {
    RecoveredFromPart(codec, s, part, m, ops, kind, all);
    OverwrittenAlikeExactlyWhen(part, m, ops, kind, all);
  }

  lemma {:induction false} RecoveredFromPart(
    codec: Codec, s: WrapperState, part: map<Vertex, ItemDescriptor>, m: map<Vertex, ItemDescriptor>, ops: seq<Operation>,
    kind: Kind, all: bool)
    requires ListsHold(s, part) && IsSdkKind(kind)
    requires AllOrNothing(part, m, kind, all) && IsOutage(ops)
    requires AllSurvive(codec, kind, OfKind(OverwrittenAll(m, ops), kind))
    ensures Recovered(codec, s, ops, kind) == Some(OfKind(OverwrittenAll(part, ops), kind))
  {
    SurvivesFromPart(codec, part, m, ops, kind, all);
    RecoveryReplaysOutage(codec, s, part, ops, kind);
  }

  lemma {:induction false} SurvivesFromPart(
    codec: Codec, part: map<Vertex, ItemDescriptor>, m: map<Vertex, ItemDescriptor>, ops: seq<Operation>, kind: Kind, all: bool)
    requires AllOrNothing(part, m, kind, all)
    requires AllSurvive(codec, kind, OfKind(OverwrittenAll(m, ops), kind))
    ensures AllSurvive(codec, kind, OfKind(OverwrittenAll(part, ops), kind))
  {
    var now, now' := OverwrittenAll(part, ops), OverwrittenAll(m, ops);
    forall k | k in OfKind(now, kind)
      ensures SurvivesCodec(codec, kind, OfKind(now, kind)[k])
    {
      var v := Vertex(kind, k);
      OverwrittenFromPart(part, m, ops, v);
      OfKindAt(now, v);
      OfKindAt(now', v);
    }
  }

  // Of each kind the lists hold all that is stored, or nothing.
  lemma {:induction false} CachedAllOrNothing(s: WrapperState, m: map<Vertex, ItemDescriptor>, kind: Kind)
    requires IsSdkKind(kind) && (kind in s.lists ==> s.lists[kind] == OfKind(m, kind))
    ensures AllOrNothing(CachedData(s.lists), m, kind, kind in s.lists)
  {
    CachedDataOfKind(s, kind);
    forall v: Vertex | v.kind == kind
      ensures At(CachedData(s.lists), v) == if kind in s.lists then At(m, v) else None
    {
      OfKindAt(CachedData(s.lists), v);
      OfKindAt(m, v);
    }
  }

  lemma {:induction false} OverwrittenFromPart(
    part: map<Vertex, ItemDescriptor>, m: map<Vertex, ItemDescriptor>, ops: seq<Operation>, v: Vertex)
    requires At(part, v) == At(m, v) || At(part, v) == None
    ensures v in OverwrittenAll(part, ops) ==> At(OverwrittenAll(part, ops), v) == At(OverwrittenAll(m, ops), v)
  {
    OverwrittenPerVertex(part, m, ops, v);
    OverwrittenPerVertex(m, part, ops, v);
  }

  lemma {:induction false} OverwrittenAlikeExactlyWhen(
    part: map<Vertex, ItemDescriptor>, m: map<Vertex, ItemDescriptor>, ops: seq<Operation>, kind: Kind, all: bool)
    requires AllOrNothing(part, m, kind, all)
    ensures OfKind(OverwrittenAll(part, ops), kind) == OfKind(OverwrittenAll(m, ops), kind) <==>
            all || forall v :: v in m && v.kind == kind ==> Replaced(ops, v)
  {
    forall v: Vertex | v.kind == kind
      ensures At(OverwrittenAll(part, ops), v) == At(OverwrittenAll(m, ops), v) <==> all || v !in m || Replaced(ops, v)
    {
      OverwrittenPerVertex(part, m, ops, v);
      OverwrittenPerVertex(m, part, ops, v);
    }
    EqualOfKind(OverwrittenAll(part, ops), OverwrittenAll(m, ops), kind);
  }

  lemma {:induction false} EqualOfKind(m: map<Vertex, ItemDescriptor>, m': map<Vertex, ItemDescriptor>, kind: Kind)
    ensures OfKind(m, kind) == OfKind(m', kind) <==> forall v: Vertex :: v.kind == kind ==> At(m, v) == At(m', v)
  {
    if OfKind(m, kind) == OfKind(m', kind) {
      SameOfKind(m, m', kind);
    }
    if forall v: Vertex :: v.kind == kind ==> At(m, v) == At(m', v) {
      forall k
        ensures k in OfKind(m, kind) <==> k in OfKind(m', kind)
        ensures k in OfKind(m, kind) && k in OfKind(m', kind) ==> OfKind(m, kind)[k] == OfKind(m', kind)[k]
      {
        OfKindAt(m, Vertex(kind, k));
        OfKindAt(m', Vertex(kind, k));
        assert At(m, Vertex(kind, k)) == At(m', Vertex(kind, k));
      }
    }
  }

  lemma {:induction false} ListsHoldCached(s: WrapperState)
    ensures ListsHold(s, CachedData(s.lists))
  {
    forall kind | IsSdkKind(kind)
      ensures ListOf(s, kind) == OfKind(CachedData(s.lists), kind)
    {
      CachedDataOfKind(s, kind);
    }
  }

  // For example, an update that the store refuses drops the kind's list from the cache. If an outage
  // then brings one update of the kind, recovery leaves the store with that one item and no other.
  lemma {:induction false} RefusedUpdateLosesOthers(
    codec: Codec, s: WrapperState, v: Vertex, refused: ItemDescriptor, late: ItemDescriptor)
    requires Coherent(codec, Infinite, s) && IsSdkKind(v.kind) && SurvivesCodec(codec, v.kind, late)
    requires !CoreAccepts(s.core, v, refused.version)
    ensures var s1 := DoUpsert(codec, Infinite, s, v, refused, false, false).0;
            var s2 := DoUpsert(codec, Infinite, s1, v, late, true, true).0;
            && s1.core == s2.core == s.core
            && AllInCore(codec, DoPoll(codec, Infinite, s2, true, false).0.core, v.kind) == Some(map[v.key := late])
  {
    var s1 := DoUpsert(codec, Infinite, s, v, refused, false, false).0;
    var s2 := DoUpsert(codec, Infinite, s1, v, late, true, true).0;
    assert v.kind !in s1.lists && ListOf(s2, v.kind) == map[v.key := late];
    RecoveryWrites(codec, s2, v.kind);
  }

  // With no list cached, recovery empties the store.
  lemma RecoveryWithoutListsEmpties(codec: Codec, s: WrapperState)
    requires forall kind :: IsSdkKind(kind) ==> kind !in s.lists
    ensures DoPoll(codec, Infinite, s, true, false).0.core == map[]
  {
  }

  // Caches that agree with the store and hold both lists are all that the start of an outage needs.
  lemma {:induction false} OutageStart(codec: Codec, s: WrapperState)
    requires Coherent(codec, Infinite, s) && forall kind :: IsSdkKind(kind) ==> kind in s.lists
    ensures CacheHolds(s, CachedData(s.lists))
    ensures forall kind :: IsSdkKind(kind) ==> AllInCore(codec, s.core, kind) == Some(OfKind(CachedData(s.lists), kind))
  {
    var m := CachedData(s.lists);
    ListsHoldCached(s);
    forall v: Vertex | v in s.items && IsSdkKind(v.kind)
      ensures s.items[v] == ItemOr(m, v)
    {
      assert ListOf(s, v.kind) == OfKind(m, v.kind);
      OfKindAt(m, v);
      CoherentItem(codec, s, v);
    }
  }

  lemma CoherentItem(codec: Codec, s: WrapperState, v: Vertex)
    requires Coherent(codec, Infinite, s) && v in s.items && v.kind in s.lists
    ensures s.items[v] == if v.key in s.lists[v.kind] then s.lists[v.kind][v.key] else NOT_FOUND
  {
  }
}
