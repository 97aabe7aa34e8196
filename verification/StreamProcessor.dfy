/**
 internal/datasourcev2/streaming_data_source.go: puts and deletes are collected under a server intent
 and handed to the store as one payload, or not at all.
 */
module StreamProcessing {
  import opened DataModel
  import opened InMemoryStore
  import opened Fdv2Events
  import opened DataSystem
  import opened MirroredStore

  // ---------- Payloads, read off the stream ----------

  predicate IsObjectEvent(e: RawEvent) {
    e.Put? || e.Delete?
  }

  function ObjectEvents(es: seq<RawEvent>): seq<RawEvent> {
    if es == [] then []
    else ObjectEvents(es[..|es| - 1]) + if IsObjectEvent(es[|es| - 1]) then [es[|es| - 1]] else []
  }

  // A server intent that announces a payload.
  predicate AnnouncesPayload(e: RawEvent) {
    e.ServerIntent? && e.codes.Some? && e.codes.value != [] && e.codes.value[0] != NoTransfer
  }

  // What the puts and deletes of a change set decode to; None if some of them cannot be decoded.
  type Decoding = seq<RawEvent> -> Option<seq<Event>>

  function Decoder(parse: ItemParser): Decoding {
    es => DecodeAll(parse, es)
  }

  // The event hands over a payload: it and everything collected for it can be decoded.
  predicate HandsOver(decode: Decoding, e: RawEvent, collected: seq<RawEvent>) {
    e.PayloadTransferred? && e.selector.Some? && decode(ObjectEvents(collected)).Some?
  }

  // The position after the latest event before i that begins a new change set: an intent, an error
  // event, or a transfer that was applied.
  function Start(decode: Decoding, es: seq<RawEvent>, i: nat): (start: nat)
    requires i <= |es|
    ensures start <= i
  {
    if i == 0 then 0
    else
      var before := Start(decode, es, i - 1);
      var e := es[i - 1];
      if AnnouncesPayload(e) || e.ErrorEvent? || HandsOver(decode, e, es[before..i - 1]) then i else before
  }

  // What has been put and deleted since then; None if some of it cannot be decoded.
  function Pending(decode: Decoding, es: seq<RawEvent>, i: nat): Option<seq<Event>>
    requires i <= |es|
  {
    decode(ObjectEvents(es[Start(decode, es, i)..i]))
  }

  predicate Completes(decode: Decoding, es: seq<RawEvent>, i: nat)
    requires i < |es|
  {
    HandsOver(decode, es[i], es[Start(decode, es, i)..i])
  }

  // A new change set begins after the event: it is an intent, an error event, or an applied transfer.
  predicate Begins(decode: Decoding, es: seq<RawEvent>, i: nat)
    requires i < |es|
  {
    AnnouncesPayload(es[i]) || es[i].ErrorEvent? || Completes(decode, es, i)
  }

  lemma {:induction false} StartStep(decode: Decoding, es: seq<RawEvent>, i: nat)
    requires 0 < i <= |es|
    ensures Start(decode, es, i) == if Begins(decode, es, i - 1) then i else Start(decode, es, i - 1)
  {
  }

  // The intent in force before event i: the one that began the current change set, if one did.
  function IntentInForce(decode: Decoding, es: seq<RawEvent>, i: nat): Option<IntentCode>
    requires i <= |es|
  {
    var start := Start(decode, es, i);
    if 0 < start && AnnouncesPayload(es[start - 1]) then Some(es[start - 1].codes.value[0]) else None
  }

  // A payload is handed over with no intent in force; the program stops there.
  predicate Breaks(decode: Decoding, es: seq<RawEvent>, i: nat)
    requires i < |es|
  {
    Completes(decode, es, i) && IntentInForce(decode, es, i).None?
  }

  datatype Payload = Payload(code: IntentCode, events: seq<Event>, selector: Selector)

  // The payload that event i completes, if it does.
  function Completed(decode: Decoding, es: seq<RawEvent>, i: nat): Option<Payload>
    requires i < |es|
  {
    if Completes(decode, es, i) && IntentInForce(decode, es, i).Some? then
      Some(Payload(IntentInForce(decode, es, i).value, Pending(decode, es, i).value, es[i].selector.value))
    else
      None
  }

  function With(ps: seq<Payload>, p: Option<Payload>): seq<Payload> {
    if p.Some? then ps + [p.value] else ps
  }

  // The payloads completed by the first n events, in order.
  function Payloads(decode: Decoding, es: seq<RawEvent>, n: nat): seq<Payload>
    requires n <= |es|
  {
    if n == 0 then [] else With(Payloads(decode, es, n - 1), Completed(decode, es, n - 1))
  }

  // ---------- What payloads do to stored data ----------

  datatype Contents = Contents(data: DataMap, selector: Option<Selector>)

  // A full payload replaces the data; changes are applied to it in order; other codes do nothing.
  function Applied(c: Contents, p: Payload): Contents {
    match p.code
    case TransferFull => Contents(Load(Grouped(UpdatesOf(p.events))), Some(p.selector))
    case TransferChanges => Contents(Delivered(c.data, UpdatesOf(p.events)), Some(p.selector))
    case NoTransfer => c
    case OtherCode => c
  }

  function AppliedIf(c: Contents, p: Option<Payload>): Contents {
    if p.Some? then Applied(c, p.value) else c
  }

  function AppliedAll(c: Contents, ps: seq<Payload>): Contents {
    if ps == [] then c else Applied(AppliedAll(c, ps[..|ps| - 1]), ps[|ps| - 1])
  }

  // The event itself cannot be read, or hands over a payload that cannot be decoded.
  predicate Malformed(decode: Decoding, es: seq<RawEvent>, i: nat)
    requires i < |es|
  {
    match es[i]
    case ServerIntent(codes) => codes.None? || codes.value == []
    case Goodbye(wellFormed) => !wellFormed
    case ErrorEvent(wellFormed) => !wellFormed
    case PayloadTransferred(selector) => selector.None? || Pending(decode, es, i).None?
    case _ => false
  }

  datatype StatusReport = ReportedValid | ReportedInterrupted

  // What is reported about the data source after event i.
  function Report(decode: Decoding, es: seq<RawEvent>, i: nat): seq<StatusReport>
    requires i < |es|
  {
    if es[i].ServerIntent? && es[i].codes.Some? && es[i].codes.value != [] && es[i].codes.value[0] == NoTransfer then []
    else if Malformed(decode, es, i) then [ReportedInterrupted]
    else [ReportedValid]
  }

  // ---------- The collected events are the ones the stream says ----------

  lemma {:induction false} ObjectEventsConcat(es: seq<RawEvent>, more: seq<RawEvent>)
    ensures ObjectEvents(es + more) == ObjectEvents(es) + ObjectEvents(more)
  {
    if more == [] {
      assert es + more == es;
    } else {
      var n := |more| - 1;
      ObjectEventsConcat(es, more[..n]);
      assert (es + more)[..|es| + n] == es + more[..n];
    }
  }

  // Only put and delete events contribute to a change set.
  lemma {:induction false} DecodeObjectEvents(parse: ItemParser, es: seq<RawEvent>)
    ensures DecodeAll(parse, es) == DecodeAll(parse, ObjectEvents(es))
  {
    if es != [] {
      var n := |es| - 1;
      DecodeObjectEvents(parse, es[..n]);
      var kept := ObjectEvents(es);
      if IsObjectEvent(es[n]) {
        assert kept[..|kept| - 1] == ObjectEvents(es[..n]);
      } else {
        assert kept == ObjectEvents(es[..n]);
        if DecodeAll(parse, es[..n]).Some? {
          assert DecodeAll(parse, es[..n]).value + [] == DecodeAll(parse, es[..n]).value;
        }
      }
    }
  }

  // ---------- One event ----------

  datatype ChangeSet = ChangeSet(intent: Option<IntentCode>, collected: seq<RawEvent>)

  const EMPTY_CHANGE_SET := ChangeSet(None, [])

  // The change set is what the first i events leave behind.
  ghost predicate Follows(decode: Decoding, es: seq<RawEvent>, i: nat, cs: ChangeSet)
    requires i <= |es|
  {
    && cs.intent == IntentInForce(decode, es, i)
    && ObjectEvents(cs.collected) == ObjectEvents(es[Start(decode, es, i)..i])
  }

  lemma {:induction false} CollectedIsPending(parse: ItemParser, es: seq<RawEvent>, i: nat, cs: ChangeSet, e: RawEvent)
    requires i <= |es| && Follows(Decoder(parse), es, i, cs) && !IsObjectEvent(e)
    ensures DecodeAll(parse, cs.collected + [e]) == Pending(Decoder(parse), es, i)
  {
    DecodeObjectEvents(parse, cs.collected + [e]);
    ObjectEventsConcat(cs.collected, [e]);
    assert ObjectEvents([e]) == [] by { assert [e][..0] == []; }
    assert ObjectEvents(cs.collected) + [] == ObjectEvents(cs.collected);
  }

  lemma ObjectEventsOneMore(es: seq<RawEvent>, e: RawEvent)
    ensures ObjectEvents(es + [e]) == if IsObjectEvent(e) then ObjectEvents(es) + [e] else ObjectEvents(es)
  {
  }

  lemma StartKept(decode: Decoding, es: seq<RawEvent>, i: nat)
    requires i < |es|
    requires !Begins(decode, es, i)
    ensures Start(decode, es, i + 1) == Start(decode, es, i)
    ensures IntentInForce(decode, es, i + 1) == IntentInForce(decode, es, i)
  {
  }

  // The event begins nothing new: the change set goes on, and grows by puts and deletes only.
  lemma {:induction false} ChangeSetGoesOn(decode: Decoding, es: seq<RawEvent>, i: nat, cs: ChangeSet, cs': ChangeSet)
    requires i < |es| && Follows(decode, es, i, cs)
    requires !Begins(decode, es, i)
    requires cs'.intent == cs.intent
    requires cs'.collected == cs.collected + [es[i]] || (cs'.collected == cs.collected && !IsObjectEvent(es[i]))
    ensures Follows(decode, es, i + 1, cs')
  {
    StartKept(decode, es, i);
    var since := es[Start(decode, es, i)..i];
    assert es[Start(decode, es, i)..i + 1] == since + [es[i]];
    ObjectEventsOneMore(since, es[i]);
    ObjectEventsOneMore(cs.collected, es[i]);
  }

  lemma ChangeSetBegins(decode: Decoding, es: seq<RawEvent>, i: nat, cs': ChangeSet)
    requires i < |es| && cs'.collected == []
    requires Begins(decode, es, i)
    requires cs'.intent == if AnnouncesPayload(es[i]) then Some(es[i].codes.value[0]) else None
    ensures Follows(decode, es, i + 1, cs')
  {
  }

  // A transfer that completes nothing: it cannot be read, or its change set cannot be decoded.
  lemma {:induction false} RefusedTransfer(decode: Decoding, es: seq<RawEvent>, i: nat, cs: ChangeSet, cs': ChangeSet)
    requires i < |es| && Follows(decode, es, i, cs) && es[i].PayloadTransferred?
    requires es[i].selector.None? || Pending(decode, es, i).None?
    requires cs'.intent == cs.intent && (cs'.collected == cs.collected || cs'.collected == cs.collected + [es[i]])
    ensures Follows(decode, es, i + 1, cs')
    ensures !Breaks(decode, es, i) && Completed(decode, es, i).None? && Report(decode, es, i) == [ReportedInterrupted]
  {
    ChangeSetGoesOn(decode, es, i, cs, cs');
  }

  lemma {:induction false} AppliedTransfer(decode: Decoding, es: seq<RawEvent>, i: nat, cs: ChangeSet)
    requires i < |es| && Follows(decode, es, i, cs) && es[i].PayloadTransferred?
    requires es[i].selector.Some? && Pending(decode, es, i).Some?
    ensures Breaks(decode, es, i) <==> cs.intent.None?
    ensures cs.intent.Some? ==>
              && Completed(decode, es, i) == Some(Payload(cs.intent.value, Pending(decode, es, i).value, es[i].selector.value))
              && Report(decode, es, i) == [ReportedValid]
              && Follows(decode, es, i + 1, EMPTY_CHANGE_SET)
  {
    if cs.intent.Some? {
      ChangeSetBegins(decode, es, i, EMPTY_CHANGE_SET);
    }
  }

  // An event other than a transfer completes nothing and breaks nothing.
  lemma {:induction false} OtherEvent(decode: Decoding, es: seq<RawEvent>, i: nat, cs: ChangeSet, cs': ChangeSet)
    requires i < |es| && Follows(decode, es, i, cs) && !es[i].PayloadTransferred?
    requires
      if AnnouncesPayload(es[i]) then cs' == ChangeSet(Some(es[i].codes.value[0]), [])
      else if es[i].ErrorEvent? then cs' == EMPTY_CHANGE_SET
      else if IsObjectEvent(es[i]) then cs' == cs.(collected := cs.collected + [es[i]])
      else cs' == cs
    ensures Follows(decode, es, i + 1, cs')
    ensures !Breaks(decode, es, i) && Completed(decode, es, i).None?
  {
    if AnnouncesPayload(es[i]) || es[i].ErrorEvent? {
      ChangeSetBegins(decode, es, i, cs');
    } else {
      ChangeSetGoesOn(decode, es, i, cs, cs');
    }
  }

  // ---------- The loop ----------

  datatype Observed = Observed(stored: Contents, reports: seq<StatusReport>, restarts: nat, isInitialized: bool)

  // What can be seen of event i: the payload it completes is applied, it is reported, a malformed one
  // restarts the stream, and the first full payload initializes the client.
  ghost predicate Handled(decode: Decoding, es: seq<RawEvent>, i: nat, before: Observed, after: Observed)
    requires i < |es|
  {
    var payload, report := Completed(decode, es, i), Report(decode, es, i);
    && after.stored == AppliedIf(before.stored, payload)
    && after.reports == before.reports + report
    && after.restarts == before.restarts + (if report == [ReportedInterrupted] then 1 else 0)
    && after.isInitialized == (before.isInitialized || (payload.Some? && payload.value.code == TransferFull))
  }

  class StreamProcessor {
    const dataDestination: Store
    const parse: ItemParser
    var isInitialized: bool
    var reports: seq<StatusReport>
    var restarts: nat

    constructor (dataDestination: Store, parse: ItemParser)
      ensures this.dataDestination == dataDestination && this.parse == parse
      ensures !isInitialized && reports == [] && restarts == 0
    {
      this.dataDestination, this.parse := dataDestination, parse;
      isInitialized, reports, restarts := false, [], 0;
    }

    ghost function Stored(): Contents
      reads dataDestination, dataDestination.memoryStore
    {
      Contents(dataDestination.memoryStore.data, dataDestination.selector)
    }

    ghost function View(): Observed
      reads this, dataDestination, dataDestination.memoryStore
    {
      Observed(Stored(), reports, restarts, isInitialized)
    }

    // gotMalformedEvent: report, and have the stream reconnected. The stream goes on with the events
    // that then arrive; nothing collected so far is dropped.
    method GotMalformedEvent()
      modifies this`reports, this`restarts
      ensures reports == old(reports) + [ReportedInterrupted] && restarts == old(restarts) + 1
    {
      reports := reports + [ReportedInterrupted];
      restarts := restarts + 1;
    }

    method ReportValid()
      modifies this`reports
      ensures reports == old(reports) + [ReportedValid]
    {
      reports := reports + [ReportedValid];
    }

    // The payload goes to the store; the mirror's faults are not this component's concern.
    method Transfer(code: IntentCode, updates: seq<Event>, selector: Selector)
      modifies this`isInitialized, dataDestination, dataDestination.memoryStore, dataDestination.impl
      ensures Stored() == Applied(old(Stored()), Payload(code, updates, selector))
      ensures isInitialized == (old(isInitialized) || code == TransferFull)
      ensures dataDestination.impl == old(dataDestination.impl)
    {
      match code {
        case TransferFull =>
          var fault: bool := *;
          dataDestination.SetBasis(updates, Some(selector), true, fault);
          isInitialized := true;
        case TransferChanges =>
          var faults: set<nat> := *;
          dataDestination.ApplyDelta(updates, Some(selector), true, faults);
        case NoTransfer =>
        case OtherCode =>
      }
    }

    // The switch of consumeStream, on event i of the stream.
    method HandleEvent(event: RawEvent, changeSet: ChangeSet, ghost stream: seq<RawEvent>, ghost i: nat)
      returns (next: ChangeSet, broken: bool)
      requires i < |stream| && event == stream[i] && Follows(Decoder(parse), stream, i, changeSet)
      modifies this, dataDestination, dataDestination.memoryStore, dataDestination.impl
      ensures dataDestination.impl == old(dataDestination.impl)
      ensures broken == Breaks(Decoder(parse), stream, i)
      ensures broken ==> View() == old(View())
      ensures !broken ==> Follows(Decoder(parse), stream, i + 1, next) && Handled(Decoder(parse), stream, i, old(View()), View())
    {
      next, broken := changeSet, false;
      match event {
        case Heartbeat =>
          ReportValid();
        case ServerIntent(codes) =>
          if codes.None? || codes.value == [] {
            GotMalformedEvent();
          } else if codes.value[0] != NoTransfer {
            next := ChangeSet(Some(codes.value[0]), []);
            ReportValid();
          }
        case Put(_) =>
          next := next.(collected := next.collected + [event]);
          ReportValid();
        case Delete(_) =>
          next := next.(collected := next.collected + [event]);
          ReportValid();
        case Goodbye(wellFormed) =>
          if wellFormed { ReportValid(); } else { GotMalformedEvent(); }
        case ErrorEvent(wellFormed) =>
          next := EMPTY_CHANGE_SET;
          if wellFormed { ReportValid(); } else { GotMalformedEvent(); }
        case PayloadTransferred(_) =>
          next, broken := HandleTransfer(event, changeSet, stream, i);
          return;
        case UnknownEvent =>
          ReportValid();
      }
      OtherEvent(Decoder(parse), stream, i, changeSet, next);
    }

    // Its case for a transfer.
    method HandleTransfer(event: RawEvent, changeSet: ChangeSet, ghost stream: seq<RawEvent>, ghost i: nat)
      returns (next: ChangeSet, broken: bool)
      requires i < |stream| && event == stream[i] && Follows(Decoder(parse), stream, i, changeSet) && event.PayloadTransferred?
      modifies this, dataDestination, dataDestination.memoryStore, dataDestination.impl
      ensures dataDestination.impl == old(dataDestination.impl)
      ensures broken == Breaks(Decoder(parse), stream, i)
      ensures broken ==> View() == old(View())
      ensures !broken ==> Follows(Decoder(parse), stream, i + 1, next) && Handled(Decoder(parse), stream, i, old(View()), View())
    {
      next, broken := changeSet, false;
      if event.selector.None? {
        GotMalformedEvent();
        RefusedTransfer(Decoder(parse), stream, i, changeSet, next);
        return;
      }
      next := next.(collected := next.collected + [event]);
      CollectedIsPending(parse, stream, i, changeSet, event);
      var updates := DeserializeEvents(parse, next.collected);
      if updates.None? {
        GotMalformedEvent();
        RefusedTransfer(Decoder(parse), stream, i, changeSet, next);
        return;
      }
      AppliedTransfer(Decoder(parse), stream, i, changeSet);
      if next.intent.None? {
        broken := true;
        return;
      }
      Transfer(next.intent.value, updates.value, event.selector.value);
      next := EMPTY_CHANGE_SET;
      ReportValid();
    }

    // One round of the loop: what is seen of i events becomes what is seen of one more.
    method ConsumeEvent(
      event: RawEvent, changeSet: ChangeSet, ghost stream: seq<RawEvent>, ghost i: nat, ghost before: Observed)
      returns (next: ChangeSet, broken: bool)
      requires i < |stream| && event == stream[i] && Follows(Decoder(parse), stream, i, changeSet)
      requires Unbroken(Decoder(parse), stream, i) && Consumed(Decoder(parse), stream, i, before, View())
      modifies this, dataDestination, dataDestination.memoryStore, dataDestination.impl
      ensures dataDestination.impl == old(dataDestination.impl)
      ensures broken == Breaks(Decoder(parse), stream, i)
      ensures broken ==> View() == old(View())
      ensures !broken ==> Follows(Decoder(parse), stream, i + 1, next)
      ensures !broken ==> Unbroken(Decoder(parse), stream, i + 1) && Consumed(Decoder(parse), stream, i + 1, before, View())
    {
      ghost var seen := View();
      next, broken := HandleEvent(event, changeSet, stream, i);
      if !broken {
        ConsumedOneMore(Decoder(parse), stream, i, before, seen, View());
      }
    }

    // Consumes the events of a stream. stopped is the position of the transfer at which the program
    // breaks for want of an intent, or the length of the stream.
    method ConsumeStream(stream: seq<RawEvent>) returns (stopped: nat)
      modifies this, dataDestination, dataDestination.memoryStore, dataDestination.impl
      ensures stopped <= |stream|
      ensures stopped < |stream| ==> Breaks(Decoder(parse), stream, stopped)
      ensures Unbroken(Decoder(parse), stream, stopped)
      ensures Consumed(Decoder(parse), stream, stopped, old(View()), View())
    {
      var changeSet := EMPTY_CHANGE_SET;
      stopped := 0;
      while stopped < |stream|
        invariant stopped <= |stream|
        invariant dataDestination.impl == old(dataDestination.impl)
        invariant Follows(Decoder(parse), stream, stopped, changeSet)
        invariant Unbroken(Decoder(parse), stream, stopped)
        invariant Consumed(Decoder(parse), stream, stopped, old(View()), View())
      {
        var next, broken := ConsumeEvent(stream[stopped], changeSet, stream, stopped, old(View()));
        if broken {
          return;
        }
        changeSet := next;
        stopped := stopped + 1;
      }
    }
  }

  // No transfer among the first n events comes without an intent in force.
  ghost predicate Unbroken(decode: Decoding, es: seq<RawEvent>, n: nat)
    requires n <= |es|
  {
    forall i :: 0 <= i < n ==> !Breaks(decode, es, i)
  }

  // What has been reported about the data source after the first n events.
  function Reports(decode: Decoding, es: seq<RawEvent>, n: nat): seq<StatusReport>
    requires n <= |es|
  {
    if n == 0 then [] else Reports(decode, es, n - 1) + Report(decode, es, n - 1)
  }

  predicate HasFull(ps: seq<Payload>) {
    exists p :: p in ps && p.code == TransferFull
  }

  // What can be seen of the first n events: exactly the payloads they complete are applied, each event
  // is reported, the stream is restarted once per interruption, and a full payload initializes the client.
  ghost predicate Consumed(decode: Decoding, es: seq<RawEvent>, n: nat, before: Observed, after: Observed)
    requires n <= |es|
  {
    var payloads, reports := Payloads(decode, es, n), Reports(decode, es, n);
    && after.stored == AppliedAll(before.stored, payloads)
    && after.reports == before.reports + reports
    && after.restarts == before.restarts + multiset(reports)[ReportedInterrupted]
    && after.isInitialized == (before.isInitialized || HasFull(payloads))
  }

  lemma {:induction false} ConsumedOneMore(
    decode: Decoding, es: seq<RawEvent>, n: nat, before: Observed, seen: Observed, after: Observed)
    requires n < |es| && Consumed(decode, es, n, before, seen) && Handled(decode, es, n, seen, after)
    ensures Consumed(decode, es, n + 1, before, after)
  {
    var payloads, payload := Payloads(decode, es, n), Completed(decode, es, n);
    AppliedOneMore(before.stored, payloads, payload);
    HasFullOneMore(payloads, payload);
  }

  lemma HasFullOneMore(ps: seq<Payload>, p: Option<Payload>)
    ensures HasFull(With(ps, p)) == (HasFull(ps) || (p.Some? && p.value.code == TransferFull))
  {
  }

  lemma {:induction false} AppliedOneMore(c: Contents, ps: seq<Payload>, p: Option<Payload>)
    ensures AppliedAll(c, With(ps, p)) == AppliedIf(AppliedAll(c, ps), p)
  {
    if p.Some? {
      assert With(ps, p)[..|ps|] == ps;
    }
  }

  // ---------- What this means for readers ----------

  lemma {:induction false} StartOfPrefix(decode: Decoding, es: seq<RawEvent>, more: seq<RawEvent>, i: nat)
    requires i <= |es|
    ensures Start(decode, es + more, i) == Start(decode, es, i)
  {
    if i > 0 {
      StartOfPrefix(decode, es, more, i - 1);
      assert (es + more)[Start(decode, es, i - 1)..i - 1] == es[Start(decode, es, i - 1)..i - 1];
    }
  }

  lemma {:induction false} CompletedOfPrefix(decode: Decoding, es: seq<RawEvent>, more: seq<RawEvent>, i: nat)
    requires i < |es|
    ensures Completed(decode, es + more, i) == Completed(decode, es, i)
  {
    StartOfPrefix(decode, es, more, i);
    assert (es + more)[Start(decode, es, i)..i] == es[Start(decode, es, i)..i];
  }

  lemma PayloadsStep(decode: Decoding, es: seq<RawEvent>, n: nat)
    requires n < |es|
    ensures Payloads(decode, es, n + 1) == With(Payloads(decode, es, n), Completed(decode, es, n))
  {
  }

  lemma {:induction false} PayloadsStepAlike(
    decode: Decoding, es: seq<RawEvent>, n: nat, es': seq<RawEvent>, n': nat)
    requires 0 < n <= |es| && 0 < n' <= |es'| && Completed(decode, es, n - 1) == Completed(decode, es', n' - 1)
    requires Payloads(decode, es, n - 1) == Payloads(decode, es', n' - 1)
    ensures Payloads(decode, es, n) == Payloads(decode, es', n')
  {
  }

  lemma {:induction false} PayloadsOfPrefix(decode: Decoding, es: seq<RawEvent>, more: seq<RawEvent>, n: nat)
    requires n <= |es|
    ensures Payloads(decode, es + more, n) == Payloads(decode, es, n)
  {
    if n > 0 {
      PayloadsOfPrefix(decode, es, more, n - 1);
      CompletedOfPrefix(decode, es, more, n - 1);
      PayloadsStepAlike(decode, es + more, n, es, n);
    }
  }

  // Whatever arrives, nothing of it is visible before a transfer.
  lemma {:induction false} PartialPayloadIsInvisible(decode: Decoding, es: seq<RawEvent>, partial: seq<RawEvent>, n: nat)
    requires n <= |partial| && forall e :: e in partial ==> !e.PayloadTransferred?
    ensures Payloads(decode, es + partial, |es| + n) == Payloads(decode, es, |es|)
  {
    if n == 0 {
      PayloadsOfPrefix(decode, es, partial, |es|);
    } else {
      PartialPayloadIsInvisible(decode, es, partial, n - 1);
      assert (es + partial)[|es| + n - 1] in partial;
      PayloadsStep(decode, es + partial, |es| + n - 1);
    }
  }

  // An intent or an error event comes first.
  predicate BeginsAfresh(tail: seq<RawEvent>) {
    tail != [] && (AnnouncesPayload(tail[0]) || tail[0].ErrorEvent?)
  }

  // The stream all goes on with tail from position m.
  predicate GoesOnWith(all: seq<RawEvent>, m: nat, tail: seq<RawEvent>) {
    m <= |all| && all[m..] == tail
  }

  lemma {:induction false} CompletesAfresh(
    decode: Decoding, all: seq<RawEvent>, m: nat, tail: seq<RawEvent>, i: nat, k: nat)
    requires GoesOnWith(all, m, tail) && k < |tail| && i == m + k
    requires Start(decode, all, i) == m + Start(decode, tail, k)
    ensures Completes(decode, all, i) == Completes(decode, tail, k)
    ensures Pending(decode, all, i) == Pending(decode, tail, k)
  {
    assert all[Start(decode, all, i)..i] == tail[Start(decode, tail, k)..k];
  }

  lemma {:induction false} StartAfresh(
    decode: Decoding, all: seq<RawEvent>, m: nat, tail: seq<RawEvent>, i: nat, k: nat)
    requires GoesOnWith(all, m, tail) && BeginsAfresh(tail) && 0 < k <= |tail| && i == m + k
    ensures 0 < Start(decode, tail, k) && Start(decode, all, i) == m + Start(decode, tail, k)
  {
    assert all[i - 1] == tail[k - 1];
    if k > 1 {
      StartAfresh(decode, all, m, tail, i - 1, k - 1);
      CompletesAfresh(decode, all, m, tail, i - 1, k - 1);
    }
    assert Begins(decode, all, i - 1) == Begins(decode, tail, k - 1);
    StartStep(decode, all, i);
    StartStep(decode, tail, k);
  }

  lemma {:induction false} CompletedAfresh(
    decode: Decoding, all: seq<RawEvent>, m: nat, tail: seq<RawEvent>, i: nat, k: nat)
    requires GoesOnWith(all, m, tail) && BeginsAfresh(tail) && k < |tail| && i == m + k
    ensures Completed(decode, all, i) == Completed(decode, tail, k)
  {
    assert all[i] == tail[k];
    if k > 0 {
      StartAfresh(decode, all, m, tail, i, k);
      CompletesAfresh(decode, all, m, tail, i, k);
      assert all[Start(decode, all, i) - 1] == tail[Start(decode, tail, k) - 1];
    }
  }

  lemma {:induction false} TailCompletesAlike(
    decode: Decoding, all: seq<RawEvent>, m: nat, all': seq<RawEvent>, m': nat, tail: seq<RawEvent>)
    requires GoesOnWith(all, m, tail) && GoesOnWith(all', m', tail) && BeginsAfresh(tail)
    ensures forall i, i' :: m <= i < |all| && m' <= i' < |all'| && i - m == i' - m' ==> Completed(decode, all, i) == Completed(decode, all', i')
  {
    forall i, i' | m <= i < |all| && m' <= i' < |all'| && i - m == i' - m'
      ensures Completed(decode, all, i) == Completed(decode, all', i')
    {
      CompletedAlike(decode, all, m, i, all', m', i', tail);
    }
  }

  lemma {:induction false} CompletedAlike(
    decode: Decoding, all: seq<RawEvent>, m: nat, i: nat, all': seq<RawEvent>, m': nat, i': nat, tail: seq<RawEvent>)
    requires GoesOnWith(all, m, tail) && GoesOnWith(all', m', tail) && BeginsAfresh(tail)
    requires m <= i < |all| && m' <= i' < |all'| && i - m == i' - m'
    ensures Completed(decode, all, i) == Completed(decode, all', i')
  {
    var k := i - m;
    CompletedAfresh(decode, all, m, tail, i, k);
    CompletedAfresh(decode, all', m', tail, i', k);
  }

  // Two streams that have completed the same payloads and complete the same ones next.
  lemma {:induction false} PayloadsAlike(
    decode: Decoding, es: seq<RawEvent>, m: nat, n: nat, es': seq<RawEvent>, m': nat, n': nat)
    requires m <= n <= |es| && m' <= n' <= |es'| && n - m == n' - m'
    requires Payloads(decode, es, m) == Payloads(decode, es', m')
    requires forall i, i' :: m <= i < n && m' <= i' < n' && i - m == i' - m' ==> Completed(decode, es, i) == Completed(decode, es', i')
    ensures Payloads(decode, es, n) == Payloads(decode, es', n')
  {
    if n == m {
      assert n' == m';
    } else {
      PayloadsAlike(decode, es, m, n - 1, es', m', n' - 1);
      PayloadsStepAlike(decode, es, n, es', n');
    }
  }

  // From an intent or an error event on, streams with equal payloads so far go on alike to their end.
  lemma {:induction false} PayloadsAfresh(
    decode: Decoding, all: seq<RawEvent>, m: nat, all': seq<RawEvent>, m': nat, tail: seq<RawEvent>)
    requires GoesOnWith(all, m, tail) && GoesOnWith(all', m', tail) && BeginsAfresh(tail)
    requires Payloads(decode, all, m) == Payloads(decode, all', m')
    ensures Payloads(decode, all, |all|) == Payloads(decode, all', |all'|)
  {
    TailCompletesAlike(decode, all, m, all', m', tail);
    PayloadsAlike(decode, all, m, |all|, all', m', |all'|);
  }

  // A payload cut short by an intent or an error event leaves no trace: the stream goes on, to its end,
  // as if the events of that payload had never been sent.
  lemma {:induction false} PartialPayloadLeavesNoTrace(
    decode: Decoding, es: seq<RawEvent>, partial: seq<RawEvent>, tail: seq<RawEvent>)
    requires BeginsAfresh(tail) && forall e :: e in partial ==> !e.PayloadTransferred?
    ensures Payloads(decode, es + partial + tail, |es + partial + tail|) == Payloads(decode, es + tail, |es + tail|)
  {
    PayloadsBeforeTail(decode, es, partial, tail);
    PayloadsAfresh(decode, es + partial + tail, |es + partial|, es + tail, |es|, tail);
  }

  lemma {:induction false} PayloadsBeforeTail(
    decode: Decoding, es: seq<RawEvent>, partial: seq<RawEvent>, tail: seq<RawEvent>)
    requires forall e :: e in partial ==> !e.PayloadTransferred?
    ensures Payloads(decode, es + partial + tail, |es + partial|) == Payloads(decode, es + tail, |es|)
  {
    PayloadsOfPrefix(decode, es, tail, |es|);
    PayloadsOfPrefix(decode, es + partial, tail, |es + partial|);
    PartialPayloadIsInvisible(decode, es, partial, |partial|);
  }

  // A payload handed over holds the decoded puts and deletes since the latest event that began a
  // change set, all of them, in order; nothing in between began another.
  lemma {:induction false} PayloadHoldsEverythingSinceStart(decode: Decoding, es: seq<RawEvent>, i: nat)
    requires i <= |es|
    ensures var start := Start(decode, es, i);
            && (forall j :: start <= j < i ==> !Begins(decode, es, j))
            && (start > 0 ==> Begins(decode, es, start - 1))
  {
    if i > 0 {
      PayloadHoldsEverythingSinceStart(decode, es, i - 1);
      StartStep(decode, es, i);
    }
  }

  // ---------- What can be read after a stream ----------

  // What the last of the events about v offers.
  ghost predicate HoldsLast(found: Option<ItemDescriptor>, events: seq<Event>, v: Vertex) {
    && (found.None? <==> forall e :: e in events ==> !About(e, v))
    && forall i :: 0 <= i < |events| && About(events[i], v) && (forall j :: i < j < |events| ==> !About(events[j], v)) ==>
                     found == Some(Offer(events[i]))
  }

  function LastOffer(events: seq<Event>, v: Vertex): Option<ItemDescriptor> {
    var offers := OffersFor(events, v);
    if offers == [] then None else Some(offers[|offers| - 1])
  }

  lemma {:induction false} LastOfferIsLast(events: seq<Event>, v: Vertex)
    ensures HoldsLast(LastOffer(events, v), events, v)
  {
    if events != [] {
      var n := |events| - 1;
      LastOfferIsLast(events[..n], v);
      assert events == events[..n] + [events[n]];
      if About(events[n], v) {
        assert LastOffer(events, v) == Some(Offer(events[n]));
      } else {
        assert OffersFor(events, v) == OffersFor(events[..n], v);
        LastOfferStays(LastOffer(events, v), events, v);
      }
    }
  }

  lemma {:induction false} LastOfferStays(found: Option<ItemDescriptor>, events: seq<Event>, v: Vertex)
    requires events != [] && !About(events[|events| - 1], v) && HoldsLast(found, events[..|events| - 1], v)
    ensures HoldsLast(found, events, v)
  {
    var n := |events| - 1;
    assert events == events[..n] + [events[n]];
    forall i | 0 <= i < |events| && About(events[i], v) && forall j :: i < j < |events| ==> !About(events[j], v)
      ensures found == Some(Offer(events[i]))
    {
      assert events[..n][i] == events[i];
      assert forall j :: i < j < n ==> events[..n][j] == events[j];
    }
  }

  // What the payloads from position f on offer for v as changes, in order.
  function ChangesFor(ps: seq<Payload>, f: nat, v: Vertex): seq<ItemDescriptor>
    requires f <= |ps|
    decreases |ps|
  {
    if f == |ps| then []
    else
      var n := |ps| - 1;
      ChangesFor(ps[..n], f, v) + if ps[n].code == TransferChanges then OffersFor(ps[n].events, v) else []
  }

  // Position f comes right after the latest full payload, or at the very start if there is none.
  predicate AfterLatestFull(ps: seq<Payload>, f: nat) {
    && f <= |ps| && (f > 0 ==> ps[f - 1].code == TransferFull)
    && forall j :: f <= j < |ps| ==> ps[j].code != TransferFull
  }

  // What v holds there: what was stored, or what the full payload says last, whatever was stored.
  function BasisOf(c: Contents, ps: seq<Payload>, f: nat, v: Vertex): Option<ItemDescriptor>
    requires f <= |ps|
  {
    if f == 0 then Lookup(c.data, v) else LastOffer(ps[f - 1].events, v)
  }

  lemma {:induction false} NewestConcat(current: Option<ItemDescriptor>, items: seq<ItemDescriptor>, more: seq<ItemDescriptor>)
    ensures Newest(current, items + more) == Newest(Newest(current, items), more)
  {
    if more == [] {
      assert items + more == items;
    } else {
      var n := |more| - 1;
      NewestConcat(current, items, more[..n]);
      assert (items + more)[..|items| + n] == items + more[..n];
    }
  }

  lemma {:induction false} FullHoldsLastOffer(c: Contents, p: Payload, v: Vertex)
    requires p.code == TransferFull
    ensures Lookup(Applied(c, p).data, v) == LastOffer(p.events, v)
  {
    EventsUpdateSdkKinds(p.events);
    BasisHoldsLast(UpdatesOf(p.events), v);
    OfferedInOrder(p.events, v);
  }

  lemma {:induction false} ChangesHoldNewest(c: Contents, p: Payload, v: Vertex)
    requires p.code == TransferChanges
    ensures Lookup(Applied(c, p).data, v) == Newest(Lookup(c.data, v), OffersFor(p.events, v))
  {
    DeliveredPerKey(c.data, UpdatesOf(p.events), v);
    OfferedInOrder(p.events, v);
  }

  lemma {:induction false} DataAfterPayloads(c: Contents, ps: seq<Payload>, f: nat, v: Vertex)
    requires AfterLatestFull(ps, f)
    ensures Lookup(AppliedAll(c, ps).data, v) == Newest(BasisOf(c, ps, f, v), ChangesFor(ps, f, v))
  {
    if f < |ps| {
      var n := |ps| - 1;
      DataAfterPayloads(c, ps[..n], f, v);
      if ps[n].code == TransferChanges {
        ChangesHoldNewest(AppliedAll(c, ps[..n]), ps[n], v);
        NewestConcat(BasisOf(c, ps, f, v), ChangesFor(ps[..n], f, v), OffersFor(ps[n].events, v));
      } else {
        assert ChangesFor(ps, f, v) == ChangesFor(ps[..n], f, v);
      }
    } else if f > 0 {
      FullHoldsLastOffer(AppliedAll(c, ps[..f - 1]), ps[f - 1], v);
    }
  }

  // Some event about v in a changes payload from position f on offers the item.
  ghost predicate Offered(ps: seq<Payload>, f: nat, v: Vertex, item: ItemDescriptor) {
    exists j, e :: f <= j < |ps| && ps[j].code == TransferChanges && e in ps[j].events && About(e, v) && item == Offer(e)
  }

  lemma {:induction false} OfferedAre(ps: seq<Payload>, f: nat, v: Vertex, item: ItemDescriptor)
    requires f <= |ps|
    ensures item in ChangesFor(ps, f, v) <==> Offered(ps, f, v, item)
    decreases |ps|
  {
    if f < |ps| {
      var n := |ps| - 1;
      OfferedAre(ps[..n], f, v, item);
      OffersAre(ps[n].events, v, item);
      if Offered(ps[..n], f, v, item) {
        var j, e :| f <= j < n && ps[..n][j].code == TransferChanges && e in ps[..n][j].events && About(e, v) && item == Offer(e);
        assert ps[j] == ps[..n][j];
      }
      if Offered(ps, f, v, item) {
        var j, e :| f <= j < |ps| && ps[j].code == TransferChanges && e in ps[j].events && About(e, v) && item == Offer(e);
        assert j < n ==> ps[..n][j] == ps[j];
      }
    }
  }

  // Over every stream: what is stored for v is what the latest full payload says last, or what was stored
  // before if there is none, or what a later changes payload offers; of all these it is the newest, and
  // the former if that is as new. What no payload mentions stays as it was.
  lemma {:induction false} StoredAfterStream(
    decode: Decoding, es: seq<RawEvent>, n: nat, before: Observed, after: Observed, f: nat, v: Vertex)
    requires n <= |es| && Consumed(decode, es, n, before, after) && AfterLatestFull(Payloads(decode, es, n), f)
    ensures var ps := Payloads(decode, es, n);
            var basis, found := BasisOf(before.stored, ps, f, v), Lookup(after.stored.data, v);
            && (found == basis || (found.Some? && Offered(ps, f, v, found.value)))
            && (forall item :: Offered(ps, f, v, item) ==> found.Some? && item.version <= found.value.version)
            && (basis.Some? ==>
                  && found.Some? && basis.value.version <= found.value.version
                  && (basis.value.version == found.value.version ==> found == basis))
  {
    var ps := Payloads(decode, es, n);
    StoredAfterPayloads(before.stored, ps, f, v);
  }

  lemma {:induction false} StoredAfterPayloads(c: Contents, ps: seq<Payload>, f: nat, v: Vertex)
    requires AfterLatestFull(ps, f)
    ensures var basis, found := BasisOf(c, ps, f, v), Lookup(AppliedAll(c, ps).data, v);
            && (found == basis || (found.Some? && Offered(ps, f, v, found.value)))
            && (forall item :: Offered(ps, f, v, item) ==> found.Some? && item.version <= found.value.version)
            && (basis.Some? ==>
                  && found.Some? && basis.value.version <= found.value.version
                  && (basis.value.version == found.value.version ==> found == basis))
  {
    DataAfterPayloads(c, ps, f, v);
    NewestIsHighest(BasisOf(c, ps, f, v), ChangesFor(ps, f, v));
    forall item
      ensures item in ChangesFor(ps, f, v) <==> Offered(ps, f, v, item)
    {
      OfferedAre(ps, f, v, item);
    }
  }

  // If the last payload is a full one, what can be read is exactly what it says, whatever was stored.
  lemma {:induction false} FullPayloadDecides(
    decode: Decoding, es: seq<RawEvent>, n: nat, before: Observed, after: Observed, v: Vertex)
    requires n <= |es| && Consumed(decode, es, n, before, after)
    requires var ps := Payloads(decode, es, n); ps != [] && ps[|ps| - 1].code == TransferFull
    ensures var ps := Payloads(decode, es, n); HoldsLast(Lookup(after.stored.data, v), ps[|ps| - 1].events, v)
  {
    var ps := Payloads(decode, es, n);
    DataAfterPayloads(before.stored, ps, |ps|, v);
    LastOfferIsLast(ps[|ps| - 1].events, v);
  }

  // The selector is that of the latest payload that replaces or changes data.
  lemma {:induction false} SelectorIsLatest(
    decode: Decoding, es: seq<RawEvent>, n: nat, before: Observed, after: Observed, k: nat)
    requires n <= |es| && Consumed(decode, es, n, before, after)
    requires var ps := Payloads(decode, es, n);
             && k <= |ps| && (k > 0 ==> ps[k - 1].code in {TransferFull, TransferChanges})
             && forall j :: k <= j < |ps| ==> ps[j].code !in {TransferFull, TransferChanges}
    ensures after.stored.selector == if k > 0 then Some(Payloads(decode, es, n)[k - 1].selector) else before.stored.selector
  {
    SelectorAfterPayloads(before.stored, Payloads(decode, es, n), k);
  }

  lemma {:induction false} SelectorAfterPayloads(c: Contents, ps: seq<Payload>, k: nat)
    requires k <= |ps| && (k > 0 ==> ps[k - 1].code in {TransferFull, TransferChanges})
    requires forall j :: k <= j < |ps| ==> ps[j].code !in {TransferFull, TransferChanges}
    ensures AppliedAll(c, ps).selector == if k > 0 then Some(ps[k - 1].selector) else c.selector
  {
    if k < |ps| {
      SelectorAfterPayloads(c, ps[..|ps| - 1], k);
    }
  }

  // The payload that a transfer completes: its code is the first of the intent that began the change set.
  lemma CompletedPayload(decode: Decoding, es: seq<RawEvent>, i: nat)
    requires i < |es| && Completed(decode, es, i).Some?
    ensures var start, p := Start(decode, es, i), Completed(decode, es, i).value;
            && 0 < start && es[start - 1].ServerIntent? && es[start - 1].codes.Some? && es[start - 1].codes.value != []
            && p.code == es[start - 1].codes.value[0] && p.code != NoTransfer
            && es[i].PayloadTransferred? && es[i].selector == Some(p.selector)
            && decode(ObjectEvents(es[start..i])) == Some(p.events)
  {
  }

  lemma {:induction false} PayloadsAre(decode: Decoding, es: seq<RawEvent>, n: nat, p: Payload)
    requires n <= |es|
    ensures p in Payloads(decode, es, n) <==> exists i :: 0 <= i < n && Completed(decode, es, i) == Some(p)
  {
    if n > 0 {
      PayloadsAre(decode, es, n - 1, p);
      PayloadsStep(decode, es, n - 1);
    }
  }

  // The client is initialized exactly if it was or a full payload has been completed.
  lemma {:induction false} InitializedExactlyWhen(decode: Decoding, es: seq<RawEvent>, n: nat, before: Observed, after: Observed)
    requires n <= |es| && Consumed(decode, es, n, before, after)
    ensures after.isInitialized <==>
              before.isInitialized ||
              exists i :: 0 <= i < n && Completed(decode, es, i).Some? && Completed(decode, es, i).value.code == TransferFull
  {
    forall p
      ensures p in Payloads(decode, es, n) <==> exists i :: 0 <= i < n && Completed(decode, es, i) == Some(p)
    {
      PayloadsAre(decode, es, n, p);
    }
  }

  // What is reported of each sort of event: a none intent passes unreported, an event that cannot be
  // read or a transfer that completes nothing is an interruption, all else shows the source to be valid.
  lemma WhatIsReported(decode: Decoding, es: seq<RawEvent>, i: nat)
    requires i < |es|
    ensures Report(decode, es, i) ==
            match es[i]
            case ServerIntent(codes) =>
              if codes.None? || codes.value == [] then [ReportedInterrupted]
              else if codes.value[0] == NoTransfer then []
              else [ReportedValid]
            case Goodbye(wellFormed) => if wellFormed then [ReportedValid] else [ReportedInterrupted]
            case ErrorEvent(wellFormed) => if wellFormed then [ReportedValid] else [ReportedInterrupted]
            case PayloadTransferred(_) => if Completes(decode, es, i) then [ReportedValid] else [ReportedInterrupted]
            case _ => [ReportedValid]
  {
  }

  // ---------- When a transfer completes a payload ----------

  // Each object in it comes after the name of a known kind, and can be parsed as that kind.
  ghost predicate Readable(parse: ItemParser, e: RawEvent) {
    e.Put? ==> forall f :: 0 <= f < |e.fields| ==> ObjectReadable(parse, e.fields, f)
  }

  lemma {:induction false} DecodeExactlyWhen(parse: ItemParser, e: RawEvent)
    ensures Decode(parse, e).Some? <==> Readable(parse, e)
  {
    match e
    case Put(fields) => PutReadableExactlyWhen(parse, fields);
    case Delete(fields) => DeleteAlwaysReadable(parse, fields);
    case _ =>
  }

  lemma {:induction false} DecodeAllExactlyWhen(parse: ItemParser, es: seq<RawEvent>)
    ensures DecodeAll(parse, es).Some? <==> forall e :: e in es ==> Readable(parse, e)
  {
    if es != [] {
      var n := |es| - 1;
      DecodeAllExactlyWhen(parse, es[..n]);
      DecodeExactlyWhen(parse, es[n]);
      assert es == es[..n] + [es[n]];
    }
  }

  // A transfer completes its payload exactly when it can be read and every put since the change set
  // began can be: one put that cannot keeps all the others from being handed over.
  lemma {:induction false} CompletesExactlyWhen(parse: ItemParser, es: seq<RawEvent>, i: nat)
    requires i < |es|
    ensures Completes(Decoder(parse), es, i) <==>
              && es[i].PayloadTransferred? && es[i].selector.Some?
              && forall j :: Start(Decoder(parse), es, i) <= j < i ==> Readable(parse, es[j])
  {
    var start := Start(Decoder(parse), es, i);
    DecodeObjectEvents(parse, es[start..i]);
    DecodeAllExactlyWhen(parse, es[start..i]);
    if forall e :: e in es[start..i] ==> Readable(parse, e) {
      forall j | start <= j < i
        ensures Readable(parse, es[j])
      {
        assert es[start..i][j - start] == es[j];
      }
    }
  }

  // Until an intent or an error event, every further transfer is refused as well.
  lemma {:induction false} UnreadablePutStays(parse: ItemParser, es: seq<RawEvent>, j: nat, i: nat)
    requires j < i <= |es| && !Readable(parse, es[j])
    requires forall k :: j < k < i ==> !AnnouncesPayload(es[k]) && !es[k].ErrorEvent?
    ensures Start(Decoder(parse), es, i) <= j && (i < |es| ==> !Completes(Decoder(parse), es, i))
  {
    if i > j + 1 {
      UnreadablePutStays(parse, es, j, i - 1);
    }
    if i < |es| {
      CompletesExactlyWhen(parse, es, i);
    }
  }

  // For example, a put gives its object before its kind; neither the transfer that follows nor, after
  // the stream has been restarted, the next one hands anything over.
  lemma {:induction false} ObjectBeforeKindIsStuck(parse: ItemParser, json: string, selector: Selector)
    ensures var transfer := PayloadTransferred(Some(selector));
            var put := Put([ObjectField(json), KindField("flag")]);
            var es := [ServerIntent(Some([TransferFull])), put, transfer, Heartbeat, transfer];
            Payloads(Decoder(parse), es, 5) == [] && !Completes(Decoder(parse), es, 2) && !Completes(Decoder(parse), es, 4)
  {
    var transfer, put := PayloadTransferred(Some(selector)), Put([ObjectField(json), KindField("flag")]);
    var es := [ServerIntent(Some([TransferFull])), put, transfer, Heartbeat, transfer];
    assert put.fields[..0] == [];
    assert !ObjectReadable(parse, put.fields, 0);
    UnreadablePutStays(parse, es, 1, 2);
    UnreadablePutStays(parse, es, 1, 4);
    NothingCompleted(Decoder(parse), es, 5);
  }

  lemma {:induction false} NothingCompleted(decode: Decoding, es: seq<RawEvent>, n: nat)
    requires n <= |es| && forall i :: 0 <= i < n ==> !Completes(decode, es, i)
    ensures Payloads(decode, es, n) == []
  {
    if n > 0 {
      NothingCompleted(decode, es, n - 1);
    }
  }

  // ---------- When a transfer breaks the program ----------

  // A transfer that would hand over a payload breaks the program exactly when every intent before it
  // has been used up since, by a transfer that was applied or by an error event.
  lemma {:induction false} BreaksExactlyWhen(decode: Decoding, es: seq<RawEvent>, i: nat)
    requires i < |es|
    ensures Breaks(decode, es, i) <==>
              Completes(decode, es, i) &&
              forall k :: 0 <= k < i && AnnouncesPayload(es[k]) ==> UsedUp(decode, es, k, i)
  {
    var start := Start(decode, es, i);
    PayloadHoldsEverythingSinceStart(decode, es, i);
    if Breaks(decode, es, i) {
      forall k | 0 <= k < i && AnnouncesPayload(es[k])
        ensures UsedUp(decode, es, k, i)
      {
        assert Begins(decode, es, k) && Begins(decode, es, start - 1);
      }
    } else if Completes(decode, es, i) {
      assert AnnouncesPayload(es[start - 1]);
      forall l | start - 1 < l < i
        ensures !es[l].ErrorEvent? && !Completes(decode, es, l)
      {
        assert !Begins(decode, es, l);
      }
    }
  }

  predicate UsedUp(decode: Decoding, es: seq<RawEvent>, k: nat, i: nat)
    requires i <= |es|
  {
    exists l :: k < l < i && (es[l].ErrorEvent? || Completes(decode, es, l))
  }

  // For example, a second transfer under one intent.
  lemma {:induction false} SecondTransferBreaks(parse: ItemParser, first: Selector, second: Selector)
    ensures var es := [ServerIntent(Some([TransferFull])), PayloadTransferred(Some(first)), PayloadTransferred(Some(second))];
            Unbroken(Decoder(parse), es, 2) && Breaks(Decoder(parse), es, 2)
  {
    var es := [ServerIntent(Some([TransferFull])), PayloadTransferred(Some(first)), PayloadTransferred(Some(second))];
    StartStep(Decoder(parse), es, 1);
    assert Start(Decoder(parse), es, 1) == 1 && es[1..1] == [];
    StartStep(Decoder(parse), es, 2);
    assert Start(Decoder(parse), es, 2) == 2 && es[2..2] == [];
  }
}
