/**
 internal/fdv2proto and the event decoding of internal/datasourcev2/streaming_data_source.go: from
 the raw events of a stream to updates of stored items.
 */
module Fdv2Events {
  import opened DataModel
  import opened InMemoryStore

  datatype Selector = Selector(state: string, version: int)

  datatype IntentCode = TransferFull | TransferChanges | NoTransfer | OtherCode

  // A property of a put or delete event, in the order in which the JSON gives them. A reader that
  // gives up early has given only the first ones.
  datatype Field =
    | VersionField(version: int)
    | KindField(kind: string)
    | KeyField(key: string)
    | ObjectField(json: string)
    | OtherField

  // None, or false, where an event's own data cannot be parsed.
  datatype RawEvent =
    | Heartbeat
    | ServerIntent(codes: Option<seq<IntentCode>>)
    | Put(fields: seq<Field>)
    | Delete(fields: seq<Field>)
    | Goodbye(wellFormed: bool)
    | ErrorEvent(wellFormed: bool)
    | PayloadTransferred(selector: Option<Selector>)
    | UnknownEvent

  datatype Event =
    | PutObject(kind: string, key: string, version: int, item: Option<Item>)
    | DeleteObject(kind: string, key: string, version: int)

  // How an object's JSON is read for a kind; None stands for an error.
  type ItemParser = (Kind, string) -> Option<ItemDescriptor>

  function ToFdv1(kind: string): Option<Kind> {
    if kind == "flag" then Some(Features) else if kind == "segment" then Some(Segments) else None
  }

  // ---------- Decoding one event ----------

  datatype Properties = Properties(version: int, kind: string, key: string, item: Option<Item>)

  function ParseItem(parse: ItemParser, kind: string, json: string): Option<ItemDescriptor> {
    match ToFdv1(kind)
    case None => None
    case Some(dataKind) => parse(dataKind, json)
  }

  // Reads a put event (withObject) or a delete event; None once an object cannot be parsed.
  function ReadFields(parse: ItemParser, fields: seq<Field>, withObject: bool): Option<Properties> {
    if fields == [] then Some(Properties(0, "", "", None))
    else
      match ReadFields(parse, fields[..|fields| - 1], withObject)
      case None => None
      case Some(p) =>
        match fields[|fields| - 1]
        case VersionField(version) => Some(p.(version := version))
        case KindField(kind) => Some(p.(kind := kind))
        case KeyField(key) => Some(p.(key := key))
        case ObjectField(json) =>
          if !withObject then Some(p)
          else
            var d := ParseItem(parse, p.kind, json);
            if d.None? then None else Some(p.(item := d.value.item))
        case OtherField => Some(p)
  }

  // The kind named by the last kind property among the fields.
  function KindNamed(fields: seq<Field>): string {
    if fields == [] then ""
    else if fields[|fields| - 1].KindField? then fields[|fields| - 1].kind
    else KindNamed(fields[..|fields| - 1])
  }

  lemma {:induction false} ReadKind(parse: ItemParser, fields: seq<Field>, withObject: bool)
    requires ReadFields(parse, fields, withObject).Some?
    ensures ReadFields(parse, fields, withObject).value.kind == KindNamed(fields)
  {
    if fields != [] {
      ReadKind(parse, fields[..|fields| - 1], withObject);
    }
  }

  ghost predicate ObjectReadable(parse: ItemParser, fields: seq<Field>, i: nat)
    requires i < |fields|
  {
    fields[i].ObjectField? ==> ParseItem(parse, KindNamed(fields[..i]), fields[i].json).Some?
  }

  // A put event is refused exactly when some object in it comes before a known kind has been named,
  // or cannot be parsed as that kind. Missing properties are no reason.
  lemma {:induction false} PutReadableExactlyWhen(parse: ItemParser, fields: seq<Field>)
    ensures ReadFields(parse, fields, true).Some? <==> forall i :: 0 <= i < |fields| ==> ObjectReadable(parse, fields, i)
  {
    if fields != [] {
      var n := |fields| - 1;
      PutReadableExactlyWhen(parse, fields[..n]);
      forall i | 0 <= i < n
        ensures ObjectReadable(parse, fields, i) <==> ObjectReadable(parse, fields[..n], i)
      {
        assert fields[..n][..i] == fields[..i];
      }
      if ReadFields(parse, fields[..n], true).Some? {
        ReadKind(parse, fields[..n], true);
        assert ReadFields(parse, fields, true).Some? <==> ObjectReadable(parse, fields, n);
      }
    }
  }

  // A delete event is never refused.
  lemma {:induction false} DeleteAlwaysReadable(parse: ItemParser, fields: seq<Field>)
    ensures ReadFields(parse, fields, false).Some?
  {
    if fields != [] {
      DeleteAlwaysReadable(parse, fields[..|fields| - 1]);
    }
  }

  method DecodeFields(parse: ItemParser, fields: seq<Field>, withObject: bool) returns (p: Option<Properties>)
    ensures p == ReadFields(parse, fields, withObject)
  {
    var now := Properties(0, "", "", None);
    for i := 0 to |fields|
      invariant ReadFields(parse, fields[..i], withObject) == Some(now)
    {
      assert fields[..i + 1][..i] == fields[..i];
      match fields[i] {
        case VersionField(version) => now := now.(version := version);
        case KindField(kind) => now := now.(kind := kind);
        case KeyField(key) => now := now.(key := key);
        case ObjectField(json) =>
          if withObject {
            var item := ParseItem(parse, now.kind, json);
            if item.None? {
              NoneFromPrefix(parse, fields, withObject, i + 1);
              return None;
            }
            now := now.(item := item.value.item);
          }
        case OtherField =>
      }
    }
    assert fields[..|fields|] == fields;
    return Some(now);
  }

  lemma {:induction false} NoneFromPrefix(parse: ItemParser, fields: seq<Field>, withObject: bool, n: nat)
    requires n <= |fields| && ReadFields(parse, fields[..n], withObject).None?
    ensures ReadFields(parse, fields, withObject).None?
    decreases |fields|
  {
    if n < |fields| {
      assert fields[..|fields| - 1][..n] == fields[..n];
      NoneFromPrefix(parse, fields[..|fields| - 1], withObject, n);
    } else {
      assert fields[..n] == fields;
    }
  }

  // ---------- Decoding a list of events ----------

  function Decode(parse: ItemParser, e: RawEvent): Option<seq<Event>> {
    match e
    case Put(fields) =>
      (match ReadFields(parse, fields, true)
       case None => None
       case Some(p) => Some([PutObject(p.kind, p.key, p.version, p.item)]))
    case Delete(fields) =>
      (match ReadFields(parse, fields, false)
       case None => None
       case Some(p) => Some([DeleteObject(p.kind, p.key, p.version)]))
    case _ => Some([])
  }

  function DecodeAll(parse: ItemParser, es: seq<RawEvent>): Option<seq<Event>> {
    if es == [] then Some([])
    else
      match DecodeAll(parse, es[..|es| - 1])
      case None => None
      case Some(events) =>
        match Decode(parse, es[|es| - 1])
        case None => None
        case Some(more) => Some(events + more)
  }

  // deserializeEvents; the list decoded before an error is of no use to its caller.
  method DeserializeEvents(parse: ItemParser, events: seq<RawEvent>) returns (updates: Option<seq<Event>>)
    ensures updates == DecodeAll(parse, events)
  {
    var decoded: seq<Event> := [];
    for i := 0 to |events|
      invariant DecodeAll(parse, events[..i]) == Some(decoded)
    {
      assert events[..i + 1][..i] == events[..i];
      match events[i] {
        case Put(fields) =>
          var p := DecodeFields(parse, fields, true);
          if p.None? {
            DecodeNoneFromPrefix(parse, events, i + 1);
            return None;
          }
          decoded := decoded + [PutObject(p.value.kind, p.value.key, p.value.version, p.value.item)];
        case Delete(fields) =>
          var p := DecodeFields(parse, fields, false);
          DeleteAlwaysReadable(parse, fields);
          decoded := decoded + [DeleteObject(p.value.kind, p.value.key, p.value.version)];
        case _ =>
          assert decoded + [] == decoded;
      }
    }
    assert events[..|events|] == events;
    return Some(decoded);
  }

  lemma {:induction false} DecodeNoneFromPrefix(parse: ItemParser, es: seq<RawEvent>, n: nat)
    requires n <= |es| && DecodeAll(parse, es[..n]).None?
    ensures DecodeAll(parse, es).None?
    decreases |es|
  {
    if n < |es| {
      assert es[..|es| - 1][..n] == es[..n];
      DecodeNoneFromPrefix(parse, es[..|es| - 1], n);
    } else {
      assert es[..n] == es;
    }
  }

  // ---------- What an event decodes to ----------

  // Of each property the last one counts.
  ghost predicate IsLast(fields: seq<Field>, i: nat)
    requires i < |fields|
  {
    match fields[i]
    case VersionField(_) => forall j :: i < j < |fields| ==> !fields[j].VersionField?
    case KindField(_) => forall j :: i < j < |fields| ==> !fields[j].KindField?
    case KeyField(_) => forall j :: i < j < |fields| ==> !fields[j].KeyField?
    case ObjectField(_) => forall j :: i < j < |fields| ==> !fields[j].ObjectField?
    case OtherField => false
  }

  lemma {:induction false} ReadHoldsLast(parse: ItemParser, fields: seq<Field>, withObject: bool, i: nat)
    requires ReadFields(parse, fields, withObject).Some? && i < |fields| && IsLast(fields, i)
    ensures var p := ReadFields(parse, fields, withObject).value;
            match fields[i]
            case VersionField(version) => p.version == version
            case KindField(kind) => p.kind == kind
            case KeyField(key) => p.key == key
            case ObjectField(json) =>
              withObject ==>
                var d := ParseItem(parse, KindNamed(fields[..i]), json);
                d.Some? && p.item == d.value.item
            case OtherField => true
  {
    var n := |fields| - 1;
    if i < n {
      assert fields[..n][..i] == fields[..i];
      ReadHoldsLast(parse, fields[..n], withObject, i);
    } else if fields[n].ObjectField? {
      ReadKind(parse, fields[..n], withObject);
    }
  }

  // A property that does not occur is empty; a delete event never has an item.
  lemma {:induction false} ReadDefaults(parse: ItemParser, fields: seq<Field>, withObject: bool)
    requires ReadFields(parse, fields, withObject).Some?
    ensures var p := ReadFields(parse, fields, withObject).value;
            && ((forall f :: f in fields ==> !f.VersionField?) ==> p.version == 0)
            && ((forall f :: f in fields ==> !f.KindField?) ==> p.kind == "")
            && ((forall f :: f in fields ==> !f.KeyField?) ==> p.key == "")
            && (!withObject || (forall f :: f in fields ==> !f.ObjectField?) ==> p.item == None)
  {
    if fields != [] {
      ReadDefaults(parse, fields[..|fields| - 1], withObject);
    }
  }

  // A put or delete event that can be decoded becomes one of its own sort, with the last kind, key and
  // version it gives and, for a put, the last object, read as the kind named before it.
  lemma {:induction false} DecodedHoldsLast(parse: ItemParser, e: RawEvent, i: nat)
    requires (e.Put? || e.Delete?) && Decode(parse, e).Some? && i < |e.fields| && IsLast(e.fields, i)
    ensures var d := Decode(parse, e).value;
            && |d| == 1 && (d[0].PutObject? <==> e.Put?)
            && match e.fields[i]
               case VersionField(version) => d[0].version == version
               case KindField(kind) => d[0].kind == kind
               case KeyField(key) => d[0].key == key
               case ObjectField(json) =>
                 e.Put? ==>
                   var named := KindNamed(e.fields[..i]);
                   && named in {"flag", "segment"}
                   && var parsed := parse(if named == "flag" then Features else Segments, json);
                      parsed.Some? && d[0].item == parsed.value.item
               case OtherField => true
  {
    ReadHoldsLast(parse, e.fields, e.Put?, i);
  }

  // ---------- From events to updates ----------

  // An event of an unknown kind updates nothing.
  function UpdateOf(e: Event): seq<Update> {
    match ToFdv1(e.kind)
    case None => []
    case Some(kind) =>
      [Update(Vertex(kind, e.key), ItemDescriptor(e.version, if e.PutObject? then e.item else None))]
  }

  function UpdatesOf(events: seq<Event>): seq<Update> {
    if events == [] then [] else UpdatesOf(events[..|events| - 1]) + UpdateOf(events[|events| - 1])
  }

  // The updates of one kind, in order.
  function ItemsOfKind(us: seq<Update>, kind: Kind): seq<KeyedItem> {
    if us == [] then []
    else
      var last := us[|us| - 1];
      ItemsOfKind(us[..|us| - 1], kind) + if last.v.kind == kind then [KeyedItem(last.v.key, last.item)] else []
  }

  function Grouped(us: seq<Update>): seq<Collection> {
    [Collection(Features, ItemsOfKind(us, Features)), Collection(Segments, ItemsOfKind(us, Segments))]
  }

  // The event is about this flag or segment, under the names used in a stream.
  predicate About(e: Event, v: Vertex) {
    && ((e.kind == "flag" && v.kind == Features) || (e.kind == "segment" && v.kind == Segments))
    && e.key == v.key
  }

  // What it offers: the object put, or a tombstone.
  function Offer(e: Event): ItemDescriptor {
    ItemDescriptor(e.version, if e.PutObject? then e.item else None)
  }

  // What the events offer for one vertex, in order.
  function OffersFor(events: seq<Event>, v: Vertex): seq<ItemDescriptor> {
    if events == [] then []
    else
      var n := |events| - 1;
      OffersFor(events[..n], v) + if About(events[n], v) then [Offer(events[n])] else []
  }

  lemma {:induction false} OfferedInOrder(events: seq<Event>, v: Vertex)
    ensures ItemsFor(UpdatesOf(events), v) == OffersFor(events, v)
  {
    if events != [] {
      var n := |events| - 1;
      var before, u := UpdatesOf(events[..n]), UpdateOf(events[n]);
      OfferedInOrder(events[..n], v);
      if u == [] {
        assert before + u == before;
      } else {
        assert (before + u)[..|before|] == before;
      }
    }
  }

  lemma {:induction false} OffersAre(events: seq<Event>, v: Vertex, item: ItemDescriptor)
    ensures item in OffersFor(events, v) <==> exists e :: e in events && About(e, v) && item == Offer(e)
  {
    if events != [] {
      var n := |events| - 1;
      OffersAre(events[..n], v, item);
      assert events == events[..n] + [events[n]];
    }
  }

  // What the events under one name offer, in order.
  function OffersNamed(events: seq<Event>, kind: string): seq<KeyedItem> {
    if events == [] then []
    else
      var n := |events| - 1;
      OffersNamed(events[..n], kind) + if events[n].kind == kind then [KeyedItem(events[n].key, Offer(events[n]))] else []
  }

  // What one more event adds to the items of a kind.
  lemma {:induction false} OneMoreEvent(events: seq<Event>, i: nat, kind: Kind)
    requires i < |events|
    ensures var u := UpdateOf(events[i]);
            ItemsOfKind(UpdatesOf(events[..i + 1]), kind) ==
            if u != [] && u[0].v.kind == kind then
              ItemsOfKind(UpdatesOf(events[..i]), kind) + [KeyedItem(u[0].v.key, u[0].item)]
            else
              ItemsOfKind(UpdatesOf(events[..i]), kind)
  {
    var before := UpdatesOf(events[..i]);
    var u := UpdateOf(events[i]);
    assert events[..i + 1][..i] == events[..i];
    assert UpdatesOf(events[..i + 1]) == before + u;
    if u == [] {
      assert before + u == before;
    } else {
      assert (before + u)[..|before|] == before;
      assert ItemsOfKind(before, kind) + [] == ItemsOfKind(before, kind);
    }
  }

  method ToStorableItems(events: seq<Event>) returns (collections: seq<Collection>)
    ensures collections == Grouped(UpdatesOf(events))
    ensures collections == [
              Collection(Features, OffersNamed(events, "flag")), Collection(Segments, OffersNamed(events, "segment"))]
  {
    var flags: seq<KeyedItem> := [];
    var segments: seq<KeyedItem> := [];
    for i := 0 to |events|
      invariant flags == ItemsOfKind(UpdatesOf(events[..i]), Features)
      invariant segments == ItemsOfKind(UpdatesOf(events[..i]), Segments)
      invariant flags == OffersNamed(events[..i], "flag") && segments == OffersNamed(events[..i], "segment")
    {
      assert events[..i + 1][..i] == events[..i];
      OneMoreEvent(events, i, Features);
      OneMoreEvent(events, i, Segments);
      match events[i] {
        case PutObject(kind, key, version, item) =>
          if kind == "flag" {
            flags := flags + [KeyedItem(key, ItemDescriptor(version, item))];
          } else if kind == "segment" {
            segments := segments + [KeyedItem(key, ItemDescriptor(version, item))];
          }
        case DeleteObject(kind, key, version) =>
          if kind == "flag" {
            flags := flags + [KeyedItem(key, ItemDescriptor(version, None))];
          } else if kind == "segment" {
            segments := segments + [KeyedItem(key, ItemDescriptor(version, None))];
          }
      }
    }
    assert events[..|events|] == events;
    return [Collection(Features, flags), Collection(Segments, segments)];
  }
}
