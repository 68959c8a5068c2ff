/** The `Booking` record and `BookingsStore`: an ordered list of bookings,
    most recent first, written through to `UserDefaults` as one JSON array
    after every change and read back, lossily, when the store is created. */
module Bookings {
  import opened Support
  import opened Foundation
  import opened Storage

  /** The key the whole list is stored under. */
  const BookingsKey: string := "drfind.bookings"

  datatype Booking = Booking(
    id: string,
    placeId: string,
    placeName: string,
    date: Date,
    userName: string,
    userContact: string,
    note: Option<string>)

  /** A booking can be encoded exactly when its date is a finite number. */
  predicate Encodable(b: Booking) {
    b.date.sinceReferenceDate.Finite?
  }

  // ---------------------------------------------------------------------
  // Synthesized `Codable` conformance: a keyed container per booking, the
  // optional `note` written only when present.

  function EncodeBooking(b: Booking): (r: Option<Json>)
    ensures r.Some? <==> Encodable(b)
    ensures r.Some? ==> r.value.JObject? && ("note" in r.value.members <==> b.note.Some?)
  {
    match EncodeDate(b.date)
    case None => None
    case Some(date) =>
      var fields := map[
        "id" := JString(b.id),
        "placeId" := JString(b.placeId),
        "placeName" := JString(b.placeName),
        "date" := date,
        "userName" := JString(b.userName),
        "userContact" := JString(b.userContact)];
      Some(JObject(if b.note.Some? then fields["note" := JString(b.note.value)] else fields))
  }

  /** A required string member: missing or not a string is an error. */
  function DecodeString(members: map<string, Json>, key: string): Option<string> {
    if key in members && members[key].JString? then Some(members[key].text) else None
  }

  /** `decodeIfPresent`: absent or null gives nil, a string gives that
      string, anything else is an error (outer `None`). */
  function DecodeNote(members: map<string, Json>): Option<Option<string>> {
    if "note" !in members || members["note"].JNull? then Some(None)
    else if members["note"].JString? then Some(Some(members["note"].text))
    else None
  }

  function DecodeBooking(j: Json): Option<Booking> {
    if !j.JObject? || "date" !in j.members then None
    else
      var m := j.members;
      var id, placeId, placeName := DecodeString(m, "id"), DecodeString(m, "placeId"), DecodeString(m, "placeName");
      var date, userName, userContact := DecodeDate(m["date"]), DecodeString(m, "userName"), DecodeString(m, "userContact");
      var note := DecodeNote(m);
      if id.Some? && placeId.Some? && placeName.Some? && date.Some? && userName.Some? && userContact.Some? && note.Some? then
        Some(Booking(id.value, placeId.value, placeName.value, date.value, userName.value, userContact.value, note.value))
      else None
  }

  lemma BookingRoundTrip(b: Booking)
    requires Encodable(b)
    ensures DecodeBooking(EncodeBooking(b).value) == Some(b)
  {
    DateRoundTrip(b.date);
  }

  /** The array of encoded bookings, or `None` as soon as one fails. */
  function EncodeAll(items: seq<Booking>): (r: Option<seq<Json>>)
    ensures r.Some? <==> forall i :: 0 <= i < |items| ==> Encodable(items[i])
    ensures r.Some? ==> |r.value| == |items|
    decreases |items|
  {
    if items == [] then Some([])
    else
      var head, tail := EncodeBooking(items[0]), EncodeAll(items[1..]);
      if head.Some? && tail.Some? then Some([head.value] + tail.value) else None
  }

  /** The elements decoded in order, or `None` as soon as one fails. */
  function DecodeAll(js: seq<Json>): Option<seq<Booking>>
    decreases |js|
  {
    if js == [] then Some([])
    else
      var head, tail := DecodeBooking(js[0]), DecodeAll(js[1..]);
      if head.Some? && tail.Some? then Some([head.value] + tail.value) else None
  }

  lemma {:induction false} AllRoundTrip(items: seq<Booking>)
    requires EncodeAll(items).Some?
    ensures DecodeAll(EncodeAll(items).value) == Some(items)
    decreases |items|
  {
    if items != [] {
      var js := EncodeAll(items).value;
      BookingRoundTrip(items[0]);
      AllRoundTrip(items[1..]);
      assert js[0] == EncodeBooking(items[0]).value;
      assert js[1..] == EncodeAll(items[1..]).value;
      assert [items[0]] + items[1..] == items;
    }
  }

  /** `JSONEncoder().encode(items)`: the whole list as one JSON array. */
  function EncodeBookings(items: seq<Booking>): (r: Option<Data>)
    ensures r.Some? <==> forall i :: 0 <= i < |items| ==> Encodable(items[i])
  {
    match EncodeAll(items)
    case Some(js) => Some(JsonData(JArray(js)))
    case None => None
  }

  /** `JSONDecoder().decode([Booking].self, from:)` */
  function DecodeBookings(data: Data): Option<seq<Booking>> {
    match data
    case JsonData(JArray(js)) => DecodeAll(js)
    case _ => None
  }

  // ---------------------------------------------------------------------
  // Persistence

  /** `load()`: the stored list, or `[]` when nothing usable is stored. */
  function Load(entries: map<string, StoredValue>): (r: seq<Booking>)
    ensures DataFor(entries, BookingsKey).None? ==> r == []
    ensures DataFor(entries, BookingsKey).Some? && DecodeBookings(DataFor(entries, BookingsKey).value).None? ==> r == []
    ensures DataFor(entries, BookingsKey).Some? && DecodeBookings(DataFor(entries, BookingsKey).value).Some? ==>
              r == DecodeBookings(DataFor(entries, BookingsKey).value).value
  {
    match DataFor(entries, BookingsKey)
    case None => []
    case Some(data) => DecodeBookings(data).GetOr([])
  }

  /** The storage after `persist()`: the encoded list under the bookings
      key, or the storage untouched when encoding throws. */
  function Persisted(entries: map<string, StoredValue>, items: seq<Booking>): (r: map<string, StoredValue>)
    ensures r.Keys == entries.Keys + (if EncodeBookings(items).Some? then {BookingsKey} else {})
    ensures forall k :: k in entries && k != BookingsKey ==> r[k] == entries[k]
  {
    match EncodeBookings(items)
    case Some(data) => entries[BookingsKey := DataValue(data)]
    case None => entries
  }

  /** What is persisted is what a fresh store loads: same bookings, same order. */
  lemma {:induction false} PersistLoadRoundTrip(entries: map<string, StoredValue>, items: seq<Booking>)
    requires forall i :: 0 <= i < |items| ==> Encodable(items[i])
    ensures Load(Persisted(entries, items)) == items
  {
    AllRoundTrip(items);
  }

  /** When encoding throws, storage keeps whatever was there before, so a
      fresh store loads the previous list. */
  lemma FailedPersistKeepsStorage(entries: map<string, StoredValue>, items: seq<Booking>)
    requires exists i :: 0 <= i < |items| && !Encodable(items[i])
    ensures Persisted(entries, items) == entries
    ensures Load(Persisted(entries, items)) == Load(entries)
  {
  }

  /** Whatever is stored, loading yields a list and never fails; bytes that
      do not parse yield the empty list. */
  lemma LoadCorrupt(entries: map<string, StoredValue>)
    requires BookingsKey in entries && entries[BookingsKey] == DataValue(Malformed)
    ensures Load(entries) == []
  {
  }

  // ---------------------------------------------------------------------
  // List operations

  /** `firstIndex(where: { $0.id == id })` */
  function FirstIndexWithId(items: seq<Booking>, id: string): (r: Option<nat>)
    ensures r.Some? ==> r.value < |items| && items[r.value].id == id
    ensures r.Some? ==> forall j :: 0 <= j < r.value ==> items[j].id != id
    ensures r.None? <==> forall j :: 0 <= j < |items| ==> items[j].id != id
    decreases |items|
  {
    if items == [] then None
    else if items[0].id == id then Some(0)
    else
      match FirstIndexWithId(items[1..], id)
      case Some(i) => Some(i + 1)
      case None => None
  }

  /** The list after `remove(id:)`. */
  function WithoutId(items: seq<Booking>, id: string): seq<Booking> {
    match FirstIndexWithId(items, id)
    case Some(i) => RemoveAt(items, i)
    case None => items
  }

  /** Removing an id that no booking carries changes nothing. */
  lemma WithoutAbsentId(items: seq<Booking>, id: string)
    requires forall j :: 0 <= j < |items| ==> items[j].id != id
    ensures WithoutId(items, id) == items
  {
  }

  /** Only the first booking carrying the id goes; the others stay, in order. */
  lemma WithoutFirstWithId(items: seq<Booking>, id: string, i: nat)
    requires i < |items| && items[i].id == id
    requires forall j :: 0 <= j < i ==> items[j].id != id
    ensures WithoutId(items, id) == items[..i] + items[i + 1..]
  {
  }

  /** Ids are unique across the list. */
  predicate UniqueIds(items: seq<Booking>) {
    forall i, j :: 0 <= i < j < |items| ==> items[i].id != items[j].id
  }

  /** With unique ids, no booking with the removed id is left. */
  lemma WithoutIdRemovesAll(items: seq<Booking>, id: string)
    requires UniqueIds(items)
    ensures forall b :: b in WithoutId(items, id) ==> b.id != id
    ensures UniqueIds(WithoutId(items, id))
  {
    match FirstIndexWithId(items, id)
    case None =>
    case Some(i) =>
      var r := RemoveAt(items, i);
      forall b | b in r ensures b.id != id {
        var k :| 0 <= k < |r| && r[k] == b;
        if k >= i {
          assert r[k] == items[k + 1];
        }
      }
  }

  // ---------------------------------------------------------------------
  // The store

  /** Every booking of the list can be encoded. */
  predicate AllEncodable(items: seq<Booking>) {
    forall i :: 0 <= i < |items| ==> Encodable(items[i])
  }

  class BookingsStore {
    var items: seq<Booking>
    const defaults: UserDefaults

    /** Storage holds exactly the current list. */
    ghost predicate Synced()
      reads this, defaults
    {
      Load(defaults.entries) == items
    }

    /** `init()`: the list is loaded from storage. Property observers do not
        run inside an initializer, so nothing is written back. */
    constructor (defaults: UserDefaults)
      ensures this.defaults == defaults
      ensures items == Load(defaults.entries)
      ensures Synced()
    {
      this.defaults := defaults;
      items := Load(defaults.entries);
    }

    /** `persist()`: the whole list under the bookings key, or nothing
        written when encoding throws. */
    method Persist()
      modifies defaults
      ensures defaults.entries == Persisted(old(defaults.entries), items)
      ensures AllEncodable(items) ==> Synced()
    {
      var data := EncodeBookings(items);
      if data.Some? {
        defaults.Set(BookingsKey, DataValue(data.value));
      }
      if AllEncodable(items) {
        PersistLoadRoundTrip(old(defaults.entries), items);
      }
    }

    /** `add(_:)`: the new booking goes in front of the others. */
    method Add(b: Booking)
      modifies this, defaults
      ensures items == [b] + old(items)
      ensures defaults.entries == Persisted(old(defaults.entries), items)
      ensures AllEncodable(items) ==> Synced()
    {
      items := [b] + items;
      Persist();
    }

    /** `remove(at:)`: drops the bookings at the given offsets of the current
        list; an offset outside the list traps. */
    method RemoveAtOffsets(offsets: set<nat>)
      requires forall o :: o in offsets ==> o < |items|
      modifies this, defaults
      ensures items == RemoveOffsets(old(items), offsets)
      ensures |items| == |old(items)| - |offsets|
      ensures defaults.entries == Persisted(old(defaults.entries), items)
      ensures AllEncodable(items) ==> Synced()
    {
      RemoveOffsetsLength(items, offsets);
      assert (set i | i in offsets && i < |items|) == offsets;
      items := RemoveOffsets(items, offsets);
      Persist();
    }

    /** `remove(id:)`: drops the first booking with that id. The list is only
        assigned, and so only written through, when such a booking exists. */
    method RemoveById(id: string)
      modifies this, defaults
      ensures items == WithoutId(old(items), id)
      ensures FirstIndexWithId(old(items), id).Some? ==> |items| == |old(items)| - 1
      ensures FirstIndexWithId(old(items), id).Some? ==> defaults.entries == Persisted(old(defaults.entries), items)
      ensures FirstIndexWithId(old(items), id).None? ==> items == old(items) && defaults.entries == old(defaults.entries)
    {
      var idx := FirstIndexWithId(items, id);
      if idx.Some? {
        items := RemoveAt(items, idx.value);
        Persist();
      }
    }
  }
}
