/** `BookingViewModel`: holds the chosen appointment date and turns a place
    plus the caller's name, contact and note into a new booking at the front
    of the store. The fresh UUID is a parameter. */
module BookingFlow {
  import opened Support
  import opened Foundation
  import opened Places
  import opened Bookings

  /** The booking `submitBooking` builds: a snapshot of the place's id and
      name, the date, and the caller's strings exactly as passed. */
  function NewBooking(freshId: string, place: Place, date: Date, userName: string, userContact: string, note: Option<string>): Booking {
    Booking(freshId, place.id, place.name, date, userName, userContact, note)
  }

  /** A booking snapshots the place: it does not depend on the place's
      other fields, and two bookings of equal places (same id) differ at most
      in the name shown. */
  lemma NewBookingSnapshotsPlace(freshId: string, a: Place, b: Place, date: Date, userName: string, userContact: string, note: Option<string>)
    requires SamePlace(a, b)
    ensures NewBooking(freshId, a, date, userName, userContact, note).placeId == NewBooking(freshId, b, date, userName, userContact, note).placeId
    ensures a.name == b.name ==> NewBooking(freshId, a, date, userName, userContact, note) == NewBooking(freshId, b, date, userName, userContact, note)
  {
  }

  class BookingViewModel {
    var date: Date

    /** The date starts at "now", supplied by the caller. */
    constructor (now: Date)
      ensures date == now
    {
      date := now;
    }

    /** `submitBooking(for:userName:userContact:note:)`: exactly one booking
        goes in front of the existing ones, which keep their order. Nothing
        is validated: empty strings are stored as given. */
    method SubmitBooking(store: BookingsStore, place: Place, userName: string, userContact: string,
                         note: Option<string>, freshId: string)
      modifies store, store.defaults
      ensures |store.items| == |old(store.items)| + 1
      ensures store.items[1..] == old(store.items)
      ensures store.items[0] == NewBooking(freshId, place, date, userName, userContact, note)
      ensures store.items[0].placeId == place.id && store.items[0].placeName == place.name
      ensures store.items[0].date == date && store.items[0].note == note
      ensures store.items[0].userName == userName && store.items[0].userContact == userContact
      ensures store.defaults.entries == Persisted(old(store.defaults.entries), store.items)
    {
      var booking := NewBooking(freshId, place, date, userName, userContact, note);
      store.Add(booking);
    }
  }
}
