/** The provider detail screen: its type label and the booking sheet's
    `bookAppointment`, which books for the profile owner directly. */
module ProviderDetail {
  import opened Support
  import opened Foundation
  import opened Places
  import opened Profiles
  import opened Bookings
  import opened BookingFlow
  import opened Home

  /** The note the sheet stores: nil for an empty text field. */
  function NoteFromField(text: string): (r: Option<string>)
    ensures r.None? <==> text == ""
    ensures r.Some? ==> r.value == text
  {
    if text == "" then None else Some(text)
  }

  /** `getProviderType()` on the detail screen is the same code as the
      provider card's, so it is modelled by `ProviderType` itself. This
      lemma states the order of its tests: a hospital match wins over a
      doctor match, and a place matching neither is "Healthcare". */
  lemma DetailTypeHospitalFirst(p: Place)
    ensures LooksLikeHospital(p) && LooksLikeDoctor(p) ==> ProviderType(p) == "Hospital"
    ensures !LooksLikeHospital(p) && LooksLikeDoctor(p) ==> ProviderType(p) == "Doctor"
    ensures !LooksLikeHospital(p) && !LooksLikeDoctor(p) ==> ProviderType(p) == "Healthcare"
  {
  }

  /** `bookAppointment()`: one booking in front, for the profile's name and
      contact as they are (no "Me" fallback), with an empty note stored as
      nil. */
  method BookAppointment(store: BookingsStore, profile: ProfileStore, provider: Place,
                         appointmentDate: Date, appointmentNote: string, freshId: string)
    modifies store, store.defaults
    ensures |store.items| == |old(store.items)| + 1 && store.items[1..] == old(store.items)
    ensures store.items[0] == NewBooking(freshId, provider, appointmentDate, profile.fullName,
                                         profile.contact, NoteFromField(appointmentNote))
    ensures store.items[0].note.None? <==> appointmentNote == ""
    ensures store.defaults.entries == Persisted(old(store.defaults.entries), store.items)
  {
    var booking := NewBooking(freshId, provider, appointmentDate, profile.fullName, profile.contact,
                              NoteFromField(appointmentNote));
    store.Add(booking);
  }
}
