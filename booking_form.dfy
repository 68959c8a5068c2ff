/** The booking form (`BookingView`): booking for myself or for someone
    else, the Submit button's enable rule, and what Submit hands to the
    view model. */
module BookingForm {
  import opened Support
  import opened Places
  import opened Profiles
  import opened Bookings
  import opened BookingFlow

  /** The form's editable state. */
  datatype Form = Form(forMyself: bool, otherName: string, otherContact: string, note: string)

  /** The name Submit sends: for myself, the profile name, or "Me" when it
      is empty; for someone else, the name typed in. */
  function SubmittedName(form: Form, profile: Profile): string {
    if form.forMyself then (if profile.fullName == "" then "Me" else profile.fullName) else form.otherName
  }

  /** The contact Submit sends: the profile contact (even when empty), or
      the contact typed in. */
  function SubmittedContact(form: Form, profile: Profile): string {
    if form.forMyself then profile.contact else form.otherContact
  }

  /** Submit is disabled when booking for someone else without both a name
      and a contact. */
  predicate SubmitDisabled(form: Form) {
    !form.forMyself && (form.otherName == "" || form.otherContact == "")
  }

  /** The name and contact resolution, case by case. */
  lemma SubmittedIdentitySpec(form: Form, profile: Profile)
    ensures form.forMyself && profile.fullName == "" ==> SubmittedName(form, profile) == "Me"
    ensures form.forMyself && profile.fullName != "" ==> SubmittedName(form, profile) == profile.fullName
    ensures form.forMyself ==> SubmittedContact(form, profile) == profile.contact
    ensures !form.forMyself ==> SubmittedName(form, profile) == form.otherName && SubmittedContact(form, profile) == form.otherContact
  {
  }

  /** Whenever Submit can be pressed the name sent is never empty; the
      contact is non-empty when booking for someone else, but may be empty
      when booking for myself. */
  lemma EnabledSubmitHasName(form: Form, profile: Profile)
    requires !SubmitDisabled(form)
    ensures SubmittedName(form, profile) != ""
    ensures !form.forMyself ==> SubmittedContact(form, profile) != ""
  {
  }

  /** Booking for myself is never disabled, whatever the profile holds. */
  lemma ForMyselfAlwaysEnabled(form: Form)
    requires form.forMyself
    ensures !SubmitDisabled(form)
  {
  }

  /** The Submit action: the resolved name and contact, and the note as the
      raw text (an empty note is sent as "", not nil). The new booking goes
      in front and the list is written through to storage. */
  method Submit(vm: BookingViewModel, store: BookingsStore, form: Form, profile: Profile, place: Place, freshId: string)
    requires !SubmitDisabled(form)
    modifies store, store.defaults
    ensures store.items == [NewBooking(freshId, place, vm.date, SubmittedName(form, profile),
                                       SubmittedContact(form, profile), Some(form.note))] + old(store.items)
    ensures store.items[0].userName != "" && store.items[0].note == Some(form.note)
    ensures store.defaults.entries == Persisted(old(store.defaults.entries), store.items)
  {
    EnabledSubmitHasName(form, profile);
    vm.SubmitBooking(store, place, SubmittedName(form, profile), SubmittedContact(form, profile), Some(form.note), freshId);
    assert store.items == [store.items[0]] + store.items[1..];
  }
}
