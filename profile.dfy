/** `ProfileStore`: the device user's name and contact, read from
    `UserDefaults` when the store is created and written back, both keys at
    once, whenever either field is assigned. */
module Profiles {
  import opened Support
  import opened Storage

  const NameKey: string := "drfind.profile.name"
  const ContactKey: string := "drfind.profile.contact"

  /** The two fields, as a value. */
  datatype Profile = Profile(fullName: string, contact: string)

  /** What a store created over `entries` starts with: each stored string, or
      "" when the key is missing or holds something that is not a string. */
  function LoadProfile(entries: map<string, StoredValue>): (p: Profile)
    ensures NameKey in entries && entries[NameKey].StringValue? ==> p.fullName == entries[NameKey].text
    ensures !(NameKey in entries && entries[NameKey].StringValue?) ==> p.fullName == ""
    ensures ContactKey in entries && entries[ContactKey].StringValue? ==> p.contact == entries[ContactKey].text
    ensures !(ContactKey in entries && entries[ContactKey].StringValue?) ==> p.contact == ""
  {
    Profile(StringFor(entries, NameKey).GetOr(""), StringFor(entries, ContactKey).GetOr(""))
  }

  /** The storage after `persist()`: both fields written as strings, every
      other key untouched. */
  function PersistedProfile(entries: map<string, StoredValue>, p: Profile): (r: map<string, StoredValue>)
    ensures r.Keys == entries.Keys + {NameKey, ContactKey}
    ensures forall k :: k in entries && k != NameKey && k != ContactKey ==> r[k] == entries[k]
  {
    entries[NameKey := StringValue(p.fullName)][ContactKey := StringValue(p.contact)]
  }

  /** Whatever was written is what a fresh store reads back, empty strings
      included. */
  lemma ProfileRoundTrip(entries: map<string, StoredValue>, p: Profile)
    ensures LoadProfile(PersistedProfile(entries, p)) == p
  {
  }

  /** Persisting twice with the same values is the same as persisting once. */
  lemma PersistIdempotent(entries: map<string, StoredValue>, p: Profile)
    ensures PersistedProfile(PersistedProfile(entries, p), p) == PersistedProfile(entries, p)
  {
  }

  class ProfileStore {
    var fullName: string
    var contact: string
    const defaults: UserDefaults

    function Current(): Profile
      reads this
    {
      Profile(fullName, contact)
    }

    /** Storage holds the current fields. */
    ghost predicate Synced()
      reads this, defaults
    {
      LoadProfile(defaults.entries) == Current()
    }

    /** `init()`: both fields read from storage, defaulting to "". Property
        observers do not run inside an initializer, so nothing is written. */
    constructor (defaults: UserDefaults)
      ensures this.defaults == defaults
      ensures Current() == LoadProfile(defaults.entries)
      ensures Synced()
    {
      this.defaults := defaults;
      fullName := StringFor(defaults.entries, NameKey).GetOr("");
      contact := StringFor(defaults.entries, ContactKey).GetOr("");
    }

    /** `persist()` */
    method Persist()
      modifies defaults
      ensures defaults.entries == PersistedProfile(old(defaults.entries), Current())
      ensures Synced()
    {
      defaults.Set(NameKey, StringValue(fullName));
      defaults.Set(ContactKey, StringValue(contact));
      ProfileRoundTrip(old(defaults.entries), Current());
    }

    /** Assigning `fullName`; its `didSet` persists both fields. */
    method SetFullName(value: string)
      modifies this, defaults
      ensures fullName == value && contact == old(contact)
      ensures defaults.entries == PersistedProfile(old(defaults.entries), Current())
      ensures Synced()
    {
      fullName := value;
      Persist();
    }

    /** Assigning `contact`; its `didSet` persists both fields. */
    method SetContact(value: string)
      modifies this, defaults
      ensures contact == value && fullName == old(fullName)
      ensures defaults.entries == PersistedProfile(old(defaults.entries), Current())
      ensures Synced()
    {
      contact := value;
      Persist();
    }
  }

  /** Assigning the name and then relaunching: the new store reads back the
      name just assigned and the contact that was current. */
  method RelaunchAfterRename(store: ProfileStore, name: string) returns (relaunched: ProfileStore)
    modifies store, store.defaults
    ensures relaunched.defaults == store.defaults
    ensures relaunched.fullName == name && relaunched.contact == old(store.contact)
  {
    store.SetFullName(name);
    relaunched := new ProfileStore(store.defaults);
  }
}
