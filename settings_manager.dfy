/** The admin settings screen: the contact form fields and the list of studio
    locations, filled from the store's settings row and saved back to it. */
module SettingsManager {
  import opened Common
  import opened Session

  /** The four text fields of the form. */
  datatype Contact = Contact(adminName: string, adminEmail: string, adminPhone: string, googleMapsUrl: string)

  datatype ContactField = AdminName | AdminEmail | AdminPhone | GoogleMapsUrl

  datatype LocationField = City | Country

  /** The update `handleSave` sends, for the settings row `id`. */
  datatype SettingsWrite = SettingsWrite(id: string, contact: Contact, globalLocations: seq<Location>)

  const EmptyContact := Contact("", "", "", "")

  /** The new studio location `addLocation` appends. */
  const BlankLocation := Location("", "", None, None, None)

  /** The form the init effect derives from a settings row: a null field shows as ''. */
  function ContactOf(s: SiteSettings): (c: Contact)
    ensures c.adminName == (if s.adminName.Some? then s.adminName.value else "")
    ensures c.adminEmail == (if s.adminEmail.Some? then s.adminEmail.value else "")
    ensures c.adminPhone == (if s.adminPhone.Some? then s.adminPhone.value else "")
    ensures c.googleMapsUrl == (if s.googleMapsUrl.Some? then s.googleMapsUrl.value else "")
  {
    Contact(NullableOr(s.adminName, ""), NullableOr(s.adminEmail, ""),
            NullableOr(s.adminPhone, ""), NullableOr(s.googleMapsUrl, ""))
  }

  function WithField(c: Contact, f: ContactField, v: string): Contact
  {
    match f
    case AdminName => c.(adminName := v)
    case AdminEmail => c.(adminEmail := v)
    case AdminPhone => c.(adminPhone := v)
    case GoogleMapsUrl => c.(googleMapsUrl := v)
  }

  function FieldOf(c: Contact, f: ContactField): string
  {
    match f
    case AdminName => c.adminName
    case AdminEmail => c.adminEmail
    case AdminPhone => c.adminPhone
    case GoogleMapsUrl => c.googleMapsUrl
  }

  /** `handleChange` sets exactly the named field. */
  lemma WithFieldFrame(c: Contact, f: ContactField, v: string)
    ensures FieldOf(WithField(c, f, v), f) == v
    ensures forall g :: g != f ==> FieldOf(WithField(c, f, v), g) == FieldOf(c, g)
  {
  }

  function LocationWith(l: Location, f: LocationField, v: string): Location
  {
    match f
    case City => l.(city := v)
    case Country => l.(country := v)
  }

  /** `locs` after `handleLocationChange(i, f, v)`: entry `i`'s field `f` becomes `v`.
      For an index outside the list the assignment throws and the list stays. */
  function ChangedLocations(locs: seq<Location>, i: int, f: LocationField, v: string): seq<Location>
  {
    if 0 <= i < |locs| then locs[i := LocationWith(locs[i], f, v)] else locs
  }

  /** Only field `f` of entry `i` changes; the length, every other entry,
      and the entry's timezone, map link and coordinates stay. */
  lemma ChangeLocationFrame(locs: seq<Location>, i: int, f: LocationField, v: string)
    requires 0 <= i < |locs|
    ensures |ChangedLocations(locs, i, f, v)| == |locs|
    ensures forall k :: 0 <= k < |locs| && k != i ==> ChangedLocations(locs, i, f, v)[k] == locs[k]
    ensures f == City ==> ChangedLocations(locs, i, f, v)[i].city == v
    ensures f == City ==> ChangedLocations(locs, i, f, v)[i].country == locs[i].country
    ensures f == Country ==> ChangedLocations(locs, i, f, v)[i].country == v
    ensures f == Country ==> ChangedLocations(locs, i, f, v)[i].city == locs[i].city
    ensures var l := ChangedLocations(locs, i, f, v)[i];
      l.timezone == locs[i].timezone && l.mapUrl == locs[i].mapUrl && l.coords == locs[i].coords
  {
  }

  /** Removing the entry just added gives the list back. */
  lemma AddThenRemove(locs: seq<Location>)
    ensures RemoveIndex(locs + [BlankLocation], |locs|) == locs
  {
    var r := RemoveIndex(locs + [BlankLocation], |locs|);
    assert |r| == |locs|;
    assert forall k :: 0 <= k < |locs| ==> r[k] == (locs + [BlankLocation])[k];
  }

  /** The text `handleSave` alerts for a failure with message `m`. */
  function ErrorAlert(m: string): string
  {
    "Error: " + m
  }

  /** The failure raised when no settings row is loaded. */
  const NoSettingsLoaded := "No settings loaded"

  class Settings {
    var contact: Contact
    var locations: seq<Location>
    var loading: bool
    var showSuccessModal: bool
    /** The text of the last `alert`, if any. */
    var alert: Option<string>

    constructor ()
      ensures contact == EmptyContact && locations == []
      ensures !loading && !showSuccessModal && alert == None
    {
      contact, locations := EmptyContact, [];
      loading, showSuccessModal, alert := false, false, None;
    }

    /** The effect that runs whenever the store's settings change: the form
        takes the row's fields, and the locations are replaced only when the
        row has a location list. */
    method SyncFromSettings(settings: Option<SiteSettings>)
      modifies this
      ensures settings.None? ==> contact == old(contact) && locations == old(locations)
      ensures settings.Some? ==> contact == ContactOf(settings.value)
      ensures settings.Some? && settings.value.globalLocations.Some? ==> locations == settings.value.globalLocations.value
      ensures settings.Some? && settings.value.globalLocations.None? ==> locations == old(locations)
      ensures loading == old(loading) && showSuccessModal == old(showSuccessModal) && alert == old(alert)
    {
      if settings.Some? {
        contact := ContactOf(settings.value);
        if settings.value.globalLocations.Some? {
          locations := settings.value.globalLocations.value;
        }
      }
    }

    method HandleChange(f: ContactField, v: string)
      modifies this
      ensures contact == WithField(old(contact), f, v)
      ensures locations == old(locations) && loading == old(loading)
      ensures showSuccessModal == old(showSuccessModal) && alert == old(alert)
    {
      contact := WithField(contact, f, v);
    }

    method HandleLocationChange(i: int, f: LocationField, v: string)
      modifies this
      ensures locations == ChangedLocations(old(locations), i, f, v)
      ensures contact == old(contact) && loading == old(loading)
      ensures showSuccessModal == old(showSuccessModal) && alert == old(alert)
    {
      if 0 <= i < |locations| {
        var entry := LocationWith(locations[i], f, v);
        locations := locations[i := entry];
      }
    }

    method AddLocation()
      modifies this
      ensures locations == old(locations) + [BlankLocation]
      ensures contact == old(contact) && loading == old(loading)
      ensures showSuccessModal == old(showSuccessModal) && alert == old(alert)
    {
      locations := locations + [BlankLocation];
    }

    method RemoveLocation(i: int)
      modifies this
      ensures locations == RemoveIndex(old(locations), i)
      ensures contact == old(contact) && loading == old(loading)
      ensures showSuccessModal == old(showSuccessModal) && alert == old(alert)
    {
      locations := RemoveIndex(locations, i);
    }

    /** `handleSave`. `settings` is the store's row; `writeError` is what the
        update returned. The update is issued only for a loaded row, and it
        carries the form and the current locations; any failure is alerted as
        "Error: " and its message, success opens the confirmation. */
    method HandleSave(settings: Option<SiteSettings>, writeError: Option<string>) returns (w: Option<SettingsWrite>)
      modifies this
      ensures settings.None? ==> w.None? && alert == Some(ErrorAlert(NoSettingsLoaded))
      ensures settings.Some? ==> w == Some(SettingsWrite(settings.value.id, old(contact), old(locations)))
      ensures settings.Some? && writeError.Some? ==> alert == Some(ErrorAlert(writeError.value))
      ensures settings.Some? && writeError.None? ==> showSuccessModal && alert == old(alert)
      ensures (settings.None? || writeError.Some?) ==> showSuccessModal == old(showSuccessModal)
      ensures !loading && contact == old(contact) && locations == old(locations)
    {
      loading := true;
      if settings.None? {
        w := None;
        alert := Some(ErrorAlert(NoSettingsLoaded));
      } else {
        w := Some(SettingsWrite(settings.value.id, contact, locations));
        if writeError.Some? {
          alert := Some(ErrorAlert(writeError.value));
        } else {
          showSuccessModal := true;
        }
      }
      loading := false;
    }
  }
}
