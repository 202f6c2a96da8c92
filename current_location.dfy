/** The "Tag" screen that finds the device's position: a small state machine driven by
    the user's Get/Stop button, the location manager's callbacks, the reverse
    geocoder's completion and a one-minute timeout.

    Each event is a method of `CurrentLocationController` that updates the fields step
    by step, as the view controller does; its contract ties the new fields to a pure
    function of the old ones (`AfterGetLocation`, `AfterFailure`, `AfterUpdate`,
    `AfterGeocode`, `AfterTimeout`), and the properties of the screen are proved about
    those functions. Platform services are inputs and outputs: whether location
    services are enabled, the authorisation status, the current time and the distance
    to the stored reading are parameters; starting a reverse-geocoding request is an
    output. Doubles are reals. */
module CurrentLocation {
  import opened Common

  /** A location reading: horizontal accuracy in metres (negative means invalid) and
      the time it was taken, in seconds. */
  datatype Reading = Reading(horizontalAccuracy: real, timestamp: real)

  /** An `NSError`, by domain and code. */
  datatype Error = Error(domain: string, code: int)

  datatype AuthorizationStatus = NotDetermined | Restricted | Denied | AuthorizedAlways | AuthorizedWhenInUse

  /** A scheduled one-shot timer and whether it has been invalidated. */
  datatype Timer = Timer(interval: real, isValid: bool)

  /** What `getLocation` does besides updating the screen's state. */
  datatype GetLocationEffect = RequestAuthorization | ShowDeniedAlert | Toggled

  const CLErrorDomain: string := "kCLErrorDomain"
  /** `CLError.locationUnknown.rawValue` */
  const LocationUnknownCode: int := 0
  /** `CLError.denied.rawValue` */
  const DeniedCode: int := 1
  /** The error `didTimeOut` records. */
  const TimeoutError: Error := Error("MyLocationsErrorDomain", 1)

  /** `kCLLocationAccuracyNearestTenMeters`, the accuracy the search stops at. */
  const DesiredAccuracy: real := 10.0
  const TimeoutInterval: real := 60.0
  /** Readings older than this many seconds are cached and ignored. */
  const MaxReadingAge: real := 5.0
  /** A reading no better than the stored one and closer than this many metres... */
  const SameSpotDistance: real := 1.0
  /** ...taken more than this many seconds after it ends the search. */
  const ForcedStopInterval: real := 10.0
  /** `Double.greatestFiniteMagnitude`, the distance used when nothing is stored. */
  const GreatestFiniteMagnitude: real := 179769313486231570814527423731704356798070567525844996598917476803157260780028538760589558632766878171540458953514382464234321326889464182768467546703537516986049910576551282076245490090389328944075868508455133942304583236903222948165808559332123348274797826204144723168738177180919299881250404026184124858368.0

  const LocationServicesDisabled: string := "Location Services Disabled"
  const ErrorGettingLocation: string := "Error Getting Location"
  const Searching: string := "Searching..."
  const TapToStart: string := "Tap 'Get My Location' to Start"
  const SearchingForAddress: string := "Searching for Address..."
  const ErrorFindingAddress: string := "Error Finding Address"
  const NoAddressFound: string := "No Address Found"
  const StopTitle: string := "Stop"
  const GetTitle: string := "Get My Location"

  /** The fields of the controller that the events change. */
  datatype State = State(
    location: Option<Reading>,
    updatingLocation: bool,
    lastLocationError: Option<Error>,
    placemark: Option<Placemark>,
    performingReverseGeocoding: bool,
    lastGeocodingError: Option<Error>,
    timer: Option<Timer>)

  const Initial: State := State(None, false, None, None, false, None, None)

  /** A scheduled timer that has been neither invalidated nor fired. */
  predicate TimerLive(s: State)
  {
    s.timer.Some? && s.timer.value.isValid
  }

  /** A live timer exists only while updating. The converse does not hold: the
      one-shot timer expires while a search that already has a location goes on. */
  predicate TimerLiveOnlyWhileUpdating(s: State)
  {
    TimerLive(s) ==> s.updatingLocation
  }

  predicate Authorized(status: AuthorizationStatus)
  {
    status != NotDetermined && status != Denied && status != Restricted
  }

  // ---------------------------------------------------------------------------
  // The transitions

  /** `stopLocationManager`. */
  function Stopped(s: State): (t: State)
    ensures !t.updatingLocation
    ensures !s.updatingLocation ==> t == s
    ensures s.updatingLocation && s.timer.Some? ==> t.timer == Some(s.timer.value.(isValid := false))
    // nothing but the updating flag and the timer changes
    ensures t.(updatingLocation := s.updatingLocation, timer := s.timer) == s
    ensures TimerLiveOnlyWhileUpdating(s) ==> TimerLiveOnlyWhileUpdating(t)
  {
    if s.updatingLocation then
      s.(updatingLocation := false,
         timer := if s.timer.Some? then Some(s.timer.value.(isValid := false)) else s.timer)
    else s
  }

  /** `startLocationManager`: nothing happens unless location services are enabled. */
  function Started(s: State, servicesEnabled: bool): (t: State)
    ensures !servicesEnabled ==> t == s
    ensures servicesEnabled ==> t.updatingLocation && t.timer == Some(Timer(TimeoutInterval, true))
    ensures t.(updatingLocation := s.updatingLocation, timer := s.timer) == s
  {
    if servicesEnabled then s.(updatingLocation := true, timer := Some(Timer(TimeoutInterval, true))) else s
  }

  /** `getLocation`. */
  function AfterGetLocation(s: State, status: AuthorizationStatus, servicesEnabled: bool): (t: State)
    // without authorisation nothing changes
    ensures !Authorized(status) ==> t == s
    // the button stops a search in progress
    ensures Authorized(status) && s.updatingLocation ==> t == Stopped(s)
    // otherwise it forgets the last result and starts afresh
    ensures Authorized(status) && !s.updatingLocation ==>
      && t.location.None? && t.placemark.None?
      && t.lastLocationError.None? && t.lastGeocodingError.None?
      && t.updatingLocation == servicesEnabled
      && t.performingReverseGeocoding == s.performingReverseGeocoding
    ensures TimerLiveOnlyWhileUpdating(s) ==> TimerLiveOnlyWhileUpdating(t)
  {
    if !Authorized(status) then s
    else if s.updatingLocation then Stopped(s)
    else Started(s.(location := None, lastLocationError := None, placemark := None, lastGeocodingError := None),
                 servicesEnabled)
  }

  /** `locationManager(_:didFailWithError:)`. Only the code is compared with
      `locationUnknown`, whatever the error's domain. */
  function AfterFailure(s: State, error: Error): (t: State)
    ensures error.code == LocationUnknownCode ==> t == s
    ensures error.code != LocationUnknownCode ==>
      && t.lastLocationError == Some(error) && !t.updatingLocation
      && t.location == s.location && t.placemark == s.placemark
      && t.performingReverseGeocoding == s.performingReverseGeocoding
      && t.lastGeocodingError == s.lastGeocodingError
    ensures TimerLiveOnlyWhileUpdating(s) ==> TimerLiveOnlyWhileUpdating(t)
  {
    if error.code == LocationUnknownCode then s else Stopped(s.(lastLocationError := Some(error)))
  }

  /** A reading younger than the age limit (`timeIntervalSinceNow` is not below -5):
      taken at most five seconds before `now`, or later. */
  function Fresh(r: Reading, now: real): (b: bool)
    ensures b <==> now - r.timestamp <= MaxReadingAge
  {
    !(r.timestamp - now < -MaxReadingAge)
  }

  /** A reading that passes both early returns: fresh, with a valid (non-negative)
      accuracy. */
  function Usable(r: Reading, now: real): (b: bool)
    ensures b ==> now - r.timestamp <= MaxReadingAge && r.horizontalAccuracy >= 0.0
    ensures !b ==> now - r.timestamp > MaxReadingAge || r.horizontalAccuracy < 0.0
  {
    Fresh(r, now) && !(r.horizontalAccuracy < 0.0)
  }

  /** The reading is kept: nothing is stored yet or it is strictly more accurate. */
  function Improves(s: State, r: Reading): (b: bool)
    ensures b && s.location.Some? ==> r.horizontalAccuracy < s.location.value.horizontalAccuracy
    ensures !b ==> s.location.Some? && s.location.value.horizontalAccuracy <= r.horizontalAccuracy
  {
    s.location.None? || s.location.value.horizontalAccuracy > r.horizontalAccuracy
  }

  /** The location updates after which `didUpdateLocations` refreshes the labels: an
      accepted reading, and a forced stop at the same spot. */
  predicate RefreshesLabels(s: State, r: Reading, now: real, distanceFromStored: real)
  {
    Usable(r, now) &&
    (Improves(s, r) ||
     (s.location.Some? && distanceFromStored < SameSpotDistance
      && r.timestamp - s.location.value.timestamp > ForcedStopInterval))
  }

  /** The new state after a location update, and the reading handed to the reverse
      geocoder, if one was started. */
  datatype Update = Update(state: State, geocodeRequest: Option<Reading>)

  /** The branch of `didUpdateLocations` that stores reading `r`, at `distance` from
      the stored one. */
  function Accepted(s: State, r: Reading, distance: real): (u: Update)
    ensures u.state.location == Some(r) && u.state.lastLocationError.None?
    ensures u.state.performingReverseGeocoding
    // the search ends at the desired accuracy, and goes on otherwise
    ensures r.horizontalAccuracy <= DesiredAccuracy ==> !u.state.updatingLocation
    ensures r.horizontalAccuracy > DesiredAccuracy ==> u.state.updatingLocation == s.updatingLocation
    // the reading is geocoded when no request is running, and also when it ends the
    // search away from the earlier reading, since that clears the running flag
    ensures u.geocodeRequest.Some? ==> u.geocodeRequest == Some(r)
    ensures u.geocodeRequest.Some? <==>
      !s.performingReverseGeocoding || (r.horizontalAccuracy <= DesiredAccuracy && distance > 0.0)
    ensures u.state.placemark == s.placemark && u.state.lastGeocodingError == s.lastGeocodingError
    ensures TimerLiveOnlyWhileUpdating(s) ==> TimerLiveOnlyWhileUpdating(u.state)
  {
    var accepted := s.(lastLocationError := None, location := Some(r));
    var settled :=
      if r.horizontalAccuracy <= DesiredAccuracy then
        var stopped := Stopped(accepted);
        if distance > 0.0 then stopped.(performingReverseGeocoding := false) else stopped
      else accepted;
    if !settled.performingReverseGeocoding then
      Update(settled.(performingReverseGeocoding := true), Some(r))
    else Update(settled, None)
  }

  /** `locationManager(_:didUpdateLocations:)` for its last reading `r`. */
  function AfterUpdate(s: State, r: Reading, now: real, distanceFromStored: real): (u: Update)
    // stale and invalid readings change nothing
    ensures !Usable(r, now) ==> u == Update(s, None)
    // an accepted reading replaces the stored one and clears the location error
    ensures Usable(r, now) && Improves(s, r) ==>
      && u.state.location == Some(r) && u.state.lastLocationError.None?
      && u.state.performingReverseGeocoding
    // an accurate enough reading ends the search
    ensures Usable(r, now) && Improves(s, r) && r.horizontalAccuracy <= DesiredAccuracy ==>
      !u.state.updatingLocation
    // a geocoding request is only ever made for an accepted reading
    ensures u.geocodeRequest.Some? ==> Usable(r, now) && Improves(s, r) && u.geocodeRequest == Some(r)
    // the same spot, seen again more than ten seconds later, ends the search
    ensures Usable(r, now) && !Improves(s, r) ==>
      u.geocodeRequest.None? &&
      u.state == if distanceFromStored < SameSpotDistance
                    && r.timestamp - s.location.value.timestamp > ForcedStopInterval
                 then Stopped(s) else s
    // the stored reading never gets less accurate, and a usable reading leaves one
    // at least as accurate as itself
    ensures u.state.location == s.location || u.state.location == Some(r)
    ensures s.location.Some? ==>
      u.state.location.Some? && u.state.location.value.horizontalAccuracy <= s.location.value.horizontalAccuracy
    ensures Usable(r, now) ==>
      u.state.location.Some? && u.state.location.value.horizontalAccuracy <= r.horizontalAccuracy
    ensures TimerLiveOnlyWhileUpdating(s) ==> TimerLiveOnlyWhileUpdating(u.state)
  {
    if r.timestamp - now < -MaxReadingAge then Update(s, None)
    else if r.horizontalAccuracy < 0.0 then Update(s, None)
    else
      var distance := if s.location.Some? then distanceFromStored else GreatestFiniteMagnitude;
      if s.location.None? || s.location.value.horizontalAccuracy > r.horizontalAccuracy then
        Accepted(s, r, distance)
      else if distance < SameSpotDistance then
        var timeInterval := r.timestamp - s.location.value.timestamp;
        if timeInterval > ForcedStopInterval then Update(Stopped(s), None) else Update(s, None)
      else Update(s, None)
  }

  /** The reverse geocoder's completion handler. */
  function AfterGeocode(s: State, placemarks: Option<seq<Placemark>>, error: Option<Error>): (t: State)
    ensures !t.performingReverseGeocoding && t.lastGeocodingError == error
    ensures t.placemark.Some? <==> error.None? && placemarks.Some? && |placemarks.value| > 0
    ensures t.placemark.Some? ==> t.placemark.value == placemarks.value[|placemarks.value| - 1]
    ensures t.location == s.location && t.updatingLocation == s.updatingLocation
    ensures t.lastLocationError == s.lastLocationError && t.timer == s.timer
  {
    var found := error.None? && placemarks.Some? && |placemarks.value| > 0;
    s.(lastGeocodingError := error,
       placemark := if found then Some(placemarks.value[|placemarks.value| - 1]) else None,
       performingReverseGeocoding := false)
  }

  /** A fired one-shot timer: it has invalidated itself. */
  function Expired(timer: Option<Timer>): (r: Option<Timer>)
    ensures r.None? <==> timer.None?
    ensures r.Some? ==> !r.value.isValid && r.value.interval == timer.value.interval
  {
    if timer.Some? then Some(timer.value.(isValid := false)) else None
  }

  /** `didTimeOut`, run when the one-shot timer fires (`repeats: false`), which
      leaves that timer invalid. */
  function AfterTimeout(s: State): (t: State)
    ensures !TimerLive(t)
    // with a location the search goes on, now without a deadline
    ensures s.location.Some? ==> t == s.(timer := Expired(s.timer))
    ensures s.location.None? ==>
      && !t.updatingLocation && t.lastLocationError == Some(TimeoutError)
      && t.location.None? && t.placemark == s.placemark
    ensures TimerLiveOnlyWhileUpdating(s) ==> TimerLiveOnlyWhileUpdating(t)
  {
    var fired := s.(timer := Expired(s.timer));
    if s.location.None? then Stopped(fired).(lastLocationError := Some(TimeoutError)) else fired
  }

  // ---------------------------------------------------------------------------
  // What the screen shows

  /** The two lines of `string(from:)`: house number and street; city, state and
      postal code. */
  function Line1Pieces(p: Placemark): seq<Piece>
  {
    [Piece(p.subThoroughfare, " "), Piece(p.thoroughfare, "")]
  }

  function Line2Pieces(p: Placemark): seq<Piece>
  {
    [Piece(p.locality, " "), Piece(p.administrativeArea, " "), Piece(p.postalCode, "")]
  }

  /** The address always spans two lines, even when every field is absent. */
  function TwoLineAddress(p: Placemark): (r: string)
    ensures '\n' in r
  {
    assert (Compose(Line1Pieces(p)) + "\n" + Compose(Line2Pieces(p)))[|Compose(Line1Pieces(p))|] == '\n';
    Compose(Line1Pieces(p)) + "\n" + Compose(Line2Pieces(p))
  }

  lemma Line1Steps(p: Placemark)
    ensures Compose(Line1Pieces(p)) ==
      "" + Contribution(Piece(p.subThoroughfare, " ")) + Contribution(Piece(p.thoroughfare, ""))
  {
    var c := Line1Pieces(p);
    assert c[1..] == [c[1]] && c[1..][1..] == [];
    assert Compose(c[1..]) == Contribution(c[1]) + Compose([]);
    assert "" + Contribution(c[0]) == Contribution(c[0]);
  }

  lemma Line2Steps(p: Placemark)
    ensures Compose(Line2Pieces(p)) ==
      "" + Contribution(Piece(p.locality, " ")) + Contribution(Piece(p.administrativeArea, " "))
      + Contribution(Piece(p.postalCode, ""))
  {
    var c := Line2Pieces(p);
    ComposeThree(c[0], c[1], c[2]);
    assert "" + Contribution(c[0]) == Contribution(c[0]);
  }

  predicate IsDeniedError(e: Error)
  {
    e.domain == CLErrorDomain && e.code == DeniedCode
  }

  /** The message label of `updateLabels`: empty exactly when a location is known. */
  function StatusMessage(s: State, servicesEnabled: bool): (r: string)
    ensures r == "" <==> s.location.Some?
  {
    if s.location.Some? then ""
    else if s.lastLocationError.Some? then
      if IsDeniedError(s.lastLocationError.value) then LocationServicesDisabled else ErrorGettingLocation
    else if !servicesEnabled then LocationServicesDisabled
    else if s.updatingLocation then Searching
    else TapToStart
  }

  /** The address label of `updateLabels`: empty exactly when no location is known. */
  function AddressLabel(s: State): (r: string)
    ensures r == "" <==> s.location.None?
  {
    if s.location.None? then ""
    else if s.placemark.Some? then TwoLineAddress(s.placemark.value)
    else if s.performingReverseGeocoding then SearchingForAddress
    else if s.lastGeocodingError.Some? then ErrorFindingAddress
    else NoAddressFound
  }

  /** The title `configureGetButton` gives the Get button: "Stop" exactly while
      updating. */
  function GetButtonTitle(s: State): (r: string)
    ensures r == StopTitle <==> s.updatingLocation
    ensures r == GetTitle <==> !s.updatingLocation
  {
    if s.updatingLocation then StopTitle else GetTitle
  }

  // ---------------------------------------------------------------------------
  // Properties of the transitions and the labels

  /** Each status message names exactly the situations that show it: without a
      location, an error outranks the services check, which outranks the search
      state. */
  lemma StatusMessagePriority(s: State, servicesEnabled: bool)
    ensures StatusMessage(s, servicesEnabled) == LocationServicesDisabled <==>
      s.location.None? &&
      (if s.lastLocationError.Some? then IsDeniedError(s.lastLocationError.value) else !servicesEnabled)
    ensures StatusMessage(s, servicesEnabled) == ErrorGettingLocation <==>
      s.location.None? && s.lastLocationError.Some? && !IsDeniedError(s.lastLocationError.value)
    ensures StatusMessage(s, servicesEnabled) == Searching <==>
      s.location.None? && s.lastLocationError.None? && servicesEnabled && s.updatingLocation
    ensures StatusMessage(s, servicesEnabled) == TapToStart <==>
      s.location.None? && s.lastLocationError.None? && servicesEnabled && !s.updatingLocation
  {
  }

  /** Once a location is known, the address label is the placemark's address (the only
      label with a line break), or a message naming the geocoder's progress. */
  lemma AddressLabelChoice(s: State)
    ensures '\n' in AddressLabel(s) <==> s.location.Some? && s.placemark.Some?
    ensures AddressLabel(s) == SearchingForAddress <==>
      s.location.Some? && s.placemark.None? && s.performingReverseGeocoding
    ensures AddressLabel(s) == ErrorFindingAddress <==>
      s.location.Some? && s.placemark.None? && !s.performingReverseGeocoding && s.lastGeocodingError.Some?
    ensures AddressLabel(s) == NoAddressFound <==>
      s.location.Some? && s.placemark.None? && !s.performingReverseGeocoding && s.lastGeocodingError.None?
  {
    assert |SearchingForAddress| == 24 && |ErrorFindingAddress| == 21 && |NoAddressFound| == 16;
    assert forall c :: c in SearchingForAddress + ErrorFindingAddress + NoAddressFound ==> c != '\n';
  }

  /** Stopping twice is stopping once. */
  lemma StopIdempotent(s: State)
    ensures Stopped(Stopped(s)) == Stopped(s)
  {
  }

  /** Without a location, a recorded error decides the message whatever the state of
      location services and of the search. */
  lemma ErrorOutranksSearchState(s: State, servicesEnabled: bool, updating: bool, enabled: bool)
    requires s.location.None? && s.lastLocationError.Some?
    ensures StatusMessage(s, servicesEnabled) == StatusMessage(s.(updatingLocation := updating), enabled)
    ensures StatusMessage(s, servicesEnabled) in {LocationServicesDisabled, ErrorGettingLocation}
  {
  }

  /** A failure because the user denied access reads as disabled location services. */
  lemma DeniedFailureShowsDisabled(s: State, servicesEnabled: bool)
    requires s.location.None?
    ensures StatusMessage(AfterFailure(s, Error(CLErrorDomain, DeniedCode)), servicesEnabled) == LocationServicesDisabled
  {
  }

  /** A timeout without a location reads as an error getting the location, not as
      disabled services, since its error lies in the app's own domain. */
  lemma TimeoutShowsErrorGettingLocation(s: State, servicesEnabled: bool)
    requires s.location.None?
    ensures StatusMessage(AfterTimeout(s), servicesEnabled) == ErrorGettingLocation
    ensures GetButtonTitle(AfterTimeout(s)) == GetTitle
  {
  }

  /** Pressing Get while idle shows "Searching..." and turns the button into Stop when
      location services are enabled, and reports them disabled otherwise. */
  lemma StartShowsSearching(s: State, status: AuthorizationStatus, servicesEnabled: bool)
    requires Authorized(status) && !s.updatingLocation
    ensures servicesEnabled ==>
      StatusMessage(AfterGetLocation(s, status, servicesEnabled), servicesEnabled) == Searching &&
      GetButtonTitle(AfterGetLocation(s, status, servicesEnabled)) == StopTitle
    ensures !servicesEnabled ==>
      StatusMessage(AfterGetLocation(s, status, servicesEnabled), servicesEnabled) == LocationServicesDisabled &&
      GetButtonTitle(AfterGetLocation(s, status, servicesEnabled)) == GetTitle
  {
  }

  /** After a fresh start the first usable reading is always taken. */
  lemma FirstReadingAfterStartAccepted(s: State, status: AuthorizationStatus, r: Reading, now: real, distance: real)
    requires Authorized(status) && !s.updatingLocation && Usable(r, now)
    ensures AfterUpdate(AfterGetLocation(s, status, true), r, now, distance).state.location == Some(r)
  {
  }

  /** Once a location is shown, the geocoder's answer decides the address label: the
      last placemark found, or an error message. */
  lemma GeocodeDecidesAddressLabel(s: State, placemarks: Option<seq<Placemark>>, error: Option<Error>)
    requires s.location.Some?
    ensures error.Some? ==> AddressLabel(AfterGeocode(s, placemarks, error)) == ErrorFindingAddress
    ensures error.None? && placemarks.Some? && |placemarks.value| > 0 ==>
      AddressLabel(AfterGeocode(s, placemarks, error)) == TwoLineAddress(placemarks.value[|placemarks.value| - 1])
    ensures error.None? && (placemarks.None? || |placemarks.value| == 0) ==>
      AddressLabel(AfterGeocode(s, placemarks, error)) == NoAddressFound
  {
  }

  /** One delivery of readings to `didUpdateLocations`, with the time it arrives and
      the distance from its last reading to the stored one. */
  datatype Delivery = Delivery(reading: Reading, now: real, distanceFromStored: real)

  /** The state after a run of deliveries, in order. */
  function AfterDeliveries(s: State, ds: seq<Delivery>): State
    decreases |ds|
  {
    if ds == [] then s
    else AfterDeliveries(AfterUpdate(s, ds[0].reading, ds[0].now, ds[0].distanceFromStored).state, ds[1..])
  }

  /** However the readings arrive, the stored reading is one of them (or the one held
      before), it is never less accurate than before, and it is at least as accurate
      as every usable reading delivered. */
  lemma {:induction false} StoredReadingIsMostAccurate(s: State, ds: seq<Delivery>)
    decreases |ds|
    ensures s.location.Some? ==>
      AfterDeliveries(s, ds).location.Some? &&
      AfterDeliveries(s, ds).location.value.horizontalAccuracy <= s.location.value.horizontalAccuracy
    ensures forall i :: 0 <= i < |ds| && Usable(ds[i].reading, ds[i].now) ==>
      AfterDeliveries(s, ds).location.Some? &&
      AfterDeliveries(s, ds).location.value.horizontalAccuracy <= ds[i].reading.horizontalAccuracy
    ensures AfterDeliveries(s, ds).location == s.location ||
      exists i :: 0 <= i < |ds| && AfterDeliveries(s, ds).location == Some(ds[i].reading)
  {
    if ds != [] {
      var u := AfterUpdate(s, ds[0].reading, ds[0].now, ds[0].distanceFromStored).state;
      var rest := ds[1..];
      StoredReadingIsMostAccurate(u, rest);
      assert AfterDeliveries(s, ds) == AfterDeliveries(u, rest);
      forall i | 0 <= i < |ds| && Usable(ds[i].reading, ds[i].now)
        ensures AfterDeliveries(s, ds).location.Some? &&
          AfterDeliveries(s, ds).location.value.horizontalAccuracy <= ds[i].reading.horizontalAccuracy
      {
        if i > 0 {
          assert ds[i] == rest[i - 1];
        }
      }
      if AfterDeliveries(u, rest).location != u.location {
        var j :| 0 <= j < |rest| && AfterDeliveries(u, rest).location == Some(rest[j].reading);
        assert rest[j] == ds[j + 1];
      } else if u.location != s.location {
        assert u.location == Some(ds[0].reading);
      }
    }
  }

  /** A timeout after a location was found leaves the search running, but with no
      live timer: only an accurate reading or the same-spot rule can end it now. */
  lemma TimeoutWithLocationKeepsSearching(s: State)
    requires s.location.Some? && s.updatingLocation
    ensures AfterTimeout(s).updatingLocation && !TimerLive(AfterTimeout(s))
    ensures AfterTimeout(s).location == s.location && AfterTimeout(s).lastLocationError == s.lastLocationError
  {
  }

  /** A present postal code ends the second line, and so the address. */
  lemma PostalCodeEndsAddress(p: Placemark)
    requires p.postalCode.Some?
    ensures TwoLineAddress(p) ==
      Compose(Line1Pieces(p)) + "\n" + Compose(Line2Pieces(p)[..2]) + p.postalCode.value
  {
    var pieces := Line2Pieces(p);
    assert pieces == pieces[..2] + [Piece(Some(p.postalCode.value), "")];
    LastFieldIsSuffix(pieces[..2], p.postalCode.value);
  }

  /** A placemark with nothing in it still gives two (empty) lines. */
  lemma EmptyPlacemarkTwoLineAddress(p: Placemark)
    requires p == Placemark(None, None, None, None, None, None)
    ensures TwoLineAddress(p) == "\n"
  {
    ComposeAllAbsent(Line1Pieces(p));
    ComposeAllAbsent(Line2Pieces(p));
  }

  // ---------------------------------------------------------------------------
  // The view controller

  class CurrentLocationController {
    var location: Option<Reading>
    var updatingLocation: bool
    var lastLocationError: Option<Error>
    var placemark: Option<Placemark>
    var performingReverseGeocoding: bool
    var lastGeocodingError: Option<Error>
    var timer: Option<Timer>

    var messageText: string
    var addressText: string
    var tagButtonHidden: bool
    var getButtonTitle: string
    /** Whether location services were enabled when the labels were last updated. */
    ghost var labelsServicesEnabled: bool

    function Snapshot(): State
      reads this
    {
      State(location, updatingLocation, lastLocationError, placemark,
            performingReverseGeocoding, lastGeocodingError, timer)
    }

    /** The labels show the current state. */
    ghost predicate LabelsShowState()
      reads this
    {
      && messageText == StatusMessage(Snapshot(), labelsServicesEnabled)
      && addressText == AddressLabel(Snapshot())
      && tagButtonHidden == location.None?
      && getButtonTitle == GetButtonTitle(Snapshot())
    }

    ghost predicate Valid()
      reads this
    {
      TimerLiveOnlyWhileUpdating(Snapshot()) && LabelsShowState()
    }

    /** A freshly loaded screen: nothing found yet, labels updated by `viewDidLoad`. */
    constructor (servicesEnabled: bool)
      ensures Valid()
      ensures Snapshot() == Initial && labelsServicesEnabled == servicesEnabled
    {
      location := None;
      updatingLocation := false;
      lastLocationError := None;
      placemark := None;
      performingReverseGeocoding := false;
      lastGeocodingError := None;
      timer := None;
      messageText, addressText, tagButtonHidden, getButtonTitle := "", "", true, GetTitle;
      new;
      UpdateLabels(servicesEnabled);
    }

    /** `string(from:)`: the address in two lines. */
    method AddressString(placemark: Placemark) returns (text: string)
      ensures text == TwoLineAddress(placemark)
    {
      var line1 := "";
      line1 := AppendIfPresent(line1, placemark.subThoroughfare, " ");
      line1 := AppendIfPresent(line1, placemark.thoroughfare, "");
      var line2 := "";
      line2 := AppendIfPresent(line2, placemark.locality, " ");
      line2 := AppendIfPresent(line2, placemark.administrativeArea, " ");
      line2 := AppendIfPresent(line2, placemark.postalCode, "");
      Line1Steps(placemark);
      Line2Steps(placemark);
      text := line1 + "\n" + line2;
    }

    /** `updateLabels`. */
    method UpdateLabels(servicesEnabled: bool)
      modifies this`messageText, this`addressText, this`tagButtonHidden, this`getButtonTitle,
               this`labelsServicesEnabled
      ensures LabelsShowState() && labelsServicesEnabled == servicesEnabled
    {
      if location.Some? {
        tagButtonHidden := false;
        messageText := "";
        if placemark.Some? {
          addressText := AddressString(placemark.value);
        } else if performingReverseGeocoding {
          addressText := SearchingForAddress;
        } else if lastGeocodingError.Some? {
          addressText := ErrorFindingAddress;
        } else {
          addressText := NoAddressFound;
        }
      } else {
        addressText := "";
        tagButtonHidden := true;
        var statusMessage: string;
        if lastLocationError.Some? {
          var error := lastLocationError.value;
          if error.domain == CLErrorDomain && error.code == DeniedCode {
            statusMessage := LocationServicesDisabled;
          } else {
            statusMessage := ErrorGettingLocation;
          }
        } else if !servicesEnabled {
          statusMessage := LocationServicesDisabled;
        } else if updatingLocation {
          statusMessage := Searching;
        } else {
          statusMessage := TapToStart;
        }
        messageText := statusMessage;
      }
      ConfigureGetButton();
      labelsServicesEnabled := servicesEnabled;
    }

    /** `configureGetButton`. */
    method ConfigureGetButton()
      modifies this`getButtonTitle
      ensures getButtonTitle == GetButtonTitle(Snapshot())
    {
      if updatingLocation {
        getButtonTitle := StopTitle;
      } else {
        getButtonTitle := GetTitle;
      }
    }

    /** `startLocationManager`. */
    method StartLocationManager(servicesEnabled: bool)
      modifies this`updatingLocation, this`timer
      ensures Snapshot() == Started(old(Snapshot()), servicesEnabled)
    {
      if servicesEnabled {
        updatingLocation := true;
        timer := Some(Timer(TimeoutInterval, true));
      }
    }

    /** `stopLocationManager`. */
    method StopLocationManager()
      modifies this`updatingLocation, this`timer
      ensures Snapshot() == Stopped(old(Snapshot()))
    {
      if updatingLocation {
        updatingLocation := false;
        if timer.Some? {
          timer := Some(timer.value.(isValid := false));
        }
      }
    }

    /** `getLocation`, the Get/Stop button. */
    method GetLocation(authStatus: AuthorizationStatus, servicesEnabled: bool) returns (effect: GetLocationEffect)
      requires Valid()
      modifies this
      ensures Valid()
      ensures Snapshot() == AfterGetLocation(old(Snapshot()), authStatus, servicesEnabled)
      ensures authStatus == NotDetermined ==> effect == RequestAuthorization && unchanged(this)
      ensures (authStatus == Denied || authStatus == Restricted) ==> effect == ShowDeniedAlert && unchanged(this)
      ensures Authorized(authStatus) ==> effect == Toggled && labelsServicesEnabled == servicesEnabled
    {
      if authStatus == NotDetermined {
        return RequestAuthorization;
      }
      if authStatus == Denied || authStatus == Restricted {
        return ShowDeniedAlert;
      }
      if updatingLocation {
        StopLocationManager();
      } else {
        location := None;
        lastLocationError := None;
        placemark := None;
        lastGeocodingError := None;
        StartLocationManager(servicesEnabled);
      }
      UpdateLabels(servicesEnabled);
      effect := Toggled;
    }

    /** `locationManager(_:didFailWithError:)`. */
    method DidFailWithError(error: Error, servicesEnabled: bool)
      requires Valid()
      modifies this
      ensures Valid()
      ensures Snapshot() == AfterFailure(old(Snapshot()), error)
      ensures error.code == LocationUnknownCode ==> unchanged(this)
      ensures error.code != LocationUnknownCode ==> labelsServicesEnabled == servicesEnabled
    {
      if error.code == LocationUnknownCode {
        return;
      }
      lastLocationError := Some(error);
      StopLocationManager();
      UpdateLabels(servicesEnabled);
    }

    /** `locationManager(_:didUpdateLocations:)`. The manager always delivers at least
        one reading; the last one counts. `distanceFromStored` is the distance from it
        to the stored reading, used only when one is stored. */
    method DidUpdateLocations(locations: seq<Reading>, now: real, distanceFromStored: real, servicesEnabled: bool)
      returns (geocodeRequest: Option<Reading>)
      requires Valid()
      requires |locations| > 0
      modifies this
      ensures Valid()
      ensures Update(Snapshot(), geocodeRequest) ==
              AfterUpdate(old(Snapshot()), locations[|locations| - 1], now, distanceFromStored)
      ensures RefreshesLabels(old(Snapshot()), locations[|locations| - 1], now, distanceFromStored) ==>
              labelsServicesEnabled == servicesEnabled
      ensures !RefreshesLabels(old(Snapshot()), locations[|locations| - 1], now, distanceFromStored) ==>
              unchanged(this)
    {
      var newLocation := locations[|locations| - 1];
      geocodeRequest := None;
      if newLocation.timestamp - now < -MaxReadingAge {
        return;
      }
      if newLocation.horizontalAccuracy < 0.0 {
        return;
      }
      var distance := GreatestFiniteMagnitude;
      if location.Some? {
        distance := distanceFromStored;
      }
      if location.None? || location.value.horizontalAccuracy > newLocation.horizontalAccuracy {
        geocodeRequest := AcceptReading(newLocation, distance, servicesEnabled);
      } else if distance < SameSpotDistance {
        var timeInterval := newLocation.timestamp - location.value.timestamp;
        if timeInterval > ForcedStopInterval {
          StopLocationManager();
          UpdateLabels(servicesEnabled);
        }
      }
    }

    /** The accepting branch of `didUpdateLocations`: store the reading, stop at the
        desired accuracy, start geocoding unless a request is running, and refresh
        the labels. */
    method AcceptReading(newLocation: Reading, distance: real, servicesEnabled: bool)
      returns (geocodeRequest: Option<Reading>)
      requires Valid()
      modifies this
      ensures Valid() && labelsServicesEnabled == servicesEnabled
      ensures Update(Snapshot(), geocodeRequest) == Accepted(old(Snapshot()), newLocation, distance)
    {
      geocodeRequest := None;
      lastLocationError := None;
      location := Some(newLocation);
      if newLocation.horizontalAccuracy <= DesiredAccuracy {
        StopLocationManager();
        if distance > 0.0 {
          performingReverseGeocoding := false;
        }
      }
      if !performingReverseGeocoding {
        performingReverseGeocoding := true;
        geocodeRequest := Some(newLocation);
      }
      UpdateLabels(servicesEnabled);
    }

    /** The completion handler of `reverseGeocodeLocation`. */
    method GeocodeCompleted(placemarks: Option<seq<Placemark>>, error: Option<Error>, servicesEnabled: bool)
      requires Valid()
      modifies this
      ensures Valid()
      ensures Snapshot() == AfterGeocode(old(Snapshot()), placemarks, error)
      ensures labelsServicesEnabled == servicesEnabled
    {
      lastGeocodingError := error;
      if error.None? && placemarks.Some? && |placemarks.value| > 0 {
        placemark := Some(placemarks.value[|placemarks.value| - 1]);
      } else {
        placemark := None;
      }
      performingReverseGeocoding := false;
      UpdateLabels(servicesEnabled);
    }

    /** `didTimeOut`, run when the one-shot timer fires. */
    method DidTimeOut(servicesEnabled: bool)
      requires Valid()
      modifies this
      ensures Valid()
      ensures Snapshot() == AfterTimeout(old(Snapshot()))
      ensures old(location).None? ==> labelsServicesEnabled == servicesEnabled
      ensures old(location).Some? ==>
        && messageText == old(messageText) && addressText == old(addressText)
        && tagButtonHidden == old(tagButtonHidden) && getButtonTitle == old(getButtonTitle)
        && labelsServicesEnabled == old(labelsServicesEnabled)
    {
      // a timer that does not repeat is invalidated once it has fired
      timer := Expired(timer);
      if location.None? {
        StopLocationManager();
        lastLocationError := Some(TimeoutError);
        UpdateLabels(servicesEnabled);
      }
    }
  }

  /** A freshly loaded screen, with location services enabled and the app
      authorised: pressing Get shows "Searching..." and turns the button into Stop. */
  method TapGetOnNewScreen(status: AuthorizationStatus) returns (screen: CurrentLocationController)
    requires Authorized(status)
    ensures screen.Valid()
    ensures screen.updatingLocation && screen.messageText == Searching && screen.getButtonTitle == StopTitle
    ensures screen.tagButtonHidden && screen.addressText == ""
  {
    screen := new CurrentLocationController(true);
    var effect := screen.GetLocation(status, true);
  }
}
