# MyLocations in Dafny

A verified model of the sequential logic of MyLocations. MyLocations is an iOS app that finds the device's position, turns it into a street address and saves it as a tagged location with a description, a category and an optional photo. UIKit, Core Data, MapKit and CoreLocation are replaced by plain datatypes and parameters. What stays is the code that decides things:

- `current_location.dfy` (module `CurrentLocation`): the Tag screen's search for a position. `CurrentLocationController` is a class with one method per event: the Get/Stop button, a failure, a location update, the reverse geocoder's answer and the timeout. It also has the label updates and the two-line address. Each event method updates the controller's fields step by step. Its contract says the new fields equal a pure transition function of the old ones (`AfterGetLocation`, `AfterFailure`, `AfterUpdate`, `AfterGeocode`, `AfterTimeout`). Every method keeps `Valid()`: a live timer exists only while updating, and the labels show the state. The converse fails on purpose. The timeout timer fires only once, so a search that already has a location goes on after it fires, with no timer left. The screen's properties are lemmas about the transition functions. One of them covers any run of location deliveries: the stored reading is at least as accurate as every usable reading delivered, and it is either one of them or the reading held before.
- `location_details.dfy` (module `LocationDetails`): the details screen. It has the one-line address, the row-selection filter, and the hand-off of the category to the picker and back. A client method runs a whole round trip through the picker.
- `category_picker.dfy` (module `CategoryPicker`): the eleven categories, the linear search that selects the initial row, the checkmark rule, the tap rule and the picked name.
- `location.dfy` (module `LocationRecord`): the stored location record with its title, subtitle, photo flag and photo file name. It also has the photo-ID counter kept in the user defaults, and the removal of a location's photo file from the documents directory, which is modelled as a set of file names.
- `location_cell.dfy` (module `LocationCellView`): the list cell's description line and short address.
- `add_text.dfy` (module `StringAddText`): `String.add(text:separatedBy:)`.
- `common.dfy` (module `Common`): the shared placemark type, `Option`, the index path, and the address specification `Compose`. Each of the app's address formatters appends a fixed sequence of (optional field, separator) pieces. `Compose` is the string those pieces denote, and every formatter method is proved equal to `Compose` of its own pieces.
- `address_formats.dfy` (module `AddressFormats`): how the three address formats relate. The Tag screen's street line begins the cell's address, which begins the details screen's address.

Doubles (accuracy, distance, seconds, coordinates) are Dafny `real`s. Being exact, they keep the meaning of the source's threshold comparisons.

## Model

| member | source | states |
|---|---|---|
| Common.Contribution | MyLocations/LocationsDetailsViewController.swift:153-155 | an absent field contributes nothing; a present field contributes its value followed by its separator |
| Common.AppendIfPresent | MyLocations/LocationsDetailsViewController.swift:153-155 | one `if let` step appends exactly the piece's contribution to the text built so far |
| Common.ComposeAppend | MyLocations/LocationsDetailsViewController.swift:150-182 | formatting two runs of pieces one after the other gives the concatenation of their texts |
| Common.ComposeAllAbsent | MyLocations/LocationsDetailsViewController.swift:150-182 | a run of pieces whose fields are all absent formats to the empty string |
| Common.ComposeSkipsAbsent | MyLocations/LocationsDetailsViewController.swift:153-180 | an absent field, wherever it stands, is skipped together with its separator |
| Common.LastFieldIsSuffix | MyLocations/LocationsDetailsViewController.swift:178-180 | a present last field with no separator closes the text: the text is the rest followed by that field's value |
| StringAddText.Add | String+AddText.swift:11-25 | a nil text leaves the string alone; otherwise the old string is the head and the text the tail, with the separator between them exactly when the old string was non-empty; so an empty string becomes the text, a non-empty one string + separator + text, and with the default separator "" the result is plain concatenation |
| LocationRecord.Location.Title | Location+CoreDataClass.swift:25-34 | the title is never empty: "(No Description)" for an empty description, the description verbatim otherwise |
| LocationRecord.Location.Subtitle | Location+CoreDataClass.swift:36-40 | the subtitle is the category |
| LocationRecord.Location.HasPhoto | Location+CoreDataClass.swift:42-45 | a location has a photo exactly when its photo ID is set |
| LocationRecord.Location.PhotoURLName | Location+CoreDataClass.swift:48-57 | the photo's file name, only defined when a photo ID is set, is the ID's `Photo-<id>.jpg` name |
| LocationRecord.DecimalDigits | Location+CoreDataClass.swift:53 | the decimal rendering of a natural number is all digits, and is one character exactly when the number is below ten |
| LocationRecord.IntToDecimal | Location+CoreDataClass.swift:53 | the rendering of an integer is non-empty and starts with '-' exactly when the integer is negative |
| LocationRecord.DecimalDigitsInjective | Location+CoreDataClass.swift:53 | different natural numbers render differently |
| LocationRecord.IntToDecimalInjective | Location+CoreDataClass.swift:53 | different integers render differently |
| LocationRecord.PhotoFileName | Location+CoreDataClass.swift:53 | the file name starts with "Photo-", ends with ".jpg" and has the ID's rendering in between |
| LocationRecord.PhotoFileNameInjective | Location+CoreDataClass.swift:48-57 | distinct photo IDs give distinct file names |
| LocationRecord.Int32Value | Location+CoreDataClass.swift:53 | `intValue`, whose Swift type is `Int32`, lies in the 32-bit range, is congruent to the ID modulo 2^32, and is the ID itself whenever the ID fits |
| LocationRecord.PhotoFileNameAsWritten | Location+CoreDataClass.swift:53 | the name built from `photoID!.intValue` agrees with the intended name for every ID that fits in 32 bits |
| LocationRecord.PhotoFileNameAsWrittenSameIff | Location+CoreDataClass.swift:53 | as written, two photo IDs share a file name exactly when their low 32 bits agree |
| LocationRecord.PhotoFileNameAsWrittenCollides | Location+CoreDataClass.swift:53 | photo IDs 1 and 2^32 + 1 get the same file name as written, though their intended names differ |
| LocationRecord.PhotoIDCounter.constructor | Location+CoreDataClass.swift:69 | the counter starts from the stored value with nothing issued yet |
| LocationRecord.PhotoIDCounter.NextPhotoID | Location+CoreDataClass.swift:66-76 | returns the stored value + 1 and stores it; every issued ID is larger than all earlier ones, so the issued IDs are strictly increasing and pairwise distinct |
| LocationRecord.DocumentsDirectory.RemoveItem | Location+CoreDataClass.swift:84 | removes exactly the named file, and fails, changing nothing, exactly when that file does not exist |
| LocationRecord.RemovePhotoFile | Location+CoreDataClass.swift:79-90 | without a photo no file is touched; with one, exactly the photo's file is removed, and a failed removal changes nothing |
| LocationRecord.RemovePhotoFileSparesOthers | Location+CoreDataClass.swift:79-90 | removing one location's photo keeps the photo file of any location with a different ID |
| LocationCellView.LocationCell.Configure | MyLocations/LocationCell.swift:32-65 | the description line equals the record's title; with a placemark the address is house number + " ", street + ", ", city, for the fields present; the coordinate text is used exactly when there is no placemark |
| LocationCellView.CellAddressSteps | MyLocations/LocationCell.swift:45-55 | the cell's address is the three fields' contributions concatenated in the fixed order |
| LocationCellView.EmptyPlacemarkEmptyCellAddress | MyLocations/LocationCell.swift:45-55 | a placemark without house number, street or city gives an empty address |
| CategoryPicker.CategoriesDistinct | MyLocations/CategoryPickerViewController.swift:16-28 | there are eleven categories and no two are equal |
| CategoryPicker.FirstIndexOf | MyLocations/CategoryPickerViewController.swift:37-42 | the result is the first position holding the name, or absent exactly when no position holds it |
| CategoryPicker.CategoryPickerController.constructor | MyLocations/CategoryPickerViewController.swift:13-31 | a new picker has the empty name and the empty index path |
| CategoryPicker.CategoryPickerController.ViewDidLoad | MyLocations/CategoryPickerViewController.swift:33-43 | the selected index path becomes row i of section 0 for the first i whose category is the selected name, and stays the empty index path when no category matches |
| CategoryPicker.CategoryPickerController.NumberOfRows | MyLocations/CategoryPickerViewController.swift:57-60 | every section has one row per category, eleven |
| CategoryPicker.CategoryPickerController.CellForRow | MyLocations/CategoryPickerViewController.swift:62-76 | a row shows its category, with a checkmark exactly when that category is the selected name |
| CategoryPicker.CategoryPickerController.DidSelectRow | MyLocations/CategoryPickerViewController.swift:78-89 | a tap on the selected row changes nothing and a tap on another row selects it; with the empty index path selected, reading its row traps |
| CategoryPicker.CategoryPickerController.Prepare | MyLocations/CategoryPickerViewController.swift:46-54 | on the "PickedCategory" segue the tapped row's category becomes the selected name; otherwise the name is kept |
| CategoryPicker.AtMostOneCheckmark | MyLocations/CategoryPickerViewController.swift:70-74 | at most one row carries a checkmark |
| CategoryPicker.HandedOverNameSelectsItsRow | MyLocations/CategoryPickerViewController.swift:37-42 | a name that is one of the categories is found, at its own row |
| LocationDetails.AddressString | MyLocations/LocationsDetailsViewController.swift:147-183 | the address is the pieces house number + " ", street + ", ", city + ", ", state + " ", postal code + ", ", country, formatted in that order |
| LocationDetails.DetailAddressSteps | MyLocations/LocationsDetailsViewController.swift:150-182 | the address is the six fields' contributions concatenated in the fixed order |
| LocationDetails.CountryEndsAddress | MyLocations/LocationsDetailsViewController.swift:178-180 | a present country ends the address, with no separator after it |
| LocationDetails.EmptyPlacemarkEmptyAddress | MyLocations/LocationsDetailsViewController.swift:150-182 | a placemark with every field absent gives the empty address |
| LocationDetails.WillSelectRowAt | MyLocations/LocationsDetailsViewController.swift:213-224 | rows of sections 0 and 1 may be selected and are returned unchanged; rows of any other section may not |
| LocationDetails.LocationDetailsController.constructor | MyLocations/LocationsDetailsViewController.swift:42 | the category starts as "No Category" |
| LocationDetails.LocationDetailsController.ViewDidLoad | MyLocations/LocationsDetailsViewController.swift:50-69 | the description is cleared, the category label shows the category, and the address label shows the formatted address or "No Address Found" without a placemark |
| LocationDetails.LocationDetailsController.Prepare | MyLocations/LocationsDetailsViewController.swift:84-97 | before the "PickCategory" segue the picker is handed the current category; otherwise it is not touched |
| LocationDetails.LocationDetailsController.CategoryPickerDidPickCategory | MyLocations/LocationsDetailsViewController.swift:132-143 | after the unwind the category and its label are the picker's selected name |
| LocationDetails.PickCategory | MyLocations/LocationsDetailsViewController.swift:84-143 | a round trip through the picker (hand over, load, tap a row, unwind) never traps; it changes only the details screen's category and its label, which both become the tapped category, so the category stays one of the eleven |
| CurrentLocation.Stopped | MyLocations/CurrentLocationViewController.swift:321-338 | stopping does nothing when not updating; otherwise it clears the updating flag and invalidates the timer, and changes nothing else |
| CurrentLocation.StopIdempotent | MyLocations/CurrentLocationViewController.swift:321-338 | stopping twice is the same as stopping once |
| CurrentLocation.Started | MyLocations/CurrentLocationViewController.swift:294-318 | with location services enabled, starting sets the updating flag and schedules a live 60-second timer; with them disabled nothing changes |
| CurrentLocation.AfterGetLocation | MyLocations/CurrentLocationViewController.swift:73-95 | without authorisation nothing changes; while updating the button stops; otherwise location, placemark and both errors are cleared and a search starts if services are enabled |
| CurrentLocation.AfterFailure | MyLocations/CurrentLocationViewController.swift:108-116 | a `locationUnknown` failure changes nothing; any other failure is recorded and stops the search, keeping location and placemark |
| CurrentLocation.AfterUpdate | MyLocations/CurrentLocationViewController.swift:119-202 | a stale or invalid reading changes nothing; a reading is stored only when none is or it is strictly more accurate, which clears the location error and stops the search at 10 m; geocoding is only requested for an accepted reading; a reading that is no better, within 1 m and over 10 s newer forces a stop, and otherwise changes nothing; the stored accuracy never worsens |
| CurrentLocation.AfterGeocode | MyLocations/CurrentLocationViewController.swift:172-188 | geocoding ends and its error is recorded; the placemark is the last one found when there is no error and the list is non-empty, and absent otherwise; nothing else changes |
| CurrentLocation.AfterTimeout | MyLocations/CurrentLocationViewController.swift:383-402 | the fired timer is no longer live; with a location nothing else changes; without one the search stops and a non-nil error is recorded |
| CurrentLocation.StatusMessage | MyLocations/CurrentLocationViewController.swift:228-291 | the message label is empty exactly when a location has been obtained |
| CurrentLocation.StatusMessagePriority | MyLocations/CurrentLocationViewController.swift:264-283 | without a location: "Location Services Disabled" exactly for a denied error, or for no error with services off; "Error Getting Location" exactly for any other error; "Searching..." exactly for no error, services on and updating; "Tap 'Get My Location' to Start" exactly for no error, services on and idle |
| CurrentLocation.AddressLabel | MyLocations/CurrentLocationViewController.swift:228-261 | the address label is empty exactly when no location has been obtained |
| CurrentLocation.AddressLabelChoice | MyLocations/CurrentLocationViewController.swift:243-256 | with a location, the label holds a line break exactly when it is the placemark's address; otherwise it is "Searching for Address..." exactly while geocoding, else "Error Finding Address" exactly after a geocoding error, else "No Address Found" |
| CurrentLocation.GetButtonTitle | MyLocations/CurrentLocationViewController.swift:341-350 | the button reads "Stop" exactly while updating and "Get My Location" exactly otherwise |
| CurrentLocation.TwoLineAddress | MyLocations/CurrentLocationViewController.swift:353-380 | the address always holds a line break between its two lines, even when every field is absent |
| CurrentLocation.PostalCodeEndsAddress | MyLocations/CurrentLocationViewController.swift:374-379 | a present postal code ends the second line, and so the address, with nothing after it |
| CurrentLocation.EmptyPlacemarkTwoLineAddress | MyLocations/CurrentLocationViewController.swift:353-380 | a placemark with every field absent gives just the line break |
| CurrentLocation.Fresh | MyLocations/CurrentLocationViewController.swift:130-132 | a reading passes the age check exactly when it was taken at most five seconds before now |
| CurrentLocation.Usable | MyLocations/CurrentLocationViewController.swift:130-137 | a reading passes both early returns exactly when it is at most five seconds old and its accuracy is not negative |
| CurrentLocation.Improves | MyLocations/CurrentLocationViewController.swift:149 | a reading replaces the stored one only when it is strictly more accurate, and is refused only when a stored reading is at least as accurate |
| CurrentLocation.Accepted | MyLocations/CurrentLocationViewController.swift:150-192 | an accepted reading is stored and clears the location error; the search stops at the desired accuracy and goes on otherwise; the reading is geocoded exactly when no request is running, or when it is within the desired accuracy at a positive distance from the earlier reading (that case clears the running flag); placemark and geocoding error are kept |
| CurrentLocation.Expired | MyLocations/CurrentLocationViewController.swift:310-316 | a fired one-shot timer is no longer valid and keeps its interval |
| CurrentLocation.TimeoutWithLocationKeepsSearching | MyLocations/CurrentLocationViewController.swift:383-402 | a timeout after a location was found leaves the search running with no live timer, and keeps the location and the error |
| CurrentLocation.ErrorOutranksSearchState | MyLocations/CurrentLocationViewController.swift:264-283 | without a location a recorded error decides the message, whatever the services and search state, and it is "Location Services Disabled" or "Error Getting Location" |
| CurrentLocation.DeniedFailureShowsDisabled | MyLocations/CurrentLocationViewController.swift:266-269 | a denied failure shows "Location Services Disabled" even while services are enabled |
| CurrentLocation.TimeoutShowsErrorGettingLocation | MyLocations/CurrentLocationViewController.swift:383-402 | a timeout without a location shows "Error Getting Location" and a Get button |
| CurrentLocation.StartShowsSearching | MyLocations/CurrentLocationViewController.swift:71-98 | pressing Get while idle shows "Searching..." and a Stop button when services are enabled, and "Location Services Disabled" and a Get button otherwise |
| CurrentLocation.FirstReadingAfterStartAccepted | MyLocations/CurrentLocationViewController.swift:148-152 | after a fresh start the first usable reading is stored |
| CurrentLocation.GeocodeDecidesAddressLabel | MyLocations/CurrentLocationViewController.swift:243-256 | once a location is shown, after the geocoder answers the address label is the last placemark's address, "Error Finding Address" on an error, or "No Address Found" for an empty answer |
| CurrentLocation.StoredReadingIsMostAccurate | MyLocations/CurrentLocationViewController.swift:148-153 | after any run of deliveries the stored reading is one of them or the one held before, is no less accurate than before, and is at least as accurate as every usable reading delivered |
| CurrentLocation.CurrentLocationController.constructor | MyLocations/CurrentLocationViewController.swift:31-34 | a loaded screen holds nothing yet and its labels show that state |
| CurrentLocation.CurrentLocationController.AddressString | MyLocations/CurrentLocationViewController.swift:353-380 | the address is house number + " ", street on the first line and city + " ", state + " ", postal code on the second, for the fields present |
| CurrentLocation.CurrentLocationController.UpdateLabels | MyLocations/CurrentLocationViewController.swift:228-291 | afterwards the message, address, Tag button and Get button all show the current state |
| CurrentLocation.CurrentLocationController.ConfigureGetButton | MyLocations/CurrentLocationViewController.swift:341-350 | the button reads "Stop" while updating and "Get My Location" otherwise |
| CurrentLocation.CurrentLocationController.StartLocationManager | MyLocations/CurrentLocationViewController.swift:294-318 | the fields become `Started` of the old ones |
| CurrentLocation.CurrentLocationController.StopLocationManager | MyLocations/CurrentLocationViewController.swift:321-338 | the fields become `Stopped` of the old ones |
| CurrentLocation.CurrentLocationController.GetLocation | MyLocations/CurrentLocationViewController.swift:71-98 | an undetermined status requests authorisation and a denied or restricted one shows the alert, both changing nothing; otherwise the fields become `AfterGetLocation` of the old ones and the labels are refreshed for the services state passed in; the invariant is kept |
| CurrentLocation.CurrentLocationController.DidFailWithError | MyLocations/CurrentLocationViewController.swift:101-117 | the fields become `AfterFailure` of the old ones; a `locationUnknown` failure changes nothing at all, and any other refreshes the labels for the services state passed in; the invariant is kept |
| CurrentLocation.CurrentLocationController.DidUpdateLocations | MyLocations/CurrentLocationViewController.swift:119-202 | for the last reading delivered, the fields and the geocoding request are `AfterUpdate` of the old fields; an accepted reading or a forced stop refreshes the labels for the services state passed in, and any other reading changes nothing at all; the invariant is kept |
| CurrentLocation.CurrentLocationController.AcceptReading | MyLocations/CurrentLocationViewController.swift:149-192 | the fields and the geocoding request become `Accepted` of the old fields and the labels are refreshed; the invariant is kept |
| CurrentLocation.CurrentLocationController.GeocodeCompleted | MyLocations/CurrentLocationViewController.swift:172-188 | the fields become `AfterGeocode` of the old ones and the labels are refreshed for the services state passed in; the invariant is kept |
| CurrentLocation.CurrentLocationController.DidTimeOut | MyLocations/CurrentLocationViewController.swift:383-402 | the timer has expired and the fields become `AfterTimeout` of the old ones; without a location the labels are refreshed for the services state passed in, and with one they stay as they were; the invariant is kept |
| CurrentLocation.TapGetOnNewScreen | MyLocations/CurrentLocationViewController.swift:71-98 | on a freshly loaded, authorised screen with services enabled, pressing Get starts the search, shows "Searching..." and a Stop button, and keeps the Tag button and the address hidden |
| AddressFormats.TruncatedFormatIsPrefix | MyLocations/LocationCell.swift:45-55 | stopping a format after a field whose separator begins the longer format's separator gives a prefix of the longer format |
| AddressFormats.CellAddressStartsDetailsAddress | MyLocations/LocationCell.swift:45-55 | the list cell's address is a prefix of the details screen's address for every placemark |
| AddressFormats.StreetLineStartsCellAddress | MyLocations/CurrentLocationViewController.swift:354-362 | the Tag screen's first address line is a prefix of the list cell's address |
| AddressFormats.StreetLineStartsDetailsAddress | MyLocations/CurrentLocationViewController.swift:354-362 | the Tag screen's first address line is a prefix of the details screen's address |

## Left out

- Doubles are exact reals here. Rounding, NaN and infinities are not modelled. `Double.greatestFiniteMagnitude` is its exact value.
- Latitude/longitude text (`"%.8f"`, `"Lat: %.8f, Long: %.8f"`) and date formatting depend on the locale and on float formatting. `LocationCell.Configure` takes the coordinate text as a parameter and the other labels are not modelled.
- CoreLocation's distance between two readings (spherical geometry) and the clock are inputs. `DidUpdateLocations` takes the current time and the distance from the last reading to the stored one.
- `locationManager.desiredAccuracy` is the constant 10 m (`kCLLocationAccuracyNearestTenMeters`). `startLocationManager` sets it before any reading can arrive.
- Starting and stopping the location manager, and setting and clearing its delegate, appear only through the `updatingLocation` flag. Callbacks that the platform stops delivering once the delegate is cleared or the timer is invalidated are still accepted by the model, which handles them as the source's code would.
- `requestWhenInUseAuthorization` and the "Location Services Disabled" alert are the effect that `GetLocation` returns. The alert's text and buttons are UI.
- The reverse geocoder is the request that `DidUpdateLocations` returns plus the separate event `GeocodeCompleted`. Requests still in flight and the order in which they complete are not modelled.
- `CLLocationManager.locationServicesEnabled()` is a parameter of each event, since it can change between events. `Valid()` records the value used by the last label update.
- The latitude and longitude labels of the Tag screen, the navigation bar, the Tag segue's hand-over of coordinate and placemark, the HUD, the map, the image picker, image resizing and all of Core Data (fetching, saving, sections, change notifications) are framework behaviour and not modelled.
- The invariant that a stored photo ID always names an existing file depends on code that stores photos. No code in this version of the app assigns a photo ID or calls `nextPhotoID`. Only the file name and the removal are modelled.
- LocationRecord.Location.PhotoURLName: uses the corrected full-width name `PhotoFileName`, not the 32-bit name built at Location+CoreDataClass.swift:53. The two agree for every ID in the 32-bit range (`PhotoFileNameAsWritten`) and differ from 2^31 upwards.
- LocationRecord.RemovePhotoFile: removes the corrected full-width name. As written it removes the 32-bit name, which is the same file for every ID in the 32-bit range.
- LocationRecord.RemovePhotoFileSparesOthers: holds for the corrected name. As written, it holds only when the two IDs differ in their low 32 bits (`PhotoFileNameAsWrittenSameIff`).
- LocationRecord.PhotoIDCounter.NextPhotoID: does not model the trap when the stored value is `Int.max`. The counter is an unbounded integer, so the model promises an ID that the source would only produce below that bound.
- CategoryPicker.CategoryPickerController.DidSelectRow: the checkmarks it sets on the visible cells are not modelled. They are redrawn by `CellForRow`, which states the rule.
- `CategoryPicker.CategoryPickerController.Prepare` takes the table's answer for the tapped cell as an optional index path. The forced cast of the sender is not modelled.
- The `if let tmp = field { text += tmp + suffix }` step, repeated in every address formatter, is written once as `Common.AppendIfPresent`.

## Findings

| source | as written | input that shows it | evidently intended | confidence | as-written member | corrected member |
|---|---|---|---|---|---|---|
| Location+CoreDataClass.swift:53 | the photo file name is built from `photoID!.intValue`. In Swift, `NSNumber.intValue` has type `Int32` (the full-width accessor is `integerValue`), so it keeps only the low 32 bits of the stored number, while `nextPhotoID` hands out full-width `Int`s | photo IDs 1 and 4294967297 (2^32 + 1) both name `Photo-1.jpg`. This version never assigns a photo ID, so the clash appears once a caller stores `nextPhotoID()` values of 2^31 or more: the two locations would then share one photo file, and removing either would delete it | the file name renders the whole photo ID, so distinct IDs name distinct files | not executed | LocationRecord.PhotoFileNameAsWritten (LocationRecord.PhotoFileNameAsWrittenCollides) | LocationRecord.PhotoFileName (LocationRecord.PhotoFileNameInjective) |
