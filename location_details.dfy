/** The tag/edit screen: a one-line address, the category hand-off with the picker,
    and which table rows may be selected. */
module LocationDetails {
  import opened Common
  import opened CategoryPicker

  const NoCategory: string := "No Category"
  const NoAddressFound: string := "No Address Found"
  const PickCategorySegue: string := "PickCategory"

  /** The steps of the one-line address, ending with the country. */
  function DetailPieces(p: Placemark): (r: seq<Piece>)
    ensures |r| == 6
  {
    [ Piece(p.subThoroughfare, " "), Piece(p.thoroughfare, ", "), Piece(p.locality, ", "),
      Piece(p.administrativeArea, " "), Piece(p.postalCode, ", "), Piece(p.country, "") ]
  }

  /** `string(from:)`: the address built field by field. */
  method AddressString(placemark: Placemark) returns (text: string)
    ensures text == Compose(DetailPieces(placemark))
  {
    text := "";
    text := AppendIfPresent(text, placemark.subThoroughfare, " ");
    text := AppendIfPresent(text, placemark.thoroughfare, ", ");
    text := AppendIfPresent(text, placemark.locality, ", ");
    text := AppendIfPresent(text, placemark.administrativeArea, " ");
    text := AppendIfPresent(text, placemark.postalCode, ", ");
    text := AppendIfPresent(text, placemark.country, "");
    DetailAddressSteps(placemark);
  }

  /** The one-line address as the six steps of `string(from:)` build it. */
  lemma DetailAddressSteps(p: Placemark)
    ensures Compose(DetailPieces(p)) ==
      "" + Contribution(Piece(p.subThoroughfare, " ")) + Contribution(Piece(p.thoroughfare, ", "))
      + Contribution(Piece(p.locality, ", ")) + Contribution(Piece(p.administrativeArea, " "))
      + Contribution(Piece(p.postalCode, ", ")) + Contribution(Piece(p.country, ""))
  {
    var c := DetailPieces(p);
    var c0, c1, c2 := Contribution(c[0]), Contribution(c[1]), Contribution(c[2]);
    var c3, c4, c5 := Contribution(c[3]), Contribution(c[4]), Contribution(c[5]);
    ComposeThree(c[0], c[1], c[2]);
    ComposeThree(c[3], c[4], c[5]);
    assert c == [c[0], c[1], c[2]] + [c[3], c[4], c[5]];
    ComposeAppend([c[0], c[1], c[2]], [c[3], c[4], c[5]]);
    var x := c0 + c1 + c2;
    assert "" + c0 == c0;
    assert x + (c3 + c4 + c5) == (x + (c3 + c4)) + c5;
    assert x + (c3 + c4) == x + c3 + c4;
  }

  /** The country, when present, closes the address with no separator after it. */
  lemma CountryEndsAddress(p: Placemark)
    requires p.country.Some?
    ensures Compose(DetailPieces(p)) == Compose(DetailPieces(p)[..5]) + p.country.value
  {
    var pieces := DetailPieces(p);
    assert pieces == pieces[..5] + [Piece(Some(p.country.value), "")];
    LastFieldIsSuffix(pieces[..5], p.country.value);
  }

  /** A placemark with every field absent gives the empty address. */
  lemma EmptyPlacemarkEmptyAddress(p: Placemark)
    requires p == Placemark(None, None, None, None, None, None)
    ensures Compose(DetailPieces(p)) == ""
  {
    ComposeAllAbsent(DetailPieces(p));
  }

  /** `tableView(_:willSelectRowAt:)`: rows of the first two sections may be
      selected, as they are; rows of any other section may not. */
  function WillSelectRowAt(indexPath: IndexPath): (r: Option<IndexPath>)
    requires indexPath.Path?
    ensures r.Some? ==> r.value == indexPath
    ensures r.Some? <==> indexPath.section < 2
  {
    if indexPath.section == 0 || indexPath.section == 1 then Some(indexPath) else None
  }

  class LocationDetailsController {
    var placemark: Option<Placemark>
    var categoryName: string
    var descriptionText: string
    var categoryText: string
    var addressText: string

    constructor (placemark: Option<Placemark>)
      ensures this.placemark == placemark && categoryName == NoCategory
    {
      this.placemark := placemark;
      categoryName := NoCategory;
      descriptionText, categoryText, addressText := "", "", "";
    }

    /** The label set-up of `viewDidLoad`: an empty description, the category, and the
        address or "No Address Found". */
    method ViewDidLoad()
      modifies this`descriptionText, this`categoryText, this`addressText
      ensures descriptionText == "" && categoryText == categoryName
      ensures placemark.Some? ==> addressText == Compose(DetailPieces(placemark.value))
      ensures placemark.None? ==> addressText == NoAddressFound
    {
      descriptionText := "";
      categoryText := categoryName;
      if placemark.Some? {
        addressText := AddressString(placemark.value);
      } else {
        addressText := NoAddressFound;
      }
    }

    /** `prepare(for:sender:)`: before the "PickCategory" segue the current category is
        handed to the picker. */
    method Prepare(segueIdentifier: string, picker: CategoryPickerController)
      modifies picker`selectedCategoryName
      ensures segueIdentifier == PickCategorySegue ==> picker.selectedCategoryName == categoryName
      ensures segueIdentifier != PickCategorySegue ==> picker.selectedCategoryName == old(picker.selectedCategoryName)
    {
      if segueIdentifier == PickCategorySegue {
        picker.selectedCategoryName := categoryName;
      }
    }

    /** `categoryPickerDidPickCategory`: the unwind from the picker takes its selected
        name. */
    method CategoryPickerDidPickCategory(picker: CategoryPickerController)
      modifies this`categoryName, this`categoryText
      ensures categoryName == picker.selectedCategoryName && categoryText == categoryName
    {
      categoryName := picker.selectedCategoryName;
      categoryText := categoryName;
    }
  }

  /** One round trip through the picker: hand the category over, load the picker, tap
      row `row` and unwind. The picker never traps, and the details screen ends with
      the tapped category, so its category stays one of the eleven. */
  method PickCategory(details: LocationDetailsController, row: nat)
    requires details.categoryName in Categories
    requires row < |Categories|
    modifies details`categoryName, details`categoryText
    ensures details.categoryName == Categories[row] && details.categoryText == details.categoryName
    ensures details.categoryName in Categories
  {
    var picker := new CategoryPickerController();
    details.Prepare(PickCategorySegue, picker);
    picker.ViewDidLoad();
    HandedOverNameSelectsItsRow(picker.selectedCategoryName);
    var trapped := picker.DidSelectRow(Path(0, row));
    assert !trapped;
    picker.Prepare("PickedCategory", Some(Path(0, row)));
    details.CategoryPickerDidPickCategory(picker);
  }
}
