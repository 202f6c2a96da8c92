/** The list screen's table cell: a description line and a short address line. */
module LocationCellView {
  import opened Common
  import opened LocationRecord

  /** The steps of the cell's address: house number, street, city. */
  function CellPieces(p: Placemark): (r: seq<Piece>)
    ensures |r| == 3
  {
    [Piece(p.subThoroughfare, " "), Piece(p.thoroughfare, ", "), Piece(p.locality, "")]
  }

  class LocationCell {
    var descriptionText: string
    var addressText: string

    constructor ()
      ensures descriptionText == [] && addressText == []
    {
      descriptionText := [];
      addressText := [];
    }

    /** `configure(for:)`. `coordinateText` is the `"Lat: %.8f, Long: %.8f"` rendering
        of the location's coordinates, which this model does not format. */
    method Configure(location: Location, coordinateText: string)
      modifies this
      // the description line agrees with the map annotation's title
      ensures descriptionText == location.Title()
      ensures location.placemark.Some? ==> addressText == Compose(CellPieces(location.placemark.value))
      ensures location.placemark.None? ==> addressText == coordinateText
    {
      if location.locationDescription == [] {
        descriptionText := "(No Description)";
      } else {
        descriptionText := location.locationDescription;
      }

      if location.placemark.Some? {
        var placemark := location.placemark.value;
        var text := "";
        text := AppendIfPresent(text, placemark.subThoroughfare, " ");
        text := AppendIfPresent(text, placemark.thoroughfare, ", ");
        text := AppendIfPresent(text, placemark.locality, "");
        CellAddressSteps(placemark);
        addressText := text;
      } else {
        addressText := coordinateText;
      }
    }
  }

  /** The cell's address as the three steps of `configure(for:)` build it. */
  lemma CellAddressSteps(p: Placemark)
    ensures Compose(CellPieces(p)) ==
      "" + Contribution(Piece(p.subThoroughfare, " ")) + Contribution(Piece(p.thoroughfare, ", "))
      + Contribution(Piece(p.locality, ""))
  {
    var c := CellPieces(p);
    ComposeThree(c[0], c[1], c[2]);
    assert "" + Contribution(c[0]) == Contribution(c[0]);
  }

  /** A placemark without house number, street or city gives an empty address line. */
  lemma EmptyPlacemarkEmptyCellAddress(p: Placemark)
    requires p.subThoroughfare.None? && p.thoroughfare.None? && p.locality.None?
    ensures Compose(CellPieces(p)) == ""
  {
    ComposeAllAbsent(CellPieces(p));
  }
}
