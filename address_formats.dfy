/** How the app's three address formats relate. All three append the same placemark
    fields in the same order and differ only in the separators and in where they
    stop: the Tag screen's first line (house number, street), the list cell's line
    (house number, street, city) and the details screen's line (down to the country). */
module AddressFormats {
  import opened Common
  import LocationCellView
  import LocationDetails
  import CurrentLocation

  /** Cutting a formatted address after a field whose separator is a prefix of the
      longer format's separator gives a prefix of the longer format. */
  lemma {:induction false} TruncatedFormatIsPrefix(a: seq<Piece>, field: Option<string>, short: string,
                                                    long: string, rest: seq<Piece>)
    requires short <= long
    ensures Compose(a + [Piece(field, short)]) <= Compose(a + [Piece(field, long)] + rest)
  {
    ComposeSnoc(a, Piece(field, short));
    ComposeAppend(a + [Piece(field, long)], rest);
    ComposeSnoc(a, Piece(field, long));
    if field.Some? {
      assert Contribution(Piece(field, short)) <= Contribution(Piece(field, long));
    }
  }

  /** The list cell's address is the beginning of the details screen's address. */
  lemma CellAddressStartsDetailsAddress(p: Placemark)
    ensures Compose(LocationCellView.CellPieces(p)) <= Compose(LocationDetails.DetailPieces(p))
  {
    var head := [Piece(p.subThoroughfare, " "), Piece(p.thoroughfare, ", ")];
    assert LocationCellView.CellPieces(p) == head + [Piece(p.locality, "")];
    var rest := LocationDetails.DetailPieces(p)[3..];
    assert LocationDetails.DetailPieces(p) == head + [Piece(p.locality, ", ")] + rest;
    TruncatedFormatIsPrefix(head, p.locality, "", ", ", rest);
  }

  /** The Tag screen's first address line is the beginning of the list cell's
      address. */
  lemma StreetLineStartsCellAddress(p: Placemark)
    ensures Compose(CurrentLocation.Line1Pieces(p)) <= Compose(LocationCellView.CellPieces(p))
  {
    var head := [Piece(p.subThoroughfare, " ")];
    assert CurrentLocation.Line1Pieces(p) == head + [Piece(p.thoroughfare, "")];
    var rest := [Piece(p.locality, "")];
    assert LocationCellView.CellPieces(p) == head + [Piece(p.thoroughfare, ", ")] + rest;
    TruncatedFormatIsPrefix(head, p.thoroughfare, "", ", ", rest);
  }

  /** So the Tag screen's first line also begins the details screen's address. */
  lemma StreetLineStartsDetailsAddress(p: Placemark)
    ensures Compose(CurrentLocation.Line1Pieces(p)) <= Compose(LocationDetails.DetailPieces(p))
  {
    StreetLineStartsCellAddress(p);
    CellAddressStartsDetailsAddress(p);
  }
}
