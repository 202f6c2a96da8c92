/** The one stored entity, a tagged location, with the helpers of its managed-object
    class: the map-annotation title and subtitle, the photo flag, the photo file name,
    the persistent photo-ID counter and the removal of a location's photo file.
    The user-defaults store is a counter object and the documents directory is a set
    of file names. */
module LocationRecord {
  import opened Common

  /** A stored location. Latitude, longitude and date are Core Data doubles and a
      `Date`; they take part in no decision of this model. */
  datatype Location = Location(
    latitude: real,
    longitude: real,
    date: real,
    locationDescription: string,
    category: string,
    placemark: Option<Placemark>,
    photoID: Option<int>)
  {
    /** The annotation title: never empty, the description whenever there is one. */
    function Title(): (r: string)
      ensures r != []
      ensures locationDescription != [] ==> r == locationDescription
      ensures locationDescription == [] ==> r == NoDescription
    {
      if locationDescription == [] then NoDescription else locationDescription
    }

    /** The annotation subtitle is the category. */
    function Subtitle(): (r: string)
      ensures r == category
    {
      category
    }

    /** A location has a photo exactly when it stores a photo ID. */
    function HasPhoto(): (r: bool)
      ensures r <==> photoID.Some?
    {
      photoID != None
    }

    /** The file name of `photoURL` inside the documents directory. The source
        asserts that a photo ID is set. */
    function PhotoURLName(): (r: string)
      requires HasPhoto()
      ensures r == PhotoFileName(photoID.value)
    {
      PhotoFileName(photoID.value)
    }
  }

  const NoDescription: string := "(No Description)"
  const PhotoFilePrefix: string := "Photo-"
  const PhotoFileExtension: string := ".jpg"

  // ---------------------------------------------------------------------------
  // Decimal rendering of integers, as Swift's string interpolation writes them

  function Digit(d: nat): (c: char)
    requires d < 10
    ensures '0' <= c <= '9'
    ensures c as int - '0' as int == d
  {
    (d + '0' as int) as char
  }

  /** The decimal digits of `n`, most significant first, without leading zeros. */
  function DecimalDigits(n: nat): (r: string)
    ensures |r| >= 1
    ensures |r| == 1 <==> n < 10
    ensures forall i :: 0 <= i < |r| ==> '0' <= r[i] <= '9'
  {
    if n < 10 then [Digit(n)] else DecimalDigits(n / 10) + [Digit(n % 10)]
  }

  /** `"\(i)"` for a Swift integer: a minus sign before the digits of a negative value. */
  function IntToDecimal(i: int): (r: string)
    ensures r != []
    ensures r[0] == '-' <==> i < 0
  {
    if i < 0 then "-" + DecimalDigits(-i) else DecimalDigits(i)
  }

  /** Different numbers have different digit strings. */
  lemma {:induction false} DecimalDigitsInjective(a: nat, b: nat)
    requires DecimalDigits(a) == DecimalDigits(b)
    ensures a == b
  {
    var da := DecimalDigits(a);
    if a < 10 || b < 10 {
      assert |da| == 1;
      assert da[0] == Digit(a) && da[0] == Digit(b);
    } else {
      assert da[..|da| - 1] == DecimalDigits(a / 10);
      assert da[..|da| - 1] == DecimalDigits(b / 10);
      DecimalDigitsInjective(a / 10, b / 10);
      assert Digit(a % 10) == da[|da| - 1] == Digit(b % 10);
    }
  }

  lemma IntToDecimalInjective(a: int, b: int)
    requires IntToDecimal(a) == IntToDecimal(b)
    ensures a == b
  {
    var r := IntToDecimal(a);
    if a < 0 {
      assert r[1..] == DecimalDigits(-a) && r[1..] == DecimalDigits(-b);
      DecimalDigitsInjective(-a, -b);
    } else {
      DecimalDigitsInjective(a, b);
    }
  }

  // ---------------------------------------------------------------------------
  // Photo file names

  /** `Photo-<id>.jpg`, the name `photoURL` gives a photo in the documents
      directory, for the full value of the ID. */
  function PhotoFileName(id: int): (r: string)
    ensures PhotoFilePrefix <= r
    ensures |r| > |PhotoFilePrefix| + |PhotoFileExtension|
    ensures r[|r| - |PhotoFileExtension|..] == PhotoFileExtension
  {
    PhotoFilePrefix + IntToDecimal(id) + PhotoFileExtension
  }

  /** Distinct photo IDs name distinct files. */
  lemma PhotoFileNameInjective(a: int, b: int)
    requires a != b
    ensures PhotoFileName(a) != PhotoFileName(b)
  {
    if PhotoFileName(a) == PhotoFileName(b) {
      var n := PhotoFileName(a);
      var lo, hi := |PhotoFilePrefix|, |n| - |PhotoFileExtension|;
      assert n[lo..hi] == IntToDecimal(a);
      assert PhotoFileName(b)[lo..hi] == IntToDecimal(b);
      IntToDecimalInjective(a, b);
      assert false;
    }
  }

  /** `NSNumber.intValue`: the stored number read back as a 32-bit integer, which
      keeps only its low 32 bits (two's complement). */
  function Int32Value(id: int): (r: int)
    ensures -0x8000_0000 <= r < 0x8000_0000
    ensures (r - id) % 0x1_0000_0000 == 0
    ensures -0x8000_0000 <= id < 0x8000_0000 ==> r == id
  {
    (id + 0x8000_0000) % 0x1_0000_0000 - 0x8000_0000
  }

  /** The file name exactly as `photoURL` builds it: from `photoID!.intValue`. */
  function PhotoFileNameAsWritten(id: int): (r: string)
    ensures -0x8000_0000 <= id < 0x8000_0000 ==> r == PhotoFileName(id)
  {
    PhotoFileName(Int32Value(id))
  }

  /** As written, two photo IDs share a file name exactly when their low 32 bits
      agree. */
  lemma PhotoFileNameAsWrittenSameIff(a: int, b: int)
    ensures PhotoFileNameAsWritten(a) == PhotoFileNameAsWritten(b) <==> Int32Value(a) == Int32Value(b)
  {
    if Int32Value(a) != Int32Value(b) {
      PhotoFileNameInjective(Int32Value(a), Int32Value(b));
    }
  }

  /** Two different photo IDs that the as-written file name maps to one file. */
  lemma PhotoFileNameAsWrittenCollides()
    ensures PhotoFileNameAsWritten(1) == PhotoFileNameAsWritten(0x1_0000_0001)
    ensures PhotoFileName(1) != PhotoFileName(0x1_0000_0001)
  {
    assert Int32Value(0x1_0000_0001) == 1;
    PhotoFileNameInjective(1, 0x1_0000_0001);
  }

  // ---------------------------------------------------------------------------
  // The photo-ID counter kept in the user defaults under "PhotoID"

  ghost predicate StrictlyIncreasing(s: seq<int>)
  {
    forall i, j :: 0 <= i < j < |s| ==> s[i] < s[j]
  }

  class PhotoIDCounter {
    /** The integer stored under the key; `integer(forKey:)` reads 0 when unset. */
    var storedPhotoID: int
    /** Every ID handed out by this counter so far, oldest first. */
    ghost var Issued: seq<int>

    ghost predicate Valid()
      reads this
    {
      && StrictlyIncreasing(Issued)
      && forall i :: 0 <= i < |Issued| ==> Issued[i] <= storedPhotoID
    }

    constructor (stored: int)
      ensures Valid()
      ensures storedPhotoID == stored && Issued == []
    {
      storedPhotoID := stored;
      Issued := [];
    }

    /** `nextPhotoID`: one more than the stored value, which is then stored. */
    method NextPhotoID() returns (id: int)
      requires Valid()
      modifies this
      ensures Valid()
      ensures id == old(storedPhotoID) + 1 && storedPhotoID == id
      ensures Issued == old(Issued) + [id]
      ensures forall i :: 0 <= i < |old(Issued)| ==> old(Issued)[i] < id
    {
      var currentID := storedPhotoID + 1;
      storedPhotoID := currentID;
      Issued := Issued + [currentID];
      id := currentID;
    }
  }

  // ---------------------------------------------------------------------------
  // The documents directory and `removePhotoFile`

  class DocumentsDirectory {
    var files: set<string>

    constructor (files: set<string>)
      ensures this.files == files
    {
      this.files := files;
    }

    /** `FileManager.removeItem(at:)`: fails, changing nothing, when there is no
        such file. */
    method RemoveItem(name: string) returns (failed: bool)
      modifies this
      ensures failed <==> name !in old(files)
      ensures files == old(files) - {name}
    {
      failed := name !in files;
      if !failed {
        files := files - {name};
      }
    }
  }

  /** `removePhotoFile`: deletes the location's photo file if it has one; a failed
      removal is only logged. */
  method RemovePhotoFile(location: Location, documents: DocumentsDirectory)
    modifies documents
    ensures !location.HasPhoto() ==> documents.files == old(documents.files)
    ensures location.HasPhoto() ==> documents.files == old(documents.files) - {location.PhotoURLName()}
  {
    if location.HasPhoto() {
      var failed := documents.RemoveItem(location.PhotoURLName());
      // the error is printed and otherwise ignored
    }
  }

  /** Removing one location's photo leaves the photo of any location with another
      ID where it was. */
  lemma RemovePhotoFileSparesOthers(removed: Location, kept: Location, files: set<string>)
    requires removed.HasPhoto() && kept.HasPhoto()
    requires removed.photoID != kept.photoID
    ensures kept.PhotoURLName() in files - {removed.PhotoURLName()} <==> kept.PhotoURLName() in files
  {
    PhotoFileNameInjective(removed.photoID.value, kept.photoID.value);
  }
}
