/** The category picker: a fixed table of category names, one of them checked. */
module CategoryPicker {
  import opened Common

  /** The eleven categories, in table order. */
  const Categories: seq<string> := [
    "No Category",
    "Apple Store",
    "Bar",
    "Bookstore",
    "Club",
    "Grocery Store",
    "Historic Building",
    "House",
    "Icecream Vendor",
    "Landmark",
    "Park"
  ]

  /** No category name appears twice. */
  lemma CategoriesDistinct()
    ensures |Categories| == 11
    ensures forall i, j :: 0 <= i < j < |Categories| ==> Categories[i] != Categories[j]
  {
  }

  /** The first position of `name` in `names`, if it occurs at all. */
  function FirstIndexOf(names: seq<string>, name: string): (r: Option<nat>)
    ensures r.Some? ==> r.value < |names| && names[r.value] == name
    ensures r.Some? ==> forall j :: 0 <= j < r.value ==> names[j] != name
    ensures r.None? ==> forall j :: 0 <= j < |names| ==> names[j] != name
  {
    if names == [] then None
    else if names[0] == name then Some(0)
    else match FirstIndexOf(names[1..], name)
      case None => None
      case Some(k) => Some(k + 1)
  }

  datatype Accessory = NoAccessory | Checkmark

  /** What `cellForRowAt` puts in a row: the name and its accessory. */
  datatype Cell = Cell(text: string, accessory: Accessory)

  class CategoryPickerController {
    const categories: seq<string> := Categories
    var selectedCategoryName: string
    var selectedIndexPath: IndexPath

    constructor ()
      ensures selectedCategoryName == [] && selectedIndexPath == EmptyPath
    {
      selectedCategoryName := [];
      selectedIndexPath := EmptyPath;
    }

    /** `viewDidLoad`: selects the first row that carries the selected name, and keeps
        the empty index path when no row does. */
    method ViewDidLoad()
      modifies this`selectedIndexPath
      ensures FirstIndexOf(categories, selectedCategoryName).Some? ==>
        selectedIndexPath == Path(0, FirstIndexOf(categories, selectedCategoryName).value)
      ensures FirstIndexOf(categories, selectedCategoryName).None? ==>
        selectedIndexPath == old(selectedIndexPath)
    {
      for i := 0 to |categories|
        invariant forall j :: 0 <= j < i ==> categories[j] != selectedCategoryName
        invariant selectedIndexPath == old(selectedIndexPath)
      {
        if categories[i] == selectedCategoryName {
          selectedIndexPath := Path(0, i);
          return;
        }
      }
    }

    /** `numberOfRowsInSection`: one row per category. */
    function NumberOfRows(section: nat): (n: nat)
      ensures n == |Categories| == 11
    {
      |categories|
    }

    /** `cellForRowAt`: a row shows its category and is checked exactly when that
        category is the selected name. */
    function CellForRow(row: nat): (c: Cell)
      reads this
      requires row < |categories|
      ensures c.text == categories[row]
      ensures c.accessory == Checkmark <==> categories[row] == selectedCategoryName
    {
      var categoryName := categories[row];
      Cell(categoryName, if categoryName == selectedCategoryName then Checkmark else NoAccessory)
    }

    /** `didSelectRowAt`: a tap on another row makes it the selected index path; a tap
        on the selected row changes nothing. Reading `.row` of the empty index path
        traps, reported as `trapped` with nothing changed. */
    method DidSelectRow(indexPath: IndexPath) returns (trapped: bool)
      requires indexPath.Path?
      modifies this`selectedIndexPath
      ensures trapped <==> old(selectedIndexPath).EmptyPath?
      ensures trapped ==> selectedIndexPath == old(selectedIndexPath)
      ensures !trapped && indexPath.row == old(selectedIndexPath).row ==> selectedIndexPath == old(selectedIndexPath)
      ensures !trapped && indexPath.row != old(selectedIndexPath).row ==> selectedIndexPath == indexPath
    {
      if selectedIndexPath.EmptyPath? {
        return true;
      }
      if indexPath.row != selectedIndexPath.row {
        selectedIndexPath := indexPath;
      }
      return false;
    }

    /** `prepare(for:sender:)`: on the "PickedCategory" segue the tapped cell's
        category becomes the selected name. `tappedIndexPath` is the table's answer
        for the tapped cell, absent when the cell is not on screen. */
    method Prepare(segueIdentifier: string, tappedIndexPath: Option<IndexPath>)
      requires tappedIndexPath.Some? ==> tappedIndexPath.value.Path? && tappedIndexPath.value.row < |Categories|
      modifies this`selectedCategoryName
      ensures segueIdentifier == "PickedCategory" && tappedIndexPath.Some? ==>
        selectedCategoryName == categories[tappedIndexPath.value.row]
      ensures segueIdentifier != "PickedCategory" || tappedIndexPath.None? ==>
        selectedCategoryName == old(selectedCategoryName)
    {
      if segueIdentifier == "PickedCategory" {
        if tappedIndexPath.Some? {
          selectedCategoryName := categories[tappedIndexPath.value.row];
        }
      }
    }
  }

  /** At most one row carries a checkmark. */
  lemma AtMostOneCheckmark(picker: CategoryPickerController, i: nat, j: nat)
    requires i < |Categories| && j < |Categories|
    requires picker.CellForRow(i).accessory == Checkmark
    requires picker.CellForRow(j).accessory == Checkmark
    ensures i == j
  {
    CategoriesDistinct();
  }

  /** A name handed over from the details screen is always one of the categories, so
      loading the picker selects a row and a later tap cannot trap. */
  lemma HandedOverNameSelectsItsRow(name: string)
    requires name in Categories
    ensures FirstIndexOf(Categories, name).Some?
    ensures Categories[FirstIndexOf(Categories, name).value] == name
  {
  }
}
