/** `String.add(text:separatedBy:)`: a mutating extension that appends an optional
    text to a string, putting the separator in between only when the string already
    holds something. The string is a value type, so the in-place update is an
    in-out parameter: the method takes the old value and returns the new one. */
module StringAddText {
  import opened Common

  method Add(s: string, text: Option<string>, separator: string := "") returns (r: string)
    // nothing to add: the string is left alone
    ensures text.None? ==> r == s
    // the old string is kept as the head and the added text is the tail
    ensures text.Some? ==> s <= r && |r| >= |s| + |text.value| && r[|r| - |text.value|..] == text.value
    // what lies in between is the separator exactly when the old string was non-empty
    ensures text.Some? ==> r[|s|..|r| - |text.value|] == (if s == [] then [] else separator)
    // the cases callers rely on, which follow from the three clauses above
    ensures text.Some? && s == [] ==> r == text.value
    ensures text.Some? && s != [] ==> r == s + separator + text.value
    ensures text.Some? && separator == [] ==> r == s + text.value
  {
    r := s;
    if text.Some? {
      if r != [] {
        r := r + separator;
      }
      r := r + text.value;
    }
  }
}
