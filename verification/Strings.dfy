/** C strings in fixed arrays. */
module Strings {

  /** What C reads as a string: the cells in front of the first terminator. */
  function CString<T(==)>(cells: seq<T>, terminator: T): seq<T>
  {
    if cells == [] || cells[0] == terminator then [] else [cells[0]] + CString(cells[1..], terminator)
  }

  lemma {:induction false} CStringIs<T>(cells: seq<T>, terminator: T, text: seq<T>)
    requires |text| < |cells| && cells[..|text|] == text && terminator !in text && cells[|text|] == terminator
    ensures CString(cells, terminator) == text
  {
    if text != [] {
      assert cells[0] == text[0] && terminator !in text[1..];
      assert cells[1..][..|text| - 1] == text[1..];
      CStringIs(cells[1..], terminator, text[1..]);
    }
  }
}
