/**
 * A cell as the spreadsheet reader hands it over (`sheet_to_json` with `header: 1`):
 * a hole (`undefined`), `null`, a string, or a number. A number is carried by its
 * `String()` rendering, which is all the scrapers ever look at.
 */
module Cells {
  datatype Cell = Absent | Null | Str(s: string) | Num(repr: string)

  /** JavaScript truthiness: `null`, `undefined`, `''`, `0` and `NaN` are falsy. */
  predicate Truthy(c: Cell) {
    match c
    case Absent => false
    case Null => false
    case Str(s) => s != ""
    case Num(r) => r != "0" && r != "NaN"
  }

  /** `String(cell)`. */
  function ToJsString(c: Cell): string {
    match c
    case Absent => "undefined"
    case Null => "null"
    case Str(s) => s
    case Num(r) => r
  }

  /** `row[i]`, which is `undefined` outside the row. */
  function At(row: seq<Cell>, i: int): (c: Cell)
    ensures !(0 <= i < |row|) ==> c == Absent
  {
    if 0 <= i < |row| then row[i] else Absent
  }
}
