/** List operations the client-side row editors share: JavaScript's
    `splice(index, 1)` on a copy of the row list. */
module Rows {

  /** Where `splice(index, …)` starts on a list of `len` elements: a negative
      index counts back from the end, and both ends clamp. */
  function SpliceStart(len: nat, index: int): (k: nat)
    ensures k <= len
    ensures 0 <= index <= len ==> k == index
    ensures index < 0 && len + index >= 0 ==> k == len + index
  {
    if index < 0 then (if len + index < 0 then 0 else len + index)
    else if index > len then len
    else index
  }

  /** `splice(index, 1)`: the row at the start position is gone, the rows
      before it keep their positions, the rows after it move up by one; a start
      past the end removes nothing. */
  function RemoveAt<T>(rows: seq<T>, index: int): (r: seq<T>)
    ensures SpliceStart(|rows|, index) < |rows| ==>
              && |r| == |rows| - 1
              && (forall j :: 0 <= j < SpliceStart(|rows|, index) ==> r[j] == rows[j])
              && (forall j :: SpliceStart(|rows|, index) <= j < |r| ==> r[j] == rows[j + 1])
    ensures SpliceStart(|rows|, index) == |rows| ==> r == rows
  {
    var k := SpliceStart(|rows|, index);
    if k < |rows| then rows[..k] + rows[k + 1..] else rows
  }

  /** A list is the rows before the removed one, that row, and the rows
      after it; removing it leaves the two outer parts joined. */
  lemma RemoveAtSplit<T>(rows: seq<T>, index: int)
    requires 0 <= index < |rows|
    ensures rows == rows[..index] + [rows[index]] + rows[index + 1..]
    ensures RemoveAt(rows, index) == rows[..index] + rows[index + 1..]
  {
    assert rows == rows[..index] + [rows[index]] + rows[index + 1..];
  }

  /** Removing one row removes exactly that row: nothing else is lost or gained. */
  lemma RemoveAtIsOneRowLess<T>(rows: seq<T>, index: int)
    requires 0 <= index < |rows|
    ensures multiset(RemoveAt(rows, index)) + multiset{rows[index]} == multiset(rows)
  {
    assert rows == rows[..index] + [rows[index]] + rows[index + 1..];
  }
}
