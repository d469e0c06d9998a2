/** The null check applied to form inputs and to the sold columns of a ledger row. */
module Validation {
  import opened Ledger

  /** Is the cell absent?  In empty-string mode only the empty text is absent;
      otherwise a cell is absent when it prints as "nan". */
  predicate Blank(c: Cell, emptyString: bool) {
    if emptyString then c == Text("") else ShowsAsNan(c)
  }

  /** Every cell of `info` is present, in the given mode. */
  predicate Present(info: seq<Cell>, emptyString: bool) {
    forall i | 0 <= i < |info| :: !Blank(info[i], emptyString)
  }

  /** Scans the cells in order and stops at the first absent one. */
  method NonNull(criticalInfo: seq<Cell>, emptyString: bool) returns (ok: bool)
    ensures ok == Present(criticalInfo, emptyString)
  {
    if emptyString {
      var k := 0;
      while k < |criticalInfo|
        invariant 0 <= k <= |criticalInfo|
        invariant forall i | 0 <= i < k :: criticalInfo[i] != Text("")
      {
        if criticalInfo[k] == Text("") {
          return false;
        }
        k := k + 1;
      }
    } else {
      var k := 0;
      while k < |criticalInfo|
        invariant 0 <= k <= |criticalInfo|
        invariant forall i | 0 <= i < k :: !ShowsAsNan(criticalInfo[i])
      {
        if ShowsAsNan(criticalInfo[k]) {
          return false;
        }
        k := k + 1;
      }
    }
    return true;
  }
}
