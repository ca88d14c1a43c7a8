/**
  TransfersSortFilterProxyModel (src/MEGASync/model/TransfersSortFilterProxyModel.cpp):
  the older transfer-list proxy. Its masks are set, widened or reset directly;
  its filter is the conjunction of three mask tests and a name match.
*/
module TransfersProxy {
  import opened TransferData
  import opened Text

  datatype SortBy = Priority | TotalSize | Name

  /** lessThan: strictly ascending by priority, total size or file name. */
  predicate LessThan(c: SortBy, left: Transfer, right: Transfer)
  {
    match c
    case Priority => left.priority < right.priority
    case TotalSize => left.totalSize < right.totalSize
    case Name => LexLess(left.filename, right.filename)
  }

  lemma LessThanIrreflexive(c: SortBy, a: Transfer)
    ensures !LessThan(c, a, a)
  {
    if c == Name { LexLessIrreflexive(a.filename); }
  }

  lemma LessThanTransitive(c: SortBy, a: Transfer, b: Transfer, e: Transfer)
    requires LessThan(c, a, b) && LessThan(c, b, e)
    ensures LessThan(c, a, e)
  {
    if c == Name { LexLessTransitive(a.filename, b.filename, e.filename); }
  }

  /** OR-ing bits in twice is the same as once. */
  lemma AddIdempotent(mask: Flags, bits: Flags)
    ensures (mask | bits) | bits == mask | bits
    ensures mask & (mask | bits) == mask
  {
  }

  /** A value that shares a bit with a mask still does after bits are OR-ed in. */
  lemma OrKeepsOverlap(x: Flags, mask: Flags, bits: Flags)
    ensures x & mask != 0 ==> x & (mask | bits) != 0
  {
  }

  datatype Move = Move(from: int, to: int)

  /** moveRows: source moves one row at a time, at most `count` of them, and
      stops at the first that fails. `mappedSource` is the source row of
      proxy row `sourceRow`, `mappedDestination` that of `destinationChild`;
      `moveResults[k]` is what the source model answers to the k-th move. */
  method MoveRows(count: int, destinationChild: int, proxyRowCount: int, sourceRowCount: int,
                  mappedSource: int, mappedDestination: int, moveResults: seq<bool>)
    returns (moveOk: bool, moves: seq<Move>)
    requires count <= |moveResults|
    ensures |moves| <= if count < 0 then 0 else count
    ensures var dest := if destinationChild == proxyRowCount then sourceRowCount else mappedDestination;
            forall k :: 0 <= k < |moves| ==> moves[k] == Move(mappedSource, dest)
    ensures forall k :: 0 <= k < |moves| - 1 ==> moveResults[k]
    ensures moveOk <==> |moves| == 0 || moveResults[|moves| - 1]
    ensures moveOk ==> |moves| == if count < 0 then 0 else count
  {
    var dest := if destinationChild == proxyRowCount then sourceRowCount else mappedDestination;
    moveOk := true;
    moves := [];
    var row := 0;
    while moveOk && row < count
      invariant 0 <= row <= if count < 0 then 0 else count
      invariant |moves| == row
      invariant forall k :: 0 <= k < |moves| ==> moves[k] == Move(mappedSource, dest)
      invariant forall k :: 0 <= k < |moves| - 1 ==> moveResults[k]
      invariant moveOk <==> |moves| == 0 || moveResults[|moves| - 1]
    {
      moveOk := moveResults[row];
      moves := moves + [Move(mappedSource, dest)];
      row := row + 1;
    }
  }

  class TransfersProxy {
    var transferTypes: Flags
    var transferStates: Flags
    var fileTypes: Flags
    var sortCriterion: SortBy
    var filterPattern: string

    constructor ()
      ensures transferTypes == TYPE_MASK && transferStates == STATE_MASK
      ensures fileTypes == ALL_FILE_TYPES && sortCriterion == Priority && filterPattern == []
    {
      transferTypes, transferStates, fileTypes := TYPE_MASK, STATE_MASK, ALL_FILE_TYPES;
      sortCriterion := Priority;
      filterPattern := [];
    }

    /** filterAcceptsRow: state, type and file type each share a bit with the
        masks, and the name contains the filter pattern. */
    predicate Accepts(d: Transfer)
      reads this
    {
      && InMask(d.state, transferStates)
      && HasType(d.transferType, transferTypes)
      && d.fileType & fileTypes != 0
      && Contains(d.filename, filterPattern)
    }

    method SetTransferTypes(types: Flags)
      modifies this`transferTypes
      ensures transferTypes == if types != 0 then types else TYPE_MASK
    {
      transferTypes := if types != 0 then types else TYPE_MASK;
    }

    method AddTransferTypes(types: Flags)
      modifies this`transferTypes
      ensures transferTypes == old(transferTypes) | types
      ensures old(transferTypes) & transferTypes == old(transferTypes)
      ensures forall d: Transfer :: old(Accepts(d)) ==> Accepts(d)
    {
      transferTypes := transferTypes | types;
      forall d: Transfer | old(Accepts(d)) ensures Accepts(d) {
        OrKeepsOverlap(d.transferType, old(transferTypes), types);
      }
    }

    method SetTransferStates(states: Flags)
      modifies this`transferStates
      ensures transferStates == if states != 0 then states else STATE_MASK
    {
      transferStates := if states != 0 then states else STATE_MASK;
    }

    method AddTransferStates(states: Flags)
      modifies this`transferStates
      ensures transferStates == old(transferStates) | states
      ensures old(transferStates) & transferStates == old(transferStates)
      ensures forall d: Transfer :: old(Accepts(d)) ==> Accepts(d)
    {
      transferStates := transferStates | states;
      forall d: Transfer | old(Accepts(d)) ensures Accepts(d) {
        OrKeepsOverlap(StateBit(d.state), old(transferStates), states);
      }
    }

    method SetFileTypes(files: Flags)
      modifies this`fileTypes
      ensures fileTypes == if files != 0 then files else ALL_FILE_TYPES
    {
      if files != 0 {
        fileTypes := files;
      } else {
        fileTypes := ALL_FILE_TYPES;
      }
    }

    method AddFileTypes(files: Flags)
      modifies this`fileTypes
      ensures fileTypes == old(fileTypes) | files
      ensures old(fileTypes) & fileTypes == old(fileTypes)
      ensures forall d: Transfer :: old(Accepts(d)) ==> Accepts(d)
    {
      fileTypes := fileTypes | files;
      forall d: Transfer | old(Accepts(d)) ensures Accepts(d) {
        OrKeepsOverlap(d.fileType, old(fileTypes), files);
      }
    }

    method ResetAllFilters()
      modifies this`transferStates, this`transferTypes, this`fileTypes
      ensures transferStates == STATE_MASK && transferTypes == TYPE_MASK
      ensures fileTypes == ALL_FILE_TYPES
      ensures forall d: Transfer :: Accepts(d) <==>
        d.state != StateNone && HasType(d.transferType, TYPE_MASK) && d.fileType != 0 &&
        Contains(d.filename, filterPattern)
    {
      transferStates := STATE_MASK;
      transferTypes := TYPE_MASK;
      fileTypes := ALL_FILE_TYPES;
      forall d: Transfer ensures Accepts(d) <==>
        d.state != StateNone && HasType(d.transferType, TYPE_MASK) && d.fileType != 0 &&
        Contains(d.filename, filterPattern)
      {
        StateMaskIsEveryStateButNone(d.state);
      }
    }

    method SetSortBy(c: SortBy)
      modifies this`sortCriterion
      ensures sortCriterion == c
    {
      sortCriterion := c;
    }
  }
}
