/**
  TransfersManagerSortFilterProxyModel
  (src/MEGASync/model/TransfersManagerSortFilterProxyModel.cpp): the proxy
  between the transfers model and the transfer manager's list. It filters rows
  by state, type and file-type masks and by a case-insensitive name search,
  counts per direction how many transfers the search found, orders rows by
  one of three criteria and answers queries about paused rows.

  The source model's rows are the `rows` field. The rows the proxy shows are
  the rows its filter accepts with the current masks and search text.
*/
module TransfersManagerProxy {
  import opened TransferData
  import opened Text

  datatype SortCriterion = Priority | TotalSize | Name

  /** The filter rule of filterAcceptsRow, for given current masks and search text. */
  predicate AcceptsRow(states: Flags, types: Flags, fileTypes: Flags, text: string, d: Transfer)
  {
    && d.tag >= 0
    && MasksAccept(states, types, fileTypes, d)
    && (text == [] || ContainsIgnoringCase(d.filename, text))
  }

  /** The row's state, type and file type each share a bit with the masks. */
  predicate MasksAccept(states: Flags, types: Flags, fileTypes: Flags, d: Transfer)
  {
    InMask(d.state, states) && HasType(d.transferType, types) && d.fileType & fileTypes != 0
  }

  /** The comparator of lessThan for the given sort criterion. */
  predicate LessThan(c: SortCriterion, left: Transfer, right: Transfer)
  {
    match c
    case Priority =>
      if left.state != right.state then StateBit(left.state) as int > StateBit(right.state) as int
      else left.priority > right.priority
    case TotalSize => left.totalSize < right.totalSize
    case Name => LexLess(Fold(left.filename), Fold(right.filename))
  }

  /** lessThan is a strict order under every criterion: irreflexive... */
  lemma LessThanIrreflexive(c: SortCriterion, a: Transfer)
    ensures !LessThan(c, a, a)
  {
    if c == Name { LexLessIrreflexive(Fold(a.filename)); }
  }

  /** ...asymmetric... */
  lemma LessThanAsymmetric(c: SortCriterion, a: Transfer, b: Transfer)
    requires LessThan(c, a, b)
    ensures !LessThan(c, b, a)
  {
    if c == Name { LexLessAsymmetric(Fold(a.filename), Fold(b.filename)); }
  }

  /** Ordering by a rank that equal states share, then by priority, is
      transitive; the PRIORITY comparator is this order with the state's
      bit as the rank. */
  lemma RankThenPriorityTransitive(ka: TransferState, kb: TransferState, ke: TransferState, ra: int, rb: int, re: int, pa: int, pb: int, pe: int)
    requires ka == kb ==> ra == rb
    requires kb == ke ==> rb == re
    requires ka == ke ==> ra == re
    requires if ka != kb then ra > rb else pa > pb
    requires if kb != ke then rb > re else pb > pe
    ensures if ka != ke then ra > re else pa > pe
  {
  }

  /** ...and transitive. */
  lemma LessThanTransitive(c: SortCriterion, a: Transfer, b: Transfer, e: Transfer)
    requires LessThan(c, a, b) && LessThan(c, b, e)
    ensures LessThan(c, a, e)
  {
    match c
    case Priority =>
      RankThenPriorityTransitive(a.state, b.state, e.state,
                                 StateBit(a.state) as int, StateBit(b.state) as int, StateBit(e.state) as int,
                                 a.priority, b.priority, e.priority);
    case TotalSize =>
    case Name => LexLessTransitive(Fold(a.filename), Fold(b.filename), Fold(e.filename));
  }

  /** Under PRIORITY, rows of a larger state come first; within a state, rows
      of a larger priority come first. */
  lemma PriorityOrder(a: Transfer, b: Transfer)
    ensures StateBit(a.state) as int > StateBit(b.state) as int ==> LessThan(Priority, a, b)
    ensures a.state == b.state ==> (LessThan(Priority, a, b) <==> a.priority > b.priority)
  {
  }

  /** The number of paused transfers in a list of rows. */
  function CountPaused(s: seq<Transfer>): (n: nat)
    ensures n <= |s|
  {
    if s == [] then 0 else CountPaused(s[..|s| - 1]) + (if s[|s| - 1].state == Paused then 1 else 0)
  }

  lemma {:induction false} CountPausedPositive(s: seq<Transfer>)
    ensures CountPaused(s) > 0 <==> exists i :: 0 <= i < |s| && s[i].state == Paused
  {
    if s != [] {
      var p := s[..|s| - 1];
      CountPausedPositive(p);
      if exists i :: 0 <= i < |p| && p[i].state == Paused {
        var i :| 0 <= i < |p| && p[i].state == Paused;
        assert s[i] == p[i];
      }
      if exists i :: 0 <= i < |s| && s[i].state == Paused {
        var i :| 0 <= i < |s| && s[i].state == Paused;
        if i < |p| { assert p[i] == s[i]; }
      }
    }
  }

  /** The tags of rows first..last that are uploads (`upload`) or not uploads
      (`!upload`) and have a non-negative tag. */
  function RemovedTags(rows: seq<Transfer>, first: int, last: int, upload: bool): set<int>
  {
    set i | 0 <= i < |rows| && first <= i <= last && rows[i].tag >= 0
                                && HasType(rows[i].transferType, TRANSFER_UPLOAD) == upload :: rows[i].tag
  }

  /** The loop of getPausedTransfers over the shown rows. */
  method CountPausedRows(shown: seq<Transfer>) returns (paused: nat)
    ensures paused == CountPaused(shown)
  {
    paused := 0;
    var row := 0;
    while row < |shown|
      invariant 0 <= row <= |shown|
      invariant paused == CountPaused(shown[..row])
    {
      assert shown[..row + 1][..row] == shown[..row];
      if InMask(shown[row].state, StateBit(Paused)) {
        paused := paused + 1;
      }
      row := row + 1;
    }
    assert shown[..|shown|] == shown;
  }

  /** The loop of onRowsAboutToBeRemoved over rows first..last: each
      non-negative tag leaves the upload set if the row is an upload, the
      download set otherwise. */
  method RemoveRows(rows: seq<Transfer>, first: int, last: int, ul0: set<int>, dl0: set<int>)
    returns (ul: set<int>, dl: set<int>, notified: bool)
    requires 0 <= first && last < |rows|
    ensures ul == ul0 - RemovedTags(rows, first, last, true)
    ensures dl == dl0 - RemovedTags(rows, first, last, false)
    ensures notified <==> exists i :: first <= i <= last && rows[i].tag >= 0
  {
    ul, dl, notified := ul0, dl0, false;
    var row := first;
    while row <= last
      invariant first <= row <= if first <= last then last + 1 else first
      invariant ul == ul0 - RemovedTags(rows, first, row - 1, true)
      invariant dl == dl0 - RemovedTags(rows, first, row - 1, false)
      invariant notified <==> exists i :: first <= i < row && rows[i].tag >= 0
    {
      var d := rows[row];
      if d.tag >= 0 {
        if HasType(d.transferType, TRANSFER_UPLOAD) {
          ul := ul - {d.tag};
        } else {
          dl := dl - {d.tag};
        }
        notified := true;
      }
      RemovedTagsStep(rows, first, row, true);
      RemovedTagsStep(rows, first, row, false);
      row := row + 1;
    }
  }

  /** The tag to pause or resume and whether it is a pause, for the row whose
      button was clicked (onPauseResumeTransfer). */
  function PauseResumeRequest(d: Transfer): (r: (int, bool))
    ensures r.0 == d.tag
    ensures r.1 <==> d.state != Paused
  {
    (d.tag, d.state != Paused)
  }

  /** Whether a double-click opens the transfer's folder (onOpenTransfer):
      uploads always, other transfers once finished. */
  predicate OpensFolder(d: Transfer)
  {
    HasType(d.transferType, TRANSFER_UPLOAD) || InMask(d.state, FINISHED_STATES_MASK)
  }

  lemma OpensFolderCases(d: Transfer)
    ensures !HasType(d.transferType, TRANSFER_UPLOAD) ==>
              (OpensFolder(d) <==> d.state in {Completed, Cancelled, Failed})
  {
  }

  class ManagerProxy {
    var rows: seq<Transfer>
    var transferStates: Flags
    var transferTypes: Flags
    var fileTypes: Flags
    var nextTransferStates: Flags
    var nextTransferTypes: Flags
    var nextFileTypes: Flags
    var sortCriterion: SortCriterion
    var dlNumber: set<int>
    var ulNumber: set<int>
    var filterText: string

    constructor (source: seq<Transfer>)
      ensures rows == source
      ensures transferStates == STATE_MASK && transferTypes == TYPE_MASK && fileTypes == ALL_FILE_TYPES
      ensures nextTransferStates == STATE_MASK && nextTransferTypes == TYPE_MASK
      ensures nextFileTypes == ALL_FILE_TYPES
      ensures sortCriterion == Priority && dlNumber == {} && ulNumber == {} && filterText == []
    {
      rows := source;
      transferStates, transferTypes, fileTypes := STATE_MASK, TYPE_MASK, ALL_FILE_TYPES;
      nextTransferStates, nextTransferTypes, nextFileTypes := STATE_MASK, TYPE_MASK, ALL_FILE_TYPES;
      sortCriterion := Priority;
      dlNumber, ulNumber := {}, {};
      filterText := [];
    }

    /** Whether the filter accepts a row with the current masks and search text. */
    predicate Accepts(d: Transfer)
      reads this
    {
      AcceptsRow(transferStates, transferTypes, fileTypes, filterText, d)
    }

    /** The rows the proxy shows, in source order. */
    function Visible(): (v: seq<Transfer>)
      reads this
      ensures |v| <= |rows|
      ensures forall d :: d in v <==> d in rows && Accepts(d)
    {
      VisibleOf(rows)
    }

    function VisibleOf(s: seq<Transfer>): (v: seq<Transfer>)
      reads this
      ensures |v| <= |s|
      ensures forall d :: d in v <==> d in s && Accepts(d)
    {
      if s == [] then []
      else VisibleOf(s[..|s| - 1]) + (if Accepts(s[|s| - 1]) then [s[|s| - 1]] else [])
    }

    /** Stages new masks; a zero argument stands for "everything". Only the
        next masks change, so the rows the filter accepts stay as they were. */
    method SetFilters(types: Flags, states: Flags, files: Flags)
      modifies this`nextTransferTypes, this`nextTransferStates, this`nextFileTypes
      ensures nextTransferTypes == if types != 0 then types else TYPE_MASK
      ensures nextTransferStates == if states != 0 then states else STATE_MASK
      ensures nextFileTypes == if files != 0 then files else ALL_FILE_TYPES
      ensures forall d :: Accepts(d) == old(Accepts(d))
    {
      nextTransferTypes := if types != 0 then types else TYPE_MASK;
      nextTransferStates := if states != 0 then states else STATE_MASK;
      if files != 0 {
        nextFileTypes := files;
      } else {
        nextFileTypes := ALL_FILE_TYPES;
      }
    }

    /** Makes the staged masks current. */
    method UpdateFilters()
      modifies this`transferStates, this`transferTypes, this`fileTypes
      ensures transferStates == nextTransferStates && transferTypes == nextTransferTypes
      ensures fileTypes == nextFileTypes
      ensures forall d :: Accepts(d) == AcceptsRow(nextTransferStates, nextTransferTypes,
                                                   nextFileTypes, filterText, d)
    {
      transferStates := nextTransferStates;
      transferTypes := nextTransferTypes;
      fileTypes := nextFileTypes;
    }

    /** Clears the search counters and stages the full masks. */
    method ResetAllFilters()
      modifies this`dlNumber, this`ulNumber,
               this`nextTransferTypes, this`nextTransferStates, this`nextFileTypes
      ensures dlNumber == {} && ulNumber == {}
      ensures nextTransferTypes == TYPE_MASK && nextTransferStates == STATE_MASK
      ensures nextFileTypes == ALL_FILE_TYPES
      ensures forall d :: Accepts(d) == old(Accepts(d))
    {
      ResetNumberOfItems();
      SetFilters(0, 0, 0);
    }

    /** The number of search hits for one direction; 0 for any other type. */
    function NumberOfItems(transferType: Flags): (nb: int)
      reads this
      ensures transferType == TRANSFER_UPLOAD ==> nb == |ulNumber|
      ensures transferType == TRANSFER_DOWNLOAD ==> nb == |dlNumber|
      ensures transferType != TRANSFER_UPLOAD && transferType != TRANSFER_DOWNLOAD ==> nb == 0
    {
      if transferType == TRANSFER_UPLOAD then |ulNumber|
      else if transferType == TRANSFER_DOWNLOAD then |dlNumber|
      else 0
    }

    method ResetNumberOfItems()
      modifies this`dlNumber, this`ulNumber
      ensures dlNumber == {} && ulNumber == {}
      ensures NumberOfItems(TRANSFER_UPLOAD) == 0 && NumberOfItems(TRANSFER_DOWNLOAD) == 0
    {
      dlNumber := {};
      ulNumber := {};
    }

    /** filterAcceptsRow: the verdict of the filter rule; with a search text,
        an accepted tag is recorded as an upload hit, or else as a download hit. */
    method FilterAcceptsRow(sourceRow: nat) returns (accept: bool)
      requires sourceRow < |rows|
      modifies this`ulNumber, this`dlNumber
      ensures accept == Accepts(rows[sourceRow])
      ensures var d := rows[sourceRow];
              var counted := accept && filterText != [];
              var up := counted && HasType(d.transferType, TRANSFER_UPLOAD) && d.tag !in old(ulNumber);
              && ulNumber == old(ulNumber) + (if up then {d.tag} else {})
              && dlNumber == old(dlNumber) +
                   (if counted && !up && HasType(d.transferType, TRANSFER_DOWNLOAD) then {d.tag} else {})
      ensures rows[sourceRow].tag < 0 ==> !accept
    {
      var d := rows[sourceRow];
      if d.tag >= 0 {
        accept := MasksAccept(transferStates, transferTypes, fileTypes, d);
        if accept {
          if filterText != [] {
            accept := ContainsIgnoringCase(d.filename, filterText);
            if accept {
              if HasType(d.transferType, TRANSFER_UPLOAD) && d.tag !in ulNumber {
                ulNumber := ulNumber + {d.tag};
              } else if HasType(d.transferType, TRANSFER_DOWNLOAD) && d.tag !in dlNumber {
                dlNumber := dlNumber + {d.tag};
              }
            }
          }
        }
        return;
      }
      accept := false;
    }

    /** onRowsAboutToBeRemoved: with a search text, forgets the hits of rows
        first..last; the result says whether any row with a tag was seen. */
    method OnRowsAboutToBeRemoved(first: int, last: int) returns (notified: bool)
      requires 0 <= first && last < |rows|
      modifies this`ulNumber, this`dlNumber
      ensures filterText == [] ==> ulNumber == old(ulNumber) && dlNumber == old(dlNumber) && !notified
      ensures filterText != [] ==>
                && ulNumber == old(ulNumber) - RemovedTags(rows, first, last, true)
                && dlNumber == old(dlNumber) - RemovedTags(rows, first, last, false)
                && (notified <==> exists i :: first <= i <= last && rows[i].tag >= 0)
    {
      notified := false;
      if filterText == [] {
        return;
      }
      ulNumber, dlNumber, notified := RemoveRows(rows, first, last, ulNumber, dlNumber);
    }

    /** getPausedTransfers: the number of shown rows in the PAUSED state. */
    method GetPausedTransfers() returns (paused: nat)
      ensures paused == CountPaused(Visible())
    {
      paused := CountPausedRows(Visible());
    }

    /** isAnyPaused: some shown row is PAUSED, i.e. getPausedTransfers is positive. */
    method IsAnyPaused() returns (paused: bool)
      ensures paused <==> exists i :: 0 <= i < |Visible()| && Visible()[i].state == Paused
      ensures paused <==> CountPaused(Visible()) > 0
    {
      var shown := Visible();
      paused := false;
      var row := 0;
      while row < |shown|
        invariant 0 <= row <= |shown|
        invariant !paused
        invariant forall i :: 0 <= i < row ==> shown[i].state != Paused
      {
        if InMask(shown[row].state, StateBit(Paused)) {
          paused := true;
          break;
        }
        row := row + 1;
      }
      CountPausedPositive(shown);
    }
  }

  lemma RemovedTagsStep(rows: seq<Transfer>, first: int, row: int, upload: bool)
    requires 0 <= first <= row < |rows|
    ensures RemovedTags(rows, first, row, upload) ==
            RemovedTags(rows, first, row - 1, upload) +
            (if rows[row].tag >= 0 && HasType(rows[row].transferType, TRANSFER_UPLOAD) == upload
             then {rows[row].tag} else {})
  {
  }
}
