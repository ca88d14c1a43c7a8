/**
  MegaTransferView (src/MEGASync/transfers/gui/MegaTransferView.cpp): the
  transfer list view. This module models how it picks rows by state, decides
  whether a confirmation speaks of one transfer, orders the calls of "cancel
  and clear all", derives the context menu from the selection, and plans the
  row moves of the four move actions. Rows are given as the view's sequence
  of transfers; a selection is a list of (row, transfer) pairs.
*/
module TransferView {
  import opened TransferData

  /** A row matches a state filter: NONE matches everything, a mask matches
      the rows whose state shares a bit with it. */
  predicate Matches(d: Transfer, state: Flags)
  {
    state == TRANSFER_NONE || InMask(d.state, state)
  }

  /** getTransfers: the matching rows, in row order. */
  method GetTransfers(rows: seq<Transfer>, state: Flags) returns (indexes: seq<nat>)
    ensures forall k :: 0 <= k < |indexes| ==> indexes[k] < |rows|
    ensures forall k, l :: 0 <= k < l < |indexes| ==> indexes[k] < indexes[l]
    ensures forall r :: 0 <= r < |rows| ==> (r in indexes <==> Matches(rows[r], state))
    ensures state == TRANSFER_NONE ==> |indexes| == |rows|
  {
    indexes := [];
    var row := 0;
    while row < |rows|
      invariant 0 <= row <= |rows|
      invariant forall k :: 0 <= k < |indexes| ==> indexes[k] < row
      invariant forall k, l :: 0 <= k < l < |indexes| ==> indexes[k] < indexes[l]
      invariant forall r :: 0 <= r < row ==> (r in indexes <==> Matches(rows[r], state))
      invariant state == TRANSFER_NONE ==> |indexes| == row
    {
      var matched := indexes;
      if Matches(rows[row], state) {
        indexes := indexes + [row];
        assert forall r :: r in indexes <==> r in matched || r == row;
      }
      row := row + 1;
    }
  }

  /** isSingleTransfer: no two rows match (one match or none). */
  method IsSingleTransfer(rows: seq<Transfer>, state: Flags) returns (single: bool)
    ensures single <==> !exists i, j :: 0 <= i < j < |rows| && Matches(rows[i], state)
                                         && Matches(rows[j], state)
  {
    var found := -1;
    var row := 0;
    while row < |rows|
      invariant 0 <= row <= |rows|
      invariant -1 <= found < row
      invariant found >= 0 ==> Matches(rows[found], state)
      invariant forall r :: 0 <= r < row && r != found ==> !Matches(rows[r], state)
    {
      if state == TRANSFER_NONE || InMask(rows[row].state, state) {
        if found >= 0 {
          assert found < row && Matches(rows[found], state) && Matches(rows[row], state);
          return false;
        }
        found := row;
      }
      row := row + 1;
    }
    return true;
  }

  /** The calls cancelAndClearAllTransfers makes on the transfers model. */
  datatype ModelCall = SetResetMode | PauseModelProcessing(pause: bool) | ClearAll | CancelAll

  /** cancelAndClearAllTransfers: nothing unless asked to cancel or clear;
      reset mode only for both; the work is bracketed by pausing the model's
      processing, and clearing comes before cancelling. */
  method CancelAndClearAllTransfers(cancel: bool, clear: bool) returns (calls: seq<ModelCall>)
    ensures !cancel && !clear ==> calls == []
    ensures SetResetMode in calls <==> cancel && clear
    ensures ClearAll in calls <==> clear
    ensures CancelAll in calls <==> cancel
    ensures forall i, j :: (0 <= i < |calls| && 0 <= j < |calls| && calls[i] == ClearAll &&
                            calls[j] == CancelAll) ==> i < j
    ensures cancel || clear ==>
              exists k :: 0 <= k < |calls| - 1 && calls[k] == PauseModelProcessing(true)
                          && calls[|calls| - 1] == PauseModelProcessing(false)
                          && forall i :: 0 <= i < |calls| && (calls[i] == ClearAll || calls[i] == CancelAll)
                                         ==> k < i < |calls| - 1
    ensures cancel || clear ==>
              calls == (if cancel && clear then [SetResetMode] else []) + [PauseModelProcessing(true)]
                       + (if clear then [ClearAll] else []) + (if cancel then [CancelAll] else [])
                       + [PauseModelProcessing(false)]
  {
    calls := [];
    if cancel || clear {
      if cancel && clear {
        calls := calls + [SetResetMode];
      }
      var k := |calls|;
      calls := calls + [PauseModelProcessing(true)];
      if clear {
        calls := calls + [ClearAll];
      }
      if cancel {
        calls := calls + [CancelAll];
      }
      calls := calls + [PauseModelProcessing(false)];
      assert calls[k] == PauseModelProcessing(true);
    }
  }

  datatype Selected = Selected(row: int, d: Transfer)

  datatype MenuFlags = MenuFlags(enablePause: bool, enableResume: bool, enableCancel: bool,
                                 enableClear: bool, enableMove: bool,
                                 isTopIndex: bool, isBottomIndex: bool)

  predicate Pausable(s: TransferState) { s == Active || s == Queued || s == Retrying }
  predicate Cancellable(s: TransferState) { Pausable(s) || s == Paused }
  predicate Clearable(s: TransferState) { s == Cancelled || s == Failed || s == Completed }

  /** The position of the last selected row, among the first n, whose state
      can be cancelled; -1 if there is none. */
  function LastCancellable(sel: seq<Selected>, n: nat): (k: int)
    requires n <= |sel|
    ensures -1 <= k < n
    ensures k >= 0 ==> Cancellable(sel[k].d.state)
    ensures forall i :: k < i < n ==> !Cancellable(sel[i].d.state)
  {
    if n == 0 then -1
    else if Cancellable(sel[n - 1].d.state) then n - 1
    else LastCancellable(sel, n - 1)
  }

  /** What one selected row adds to the flags: a row is "bottom" only when it
      is not also row 0, and the cancel flag follows the last row that can be
      cancelled. */
  function Step(f: MenuFlags, s: Selected, rowCount: int): MenuFlags
  {
    MenuFlags(
      f.enablePause || Pausable(s.d.state),
      f.enableResume || s.d.state == Paused,
      if Cancellable(s.d.state) then !HasType(s.d.transferType, TRANSFER_SYNC) else f.enableCancel,
      f.enableClear || Clearable(s.d.state),
      f.enableMove || Cancellable(s.d.state),
      f.isTopIndex || s.row == 0,
      f.isBottomIndex || (s.row != 0 && s.row == rowCount - 1))
  }

  const NoFlags := MenuFlags(false, false, false, false, false, false, false)

  /** The flags after the first n selected rows. */
  function FlagsAfter(sel: seq<Selected>, n: nat, rowCount: int): MenuFlags
    requires n <= |sel|
  {
    if n == 0 then NoFlags else Step(FlagsAfter(sel, n - 1, rowCount), sel[n - 1], rowCount)
  }

  lemma {:induction false} FlagsAfterPauseResume(sel: seq<Selected>, n: nat, rowCount: int)
    requires n <= |sel|
    ensures var f := FlagsAfter(sel, n, rowCount);
            (f.enablePause <==> exists i :: 0 <= i < n && Pausable(sel[i].d.state)) &&
            (f.enableResume <==> exists i :: 0 <= i < n && sel[i].d.state == Paused)
  {
    if n > 0 {
      FlagsAfterPauseResume(sel, n - 1, rowCount);
    }
  }

  lemma {:induction false} FlagsAfterMoveClear(sel: seq<Selected>, n: nat, rowCount: int)
    requires n <= |sel|
    ensures var f := FlagsAfter(sel, n, rowCount);
            (f.enableMove <==> exists i :: 0 <= i < n && Cancellable(sel[i].d.state)) &&
            (f.enableClear <==> exists i :: 0 <= i < n && Clearable(sel[i].d.state))
  {
    if n > 0 {
      FlagsAfterMoveClear(sel, n - 1, rowCount);
    }
  }

  lemma {:induction false} FlagsAfterCancel(sel: seq<Selected>, n: nat, rowCount: int)
    requires n <= |sel|
    ensures var k := LastCancellable(sel, n);
            FlagsAfter(sel, n, rowCount).enableCancel <==>
              k >= 0 && !HasType(sel[k].d.transferType, TRANSFER_SYNC)
  {
    if n > 0 {
      FlagsAfterCancel(sel, n - 1, rowCount);
    }
  }

  lemma {:induction false} FlagsAfterEnds(sel: seq<Selected>, n: nat, rowCount: int)
    requires n <= |sel|
    ensures var f := FlagsAfter(sel, n, rowCount);
            (f.isTopIndex <==> exists i :: 0 <= i < n && sel[i].row == 0) &&
            (f.isBottomIndex <==> exists i :: 0 <= i < n && sel[i].row != 0 && sel[i].row == rowCount - 1)
  {
    if n > 0 {
      FlagsAfterEnds(sel, n - 1, rowCount);
    }
  }

  /** onCustomContextMenu: the enable flags accumulated over the selection. */
  method ContextMenuFlags(sel: seq<Selected>, rowCount: int) returns (f: MenuFlags)
    ensures f.enablePause <==> exists i :: 0 <= i < |sel| && Pausable(sel[i].d.state)
    ensures f.enableResume <==> exists i :: 0 <= i < |sel| && sel[i].d.state == Paused
    ensures f.enableMove <==> exists i :: 0 <= i < |sel| && Cancellable(sel[i].d.state)
    ensures f.enableClear <==> exists i :: 0 <= i < |sel| && Clearable(sel[i].d.state)
    ensures var k := LastCancellable(sel, |sel|);
            f.enableCancel <==> k >= 0 && !HasType(sel[k].d.transferType, TRANSFER_SYNC)
    ensures f.isTopIndex <==> exists i :: 0 <= i < |sel| && sel[i].row == 0
    ensures f.isBottomIndex <==> exists i :: 0 <= i < |sel| && sel[i].row != 0
                                             && sel[i].row == rowCount - 1
  {
    f := NoFlags;
    var n := 0;
    while n < |sel|
      invariant 0 <= n <= |sel|
      invariant f == FlagsAfter(sel, n, rowCount)
    {
      f := Step(f, sel[n], rowCount);
      n := n + 1;
    }
    FlagsAfterPauseResume(sel, n, rowCount);
    FlagsAfterMoveClear(sel, n, rowCount);
    FlagsAfterCancel(sel, n, rowCount);
    FlagsAfterEnds(sel, n, rowCount);
  }

  /** Which context-menu actions are visible, and whether their texts are
      singular. */
  datatype MenuVisibility = MenuVisibility(
    pause: bool, resume: bool, cancel: bool, clear: bool,
    getLink: bool, openInMega: bool, openItem: bool, showInFolder: bool,
    moveToTop: bool, moveUp: bool, moveDown: bool, moveToBottom: bool,
    singular: bool)

  /** updateContextMenu: link, open and show-in-folder only for a single
      selected row that can be cleared; the move actions by the top / bottom
      flags when moving is enabled. */
  function UpdateContextMenu(f: MenuFlags, sel: seq<Selected>): (v: MenuVisibility)
    ensures v.pause == f.enablePause && v.resume == f.enableResume
    ensures v.cancel == f.enableCancel && v.clear == f.enableClear
    ensures v.singular <==> |sel| == 1
    ensures (v.getLink || v.openItem || v.showInFolder) ==> |sel| == 1 && f.enableClear
    ensures v.getLink == v.openInMega
    ensures |sel| == 1 && f.enableClear ==>
              if sel[0].d.state == Completed then v.getLink && v.openItem && v.showInFolder
              else if HasType(sel[0].d.transferType, TRANSFER_UPLOAD)
              then !v.getLink && v.openItem && v.showInFolder
              else v.getLink && !v.openItem && !v.showInFolder
    ensures !f.enableMove ==> !v.moveToTop && !v.moveUp && !v.moveDown && !v.moveToBottom
    ensures f.enableMove ==> (v.moveToTop <==> !f.isTopIndex) && (v.moveUp <==> !f.isTopIndex)
                             && (v.moveDown <==> !f.isBottomIndex)
                             && (v.moveToBottom <==> !f.isBottomIndex)
  {
    var onlyOneAndClear := f.enableClear && |sel| == 1;
    var isUpload := onlyOneAndClear && HasType(sel[0].d.transferType, TRANSFER_UPLOAD);
    var completed := onlyOneAndClear && sel[0].d.state == Completed;
    var showLink := onlyOneAndClear && (completed || !isUpload);
    var showOpen := onlyOneAndClear && (completed || isUpload);
    MenuVisibility(
      f.enablePause, f.enableResume, f.enableCancel, f.enableClear,
      showLink, showLink, showOpen, showOpen,
      f.enableMove && !f.isTopIndex, f.enableMove && !f.isTopIndex,
      f.enableMove && !f.isBottomIndex, f.enableMove && !f.isBottomIndex,
      |sel| == 1)
  }

  /** The menu opens only if some action (separators aside) is visible. */
  predicate MenuOpens(v: MenuVisibility)
  {
    v.pause || v.resume || v.cancel || v.clear || v.getLink || v.openInMega || v.openItem
    || v.showInFolder || v.moveToTop || v.moveUp || v.moveDown || v.moveToBottom
  }

  /** The context menu opens exactly when some selected transfer can be
      paused, resumed, cancelled or cleared: a selection of transfers that
      are all completing (or have no state) gets no menu. */
  lemma MenuOpensIffActionable(sel: seq<Selected>, rowCount: int)
    ensures MenuOpens(UpdateContextMenu(FlagsAfter(sel, |sel|, rowCount), sel)) <==>
              exists i :: 0 <= i < |sel| && (Cancellable(sel[i].d.state) || Clearable(sel[i].d.state))
  {
    FlagsAfterPauseResume(sel, |sel|, rowCount);
    FlagsAfterMoveClear(sel, |sel|, rowCount);
    FlagsAfterCancel(sel, |sel|, rowCount);
  }

  // ---------------------------------------------------------------------
  // Move actions. The selection is a set of rows of the view; each handler
  // sorts it and issues one moveRows call per selected row.

  /** One moveRows call: move the row `from` to before the row `to`. */
  datatype Move = Move(from: int, to: int)

  /** A set of naturals holding x has a least element, found by descending
      from x. */
  lemma {:induction false} LeastExists(s: set<nat>, x: nat)
    requires x in s
    ensures exists m :: m in s && forall y :: y in s ==> m <= y
    decreases x
  {
    if exists y :: y in s && y < x {
      var y :| y in s && y < x;
      LeastExists(s, y);
    } else {
      assert forall y :: y in s ==> x <= y;
    }
  }

  function Least(s: set<nat>): (m: nat)
    requires s != {}
    ensures m in s && forall x :: x in s ==> m <= x
  {
    var x :| x in s;
    LeastExists(s, x);
    var m :| m in s && forall x :: x in s ==> m <= x;
    m
  }

  /** The selected rows in ascending order. */
  function Ascending(s: set<nat>): (rows: seq<nat>)
    ensures |rows| == |s|
    ensures forall r :: r in rows <==> r in s
    ensures forall i, j :: 0 <= i < j < |rows| ==> rows[i] < rows[j]
    decreases |s|
  {
    if s == {} then []
    else
      var m := Least(s);
      var rest := Ascending(s - {m});
      ConsAscending(s, m, rest);
      [m] + rest
  }

  /** The least element in front of the rest in ascending order is the
      whole set in ascending order. */
  lemma ConsAscending(s: set<nat>, m: nat, rest: seq<nat>)
    requires m in s && forall x :: x in s ==> m <= x
    requires |rest| == |s - {m}|
    requires forall r :: r in rest <==> r in s - {m}
    requires forall i, j :: 0 <= i < j < |rest| ==> rest[i] < rest[j]
    ensures |[m] + rest| == |s|
    ensures forall r :: r in [m] + rest <==> r in s
    ensures forall i, j :: 0 <= i < j < |[m] + rest| ==> ([m] + rest)[i] < ([m] + rest)[j]
  {
    var rows := [m] + rest;
    forall i, j | 0 <= i < j < |rows| ensures rows[i] < rows[j] {
      assert rows[j] == rest[j - 1];
      if i == 0 {
        assert rest[j - 1] in s - {m};
      } else {
        assert rows[i] == rest[i - 1];
      }
    }
  }

  /** A non-empty set of naturals has a greatest element. */
  lemma GreatestExists(s: set<nat>)
    requires s != {}
    ensures exists m :: m in s && forall y :: y in s ==> y <= m
  {
    AscendingEnds(s);
    var rows := Ascending(s);
    assert rows[|s| - 1] in s;
  }

  function Greatest(s: set<nat>): (m: nat)
    requires s != {}
    ensures m in s && forall x :: x in s ==> x <= m
  {
    GreatestExists(s);
    var m :| m in s && forall x :: x in s ==> x <= m;
    m
  }

  /** The selected rows in descending order. */
  function Descending(s: set<nat>): (rows: seq<nat>)
    ensures |rows| == |s|
    ensures forall r :: r in rows <==> r in s
    ensures forall i, j :: 0 <= i < j < |rows| ==> rows[i] > rows[j]
    decreases |s|
  {
    if s == {} then []
    else
      var m := Greatest(s);
      var rest := Descending(s - {m});
      ConsDescending(s, m, rest);
      [m] + rest
  }

  /** The same for the greatest element and descending order. */
  lemma ConsDescending(s: set<nat>, m: nat, rest: seq<nat>)
    requires m in s && forall x :: x in s ==> x <= m
    requires |rest| == |s - {m}|
    requires forall r :: r in rest <==> r in s - {m}
    requires forall i, j :: 0 <= i < j < |rest| ==> rest[i] > rest[j]
    ensures |[m] + rest| == |s|
    ensures forall r :: r in [m] + rest <==> r in s
    ensures forall i, j :: 0 <= i < j < |[m] + rest| ==> ([m] + rest)[i] > ([m] + rest)[j]
  {
    var rows := [m] + rest;
    forall i, j | 0 <= i < j < |rows| ensures rows[i] > rows[j] {
      assert rows[j] == rest[j - 1];
      if i == 0 {
        assert rest[j - 1] in s - {m};
      } else {
        assert rows[i] == rest[i - 1];
      }
    }
  }

  lemma AscendingEnds(s: set<nat>)
    requires s != {}
    ensures forall x :: x in s ==> Ascending(s)[0] <= x <= Ascending(s)[|s| - 1]
  {
    var rows := Ascending(s);
    assert rows[0] == Least(s);
    forall x | x in s ensures x <= rows[|s| - 1] {
      assert x in rows;
      var i :| 0 <= i < |rows| && rows[i] == x;
      if i < |rows| - 1 {
        assert rows[i] < rows[|rows| - 1];
      }
    }
  }

  /** The guards of the move handlers seen on the ascending rows: the first
      is 0 exactly when row 0 is selected, the last is the last row exactly
      when the last row is selected, and every one is a row of the view. */
  lemma AscendingGuards(s: set<nat>, rowCount: int)
    requires s != {}
    requires forall r :: r in s ==> r < rowCount
    ensures (0 in s) <==> Ascending(s)[0] == 0
    ensures (rowCount - 1 in s) <==> BottomGuard(Ascending(s)[|s| - 1], rowCount)
    ensures forall k :: 0 <= k < |s| ==> Ascending(s)[k] < rowCount
  {
    AscendingEnds(s);
    var asc := Ascending(s);
    var first, last := asc[0], asc[|s| - 1];
    assert first in asc && last in asc;
    assert first in s && last in s;
    if 0 in s {
      assert first <= 0;
    }
    if rowCount - 1 in s {
      assert rowCount - 1 <= last;
    }
    forall k | 0 <= k < |s| ensures asc[k] < rowCount {
      assert asc[k] in asc;
    }
  }

  /** The same for the descending rows of moveDownClicked: the first is the
      last row exactly when the last row is selected. */
  lemma DescendingGuards(s: set<nat>, rowCount: int)
    requires s != {}
    requires forall r :: r in s ==> r < rowCount
    ensures (rowCount - 1 in s) <==> BottomGuard(Descending(s)[0], rowCount)
    ensures Descending(s)[0] < rowCount
  {
    assert Descending(s)[0] == Greatest(s);
  }

  /** The target of the k-th move of moveUp (dir = 1, rows ascending) and
      moveDown (dir = -1, rows descending): one step beyond the first row,
      reset to one step beyond the current row wherever the rows stop being
      consecutive. */
  function RunTarget(rows: seq<int>, k: nat, dir: int): int
    requires k < |rows|
  {
    if k == 0 then rows[0] - dir
    else if rows[k] - rows[k - 1] != dir then rows[k] - dir
    else RunTarget(rows, k - 1, dir)
  }

  /** Every row is moved beside the first row of the run of consecutive
      rows it belongs to. */
  lemma {:induction false} RunTargetIsBesideRunStart(rows: seq<int>, k: nat, dir: int, j: nat)
    requires k < |rows| && j <= k
    requires j == 0 || rows[j] - rows[j - 1] != dir
    requires forall i :: j < i <= k ==> rows[i] - rows[i - 1] == dir
    ensures RunTarget(rows, k, dir) == rows[j] - dir
  {
    if k > 0 && rows[k] - rows[k - 1] == dir {
      RunTargetIsBesideRunStart(rows, k - 1, dir, j);
    }
  }

  /** On rows sorted in the direction of the move, targets stay between one
      step before the first row and one step before the current row. */
  lemma {:induction false} RunTargetBounds(rows: seq<int>, k: nat, dir: int)
    requires k < |rows|
    requires dir == 1 ==> forall i, j :: 0 <= i < j < |rows| ==> rows[i] < rows[j]
    requires dir == -1 ==> forall i, j :: 0 <= i < j < |rows| ==> rows[i] > rows[j]
    ensures dir == 1 ==> rows[0] - 1 <= RunTarget(rows, k, dir) <= rows[k] - 1
    ensures dir == -1 ==> rows[k] + 1 <= RunTarget(rows, k, dir) <= rows[0] + 1
  {
    if k > 0 && rows[k] - rows[k - 1] == dir {
      RunTargetBounds(rows, k - 1, dir);
    }
  }

  /** On ascending rows that do not start at row 0, every moveUp target is
      an existing row above the row it receives. */
  lemma UpTargetsInRange(rows: seq<int>, rowCount: int)
    requires forall i, j :: 0 <= i < j < |rows| ==> rows[i] < rows[j]
    requires |rows| > 0 ==> rows[0] > 0
    requires forall k :: 0 <= k < |rows| ==> rows[k] < rowCount
    ensures forall k :: 0 <= k < |rows| ==> 0 <= RunTarget(rows, k, 1) < rows[k] < rowCount
  {
    forall k | 0 <= k < |rows| ensures 0 <= RunTarget(rows, k, 1) < rows[k] < rowCount {
      RunTargetBounds(rows, k, 1);
    }
  }

  /** On descending rows that do not start at the last row, every moveDown
      source is an existing row below the row it is moved to. */
  lemma DownTargetsInRange(rows: seq<int>, rowCount: int)
    requires forall i, j :: 0 <= i < j < |rows| ==> rows[i] > rows[j]
    requires |rows| > 0 ==> rows[0] < rowCount - 1
    requires forall k :: 0 <= k < |rows| ==> 0 <= rows[k]
    ensures forall k :: 0 <= k < |rows| ==> 0 <= rows[k] < RunTarget(rows, k, -1) < rowCount
  {
    forall k | 0 <= k < |rows| ensures 0 <= rows[k] < RunTarget(rows, k, -1) < rowCount {
      RunTargetBounds(rows, k, -1);
    }
  }

  /** The loop of moveToTopClicked and moveToBottomClicked: the first row
      goes to firstTarget, every later one to before the original first row. */
  method MovesBeforeFirst(rows: seq<nat>, firstTarget: int) returns (moves: seq<Move>)
    ensures |moves| == |rows|
    ensures forall k :: 0 <= k < |moves| ==> moves[k] == Move(rows[k], if k == 0 then firstTarget else rows[0])
  {
    moves := [];
    var rowTarget := firstTarget;
    for item := 0 to |rows|
      invariant |moves| == item
      invariant item >= 2 ==> rowTarget == rows[0]
      invariant item <= 1 ==> rowTarget == firstTarget
      invariant forall k :: 0 <= k < item ==> moves[k] == Move(rows[k], if k == 0 then firstTarget else rows[0])
    {
      if item == 1 {
        rowTarget := rows[item - 1];
      }
      moves := moves + [Move(rows[item], rowTarget)];
    }
  }

  /** The loop of moveUpClicked: each row, in ascending order, goes to its
      target, which is reset to just above the row wherever the rows stop
      being consecutive. */
  method MovesUp(rows: seq<int>, rowCount: int) returns (moves: seq<Move>)
    requires forall i, j :: 0 <= i < j < |rows| ==> rows[i] < rows[j]
    requires |rows| > 0 ==> rows[0] > 0
    requires forall k :: 0 <= k < |rows| ==> rows[k] < rowCount
    ensures |moves| == |rows|
    ensures forall k :: 0 <= k < |rows| ==> moves[k] == Move(rows[k], RunTarget(rows, k, 1))
    ensures forall k :: 0 <= k < |moves| ==> 0 <= moves[k].to < moves[k].from < rowCount
  {
    UpTargetsInRange(rows, rowCount);
    moves := [];
    if |rows| == 0 {
      return;
    }
    var rowTarget := rows[0] - 1;
    for item := 0 to |rows|
      invariant |moves| == item
      invariant item >= 1 ==> rowTarget == RunTarget(rows, item - 1, 1)
      invariant item == 0 ==> rowTarget == rows[0] - 1
      invariant forall k :: 0 <= k < item ==> moves[k] == Move(rows[k], RunTarget(rows, k, 1))
    {
      if item != 0 && rows[item] - rows[item - 1] != 1 {
        rowTarget := rows[item] - 1;
      }
      moves := moves + [Move(rows[item], rowTarget)];
    }
  }

  /** The loop of moveDownClicked: for each row, in descending order, the
      target row is moved to it; the target is reset to just below the row
      wherever the rows stop being consecutive. */
  method MovesDown(rows: seq<int>, rowCount: int) returns (moves: seq<Move>)
    requires forall i, j :: 0 <= i < j < |rows| ==> rows[i] > rows[j]
    requires |rows| > 0 ==> rows[0] < rowCount - 1
    requires forall k :: 0 <= k < |rows| ==> 0 <= rows[k]
    ensures |moves| == |rows|
    ensures forall k :: 0 <= k < |rows| ==> moves[k] == Move(RunTarget(rows, k, -1), rows[k])
    ensures forall k :: 0 <= k < |moves| ==> 0 <= moves[k].to < moves[k].from < rowCount
  {
    DownTargetsInRange(rows, rowCount);
    moves := [];
    if |rows| == 0 {
      return;
    }
    var rowTarget := rows[0] + 1;
    for item := 0 to |rows|
      invariant |moves| == item
      invariant item >= 1 ==> rowTarget == RunTarget(rows, item - 1, -1)
      invariant item == 0 ==> rowTarget == rows[0] + 1
      invariant forall k :: 0 <= k < item ==> moves[k] == Move(RunTarget(rows, k, -1), rows[k])
    {
      if item != 0 && rows[item - 1] - rows[item] != 1 {
        rowTarget := rows[item] + 1;
      }
      moves := moves + [Move(rowTarget, rows[item])];
    }
  }

  /** moveToTopClicked: nothing when the selection holds the first row (and
      the selection is kept); otherwise the first selected row goes to -1
      and every later one to before the original first selected row. */
  method MoveToTopClicked(selected: set<nat>) returns (moves: seq<Move>, clearsSelection: bool)
    ensures selected == {} ==> moves == [] && clearsSelection
    ensures 0 in selected ==> moves == [] && !clearsSelection
    ensures selected != {} && 0 !in selected ==>
              clearsSelection && |moves| == |selected| &&
              var rows := Ascending(selected);
              forall k :: 0 <= k < |moves| ==> moves[k] == Move(rows[k], if k == 0 then -1 else rows[0])
  {
    var rows := Ascending(selected);
    if |rows| == 0 {
      return [], true;
    }
    AscendingEnds(selected);
    assert rows[0] in selected;
    if rows[0] == 0 {
      return [], false;
    }
    moves := MovesBeforeFirst(rows, -1);
    clearsSelection := true;
  }

  /** moveUpClicked: nothing when the selection holds the first row;
      otherwise every selected row goes to just above the run of consecutive
      selected rows it belongs to, which is always an existing row. */
  method MoveUpClicked(selected: set<nat>, rowCount: int) returns (moves: seq<Move>, clearsSelection: bool)
    requires forall r :: r in selected ==> r < rowCount
    ensures selected == {} ==> moves == [] && clearsSelection
    ensures 0 in selected ==> moves == [] && !clearsSelection
    ensures selected != {} && 0 !in selected ==>
              clearsSelection && |moves| == |selected| &&
              var rows := Ascending(selected);
              forall k :: 0 <= k < |moves| ==> moves[k] == Move(rows[k], RunTarget(rows, k, 1))
    ensures forall k :: 0 <= k < |moves| ==> 0 <= moves[k].to < moves[k].from < rowCount
  {
    if selected == {} {
      return [], true;
    }
    AscendingGuards(selected, rowCount);
    var rows := Ascending(selected);
    if rows[0] == 0 {
      return [], false;
    }
    moves := MovesUp(rows, rowCount);
    clearsSelection := true;
  }

  /** The guard of moveDownClicked and moveToBottomClicked as written: the
      bottom-most selected row equals the row count. */
  predicate BottomGuardAsWritten(bottom: int, rowCount: int)
  {
    bottom == rowCount
  }

  /** No selected row is ever equal to the row count, so the guard as
      written never fires: a selection holding the last row goes on, and the
      first move of moveDownClicked then reads row rowCount, which does not
      exist. */
  lemma BottomGuardAsWrittenMovesMissingRow(s: set<nat>, rowCount: int)
    requires s != {}
    requires forall r :: r in s ==> r < rowCount
    requires rowCount - 1 in s
    ensures !BottomGuardAsWritten(Descending(s)[0], rowCount)
    ensures !BottomGuardAsWritten(Ascending(s)[|s| - 1], rowCount)
    ensures RunTarget(Descending(s), 0, -1) == rowCount
  {
    DescendingGuards(s, rowCount);
    AscendingGuards(s, rowCount);
  }

  /** moveToBottomClicked as written: since the guard never fires, a
      selection holding the last row is still moved (the last row itself to
      the end, which changes nothing for it) and the selection is cleared,
      where moveToTopClicked stops for the first row and leaves it selected. */
  method MoveToBottomClickedAsWritten(selected: set<nat>, rowCount: int)
    returns (moves: seq<Move>, clearsSelection: bool)
    requires forall r :: r in selected ==> r < rowCount
    ensures clearsSelection && |moves| == |selected|
    ensures rowCount - 1 in selected ==> moves != []
    ensures var rows := Ascending(selected);
            forall k :: 0 <= k < |moves| ==> moves[k] == Move(rows[k], if k == 0 then rowCount else rows[0])
  {
    var rows := Ascending(selected);
    if |rows| == 0 {
      return [], true;
    }
    AscendingGuards(selected, rowCount);
    if BottomGuardAsWritten(rows[|rows| - 1], rowCount) {
      assert false;
    }
    moves := MovesBeforeFirst(rows, rowCount);
    clearsSelection := true;
  }

  /** The guard as intended: the bottom-most selected row is the last row. */
  predicate BottomGuard(bottom: int, rowCount: int)
  {
    bottom == rowCount - 1
  }

  /** moveDownClicked, with the guard as intended: nothing when the
      selection holds the last row; otherwise, going up from the bottom-most
      selected row, the row just below each run of consecutive selected rows
      is moved to each row of the run. Every moved row exists. */
  method MoveDownClicked(selected: set<nat>, rowCount: int) returns (moves: seq<Move>, clearsSelection: bool)
    requires forall r :: r in selected ==> r < rowCount
    ensures selected == {} ==> moves == [] && clearsSelection
    ensures rowCount - 1 in selected ==> moves == [] && !clearsSelection
    ensures selected != {} && rowCount - 1 !in selected ==>
              clearsSelection && |moves| == |selected| &&
              var rows := Descending(selected);
              forall k :: 0 <= k < |moves| ==> moves[k] == Move(RunTarget(rows, k, -1), rows[k])
    ensures forall k :: 0 <= k < |moves| ==> 0 <= moves[k].to < moves[k].from < rowCount
  {
    var rows := Descending(selected);
    if |rows| == 0 {
      assert selected == {};
      return [], true;
    }
    DescendingGuards(selected, rowCount);
    if BottomGuard(rows[0], rowCount) {
      return [], false;
    }
    assert selected != {} && rowCount - 1 !in selected;
    moves := MovesDown(rows, rowCount);
    clearsSelection := true;
  }

  /** moveToBottomClicked, with the guard as intended: nothing when the
      selection holds the last row; otherwise the first selected row goes to
      the end and every later one to before the original first selected row. */
  method MoveToBottomClicked(selected: set<nat>, rowCount: int) returns (moves: seq<Move>, clearsSelection: bool)
    requires forall r :: r in selected ==> r < rowCount
    ensures selected == {} ==> moves == [] && clearsSelection
    ensures rowCount - 1 in selected ==> moves == [] && !clearsSelection
    ensures selected != {} && rowCount - 1 !in selected ==>
              clearsSelection && |moves| == |selected| &&
              var rows := Ascending(selected);
              forall k :: 0 <= k < |moves| ==> moves[k] == Move(rows[k], if k == 0 then rowCount else rows[0])
  {
    var rows := Ascending(selected);
    if |rows| == 0 {
      return [], true;
    }
    AscendingGuards(selected, rowCount);
    if BottomGuard(rows[|rows| - 1], rowCount) {
      return [], false;
    }
    moves := MovesBeforeFirst(rows, rowCount);
    clearsSelection := true;
  }
}
