/**
  StalledIssuesProxyModel
  (src/MEGASync/stalled_issues/model/StalledIssuesProxyModel.cpp): filters
  the stalled issues by criterion. StalledIssue::getCriterionByReason is not
  part of this model and is a function parameter; so is what the base
  QSortFilterProxyModel::filterAcceptsRow answers for a row without data.
*/
module StalledIssuesProxy {
  import opened StalledIssues

  /** A source row: its data is a valid variant holding an issue, or not
      valid. */
  datatype SourceRow = InvalidRow | IssueRow(issue: StalledIssue)

  /** What filter asks of the source model and of itself, in order. */
  datatype FilterCall = BlockUi | InvalidateFilter | UnblockUi

  /** filterAcceptsRow with the criterion held. */
  predicate Accepts(row: SourceRow, criterion: FilterCriterion,
                    criterionOf: StallReason -> FilterCriterion, baseAccepts: bool)
  {
    match row
    case InvalidRow => baseAccepts
    case IssueRow(issue) => criterion == AllIssues || criterionOf(issue.reason) == criterion
  }

  /** The number of source rows the filter accepts. */
  function AcceptedCount(rows: seq<SourceRow>, criterion: FilterCriterion,
                         criterionOf: StallReason -> FilterCriterion, baseAccepts: bool): (n: nat)
    ensures n <= |rows|
    ensures n == |rows| <==> forall i :: 0 <= i < |rows| ==> Accepts(rows[i], criterion, criterionOf, baseAccepts)
  {
    if rows == [] then 0
    else
      var rest := AcceptedCount(rows[1..], criterion, criterionOf, baseAccepts);
      assert forall i :: 1 <= i < |rows| ==> rows[i] == rows[1..][i - 1];
      (if Accepts(rows[0], criterion, criterionOf, baseAccepts) then 1 else 0) + rest
  }

  class StalledIssuesProxyModel {
    var filterCriterion: FilterCriterion
    var source: seq<SourceRow>

    constructor(source: seq<SourceRow>)
      ensures filterCriterion == AllIssues && this.source == source
    {
      filterCriterion := AllIssues;
      this.source := source;
    }

    predicate FilterAcceptsRow(sourceRow: nat, criterionOf: StallReason -> FilterCriterion, baseAccepts: bool)
      reads this
      requires sourceRow < |source|
    {
      Accepts(source[sourceRow], filterCriterion, criterionOf, baseAccepts)
    }

    /** rowCount: 0 while the source is empty, otherwise the accepted
        rows. */
    function RowCount(criterionOf: StallReason -> FilterCriterion, baseAccepts: bool): (n: nat)
      reads this
      ensures |source| == 0 ==> n == 0
      ensures n <= |source|
      ensures n == |source| <==>
              forall i :: 0 <= i < |source| ==> Accepts(source[i], filterCriterion, criterionOf, baseAccepts)
    {
      if |source| == 0 then 0 else AcceptedCount(source, filterCriterion, criterionOf, baseAccepts)
    }

    /** filter: stores the criterion, and re-filters with the UI blocked
        only when the source has rows. */
    method Filter(c: FilterCriterion) returns (calls: seq<FilterCall>)
      modifies this
      ensures filterCriterion == c && source == old(source)
      ensures calls == if |source| != 0 then [BlockUi, InvalidateFilter, UnblockUi] else []
    {
      filterCriterion := c;
      calls := [];
      if |source| != 0 {
        calls := calls + [BlockUi];
        calls := calls + [InvalidateFilter];
        calls := calls + [UnblockUi];
      }
    }

    /** updateFilter: filter with the criterion already held. */
    method UpdateFilter() returns (calls: seq<FilterCall>)
      modifies this
      ensures filterCriterion == old(filterCriterion) && source == old(source)
      ensures calls == if |source| != 0 then [BlockUi, InvalidateFilter, UnblockUi] else []
    {
      calls := Filter(filterCriterion);
    }
  }

  /** With ALL_ISSUES every row with valid data is accepted, and otherwise
      an issue row is accepted exactly when its reason maps to the
      criterion held. */
  lemma AcceptsByCriterion(issue: StalledIssue, criterion: FilterCriterion,
                           criterionOf: StallReason -> FilterCriterion, baseAccepts: bool)
    ensures criterion == AllIssues ==> Accepts(IssueRow(issue), criterion, criterionOf, baseAccepts)
    ensures criterion != AllIssues ==>
              (Accepts(IssueRow(issue), criterion, criterionOf, baseAccepts) <==> criterionOf(issue.reason) == criterion)
  {
  }

  /** With ALL_ISSUES and every row valid, every source row is shown. */
  lemma {:induction false} AllIssuesShowsEveryValidRow(rows: seq<SourceRow>,
                                                     criterionOf: StallReason -> FilterCriterion, baseAccepts: bool)
    requires forall i :: 0 <= i < |rows| ==> rows[i].IssueRow?
    ensures AcceptedCount(rows, AllIssues, criterionOf, baseAccepts) == |rows|
  {
  }
}
