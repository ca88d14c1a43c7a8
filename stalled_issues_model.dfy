/**
  StalledIssuesReceiver::StalledIssuesReceived
  (src/MEGASync/stalled_issues/model/StalledIssuesModel.h): the batch of new,
  updated and deleted issues handed from the receiver to the model.
*/
module StalledIssuesModel {
  import opened StalledIssues

  class StalledIssuesReceived {
    var newStalledIssues: seq<StalledIssueVariant>
    var updateStalledIssues: seq<StalledIssueVariant>
    var deleteStalledIssues: seq<StalledIssueVariant>

    constructor()
      ensures newStalledIssues == [] && updateStalledIssues == [] && deleteStalledIssues == []
    {
      newStalledIssues, updateStalledIssues, deleteStalledIssues := [], [], [];
    }

    predicate IsEmpty()
      reads this
    {
      |newStalledIssues| == 0 && |updateStalledIssues| == 0 && |deleteStalledIssues| == 0
    }

    /** The number of issues in the batch. */
    function Size(): (n: nat)
      reads this
      ensures n == 0 <==> IsEmpty()
    {
      |newStalledIssues| + |updateStalledIssues| + |deleteStalledIssues|
    }

    /** clear: afterwards the batch is empty; on an empty batch it changes
        nothing, so clearing twice is clearing once. */
    method Clear()
      modifies this
      ensures newStalledIssues == [] && updateStalledIssues == [] && deleteStalledIssues == []
      ensures IsEmpty() && Size() == 0
      ensures old(IsEmpty()) ==>
                newStalledIssues == old(newStalledIssues) &&
                updateStalledIssues == old(updateStalledIssues) &&
                deleteStalledIssues == old(deleteStalledIssues)
    {
      newStalledIssues := [];
      updateStalledIssues := [];
      deleteStalledIssues := [];
    }
  }
}
