/**
  TransferItem2 (src/MEGASync/gui/TransferItem2.cpp): a list item that holds
  the transfer's data and overwrites fields of it when the SDK reports that
  the transfer finished or was updated.
*/
module TransferItem {
  import opened TransferData

  class TransferItem2 {
    var d: Transfer

    constructor (data: Transfer)
      ensures d == data
    {
      d := data;
    }

    /** Speed and remaining time drop to 0; the other reported values are
        stored; priority, name, size, tag and types are kept. */
    method UpdateValuesTransferFinished(finishTime: int, errorCode: int, errorValue: int,
                                        meanSpeed: int, state: TransferState,
                                        transferredBytes: int, parentHandle: int,
                                        nodeHandle: int, publicNode: int)
      modifies this
      ensures d.speed == 0 && d.remainingTime == 0
      ensures d.finishedTime == finishTime && d.errorCode == errorCode
      ensures d.errorValue == errorValue && d.meanSpeed == meanSpeed && d.state == state
      ensures d.transferredBytes == transferredBytes && d.parentHandle == parentHandle
      ensures d.nodeHandle == nodeHandle && d.publicNode == publicNode
      ensures d.priority == old(d.priority) && d.filename == old(d.filename)
      ensures d.totalSize == old(d.totalSize) && d.tag == old(d.tag)
      ensures d.transferType == old(d.transferType) && d.fileType == old(d.fileType)
      ensures d.temporaryError == old(d.temporaryError)
    {
      d := d.(finishedTime := finishTime, errorCode := errorCode, state := state,
              errorValue := errorValue, remainingTime := 0, speed := 0,
              meanSpeed := meanSpeed, transferredBytes := transferredBytes,
              parentHandle := parentHandle, nodeHandle := nodeHandle,
              publicNode := publicNode);
    }

    /** Stores the reported progress values including the new priority; the
        finished time and the handles are kept. */
    method UpdateValuesTransferUpdated(remainingTime: int, errorCode: int, errorValue: int,
                                       meanSpeed: int, speed: int, priority: int,
                                       state: TransferState, transferredBytes: int,
                                       publicNode: int)
      modifies this
      ensures d.state == state && d.remainingTime == remainingTime
      ensures d.errorCode == errorCode && d.errorValue == errorValue
      ensures d.speed == speed && d.meanSpeed == meanSpeed
      ensures d.transferredBytes == transferredBytes && d.priority == priority
      ensures d.publicNode == publicNode
      ensures d.finishedTime == old(d.finishedTime) && d.parentHandle == old(d.parentHandle)
      ensures d.nodeHandle == old(d.nodeHandle)
      ensures d.filename == old(d.filename) && d.totalSize == old(d.totalSize) && d.tag == old(d.tag)
      ensures d.transferType == old(d.transferType) && d.fileType == old(d.fileType)
      ensures d.temporaryError == old(d.temporaryError)
    {
      d := d.(state := state, remainingTime := remainingTime, errorCode := errorCode,
              errorValue := errorValue, speed := speed, meanSpeed := meanSpeed,
              transferredBytes := transferredBytes, priority := priority,
              publicNode := publicNode);
    }
  }
}
