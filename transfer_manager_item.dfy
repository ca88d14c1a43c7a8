/**
  TransferManagerItem2 (src/MEGASync/gui/TransferManagerItem2.cpp): one row
  of the transfer manager list. updateUi maps a transfer's state, type and
  error to what the row shows; the row's widgets keep whatever a call does
  not overwrite, so they are modelled as a persistent record. Text is
  abstracted to which message is shown; the library's partPer result and
  the transfer API's current speed are parameters.
*/
module TransferManagerItem {
  import opened Wrappers
  import opened TransferData

  const PB_PRECISION: int := 1000

  datatype DirectionIcon = DownloadArrow | UploadArrow | SyncArrows

  /** Refreshed only when a different transfer is displayed: the file-type
      icon and tooltip (both from the file name), the total size and the
      direction icon. */
  datatype Header = Header(filename: string, totalSize: int, direction: DirectionIcon)

  datatype StatusText = NoStatus | Downloading | Uploading | Syncing | Canceled
                      | CompletingText | RetryingText | CompletedText
  datatype StatusPage = PageActive | PagePaused | PageQueued | PageFailed | PageRetry
  datatype RetryMessage = NoRetryMessage | OutOfTransferQuota | OutOfStorageSpace
  datatype SpeedText = NoSpeed | CurrentSpeed(bytesPerSecond: int) | MeanSpeed(bytesPerSecond: int)
  datatype TimeText = NoTime | RemainingTime(seconds: int) | FinishedAt(secondsSinceEpoch: int)
  datatype ButtonIcon = NoIcon | PauseIcon | ResumeIcon | Direction(icon: DirectionIcon)
  datatype PauseTip = NoPauseTip | PauseTransfer | ResumeTransfer
  datatype CancelTip = NoCancelTip | CancelTransfer | ClearTransfer

  /** The row's widgets. */
  datatype Widgets = Widgets(
    header: Option<Header>,
    done: int, permil: int, name: string,
    status: StatusText, statusTip: Option<int>, page: StatusPage, retryMessage: RetryMessage,
    speed: SpeedText, time: TimeText,
    pauseIcon: ButtonIcon, pauseTip: PauseTip, pauseVisible: bool,
    cancelTip: CancelTip, cancelVisible: bool,
    retryTip: Option<int>)

  const InitialWidgets := Widgets(None, 0, 0, [], NoStatus, None, PageActive, NoRetryMessage,
                                  NoSpeed, NoTime, NoIcon, NoPauseTip, true, NoCancelTip, true, None)

  /** The direction icon, chosen by the exact transfer type. */
  function DirectionOf(transferType: Flags): DirectionIcon
  {
    if transferType == TRANSFER_DOWNLOAD || transferType == TRANSFER_LTCPDOWNLOAD then DownloadArrow
    else if transferType == TRANSFER_UPLOAD then UploadArrow
    else SyncArrows
  }

  /** The states updateUi marks as finished: cancelled, failed, completed. */
  predicate Ended(s: TransferState) { s == Cancelled || s == Failed || s == Completed }

  /** The states that can be paused: active, queued, retrying. */
  predicate Running(s: TransferState) { s == Active || s == Queued || s == Retrying }

  /** The pause/resume button is hidden for the states that cannot be
      paused or resumed any more. */
  predicate PauseResumeVisible(s: TransferState)
  {
    s != Cancelled && s != Completing && s != Failed && s != Completed
  }

  /** The cancel/clear button is hidden while completing, and for a sync
      transfer unless it failed or completed. */
  predicate CancelClearVisible(s: TransferState, transferType: Flags)
  {
    s != Completing && (!HasType(transferType, TRANSFER_SYNC) || s == Failed || s == Completed)
  }

  /** The per-mille shown by the progress bar; `partPer` is what the
      library's partPer(transferred, total, 1000) returns for the transfer. */
  function Permil(d: Transfer, partPer: int): int
  {
    if d.state == Completed || d.state == Completing then PB_PRECISION
    else if d.totalSize > 0 then partPer
    else 0
  }

  /** The out-of-quota override: a queued or retrying transfer whose error is
      over-quota. */
  predicate OverQuota(d: Transfer)
  {
    d.errorCode == API_EOVERQUOTA && (d.state == Queued || d.state == Retrying)
  }

  /** The status text: the direction while active, the state's name while
      cancelled, completing, retrying or completed, none otherwise. */
  function StatusOf(d: Transfer): StatusText
  {
    match d.state
    case Active => (match DirectionOf(d.transferType)
                    case DownloadArrow => Downloading
                    case UploadArrow => Uploading
                    case SyncArrows => Syncing)
    case Cancelled => Canceled
    case Completing => CompletingText
    case Retrying => RetryingText
    case Completed => CompletedText
    case _ => NoStatus
  }

  /** The stacked status page selected by the state; a transfer with no
      state leaves the page as it was. */
  function PageOf(s: TransferState, previous: StatusPage): StatusPage
  {
    match s
    case Paused => PagePaused
    case Queued => PageQueued
    case Failed => PageFailed
    case StateNone => previous
    case _ => PageActive
  }

  /** What the switch on the state of updateUi decides. */
  datatype StateChoice = StateChoice(
    status: StatusText, time: TimeText, speed: SpeedText, icon: ButtonIcon,
    pauseTip: PauseTip, cancelTip: CancelTip, showPauseResume: bool, showCancelClear: bool,
    page: Option<StatusPage>, statusTip: Option<int>, retryTip: Option<int>,
    paused: bool, finished: bool)

  /** The switch on the state of updateUi; `icon` is the icon chosen before
      it (the direction icon when a new transfer is displayed). */
  method SwitchOnState(d: Transfer, httpSpeed: nat, icon: ButtonIcon) returns (c: StateChoice)
    ensures c.status == StatusOf(d)
    ensures c.paused <==> d.state == Paused
    ensures c.finished <==> Ended(d.state)
    ensures c.page == (if d.state == StateNone then None else Some(PageOf(d.state, PageActive)))
    ensures c.statusTip == (if d.state == Retrying then Some(d.errorCode) else None)
    ensures c.retryTip == (if d.state == Failed then Some(d.errorCode) else None)
    ensures d.state == Active ==>
              c.speed == CurrentSpeed(if d.speed < httpSpeed then d.speed else httpSpeed) &&
              c.time == (if httpSpeed == 0 || d.speed == 0 then NoTime else RemainingTime(d.remainingTime))
    ensures (Ended(d.state) || d.state == Completing) ==> c.speed == MeanSpeed(d.meanSpeed)
    ensures Ended(d.state) ==> c.time == FinishedAt(d.finishedTime)
    ensures (d.state == StateNone || d.state == Queued || d.state == Paused || d.state == Retrying) ==> c.speed == NoSpeed
    ensures (d.state == StateNone || d.state == Queued || d.state == Paused || d.state == Retrying || d.state == Completing) ==> c.time == NoTime
    ensures c.showPauseResume == PauseResumeVisible(d.state)
    ensures c.showCancelClear <==> d.state != Completing
    ensures c.pauseTip == (if d.state == Paused then ResumeTransfer
                           else if Running(d.state) then PauseTransfer
                           else NoPauseTip)
    ensures c.icon == (if d.state == Paused then ResumeIcon
                       else if Running(d.state) then PauseIcon
                       else icon)
    ensures c.cancelTip == (if Ended(d.state) then ClearTransfer
                            else if (Running(d.state) || d.state == Paused) then CancelTransfer
                            else NoCancelTip)
  {
    c := StateChoice(NoStatus, NoTime, NoSpeed, icon, NoPauseTip, NoCancelTip, true, true,
                     None, None, None, false, false);
    match d.state {
      case Active =>
        var status := match DirectionOf(d.transferType)
                      case DownloadArrow => Downloading
                      case UploadArrow => Uploading
                      case SyncArrows => Syncing;
        var time := if httpSpeed == 0 || d.speed == 0 then NoTime else RemainingTime(d.remainingTime);
        c := c.(status := status, time := time,
                speed := CurrentSpeed(if d.speed < httpSpeed then d.speed else httpSpeed),
                icon := PauseIcon, pauseTip := PauseTransfer, cancelTip := CancelTransfer,
                page := Some(PageActive));
      case Paused =>
        c := c.(icon := ResumeIcon, pauseTip := ResumeTransfer, cancelTip := CancelTransfer,
                page := Some(PagePaused), paused := true);
      case Queued =>
        c := c.(icon := PauseIcon, pauseTip := PauseTransfer, cancelTip := CancelTransfer,
                page := Some(PageQueued));
      case Cancelled =>
        c := c.(status := Canceled, cancelTip := ClearTransfer, time := FinishedAt(d.finishedTime),
                speed := MeanSpeed(d.meanSpeed), showPauseResume := false, page := Some(PageActive),
                finished := true);
      case Completing =>
        c := c.(status := CompletingText, speed := MeanSpeed(d.meanSpeed), showPauseResume := false,
                showCancelClear := false, page := Some(PageActive));
      case Failed =>
        c := c.(page := Some(PageFailed), cancelTip := ClearTransfer, time := FinishedAt(d.finishedTime),
                speed := MeanSpeed(d.meanSpeed), showPauseResume := false, finished := true,
                retryTip := Some(d.errorCode));
      case Retrying =>
        c := c.(status := RetryingText, icon := PauseIcon, pauseTip := PauseTransfer,
                cancelTip := CancelTransfer, statusTip := Some(d.errorCode), page := Some(PageActive));
      case Completed =>
        c := c.(status := CompletedText, cancelTip := ClearTransfer, showPauseResume := false,
                speed := MeanSpeed(d.meanSpeed), time := FinishedAt(d.finishedTime),
                page := Some(PageActive), finished := true);
      case StateNone =>
    }
  }

  /** The page the switch chose, and the over-quota override after it. */
  method ApplyPage(w0: Widgets, c: StateChoice, d: Transfer) returns (page: StatusPage, retryMessage: RetryMessage)
    ensures OverQuota(d) ==> page == PageRetry &&
                             retryMessage == (if d.errorValue != 0 then OutOfTransferQuota else OutOfStorageSpace)
    ensures !OverQuota(d) ==> retryMessage == w0.retryMessage &&
                              page == (if c.page.Some? then c.page.value else w0.page)
  {
    page := w0.page;
    if c.page.Some? {
      page := c.page.value;
    }
    retryMessage := w0.retryMessage;
    if d.errorCode == API_EOVERQUOTA && (d.state == Queued || d.state == Retrying) {
      retryMessage := if d.errorValue != 0 then OutOfTransferQuota else OutOfStorageSpace;
      page := PageRetry;
    }
  }

  /** The tail of updateUi that shows or hides the two buttons with the
      icon and tooltips the switch chose. */
  method ApplyButtons(w0: Widgets, c: StateChoice, d: Transfer)
    returns (pauseIcon: ButtonIcon, pauseTip: PauseTip, cancelTip: CancelTip, showCancelClear: bool)
    ensures c.showPauseResume ==> pauseIcon == c.icon && pauseTip == c.pauseTip
    ensures !c.showPauseResume ==> pauseIcon == w0.pauseIcon && pauseTip == w0.pauseTip
    ensures showCancelClear == (c.showCancelClear &&
                                (!HasType(d.transferType, TRANSFER_SYNC) || d.state == Failed || d.state == Completed))
    ensures cancelTip == if showCancelClear then c.cancelTip else w0.cancelTip
  {
    pauseIcon, pauseTip := w0.pauseIcon, w0.pauseTip;
    if c.showPauseResume {
      pauseIcon, pauseTip := c.icon, c.pauseTip;
    }
    showCancelClear := c.showCancelClear;
    if HasType(d.transferType, TRANSFER_SYNC) && !(d.state == Failed || d.state == Completed) {
      showCancelClear := false;
    }
    cancelTip := w0.cancelTip;
    if showCancelClear {
      cancelTip := c.cancelTip;
    }
  }

  /** The widgets after updateUi, from the widgets before it: the header
      is refreshed only when tagChanged, and the widgets the state does not
      set keep their old content. */
  method ComputeWidgets(w0: Widgets, tagChanged: bool, d: Transfer, httpSpeed: nat, partPer: int)
    returns (w: Widgets)
    ensures tagChanged ==>
              w.header == Some(Header(d.filename, d.totalSize, DirectionOf(d.transferType)))
    ensures !tagChanged ==> w.header == w0.header
    ensures w.done == d.transferredBytes && w.name == d.filename
    ensures w.permil == Permil(d, partPer)
    ensures w.status == StatusOf(d)
    ensures w.statusTip == if d.state == Retrying then Some(d.errorCode) else None
    ensures w.retryTip == if d.state == Failed then Some(d.errorCode) else w0.retryTip
    // the stacked status page, and the over-quota override
    ensures OverQuota(d) ==> w.page == PageRetry
    ensures OverQuota(d) ==> w.retryMessage == if d.errorValue != 0 then OutOfTransferQuota
                                                else OutOfStorageSpace
    ensures !OverQuota(d) ==> w.retryMessage == w0.retryMessage
    ensures !OverQuota(d) ==> w.page == PageOf(d.state, w0.page)
    // speed and time
    ensures d.state == Active ==>
              w.speed == CurrentSpeed(if d.speed < httpSpeed then d.speed else httpSpeed) &&
              w.time == (if httpSpeed == 0 || d.speed == 0 then NoTime else RemainingTime(d.remainingTime))
    ensures (Ended(d.state) || d.state == Completing) ==> w.speed == MeanSpeed(d.meanSpeed)
    ensures Ended(d.state) ==> w.time == FinishedAt(d.finishedTime)
    ensures (d.state == StateNone || d.state == Queued || d.state == Paused || d.state == Retrying) ==>
              w.speed == NoSpeed
    ensures (d.state == StateNone || d.state == Queued || d.state == Paused || d.state == Retrying ||
             d.state == Completing) ==> w.time == NoTime
    // the two buttons
    ensures w.pauseVisible == PauseResumeVisible(d.state)
    ensures w.pauseVisible ==>
              w.pauseTip == (if d.state == Paused then ResumeTransfer
                              else if d.state == StateNone then NoPauseTip else PauseTransfer) &&
              w.pauseIcon == (if d.state == Paused then ResumeIcon
                               else if d.state != StateNone then PauseIcon
                               else if tagChanged then Direction(DirectionOf(d.transferType))
                               else NoIcon)
    ensures !w.pauseVisible ==> w.pauseTip == w0.pauseTip && w.pauseIcon == w0.pauseIcon
    ensures w.cancelVisible == CancelClearVisible(d.state, d.transferType)
    ensures w.cancelVisible ==>
              w.cancelTip == (if Ended(d.state) then ClearTransfer
                               else if d.state == StateNone then NoCancelTip else CancelTransfer)
    ensures !w.cancelVisible ==> w.cancelTip == w0.cancelTip
  {
    var icon := NoIcon;
    var header := w0.header;
    if tagChanged {
      header := Some(Header(d.filename, d.totalSize, DirectionOf(d.transferType)));
      icon := Direction(DirectionOf(d.transferType));
    }

    // The source's mask tests on the state, written as the states they hold
    // (CompletedOrCompletingMask, QueuedOrRetryingMask and
    // FailedOrCompletedMask).
    var finishing := d.state == Completed || d.state == Completing;
    var permil := if finishing then PB_PRECISION
                  else if d.totalSize > 0 then partPer
                  else 0;
    var statusTip := None;

    var c := SwitchOnState(d, httpSpeed, icon);
    if c.statusTip.Some? {
      statusTip := c.statusTip;
    }
    var retryTip := w0.retryTip;
    if c.retryTip.Some? {
      retryTip := c.retryTip;
    }

    var page, retryMessage := ApplyPage(w0, c, d);

    var pauseIcon, pauseTip, cancelTip, showCancelClear := ApplyButtons(w0, c, d);
    w := Widgets(header, d.transferredBytes, permil, d.filename, c.status, statusTip, page,
                 retryMessage, c.speed, c.time, pauseIcon, pauseTip, c.showPauseResume,
                 cancelTip, showCancelClear, retryTip);
  }

  class TransferManagerItem2 {
    var row: int
    var isPaused: bool
    var isFinished: bool
    var transferTag: int
    var ui: Widgets

    constructor()
      ensures row == 0 && !isPaused && !isFinished && transferTag == -1 && ui == InitialWidgets
    {
      row := 0;
      isPaused := false;
      isFinished := false;
      transferTag := -1;
      ui := InitialWidgets;
    }

    /** updateUi. */
    method UpdateUi(d: Transfer, r: int, httpSpeed: nat, partPer: int)
      modifies this
      ensures row == r && transferTag == d.tag
      ensures isPaused <==> d.state == Paused
      ensures isFinished <==> Ended(d.state)
      ensures old(transferTag) != d.tag ==>
                ui.header == Some(Header(d.filename, d.totalSize, DirectionOf(d.transferType)))
      ensures old(transferTag) == d.tag ==> ui.header == old(ui.header)
      ensures ui.done == d.transferredBytes && ui.name == d.filename
      ensures ui.permil == Permil(d, partPer)
      ensures ui.status == StatusOf(d)
      ensures ui.statusTip == if d.state == Retrying then Some(d.errorCode) else None
      ensures ui.retryTip == if d.state == Failed then Some(d.errorCode) else old(ui.retryTip)
      // the stacked status page, and the over-quota override
      ensures OverQuota(d) ==> ui.page == PageRetry
      ensures OverQuota(d) ==> ui.retryMessage == if d.errorValue != 0 then OutOfTransferQuota
                                                  else OutOfStorageSpace
      ensures !OverQuota(d) ==> ui.retryMessage == old(ui.retryMessage)
      ensures !OverQuota(d) ==> ui.page == PageOf(d.state, old(ui.page))
      // speed and time
      ensures d.state == Active ==>
                ui.speed == CurrentSpeed(if d.speed < httpSpeed then d.speed else httpSpeed) &&
                ui.time == (if httpSpeed == 0 || d.speed == 0 then NoTime else RemainingTime(d.remainingTime))
      ensures (Ended(d.state) || d.state == Completing) ==> ui.speed == MeanSpeed(d.meanSpeed)
      ensures Ended(d.state) ==> ui.time == FinishedAt(d.finishedTime)
      ensures (d.state == StateNone || d.state == Queued || d.state == Paused || d.state == Retrying) ==> ui.speed == NoSpeed
      ensures (d.state == StateNone || d.state == Queued || d.state == Paused || d.state == Retrying || d.state == Completing) ==> ui.time == NoTime
      // the two buttons
      ensures ui.pauseVisible == PauseResumeVisible(d.state)
      ensures ui.pauseVisible ==>
                ui.pauseTip == (if d.state == Paused then ResumeTransfer
                                else if d.state == StateNone then NoPauseTip else PauseTransfer) &&
                ui.pauseIcon == (if d.state == Paused then ResumeIcon
                                 else if d.state != StateNone then PauseIcon
                                 else if old(transferTag) != d.tag then Direction(DirectionOf(d.transferType))
                                 else NoIcon)
      ensures !ui.pauseVisible ==> ui.pauseTip == old(ui.pauseTip) && ui.pauseIcon == old(ui.pauseIcon)
      ensures ui.cancelVisible == CancelClearVisible(d.state, d.transferType)
      ensures ui.cancelVisible ==>
                ui.cancelTip == (if Ended(d.state) then ClearTransfer
                                 else if d.state == StateNone then NoCancelTip else CancelTransfer)
      ensures !ui.cancelVisible ==> ui.cancelTip == old(ui.cancelTip)
    {
      row := r;
      isPaused := d.state == Paused;
      isFinished := Ended(d.state);
      var tagChanged := transferTag != d.tag;
      if tagChanged {
        transferTag := d.tag;
      }
      ui := ComputeWidgets(ui, tagChanged, d, httpSpeed, partPer);
    }

    /** The pause/resume click asks to resume a paused transfer and to pause
        any other one, for the displayed row. */
    method OnPauseResumeClicked() returns (r: int, pause: bool)
      ensures r == row && pause == !isPaused
    {
      return row, !isPaused;
    }

    /** The cancel/clear click names the displayed row. */
    method OnCancelClearClicked() returns (r: int)
      ensures r == row
    {
      return row;
    }

    /** The retry click names the displayed transfer by its tag. */
    method OnRetryClicked() returns (tag: int)
      ensures tag == transferTag
    {
      return transferTag;
    }
  }

  /** The pause/resume button is offered for every transfer that is neither
      finished nor completing. */
  lemma PauseOfferedUntilFinished(s: TransferState)
    ensures PauseResumeVisible(s) <==> !IsFinished(s) && s != Completing
  {
    FinishedStates(s);
  }

  /** A finished transfer always offers its clear button, except a sync
      transfer that was cancelled. */
  lemma FinishedRowsCanBeCleared(s: TransferState, transferType: Flags)
    requires IsFinished(s)
    ensures CancelClearVisible(s, transferType) <==> !(HasType(transferType, TRANSFER_SYNC) && s == Cancelled)
  {
    FinishedStates(s);
  }
}
