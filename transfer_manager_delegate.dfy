/**
  TransferManagerDelegateWidget
  (src/MEGASync/transfers/gui/TransferManagerDelegateWidget.cpp): the newer
  row widget of the transfer manager. updateTransferState rewrites the
  status, the buttons and the labels that depend on the state only when the
  state has changed, and sizes, progress, speed and time on every call.
  stateHasChanged(), the library's partPer result, isMouseHoverInAction and
  setActionTransferIcon's "icon changed" answers are parameters.
*/
module TransferManagerDelegate {
  import opened Wrappers
  import opened TransferData
  import TransferManagerItem

  /** The default pause/resume icon the widget remembers. */
  datatype PauseIconName = NoIconName | PauseDefault | PauseSelected

  datatype StatusText = NoStatus | Starting | Downloading | Uploading | Syncing
                      | CompletingText | RetryingText | CompletedText
  datatype StatusPage = PageActive | PagePaused | PagePausedQueued | PageQueued | PageFailed | PageRetry
  datatype RetryMessage = NoRetryMessage | OutOfTransferQuota | OutOfStorageSpace
  datatype SpeedText = NoSpeed | Ellipsis | Speed(bytesPerSecond: int)
  datatype TimeText = NoTime | RemainingTime(seconds: int) | FinishedAt(secondsSinceEpoch: int)
  datatype PauseTip = NoPauseTip | PauseTransfer | ResumeTransfer
  datatype CancelTip = NoCancelTip | CancelTransfer | ClearTransfer

  /** The row's widgets. */
  datatype Widgets = Widgets(
    status: StatusText, statusTip: StatusText,
    pauseIcon: PauseIconName, pauseTip: PauseTip, pauseVisible: bool,
    cancelTip: CancelTip, cancelVisible: bool,
    doneVisible: bool, progressVisible: bool, page: StatusPage, retryMessage: RetryMessage,
    retryVisible: bool, failedTip: Option<int>,
    done: int, total: int, permil: int, speed: SpeedText, time: TimeText)

  const InitialWidgets := Widgets(NoStatus, NoStatus, NoIconName, NoPauseTip, true, NoCancelTip, true,
                                  true, true, PageActive, NoRetryMessage, true, None, 0, 0, 0, NoSpeed, NoTime)

  /** The pause/resume button is hidden while completing and for a failed or
      completed transfer; a cancelled one is removed from the model at once,
      so its row keeps the button. */
  predicate PauseResumeVisible(s: TransferState)
  {
    s != Completing && s != Failed && s != Completed
  }

  /** The status text when the state changed: an active transfer that has
      not transferred anything yet is "starting", otherwise it names its
      direction by the exact type. */
  function StatusOf(d: Transfer): StatusText
  {
    match d.state
    case Active =>
      if d.transferredBytes == 0 then Starting
      else if d.transferType == TRANSFER_DOWNLOAD || d.transferType == TRANSFER_LTCPDOWNLOAD then Downloading
      else if d.transferType == TRANSFER_UPLOAD then Uploading
      else Syncing
    case Completing => CompletingText
    case Retrying => RetryingText
    case Completed => CompletedText
    case _ => NoStatus
  }

  /** The default pause/resume icon after a state change. */
  function IconNameOf(s: TransferState, previous: PauseIconName): PauseIconName
  {
    match s
    case Active => PauseDefault
    case Queued => PauseDefault
    case Retrying => PauseDefault
    case Paused => PauseSelected
    case Completing => NoIconName
    case Failed => NoIconName
    case Completed => NoIconName
    case _ => previous
  }

  /** The stacked status page after a state change, before the over-quota
      override. */
  function PageOf(d: Transfer, previous: StatusPage): StatusPage
  {
    match d.state
    case Active => PageActive
    case Paused => if d.transferredBytes != 0 then PagePaused else PagePausedQueued
    case Queued => PageQueued
    case Completing => PageActive
    case Failed => PageFailed
    case Retrying => PageActive
    case Completed => PageActive
    case _ => previous
  }

  /** The over-quota override: a retrying transfer on every call, a queued
      one only when its state changed. */
  predicate OverQuota(d: Transfer, stateChanged: bool)
  {
    d.errorCode == API_EOVERQUOTA && (d.state == Retrying || (d.state == Queued && stateChanged))
  }

  function SpeedOf(d: Transfer): SpeedText
  {
    match d.state
    case Active => if d.totalSize == d.transferredBytes then Ellipsis else Speed(d.speed)
    case Paused => Ellipsis
    case Completing => Ellipsis
    case Failed => Ellipsis
    case Completed => Speed(d.speed)
    case _ => NoSpeed
  }

  function TimeOf(d: Transfer): TimeText
  {
    match d.state
    case Active => if d.speed == 0 then NoTime else RemainingTime(d.remainingTime)
    case Failed => FinishedAt(d.finishedTime)
    case Completed => FinishedAt(d.finishedTime)
    case _ => NoTime
  }

  /** The pause/resume tooltip a state sets when it changes. */
  function PauseTipOf(s: TransferState): PauseTip
  {
    if s == Paused then ResumeTransfer
    else if s == Active || s == Queued || s == Retrying then PauseTransfer
    else NoPauseTip
  }

  /** The cancel/clear tooltip a state sets when it changes. */
  function CancelTipOf(s: TransferState): CancelTip
  {
    if s == Failed || s == Completed then ClearTransfer
    else if s == Active || s == Paused || s == Queued || s == Retrying then CancelTransfer
    else NoCancelTip
  }

  /** Whether the progress bar shows after a state change. */
  function ProgressOf(s: TransferState, previous: bool): bool
  {
    match s
    case Active => true
    case Paused => true
    case Queued => true
    case Completing => true
    case Failed => false
    case Completed => false
    case _ => previous
  }

  /** What the switch over the state decides, before it is applied. */
  datatype StateChoice = StateChoice(
    status: StatusText, time: TimeText, speed: SpeedText, pauseTip: PauseTip, cancelTip: CancelTip,
    showPauseResume: bool, showCancelClear: bool, name: PauseIconName, page: StatusPage,
    retryMessage: RetryMessage, progressVisible: bool, retryVisible: bool, failedTip: Option<int>)

  /** The over-quota override the switch applies. */
  function OverQuotaMessage(d: Transfer): RetryMessage
  {
    if d.errorValue != 0 then OutOfTransferQuota else OutOfStorageSpace
  }

  /** The blocks of the switch over the state that run only when the state
      changed. In each case of the switch they come before the statements
      that run on every call, and the two write different locals except for
      the page and retry message of a retrying transfer, which EveryCallCases
      then overrides. */
  method StateChangedCases(c0: StateChoice, d: Transfer) returns (c: StateChoice)
    ensures c.status == StatusOf(d)
    ensures c.pauseTip == PauseTipOf(d.state) && c.cancelTip == CancelTipOf(d.state)
    ensures c.showPauseResume <==> PauseResumeVisible(d.state)
    ensures c.showCancelClear <==> d.state != Completing
    ensures c.name == IconNameOf(d.state, c0.name)
    ensures c.progressVisible == ProgressOf(d.state, c0.progressVisible)
    ensures c.retryVisible == if d.state == Failed then !d.temporaryError else c0.retryVisible
    ensures c.failedTip == if d.state == Failed then Some(d.errorCode) else c0.failedTip
    ensures d.state == Queued && d.errorCode == API_EOVERQUOTA ==>
              c.page == PageRetry && c.retryMessage == OverQuotaMessage(d)
    ensures !(d.state == Queued && d.errorCode == API_EOVERQUOTA) ==>
              c.page == PageOf(d, c0.page) && c.retryMessage == c0.retryMessage
    ensures c.time == c0.time && c.speed == c0.speed
  {
    var status := NoStatus;
    var pauseTip, cancelTip := NoPauseTip, NoCancelTip;
    var showPauseResume, showCancelClear := true, true;
    var name, page, retryMessage := c0.name, c0.page, c0.retryMessage;
    var progressVisible, retryVisible, failedTip := c0.progressVisible, c0.retryVisible, c0.failedTip;
    match d.state {
      case Active =>
        status := if d.transferredBytes == 0 then Starting
                  else if d.transferType == TRANSFER_DOWNLOAD || d.transferType == TRANSFER_LTCPDOWNLOAD
                  then Downloading
                  else if d.transferType == TRANSFER_UPLOAD then Uploading
                  else Syncing;
        name, pauseTip, cancelTip := PauseDefault, PauseTransfer, CancelTransfer;
        progressVisible, page := true, PageActive;
      case Paused =>
        name, pauseTip, cancelTip := PauseSelected, ResumeTransfer, CancelTransfer;
        progressVisible := true;
        page := if d.transferredBytes != 0 then PagePaused else PagePausedQueued;
      case Queued =>
        name, pauseTip, cancelTip := PauseDefault, PauseTransfer, CancelTransfer;
        progressVisible, page := true, PageQueued;
        if d.errorCode == API_EOVERQUOTA {
          retryMessage := if d.errorValue != 0 then OutOfTransferQuota else OutOfStorageSpace;
          page := PageRetry;
        }
      case Cancelled =>
      case Completing =>
        status, showPauseResume, showCancelClear := CompletingText, false, false;
        progressVisible, page, name := true, PageActive, NoIconName;
      case Failed =>
        name, page, retryVisible := NoIconName, PageFailed, !d.temporaryError;
        progressVisible, cancelTip, failedTip := false, ClearTransfer, Some(d.errorCode);
        showPauseResume := false;
      case Retrying =>
        status, name, pauseTip, cancelTip := RetryingText, PauseDefault, PauseTransfer, CancelTransfer;
        page := PageActive;
      case Completed =>
        status, cancelTip, showPauseResume := CompletedText, ClearTransfer, false;
        progressVisible, name, page := false, NoIconName, PageActive;
      case StateNone =>
    }
    c := StateChoice(status, c0.time, c0.speed, pauseTip, cancelTip, showPauseResume, showCancelClear, name,
                     page, retryMessage, progressVisible, retryVisible, failedTip);
  }

  /** The statements of the switch that run on every call: time, speed and
      the over-quota override of a retrying transfer. */
  method EveryCallCases(c0: StateChoice, d: Transfer) returns (c: StateChoice)
    ensures c.time == TimeOf(d) && c.speed == SpeedOf(d)
    ensures d.state == Retrying && d.errorCode == API_EOVERQUOTA ==>
              c == c0.(time := c.time, speed := c.speed, page := PageRetry, retryMessage := OverQuotaMessage(d))
    ensures !(d.state == Retrying && d.errorCode == API_EOVERQUOTA) ==>
              c == c0.(time := c.time, speed := c.speed)
  {
    var time, speed := NoTime, NoSpeed;
    var page, retryMessage := c0.page, c0.retryMessage;
    match d.state {
      case Active =>
        if d.speed != 0 {
          time := RemainingTime(d.remainingTime);
        }
        speed := if d.totalSize == d.transferredBytes then Ellipsis else Speed(d.speed);
      case Paused =>
        speed := Ellipsis;
      case Queued =>
      case Cancelled =>
      case Completing =>
        speed := Ellipsis;
      case Failed =>
        time, speed := FinishedAt(d.finishedTime), Ellipsis;
      case Retrying =>
        if d.errorCode == API_EOVERQUOTA {
          retryMessage := if d.errorValue != 0 then OutOfTransferQuota else OutOfStorageSpace;
          page := PageRetry;
        }
      case Completed =>
        speed, time := Speed(d.speed), FinishedAt(d.finishedTime);
      case StateNone =>
    }
    c := c0.(time := time, speed := speed, page := page, retryMessage := retryMessage);
  }

  /** The switch over the state in updateTransferState. */
  method SwitchOnState(w0: Widgets, name0: PauseIconName, d: Transfer, stateChanged: bool)
    returns (c: StateChoice)
    ensures stateChanged ==> c.status == StatusOf(d)
    ensures c.time == TimeOf(d) && c.speed == SpeedOf(d)
    ensures stateChanged ==> c.pauseTip == PauseTipOf(d.state) && c.cancelTip == CancelTipOf(d.state)
    ensures stateChanged ==> (c.showPauseResume <==> PauseResumeVisible(d.state))
    ensures stateChanged ==> (c.showCancelClear <==> d.state != Completing)
    ensures c.name == if stateChanged then IconNameOf(d.state, name0) else name0
    ensures c.progressVisible == if stateChanged then ProgressOf(d.state, w0.progressVisible) else w0.progressVisible
    ensures c.retryVisible == if stateChanged && d.state == Failed then !d.temporaryError else w0.retryVisible
    ensures c.failedTip == if stateChanged && d.state == Failed then Some(d.errorCode) else w0.failedTip
    ensures OverQuota(d, stateChanged) ==> c.page == PageRetry && c.retryMessage == OverQuotaMessage(d)
    ensures !OverQuota(d, stateChanged) ==>
              c.retryMessage == w0.retryMessage &&
              c.page == (if stateChanged then PageOf(d, w0.page) else w0.page)
  {
    c := StateChoice(NoStatus, NoTime, NoSpeed, NoPauseTip, NoCancelTip, true, true, name0, w0.page,
                     w0.retryMessage, w0.progressVisible, w0.retryVisible, w0.failedTip);
    if stateChanged {
      c := StateChangedCases(c, d);
    }
    c := EveryCallCases(c, d);
  }

  /** The widgets and remembered icon after updateTransferState, from those
      before it. */
  method ComputeWidgets(w0: Widgets, name0: PauseIconName, d: Transfer, stateChanged: bool, partPer: int)
    returns (w: Widgets, name: PauseIconName)
    // rewritten only when the state changed
    ensures !stateChanged ==>
              name == name0 &&
              w == w0.(done := d.transferredBytes, total := d.totalSize, permil := w.permil,
                       speed := w.speed, time := w.time,
                       retryMessage := w.retryMessage, page := w.page)
    ensures stateChanged ==> name == IconNameOf(d.state, name0)
    ensures stateChanged ==> w.status == StatusOf(d) && w.statusTip == StatusOf(d)
    ensures stateChanged ==> w.pauseVisible == PauseResumeVisible(d.state)
    ensures stateChanged && w.pauseVisible ==> w.pauseIcon == name && w.pauseTip == PauseTipOf(d.state)
    ensures !(stateChanged && w.pauseVisible) ==> w.pauseIcon == w0.pauseIcon && w.pauseTip == w0.pauseTip
    ensures stateChanged ==> w.cancelVisible == TransferManagerItem.CancelClearVisible(d.state, d.transferType)
    ensures stateChanged && w.cancelVisible ==> w.cancelTip == CancelTipOf(d.state)
    ensures !(stateChanged && w.cancelVisible) ==> w.cancelTip == w0.cancelTip
    ensures stateChanged ==> (w.doneVisible <==> !IsFinished(d.state))
    ensures !stateChanged ==> w.doneVisible == w0.doneVisible
    ensures w.progressVisible == if stateChanged then ProgressOf(d.state, w0.progressVisible) else w0.progressVisible
    ensures w.retryVisible == if stateChanged && d.state == Failed then !d.temporaryError else w0.retryVisible
    ensures w.failedTip == if stateChanged && d.state == Failed then Some(d.errorCode) else w0.failedTip
    ensures OverQuota(d, stateChanged) ==>
              w.page == PageRetry &&
              w.retryMessage == OverQuotaMessage(d)
    ensures !OverQuota(d, stateChanged) ==>
              w.retryMessage == w0.retryMessage &&
              w.page == (if stateChanged then PageOf(d, w0.page) else w0.page)
    // rewritten on every call
    ensures w.done == d.transferredBytes && w.total == d.totalSize
    ensures w.permil == TransferManagerItem.Permil(d, partPer)
    ensures w.speed == SpeedOf(d) && w.time == TimeOf(d)
  {
    var c := SwitchOnState(w0, name0, d, stateChanged);
    name := c.name;
    var status, statusTip := w0.status, w0.statusTip;
    var pauseIcon, pauseTip, pauseVisible := w0.pauseIcon, w0.pauseTip, w0.pauseVisible;
    var cancelTip, cancelVisible := w0.cancelTip, w0.cancelVisible;
    var doneVisible := w0.doneVisible;
    if stateChanged {
      // the error tooltip a retrying transfer set in the switch is overwritten here
      status, statusTip := c.status, c.status;
      if c.showPauseResume {
        pauseIcon, pauseTip := name, c.pauseTip;
      }
      pauseVisible := c.showPauseResume;
      var showCancelClear := c.showCancelClear;
      if HasType(d.transferType, TRANSFER_SYNC) && !(d.state == Failed || d.state == Completed) {
        showCancelClear := false;
      }
      if showCancelClear {
        cancelTip := c.cancelTip;
      }
      cancelVisible := showCancelClear;
      FinishedStates(d.state);
      doneVisible := !(d.state == Completed || d.state == Cancelled || d.state == Failed);
    }
    var finishing := d.state == Completed || d.state == Completing;
    var permil := if finishing then TransferManagerItem.PB_PRECISION
                  else if d.totalSize > 0 then partPer
                  else 0;
    w := Widgets(status, statusTip, pauseIcon, pauseTip, pauseVisible, cancelTip, cancelVisible,
                 doneVisible, c.progressVisible, c.page, c.retryMessage, c.retryVisible, c.failedTip,
                 d.transferredBytes, d.totalSize, permil, c.speed, c.time);
  }

  datatype HoverType = HoverNone | HoverEnter | HoverLeave
  datatype ActionIcon = MinusDefault | MinusHover | CancelDefault | CancelHover
                      | PauseHover | PauseHoverSelected | DefaultPauseIcon(name: PauseIconName)

  class TransferManagerDelegateWidget {
    var pauseResumeDefaultIconName: PauseIconName
    var ui: Widgets

    constructor()
      ensures pauseResumeDefaultIconName == NoIconName && ui == InitialWidgets
    {
      pauseResumeDefaultIconName := NoIconName;
      ui := InitialWidgets;
    }

    /** updateTransferState. */
    method UpdateTransferState(d: Transfer, stateChanged: bool, partPer: int)
      modifies this
      ensures !stateChanged ==>
                pauseResumeDefaultIconName == old(pauseResumeDefaultIconName) &&
                ui == old(ui).(done := d.transferredBytes, total := d.totalSize, permil := ui.permil,
                               speed := ui.speed, time := ui.time,
                               retryMessage := ui.retryMessage, page := ui.page)
      ensures stateChanged ==> pauseResumeDefaultIconName == IconNameOf(d.state, old(pauseResumeDefaultIconName))
      ensures stateChanged ==> ui.status == StatusOf(d) && ui.statusTip == StatusOf(d)
      ensures stateChanged ==> ui.pauseVisible == PauseResumeVisible(d.state)
      ensures stateChanged && ui.pauseVisible ==>
                ui.pauseIcon == pauseResumeDefaultIconName && ui.pauseTip == PauseTipOf(d.state)
      ensures !(stateChanged && ui.pauseVisible) ==> ui.pauseIcon == old(ui.pauseIcon) && ui.pauseTip == old(ui.pauseTip)
      ensures stateChanged ==> ui.cancelVisible == TransferManagerItem.CancelClearVisible(d.state, d.transferType)
      ensures stateChanged && ui.cancelVisible ==> ui.cancelTip == CancelTipOf(d.state)
      ensures !(stateChanged && ui.cancelVisible) ==> ui.cancelTip == old(ui.cancelTip)
      ensures stateChanged ==> (ui.doneVisible <==> !IsFinished(d.state))
      ensures ui.progressVisible ==
              if stateChanged then ProgressOf(d.state, old(ui.progressVisible)) else old(ui.progressVisible)
      ensures ui.retryVisible == if stateChanged && d.state == Failed then !d.temporaryError else old(ui.retryVisible)
      ensures ui.failedTip == if stateChanged && d.state == Failed then Some(d.errorCode) else old(ui.failedTip)
      ensures OverQuota(d, stateChanged) ==>
                ui.page == PageRetry &&
                ui.retryMessage == OverQuotaMessage(d)
      ensures !OverQuota(d, stateChanged) ==>
                ui.retryMessage == old(ui.retryMessage) &&
                ui.page == (if stateChanged then PageOf(d, old(ui.page)) else old(ui.page))
      ensures ui.done == d.transferredBytes && ui.total == d.totalSize
      ensures ui.permil == TransferManagerItem.Permil(d, partPer)
      ensures ui.speed == SpeedOf(d) && ui.time == TimeOf(d)
    {
      var w, name := ComputeWidgets(ui, pauseResumeDefaultIconName, d, stateChanged, partPer);
      ui := w;
      pauseResumeDefaultIconName := name;
    }

    /** mouseHoverTransfer: the icons requested for the cancel/clear and the
        pause/resume buttons (both are always requested), and the hover
        result. `cancelChanged` and `pauseChanged` are what
        setActionTransferIcon answers for the two requests. */
    method MouseHoverTransfer(data: Option<Transfer>, isHover: bool,
                              inCancelClear: bool, inPauseResume: bool, inRetry: bool,
                              cancelChanged: bool, pauseChanged: bool)
      returns (hover: HoverType, cancelIcon: Option<ActionIcon>, pauseIcon: Option<ActionIcon>)
      ensures data.None? ==> hover == HoverNone && cancelIcon.None? && pauseIcon.None?
      ensures data.Some? ==> cancelIcon.Some? && pauseIcon.Some?
      ensures data.Some? ==>
                var completed := IsFinished(data.value.state) && data.value.state != Failed;
                cancelIcon.value == (if completed then (if isHover && inCancelClear then MinusHover else MinusDefault)
                                     else (if isHover && inCancelClear then CancelHover else CancelDefault))
      ensures data.Some? ==>
                pauseIcon.value == (if isHover && inPauseResume
                                    then (if data.value.state == Paused then PauseHoverSelected else PauseHover)
                                    else DefaultPauseIcon(pauseResumeDefaultIconName))
      ensures data.Some? && isHover ==>
                hover == (if inCancelClear || inPauseResume || inRetry then HoverEnter
                          else if cancelChanged || pauseChanged then HoverLeave
                          else HoverNone)
      ensures data.Some? && !isHover ==>
                (hover == HoverLeave <==> cancelChanged || pauseChanged) && hover != HoverEnter
    {
      var update := false;
      hover := HoverNone;
      if data.None? {
        return hover, None, None;
      }
      var d := data.value;
      var isCompleted := IsFinished(d.state) && d.state != Failed;
      if isHover {
        if isCompleted {
          cancelIcon := Some(if inCancelClear then MinusHover else MinusDefault);
        } else {
          cancelIcon := Some(if inCancelClear then CancelHover else CancelDefault);
        }
        update := cancelChanged;
        var hoverPauseResume := if d.state == Paused then PauseHoverSelected else PauseHover;
        pauseIcon := Some(if inPauseResume then hoverPauseResume else DefaultPauseIcon(pauseResumeDefaultIconName));
        update := update || pauseChanged;
        if inCancelClear || inPauseResume || inRetry {
          hover := HoverEnter;
        } else if update {
          hover := HoverLeave;
        }
      } else {
        cancelIcon := Some(if isCompleted then MinusDefault else CancelDefault);
        update := cancelChanged;
        pauseIcon := Some(DefaultPauseIcon(pauseResumeDefaultIconName));
        update := update || pauseChanged;
        if update {
          hover := HoverLeave;
        }
      }
    }

    /** The cancel/clear click tells whether the transfer is finished (so
        that it is cleared rather than cancelled). */
    method OnCancelClearClicked(d: Transfer) returns (finished: bool)
      ensures finished <==> d.state == Completed || d.state == Cancelled || d.state == Failed
    {
      FinishedStates(d.state);
      finished := IsFinished(d.state);
    }
  }

  /** The two row widgets agree on the pause/resume button except for a
      cancelled transfer, which only the newer one keeps (it is removed from
      the model straight away). */
  lemma PauseVisibilityDiffersOnlyWhenCancelled(s: TransferState)
    ensures PauseResumeVisible(s) != TransferManagerItem.PauseResumeVisible(s) <==> s == Cancelled
  {
  }
}
