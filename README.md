# MEGAsync transfer and stalled-issue UI rules, modelled in Dafny

This project models the rules inside the MEGAsync desktop client's Qt view
layer. That layer decides:

- which transfers the transfer manager lists and in what order;
- what each transfer row shows;
- which context-menu actions the selection offers;
- which moves the move-to-top, up, down and bottom actions plan;
- which stalled sync issues the issues list shows;
- how file and folder attribute requests are throttled and answered;
- how a button's icon file name is built from its state.

Each component is one module, in one file:

| file | module | models |
|---|---|---|
| `wrappers.dfy` | `Wrappers` | `Option` |
| `text.dfy` | `Text` | ASCII case folding, substring search, lexicographic order on file names |
| `transfer_data.dfy` | `TransferData` | the transfer record; its state, type and file-type bits; `STATE_MASK` and `TYPE_MASK` |
| `transfer_item.dfy` | `TransferItem` | `TransferItem2`: the in-place record updates when a transfer finishes or progresses |
| `transfers_proxy.dfy` | `TransfersProxy` | `TransfersSortFilterProxyModel`: mask setters, filter, order, the `moveRows` loop |
| `transfers_manager_proxy.dfy` | `TransfersManagerProxy` | `TransfersManagerSortFilterProxyModel`: staged filters, search-hit tag sets, three-mode order, paused counts, pause and open decisions |
| `transfer_view.dfy` | `TransferView` | `MegaTransferView`: state selection, the single-transfer test, cancel/clear order, context-menu flags and visibility, move plans |
| `transfer_manager_item.dfy` | `TransferManagerItem` | `TransferManagerItem2`: the per-row decision table and click outputs |
| `transfer_manager_delegate.dfy` | `TransferManagerDelegate` | `TransferManagerDelegateWidget`: the per-row decision table, hover result and cancel/clear click |
| `stalled_issue.dfy` | `StalledIssues` | filter criterion, path, stalled issue with its copy constructor, identity-compared variant |
| `stalled_issues_model.dfy` | `StalledIssuesModel` | the received-issues batch (`isEmpty`, `clear`) |
| `stalled_issues_proxy.dfy` | `StalledIssuesProxy` | `StalledIssuesProxyModel`: row count, filter, criterion test |
| `file_folder_attributes.dfy` | `FileFolderAttributes` | pending requests, the 2000 ms refresh throttle, size and time callbacks, `getNode`, size and modified-time folds |
| `button_icon_manager.dfy` | `ButtonIconManager` | icon-name splitting, resource path, suffix choice, `addButton` and the paint-time check-state latch |

## How the model is written

State bits and masks are `bv32` values. The `TransferData` enum values are
not part of the model, so each state and type gets its own single bit.
Details are in `transfer_data.dfy`. `FINISHED_STATES_MASK` is taken to be
COMPLETED | CANCELLED | FAILED. `API_EOVERQUOTA` is -17, the SDK's code.

Objects whose fields the source assigns are classes with `modifies`
clauses. These are:

- the two proxies;
- `TransferItem2`;
- the two row widgets;
- the received-issues batch;
- the stalled-issues proxy;
- `FileFolderAttributes`;
- the buttons and the icon manager.

The row widgets are records of their outputs (texts, visibilities, icons,
pages) rather than Qt widgets. Each is computed by a heap-free method with
the same branches as the source's switch, and the class method stores the
result.

Loops of the source are `while` or `for` loops with invariants, each proved against
a specification function. These are:

- `getTransfers`, `isSingleTransfer`;
- the context-menu accumulation;
- the move loops;
- `getPausedTransfers`, `isAnyPaused`, `onRowsAboutToBeRemoved`, `moveRows`;
- `calculateSize`, `calculateModifiedTime`.

Results of code that is not part of the model are parameters:

- `Utilities::partPer` (a per-mille value);
- the current HTTP speed from the SDK;
- `stateHasChanged()`;
- `StalledIssue::getCriterionByReason` (a function from stall reason to criterion);
- the base-class `filterAcceptsRow` answer;
- the clock `now`;
- the SDK's node, version and folder-info answers;
- the directory listing as a list of sizes and times;
- the `QFileInfo` decomposition of an icon url;
- the answers of the source model's `moveRows`.

User-visible texts are message constructors instead of translated strings.

## Model

| member | source | states |
|---|---|---|
| Text.Lower | src/MEGASync/model/TransfersManagerSortFilterProxyModel.cpp:214 | ASCII upper-case letters map 32 code points down; every other character is unchanged |
| Text.Fold | src/MEGASync/model/TransfersManagerSortFilterProxyModel.cpp:214 | folding keeps the length and lowers every character in place |
| Text.EmptyNeedleOccurs | src/MEGASync/model/TransfersSortFilterProxyModel.cpp:73 | an empty pattern is contained in every file name, so an empty filter hides nothing |
| Text.LexLessIrreflexive | src/MEGASync/model/TransfersManagerSortFilterProxyModel.cpp:299 | no name sorts before itself |
| Text.LexLessAsymmetric | src/MEGASync/model/TransfersManagerSortFilterProxyModel.cpp:299 | two names never both sort before each other |
| Text.LexLessTransitive | src/MEGASync/model/TransfersManagerSortFilterProxyModel.cpp:299 | the name order is transitive |
| Text.LexLessTotal | src/MEGASync/model/TransfersManagerSortFilterProxyModel.cpp:299 | of two different names one sorts before the other |
| TransferData.StateBitsDistinct | src/MEGASync/gui/TransferItem2.cpp:7-16 | different states have disjoint bits, and every state but NONE has a bit |
| TransferData.StateMaskIsEveryStateButNone | src/MEGASync/gui/TransferItem2.cpp:7-16 | a state meets STATE_MASK iff it is not NONE |
| TransferData.TypeMaskExcludesSync | src/MEGASync/gui/TransferItem2.cpp:18-21 | TYPE_MASK holds download, upload and LTCP download and not sync |
| TransferData.FinishedStates | src/MEGASync/model/TransfersManagerSortFilterProxyModel.cpp:443 | a state is finished iff it is COMPLETED, CANCELLED or FAILED |
| TransferData.QueuedOrRetryingMask | src/MEGASync/gui/TransferManagerItem2.cpp:216-217 | the QUEUED \| RETRYING test holds exactly for those two states |
| TransferData.FailedOrCompletedMask | src/MEGASync/gui/TransferManagerItem2.cpp:240-241 | the FAILED \| COMPLETED test holds exactly for those two states |
| TransferData.CompletedOrCompletingMask | src/MEGASync/gui/TransferManagerItem2.cpp:94 | the COMPLETED \| COMPLETING test holds exactly for those two states |
| TransferItem.TransferItem2.constructor | src/MEGASync/gui/TransferItem2.cpp:32 | the item holds the given transfer record as `d`, the record the two updates rewrite through `d->` |
| TransferItem.TransferItem2.UpdateValuesTransferFinished | src/MEGASync/gui/TransferItem2.cpp:23-43 | speed and remaining time become 0; finish time, error, mean speed, state, bytes, handles and public node take the arguments; priority, name, size, tag, type, file type and temporary-error flag are unchanged |
| TransferItem.TransferItem2.UpdateValuesTransferUpdated | src/MEGASync/gui/TransferItem2.cpp:45-62 | state, remaining time, error, speeds, bytes, priority and public node take the arguments; finish time, parent and node handles and the identity fields are unchanged |
| TransfersProxy.LessThanIrreflexive | src/MEGASync/model/TransfersSortFilterProxyModel.cpp:76-104 | under every criterion no transfer sorts before itself |
| TransfersProxy.LessThanTransitive | src/MEGASync/model/TransfersSortFilterProxyModel.cpp:76-104 | under every criterion the order is transitive, so it is a strict ascending order |
| TransfersProxy.AddIdempotent | src/MEGASync/model/TransfersSortFilterProxyModel.cpp:20-23 | OR-ing the same bits in twice equals once, and keeps every earlier bit |
| TransfersProxy.MoveRows | src/MEGASync/model/TransfersSortFilterProxyModel.cpp:106-127 | at most `count` source moves, all of the mapped row to the same destination (the source's end when the proxy destination is its row count); every move but the last succeeded; the result is false iff the last move failed; on success exactly `count` moves |
| TransfersProxy.TransfersProxy.constructor | src/MEGASync/model/TransfersSortFilterProxyModel.cpp:6-13 | full type and state masks, every file type, PRIORITY order, empty pattern |
| TransfersProxy.TransfersProxy.SetTransferTypes | src/MEGASync/model/TransfersSortFilterProxyModel.cpp:15-18 | zero stores TYPE_MASK, anything else is stored as given |
| TransfersProxy.TransfersProxy.AddTransferTypes | src/MEGASync/model/TransfersSortFilterProxyModel.cpp:20-23 | the bits are OR-ed in, no bit is lost, and every transfer accepted before is still accepted |
| TransfersProxy.TransfersProxy.SetTransferStates | src/MEGASync/model/TransfersSortFilterProxyModel.cpp:25-28 | zero stores STATE_MASK, anything else is stored as given |
| TransfersProxy.TransfersProxy.AddTransferStates | src/MEGASync/model/TransfersSortFilterProxyModel.cpp:30-33 | the bits are OR-ed in, no bit is lost, and every transfer accepted before is still accepted |
| TransfersProxy.TransfersProxy.SetFileTypes | src/MEGASync/model/TransfersSortFilterProxyModel.cpp:35-45 | zero stores all file-type bits, anything else is stored as given |
| TransfersProxy.TransfersProxy.AddFileTypes | src/MEGASync/model/TransfersSortFilterProxyModel.cpp:47-50 | the bits are OR-ed in, no bit is lost, and every transfer accepted before is still accepted |
| TransfersProxy.TransfersProxy.ResetAllFilters | src/MEGASync/model/TransfersSortFilterProxyModel.cpp:52-74 | the three masks are full again, so a transfer is accepted iff it has a state, a known type, some file type and a matching name |
| TransfersProxy.TransfersProxy.SetSortBy | src/MEGASync/model/TransfersSortFilterProxyModel.cpp:59-62 | the criterion is stored |
| TransfersManagerProxy.LessThanIrreflexive | src/MEGASync/model/TransfersManagerSortFilterProxyModel.cpp:274-304 | under every criterion no transfer sorts before itself |
| TransfersManagerProxy.LessThanAsymmetric | src/MEGASync/model/TransfersManagerSortFilterProxyModel.cpp:274-304 | under every criterion two transfers never both sort before each other |
| TransfersManagerProxy.LessThanTransitive | src/MEGASync/model/TransfersManagerSortFilterProxyModel.cpp:274-304 | under every criterion (including PRIORITY's two keys) the order is transitive |
| TransfersManagerProxy.PriorityOrder | src/MEGASync/model/TransfersManagerSortFilterProxyModel.cpp:281-291 | PRIORITY puts the larger state first, and on equal states the larger priority first |
| TransfersManagerProxy.CountPaused | src/MEGASync/model/TransfersManagerSortFilterProxyModel.cpp:306-323 | the paused count never exceeds the number of rows |
| TransfersManagerProxy.CountPausedPositive | src/MEGASync/model/TransfersManagerSortFilterProxyModel.cpp:306-344 | the paused count is positive iff some row is paused |
| TransfersManagerProxy.CountPausedRows | src/MEGASync/model/TransfersManagerSortFilterProxyModel.cpp:310-322 | the counting loop returns the paused count of the rows |
| TransfersManagerProxy.RemoveRows | src/MEGASync/model/TransfersManagerSortFilterProxyModel.cpp:245-271 | the loop removes from the upload set the tags of upload rows in [first, last] with tag ≥ 0, and the rest of those tags from the download set; it notifies iff such a row exists |
| TransfersManagerProxy.RemovedTagsStep | src/MEGASync/model/TransfersManagerSortFilterProxyModel.cpp:247-266 | the tags removed up to row r are those up to r − 1 plus row r's own when it applies |
| TransfersManagerProxy.PauseResumeRequest | src/MEGASync/model/TransfersManagerSortFilterProxyModel.cpp:391-404 | the request names the row's tag and pauses iff the transfer is not paused |
| TransfersManagerProxy.OpensFolderCases | src/MEGASync/model/TransfersManagerSortFilterProxyModel.cpp:429-449 | the folder opens for an upload, and for anything else iff it is finished |
| TransfersManagerProxy.ManagerProxy.constructor | src/MEGASync/model/TransfersManagerSortFilterProxyModel.cpp:9-26 | current and next masks full, PRIORITY order, empty tag sets and filter text |
| TransfersManagerProxy.ManagerProxy.Visible | src/MEGASync/model/TransfersManagerSortFilterProxyModel.cpp:198-235 | the shown rows are exactly the source rows the filter accepts |
| TransfersManagerProxy.ManagerProxy.VisibleOf | src/MEGASync/model/TransfersManagerSortFilterProxyModel.cpp:198-235 | from any rows, the accepted ones are kept and no others |
| TransfersManagerProxy.ManagerProxy.SetFilters | src/MEGASync/model/TransfersManagerSortFilterProxyModel.cpp:124-138 | each zero argument stages the full mask and any other is staged as given; what is accepted does not change until the update |
| TransfersManagerProxy.ManagerProxy.UpdateFilters | src/MEGASync/model/TransfersManagerSortFilterProxyModel.cpp:185-196 | the staged masks become current, and acceptance then follows them |
| TransfersManagerProxy.ManagerProxy.ResetAllFilters | src/MEGASync/model/TransfersManagerSortFilterProxyModel.cpp:140-144 | the tag sets are emptied and full masks are staged; acceptance does not change yet |
| TransfersManagerProxy.ManagerProxy.NumberOfItems | src/MEGASync/model/TransfersManagerSortFilterProxyModel.cpp:146-160 | the upload set's size for uploads, the download set's for downloads, 0 for any other type |
| TransfersManagerProxy.ManagerProxy.ResetNumberOfItems | src/MEGASync/model/TransfersManagerSortFilterProxyModel.cpp:162-166 | both tag sets are emptied, so both counts are 0 |
| TransfersManagerProxy.ManagerProxy.FilterAcceptsRow | src/MEGASync/model/TransfersManagerSortFilterProxyModel.cpp:198-235 | a negative tag is rejected; otherwise a row is accepted iff its state, type and file type meet the masks and the text is empty or occurs case-insensitively in the name; only with a non-empty text is an accepted tag added to the upload set (upload rows) or else the download set (download rows) |
| TransfersManagerProxy.ManagerProxy.OnRowsAboutToBeRemoved | src/MEGASync/model/TransfersManagerSortFilterProxyModel.cpp:238-272 | with an empty text nothing changes; otherwise the removed rows' tags leave the sets as the loop states, and the notification fires iff a removed row had a tag |
| TransfersManagerProxy.ManagerProxy.GetPausedTransfers | src/MEGASync/model/TransfersManagerSortFilterProxyModel.cpp:306-323 | the number of shown rows that are paused |
| TransfersManagerProxy.ManagerProxy.IsAnyPaused | src/MEGASync/model/TransfersManagerSortFilterProxyModel.cpp:325-344 | true iff some shown row is paused, that is iff the paused count is positive |
| TransferView.GetTransfers | src/MEGASync/transfers/gui/MegaTransferView.cpp:66-89 | strictly increasing row numbers, exactly the rows whose state meets the mask; every row for NONE |
| TransferView.IsSingleTransfer | src/MEGASync/transfers/gui/MegaTransferView.cpp:91-115 | true iff no two rows match, so zero matches count as single |
| TransferView.CancelAndClearAllTransfers | src/MEGASync/transfers/gui/MegaTransferView.cpp:289-313 | no call unless cancel or clear; reset mode iff both; clear iff clear, cancel iff cancel; clear before cancel; the work is bracketed by pause(true) and pause(false); for cancel or clear the calls are exactly reset mode (both only), pause(true), clear, cancel, pause(false) |
| TransferView.LastCancellable | src/MEGASync/transfers/gui/MegaTransferView.cpp:739-752 | the last visited row that is active, queued, retrying or paused, or none |
| TransferView.FlagsAfterPauseResume | src/MEGASync/transfers/gui/MegaTransferView.cpp:724-764 | after the loop, pause is enabled iff some row is active, queued or retrying, and resume iff some row is paused |
| TransferView.FlagsAfterMoveClear | src/MEGASync/transfers/gui/MegaTransferView.cpp:724-764 | after the loop, move is enabled iff some row is pausable or paused, and clear iff some row is cancelled, failed or completed |
| TransferView.FlagsAfterCancel | src/MEGASync/transfers/gui/MegaTransferView.cpp:724-764 | after the loop, cancel is the non-sync test of the last cancellable row visited |
| TransferView.FlagsAfterEnds | src/MEGASync/transfers/gui/MegaTransferView.cpp:726-733 | after the loop, top iff some row is 0; bottom iff some row other than 0 is the last |
| TransferView.ContextMenuFlags | src/MEGASync/transfers/gui/MegaTransferView.cpp:712-764 | the accumulation loop yields all of the above flags |
| TransferView.UpdateContextMenu | src/MEGASync/transfers/gui/MegaTransferView.cpp:543-618 | pause, resume, cancel and clear follow their flags; link, open and show-in-folder only for one clearable row (completed: all three; upload: open and folder; download: link); moves hidden when move is disabled, else top/up iff not at the top and down/bottom iff not at the bottom |
| TransferView.MenuOpensIffActionable | src/MEGASync/transfers/gui/MegaTransferView.cpp:767-780 | the menu opens iff some selected transfer can be paused, resumed, cancelled or cleared |
| TransferView.LeastExists | src/MEGASync/transfers/gui/MegaTransferView.cpp:789-791 | a non-empty set of rows has a least row |
| TransferView.Least | src/MEGASync/transfers/gui/MegaTransferView.cpp:789-791 | the least row is in the set and below every other |
| TransferView.Ascending | src/MEGASync/transfers/gui/MegaTransferView.cpp:789-791 | the sort yields exactly the selected rows, each once, strictly increasing |
| TransferView.GreatestExists | src/MEGASync/transfers/gui/MegaTransferView.cpp:862-864 | a non-empty set of rows has a greatest row |
| TransferView.Greatest | src/MEGASync/transfers/gui/MegaTransferView.cpp:862-864 | the greatest row is in the set and above every other |
| TransferView.Descending | src/MEGASync/transfers/gui/MegaTransferView.cpp:862-864 | the reverse sort yields exactly the selected rows, each once, strictly decreasing |
| TransferView.AscendingEnds | src/MEGASync/transfers/gui/MegaTransferView.cpp:789-796 | the first sorted row is the least and the last the greatest |
| TransferView.AscendingGuards | src/MEGASync/transfers/gui/MegaTransferView.cpp:793-910 | row 0 is selected iff the first sorted row is 0; the last row is selected iff the last sorted row passes the corrected bottom guard (`rowCount - 1`) |
| TransferView.DescendingGuards | src/MEGASync/transfers/gui/MegaTransferView.cpp:866-868 | the last row is selected iff the first row in descending order passes the corrected bottom guard (`rowCount - 1`) |
| TransferView.RunTargetIsBesideRunStart | src/MEGASync/transfers/gui/MegaTransferView.cpp:835-851 | a row's target is the row beside the start of its run of adjacent rows: first − 1 up, first + 1 down |
| TransferView.RunTargetBounds | src/MEGASync/transfers/gui/MegaTransferView.cpp:835-889 | every target lies between the first row's neighbour and the current row's neighbour |
| TransferView.UpTargetsInRange | src/MEGASync/transfers/gui/MegaTransferView.cpp:835-851 | with row 0 unselected, each up target is a real row above its row |
| TransferView.DownTargetsInRange | src/MEGASync/transfers/gui/MegaTransferView.cpp:873-889 | with the last row unselected, each down target is a real row below its row |
| TransferView.MovesBeforeFirst | src/MEGASync/transfers/gui/MegaTransferView.cpp:802-812 | one move per row: the first to the given target, every other to before the first row |
| TransferView.MovesUp | src/MEGASync/transfers/gui/MegaTransferView.cpp:835-851 | one move per ascending row to its run target, every move going up between real rows |
| TransferView.MovesDown | src/MEGASync/transfers/gui/MegaTransferView.cpp:873-889 | one move per descending row from its run target, every move between real rows |
| TransferView.MoveToTopClicked | src/MEGASync/transfers/gui/MegaTransferView.cpp:783-816 | an empty selection moves nothing and clears; a selection holding row 0 moves nothing and keeps the selection; otherwise every row, ascending, moves before the first |
| TransferView.MoveUpClicked | src/MEGASync/transfers/gui/MegaTransferView.cpp:818-854 | the same guards; otherwise the run-target moves of the ascending rows, each going up |
| TransferView.BottomGuardAsWrittenMovesMissingRow | src/MEGASync/transfers/gui/MegaTransferView.cpp:866-910 | with the last row selected the written guard does not fire and the first planned move targets row rowCount, which does not exist |
| TransferView.MoveDownClicked | src/MEGASync/transfers/gui/MegaTransferView.cpp:856-893 | with the corrected guard (`rowCount - 1`): an empty selection moves nothing and clears; one holding the last row moves nothing; otherwise the run-target moves of the descending rows, between real rows |
| TransferView.MoveToBottomClicked | src/MEGASync/transfers/gui/MegaTransferView.cpp:895-928 | with the corrected guard (`rowCount - 1`): the same guards; otherwise the first selected row moves to the end and every later one to before the original first selected row |
| TransferView.MoveToBottomClickedAsWritten | src/MEGASync/transfers/gui/MegaTransferView.cpp:895-928 | with the guard as written, every non-empty selection is moved and the selection cleared, including one holding the last row: the first selected row goes to the end and every later one to before it |
| TransferManagerItem.SwitchOnState | src/MEGASync/gui/TransferManagerItem2.cpp:105-213 | for each state: status text, paused and finished flags, page, tooltips, speed and time texts, pause/cancel visibility, icon and tooltips |
| TransferManagerItem.ApplyPage | src/MEGASync/gui/TransferManagerItem2.cpp:216-223 | a queued or retrying over-quota transfer shows the retry page with the transfer-quota message iff errorValue ≠ 0, else the storage one; otherwise the state's page |
| TransferManagerItem.ApplyButtons | src/MEGASync/gui/TransferManagerItem2.cpp:226-249 | the pause button takes the state's icon and tip only when shown; cancel/clear is hidden for sync transfers that are not failed or completed |
| TransferManagerItem.ComputeWidgets | src/MEGASync/gui/TransferManagerItem2.cpp:32-250 | the header is refreshed iff the tag changed; bytes, name, per-mille, status, page, speed, time and buttons as the decision table says |
| TransferManagerItem.TransferManagerItem2.constructor | src/MEGASync/gui/TransferManagerItem2.cpp:14-25 | row 0, not paused, not finished, tag −1 |
| TransferManagerItem.TransferManagerItem2.UpdateUi | src/MEGASync/gui/TransferManagerItem2.cpp:32-250 | the row and tag are stored; paused iff PAUSED; finished iff CANCELLED, FAILED or COMPLETED; the widgets as ComputeWidgets says, with the old values where the source leaves a widget alone |
| TransferManagerItem.TransferManagerItem2.OnPauseResumeClicked | src/MEGASync/gui/TransferManagerItem2.cpp:252-255 | emits the row and the opposite of the paused flag |
| TransferManagerItem.TransferManagerItem2.OnCancelClearClicked | src/MEGASync/gui/TransferManagerItem2.cpp:257-260 | emits the row |
| TransferManagerItem.TransferManagerItem2.OnRetryClicked | src/MEGASync/gui/TransferManagerItem2.cpp:275-277 | emits the stored tag |
| TransferManagerItem.PauseOfferedUntilFinished | src/MEGASync/gui/TransferManagerItem2.cpp:165-237 | the pause/resume button shows iff the transfer is neither finished nor completing |
| TransferManagerItem.FinishedRowsCanBeCleared | src/MEGASync/gui/TransferManagerItem2.cpp:240-249 | a finished row offers clear unless it is a cancelled sync transfer |
| TransferManagerDelegate.StateChangedCases | src/MEGASync/transfers/gui/TransferManagerDelegateWidget.cpp:48-225 | on a state change: status, tips, button visibility, icon name, progress visibility, retry button (iff the failure is not temporary), failure tip and the queued over-quota page |
| TransferManagerDelegate.EveryCallCases | src/MEGASync/transfers/gui/TransferManagerDelegateWidget.cpp:48-225 | on every call: speed and time texts, and the retrying over-quota page |
| TransferManagerDelegate.SwitchOnState | src/MEGASync/transfers/gui/TransferManagerDelegateWidget.cpp:48-225 | the state-change outputs only when the state changed, the speed and time always |
| TransferManagerDelegate.ComputeWidgets | src/MEGASync/transfers/gui/TransferManagerDelegateWidget.cpp:34-282 | without a state change the status, buttons and done label keep their values; sizes, per-mille, speed and time are rewritten on every call; the done label is hidden iff finished |
| TransferManagerDelegate.TransferManagerDelegateWidget.constructor | src/MEGASync/transfers/gui/TransferManagerDelegateWidget.cpp:20-27 | no default icon name, initial widgets |
| TransferManagerDelegate.TransferManagerDelegateWidget.UpdateTransferState | src/MEGASync/transfers/gui/TransferManagerDelegateWidget.cpp:34-282 | stores the default icon name and the widgets as ComputeWidgets says |
| TransferManagerDelegate.TransferManagerDelegateWidget.MouseHoverTransfer | src/MEGASync/transfers/gui/TransferManagerDelegateWidget.cpp:323-389 | NONE without data; with a hover, ENTER over an action, else LEAVE iff an icon changed; without a hover, LEAVE iff an icon changed |
| TransferManagerDelegate.TransferManagerDelegateWidget.OnCancelClearClicked | src/MEGASync/transfers/gui/TransferManagerDelegateWidget.cpp:476-479 | emits whether the transfer is finished |
| TransferManagerDelegate.PauseVisibilityDiffersOnlyWhenCancelled | src/MEGASync/transfers/gui/TransferManagerDelegateWidget.cpp:147-213 | the delegate and the item widget show the pause button in the same states except CANCELLED, where only the delegate shows it |
| StalledIssues.CriterionValue | src/MEGASync/stalled_issues/model/StalledIssue.h:12-18 | the criteria number 0 to 3 in declaration order, ALL_ISSUES being 0 |
| StalledIssues.CriterionOfValue | src/MEGASync/stalled_issues/model/StalledIssue.h:12-18 | a number names a criterion iff it is between 0 and 3 |
| StalledIssues.CriterionValueRoundTrip | src/MEGASync/stalled_issues/model/StalledIssue.h:12-18 | criterion to number to criterion, and number to criterion to number, are identities |
| StalledIssues.EmptyPathIsDefault | src/MEGASync/stalled_issues/model/StalledIssue.h:29 | a path is empty iff it has an empty string and no problem, the default path |
| StalledIssues.DefaultIssue | src/MEGASync/stalled_issues/model/StalledIssue.h:78-121 | reason NoReason, not solved, not detected on the MEGA side, no files, folders or ignored paths, no data |
| StalledIssues.CopyIssue | src/MEGASync/stalled_issues/model/StalledIssue.h:79-121 | side, data, reason and solved flag are copied; files, folders and ignored paths revert to the defaults |
| StalledIssues.CopyIssueProperties | src/MEGASync/stalled_issues/model/StalledIssue.h:79-121 | copying is idempotent, leaves the default issue alone, and is the identity iff those three fields already hold their defaults |
| StalledIssues.IssueCell.constructor | src/MEGASync/stalled_issues/model/StalledIssue.h:131-133 | the shared cell holds the given issue |
| StalledIssues.CopyVariant | src/MEGASync/stalled_issues/model/StalledIssue.h:130 | the copy holds the same pointer |
| StalledIssues.ConsultData | src/MEGASync/stalled_issues/model/StalledIssue.h:135-138 | returns the held pointer unchanged |
| StalledIssues.VariantEqualityIsIdentity | src/MEGASync/stalled_issues/model/StalledIssue.h:130-148 | a copy equals its source, and two variants are equal iff they hold the same cell |
| StalledIssues.SameContentsDifferentIdentity | src/MEGASync/stalled_issues/model/StalledIssue.h:145-148 | two variants over separately allocated copies of one issue are not equal |
| StalledIssuesModel.StalledIssuesReceived.constructor | src/MEGASync/stalled_issues/model/StalledIssuesModel.h:19-24 | all three lists start empty |
| StalledIssuesModel.StalledIssuesReceived.Size | src/MEGASync/stalled_issues/model/StalledIssuesModel.h:21-25 | the batch holds no issue iff it is empty |
| StalledIssuesModel.StalledIssuesReceived.Clear | src/MEGASync/stalled_issues/model/StalledIssuesModel.h:25-31 | all three lists become empty, so the batch is empty, and clearing an empty batch changes nothing |
| StalledIssuesProxy.AcceptedCount | src/MEGASync/stalled_issues/model/StalledIssuesProxyModel.cpp:70-90 | no more rows are accepted than exist, and all are iff each is accepted |
| StalledIssuesProxy.StalledIssuesProxyModel.constructor | src/MEGASync/stalled_issues/model/StalledIssuesProxyModel.cpp:11-12 | over the given source, with the ALL_ISSUES criterion |
| StalledIssuesProxy.StalledIssuesProxyModel.RowCount | src/MEGASync/stalled_issues/model/StalledIssuesProxyModel.cpp:14-22 | 0 for an empty source; never more than the source; all rows iff every row is accepted |
| StalledIssuesProxy.StalledIssuesProxyModel.Filter | src/MEGASync/stalled_issues/model/StalledIssuesProxyModel.cpp:24-41 | the criterion is always stored; block, re-filter and unblock happen in that order, and only for a non-empty source |
| StalledIssuesProxy.StalledIssuesProxyModel.UpdateFilter | src/MEGASync/stalled_issues/model/StalledIssuesProxyModel.cpp:43-46 | the stored criterion is re-applied unchanged |
| StalledIssuesProxy.AcceptsByCriterion | src/MEGASync/stalled_issues/model/StalledIssuesProxyModel.cpp:70-91 | ALL_ISSUES accepts every issue row; any other criterion accepts an issue iff its reason maps to it |
| StalledIssuesProxy.AllIssuesShowsEveryValidRow | src/MEGASync/stalled_issues/model/StalledIssuesProxyModel.cpp:74-80 | with ALL_ISSUES, rows that hold issues are all shown |
| FileFolderAttributes.FileFolderAttributes.constructor | src/MEGASync/control/FileFolderAttributes.cpp:17-22 | not cancelled, size −1, invalid times, no pending requests or timestamps |
| FileFolderAttributes.FileFolderAttributes.Cancel | src/MEGASync/control/FileFolderAttributes.cpp:79-82 | sets the cancel flag and nothing else |
| FileFolderAttributes.FileFolderAttributes.AttributeNeedsUpdate | src/MEGASync/control/FileFolderAttributes.cpp:84-95 | due iff no timestamp exists or more than 2000 ms passed; when due, `now` is recorded, else the timestamp is kept |
| FileFolderAttributes.FileFolderAttributes.RequestFinish | src/MEGASync/control/FileFolderAttributes.cpp:97-104 | the pending entry of that type is removed (its context returned for deletion), so the next request of that type is ready |
| FileFolderAttributes.FileFolderAttributes.RequestReady | src/MEGASync/control/FileFolderAttributes.cpp:106-117 | a fresh context is returned and registered iff no request of that type is pending; otherwise nothing and the map is unchanged |
| FileFolderAttributes.FileFolderAttributes.OnSizeReady | src/MEGASync/control/FileFolderAttributes.cpp:28-43 | the size reaches a live caller, whose request finishes only for a size ≥ 0 |
| FileFolderAttributes.FileFolderAttributes.OnTimeReady | src/MEGASync/control/FileFolderAttributes.cpp:45-77 | the time reaches a live caller, whose request finishes only for a valid time |
| FileFolderAttributes.FileFolderAttributes.LocalRequestSize | src/MEGASync/control/FileFolderAttributes.cpp:135-162 | the request is registered iff none was pending; a file takes its size when due; a folder's computation starts only while the size is negative; the timestamp is renewed iff due; the times and the cancel flag are kept; the current size is reported |
| FileFolderAttributes.FileFolderAttributes.OnSizeCalculated | src/MEGASync/control/FileFolderAttributes.cpp:209-213 | the computed size is stored and reported; requests, timestamps, times and the cancel flag are kept |
| FileFolderAttributes.FileFolderAttributes.RemoteRequestSize | src/MEGASync/control/FileFolderAttributes.cpp:313-335 | when due, a file's node size is stored clamped at 0 and a folder asks for folder info; the request is registered iff none was pending; the timestamp is renewed iff due; the times and the cancel flag are kept; the current size is reported |
| FileFolderAttributes.FileFolderAttributes.OnFolderInfo | src/MEGASync/control/FileFolderAttributes.cpp:444-455 | a successful folder-info answer stores and reports the current size clamped at 0; anything else changes nothing; requests, timestamps, times and the cancel flag are kept |
| FileFolderAttributes.FileFolderAttributes.RemoteRequestModifiedTime | src/MEGASync/control/FileFolderAttributes.cpp:337-354 | when due and the node exists, the modified time becomes the node's, in milliseconds; the request is registered iff none was pending; the timestamp is renewed iff due; size, created time and the cancel flag are kept; the current time is reported |
| FileFolderAttributes.FileFolderAttributes.RemoteRequestCreatedTime | src/MEGASync/control/FileFolderAttributes.cpp:356-370 | the request is registered iff none was pending; a valid created time is kept and the throttle is not consulted; an invalid one is taken from the first version when due and it exists, renewing the timestamp iff due; size, modified time and the cancel flag are kept; the current created time is reported |
| FileFolderAttributes.Clamp | src/MEGASync/control/FileFolderAttributes.cpp:324 | the result is the input when it is not negative and 0 otherwise |
| FileFolderAttributes.GetNode | src/MEGASync/control/FileFolderAttributes.cpp:471-495 | with more than one version, Last is index 0 and First the last index; otherwise the node itself |
| FileFolderAttributes.SumConcat | src/MEGASync/control/FileFolderAttributes.cpp:275-288 | the size of two listings together is the sum of their sizes |
| FileFolderAttributes.SumBounds | src/MEGASync/control/FileFolderAttributes.cpp:275-288 | sizes that are not negative sum to a value that is not negative, and at least the count when each is at least 1 |
| FileFolderAttributes.CalculateSize | src/MEGASync/control/FileFolderAttributes.cpp:275-288 | the loop returns the sum of all file sizes |
| FileFolderAttributes.LatestIsMaximum | src/MEGASync/control/FileFolderAttributes.cpp:253-273 | no time in the listing is later than the fold's result, which is one of them or invalid |
| FileFolderAttributes.CalculateModifiedTime | src/MEGASync/control/FileFolderAttributes.cpp:253-273 | the loop returns the latest time among the entries visited before the cancel flag is seen |
| ButtonIconManager.Split | src/MEGASync/gui/ButtonIconManager.cpp:186 | splitting yields at least one part |
| ButtonIconManager.SplitParts | src/MEGASync/gui/ButtonIconManager.cpp:186-187 | there is more than one part iff the separator occurs, and no part holds it |
| ButtonIconManager.JoinCons | src/MEGASync/gui/ButtonIconManager.cpp:190 | a character in front of the first part is in front of the joined string |
| ButtonIconManager.JoinSplit | src/MEGASync/gui/ButtonIconManager.cpp:186-190 | joining the parts of a split gives the string back |
| ButtonIconManager.SplitPrefix | src/MEGASync/gui/ButtonIconManager.cpp:186 | a prefix without the separator becomes part of the first part |
| ButtonIconManager.SplitJoin | src/MEGASync/gui/ButtonIconManager.cpp:186-190 | splitting parts joined by a separator they lack gives the parts back |
| ButtonIconManager.DropLastPart | src/MEGASync/gui/ButtonIconManager.cpp:187-190 | removing the last part and rejoining keeps the name up to its last separator |
| ButtonIconManager.DropLastPartAfterSeparator | src/MEGASync/gui/ButtonIconManager.cpp:187-190 | the same, for a name that starts with the separator |
| ButtonIconManager.DropLastPartAfterChar | src/MEGASync/gui/ButtonIconManager.cpp:187-190 | the same, for a name that starts with another character |
| ButtonIconManager.CleanIconName | src/MEGASync/gui/ButtonIconManager.cpp:184-198 | path and extension are kept; success iff the separator occurs; then the name is cut at its last separator, else it is cleared |
| ButtonIconManager.DashRetryIsDeadAsWritten | src/MEGASync/gui/ButtonIconManager.cpp:176-197 | as written, a name without `_` always ends empty |
| ButtonIconManager.DashNameLostAsWritten | src/MEGASync/gui/ButtonIconManager.cpp:176-197 | as written, `icon-default` loses its whole name |
| ButtonIconManager.DashNameKept | src/MEGASync/gui/ButtonIconManager.cpp:176-179 | corrected, a `_`-free name is cut at its last `-` |
| ButtonIconManager.SplitIconPath | src/MEGASync/gui/ButtonIconManager.cpp:166-182 | corrected split: path and extension from the url; the name cleaned with `_`, or with `-` on the original name when it has no `_` |
| ButtonIconManager.SplitIconPathKeepsPrefix | src/MEGASync/gui/ButtonIconManager.cpp:166-182 | corrected split: a non-empty result needs one of the separators, and a `-`-only name keeps everything up to its last `-` |
| ButtonIconManager.FillIcon | src/MEGASync/gui/ButtonIconManager.cpp:200-220 | the file is ":" + path + "/" + name + "." + extension, piece by piece |
| ButtonIconManager.DefaultSuffix | src/MEGASync/gui/ButtonIconManager.cpp:73-83 | the selected suffix iff checkable and checked, else the default suffix |
| ButtonIconManager.HoverSuffix | src/MEGASync/gui/ButtonIconManager.cpp:99-116 | the hover-selected suffix iff checkable, checked and flagged, else the hover suffix |
| ButtonIconManager.SelectedSuffix | src/MEGASync/gui/ButtonIconManager.cpp:131-142 | the selected suffix iff checked, else the hover suffix |
| ButtonIconManager.IconFile | src/MEGASync/gui/ButtonIconManager.cpp:64-88 | on the corrected split: no file iff the split info is empty; else the filled name with the suffix appended |
| ButtonIconManager.Button.constructor | src/MEGASync/gui/ButtonIconManager.cpp:19-27 | a button with its properties, no stored check state, not filtered, no icon files |
| ButtonIconManager.ButtonIconManager.constructor | src/MEGASync/gui/ButtonIconManager.cpp:15-17 | the manager keeps its settings |
| ButtonIconManager.ButtonIconManager.SetDefaultIcon | src/MEGASync/gui/ButtonIconManager.cpp:64-88 | the default-suffix file of the corrected split is added to the icon when there is one; nothing else changes |
| ButtonIconManager.ButtonIconManager.SetHoverIcon | src/MEGASync/gui/ButtonIconManager.cpp:90-121 | the hover-suffix file of the corrected split is added to the icon when there is one; nothing else changes |
| ButtonIconManager.ButtonIconManager.SetSelectedIcon | src/MEGASync/gui/ButtonIconManager.cpp:123-146 | the selected-suffix file of the corrected split is added to the icon when there is one; nothing else changes |
| ButtonIconManager.ButtonIconManager.AddButton | src/MEGASync/gui/ButtonIconManager.cpp:19-27 | an ignored button is untouched; any other is filtered, gets its default icon (corrected split) and stores its checked state |
| ButtonIconManager.ButtonIconManager.EventFilter | src/MEGASync/gui/ButtonIconManager.cpp:29-62 | on the corrected split: never consumes the event; Enter adds the hover icon and Leave the default one; Paint on a checkable button with a stale stored state adds the default icon and stores the state; nothing else changes |

## Left out

- Concurrency: the asynchronous sort and filter (`QtConcurrent::run`, `QFutureWatcher`, model locking) in `sort`, `setFilterFixedString` and `textSearchTypeChanged`. This keeps the GUI responsive and decides nothing.
- `invalidate` and the manager proxy's own `moveRows`. These are Qt index mechanics and the `TransfersModel` move semantics, which are not part of this model. The same goes for the −1 target that `moveToTopClicked` passes. Move plans are lists of (from, to) moves.
- `onCancelClearTransfer` and `onRetryTransfer`. They only forward to the source model and the SDK.
- The model's calls triggered by the view's other handlers, and their confirmation dialogs. Where a dialog matters, its answer is a boolean input.
- Painting and rendering: `render`, elided text, icon caching, `setFileNameAndType`, `setType`. Also the row widget's mouse forwarding (`forwardMouseEvent`).
- Widget text colour and alpha (`changeButtonTextColor`), which is floating point. Also `QDir::toNativeSeparators`, which is platform behaviour.
- SDK and file-system calls: `requestUser`, `requestVersions`, and the local `requestModifiedTime`, `requestCreatedTime` and `onModifiedTimeCalculated`. Their answers come from the SDK and from `stat`. The remote requests take the SDK's node and version answers as parameters.
- `setSourceModel`, `updateStalledIssues` and `canFetchMore` of the stalled-issues proxy. They forward to Qt and to the source model.
- `StalledIssueVariant::updateData`. `updateIssue` is not part of this model.
- Integer widths: the model does not capture qint64 and uint8 overflow, or the cast of the HTTP speed. Sizes, counts and times are unbounded integers.
- Text.Fold: case folding covers ASCII letters only, not Unicode.
- Text.LexLess: names are compared by code point, while `QString::compare` compares UTF-16 code units; the two orders differ for characters outside the Basic Multilingual Plane.
- TransfersProxy.TransfersProxy.MoveRows: the row and destination are mapped to the source model once, for all `count` moves, while the source maps them again on every pass of its loop. Re-mapping is Qt index mechanics, which are not part of this model.
- The callbacks connected by a request are called synchronously by the `emit` at the end of the same request. The request methods return the emitted value, and the callback is `OnSizeReady` or `OnTimeReady` applied to it afterwards.
- ButtonIconManager.SplitIconPath: models the corrected split (the `-` retry works on the original base name). As written, a base name without `_` always ends empty; `DashRetryIsDeadAsWritten` states this.
- ButtonIconManager.SplitIconPathKeepsPrefix: its `-`-only clause holds for the corrected split only; as written such a name ends empty.
- ButtonIconManager.IconFile: built on the corrected split, so for a `_`-free name such as `/images/icon-default.png` it gives a file where the source gives none.
- ButtonIconManager.ButtonIconManager.SetDefaultIcon: built on the corrected split; for a `_`-free icon name it adds a file where the source adds none.
- ButtonIconManager.ButtonIconManager.SetHoverIcon: built on the corrected split; for a `_`-free icon name it adds a file where the source adds none.
- ButtonIconManager.ButtonIconManager.SetSelectedIcon: built on the corrected split; for a `_`-free icon name it adds a file where the source adds none.
- ButtonIconManager.ButtonIconManager.AddButton: built on the corrected split; for a `_`-free icon name the default icon gets a file where the source adds none.
- ButtonIconManager.ButtonIconManager.EventFilter: built on the corrected split; for a `_`-free icon name Enter, Leave and Paint add a file where the source adds none.
- TransferView.MoveDownClicked: models the corrected bottom guard (`rowCount - 1`); as written the guard never fires, as `BottomGuardAsWrittenMovesMissingRow` states.
- TransferView.MoveToBottomClicked: models the corrected bottom guard (`rowCount - 1`); the handler as written is `MoveToBottomClickedAsWritten`.
- TransfersProxy.TransfersProxy.Accepts: the older proxy's `filterRegExp()` is modelled as a plain substring pattern, not a regular expression.
- `IconInfo::isEmpty` is not part of this model. It is taken to mean an empty icon name.
- The initial criterion of `StalledIssuesProxyModel` is taken to be ALL_ISSUES, since its header is not part of this model.
- Texts such as statuses, tooltips and quota messages are message constructors. Speeds and times shown as text are tagged values, not formatted strings.
- `QDateTime`: an invalid time sorts before every valid one. `fromSecsSinceEpoch` is a multiplication by 1000.
- TransferManagerDelegate.TransferManagerDelegateWidget.UpdateTransferState: the nested `mouseHoverTransfer(false)` inside `updateTransferState` is not followed. Its outcome is what `MouseHoverTransfer` states on its own.

## Findings

| source | as written | input that shows it | evidently intended | confidence | as-written member | corrected member |
|---|---|---|---|---|---|---|
| src/MEGASync/gui/ButtonIconManager.cpp:176-179,195 | when the `_` split fails, `cleanIconName` has already cleared the name, and the `-` retry then splits the empty name | an icon whose base name is `icon-default` ends with an empty name, so no icon file is set | retry `-` on the original base name, giving `icon` | not executed; high | ButtonIconManager.DashNameLostAsWritten | ButtonIconManager.DashNameKept |
| src/MEGASync/transfers/gui/MegaTransferView.cpp:868 | move-down's bottom guard compares the last selected row with `rowCount()`, which no row can equal | with the last row selected, move-down plans a first move against row `rowCount()`, which does not exist, although the menu hides the action for that selection | compare with `rowCount() - 1`, as the context menu's bottom test does | not executed; high | TransferView.BottomGuardAsWrittenMovesMissingRow | TransferView.MoveDownClicked |
| src/MEGASync/transfers/gui/MegaTransferView.cpp:907 | move-to-bottom's guard compares the last selected row with `rowCount()`, which no row can equal | with the last row selected, move-to-bottom still moves every selected row and clears the selection, where move-to-top stops for a selection holding row 0 and keeps it | compare with `rowCount() - 1` | not executed; medium | TransferView.MoveToBottomClickedAsWritten | TransferView.MoveToBottomClicked |

Notes on details the model follows:

- The context menu's bottom test is the `else` branch of the row-0 test. So a one-row list never marks its only row as the bottom one. `TransferView.FlagsAfterEnds` states this.
- In the delegate, the retrying status tooltip is overwritten by the status text later in the same call, so the tooltip equals the status text. `TransferManagerDelegate.ComputeWidgets` states this.
- The delegate keeps the pause button visible for CANCELLED transfers, and the item widget hides it. `TransferManagerDelegate.PauseVisibilityDiffersOnlyWhenCancelled` states this.
