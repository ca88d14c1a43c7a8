/**
  FileFolderAttributes (src/MEGASync/control/FileFolderAttributes.cpp): the
  size, modified time and created time of a local or remote file or folder,
  requested by the properties dialogs. One pending request per attribute
  type, a 2000 ms refresh throttle per type, and the folds that compute a
  local folder's size and last modification.

  The clock, the file system and the SDK are parameters: `now` for
  currentMSecsSinceEpoch, what QFileInfo says about the path, and what the
  SDK returns for the node and its versions.
*/
module FileFolderAttributes {
  import opened Wrappers

  /** AttributeTypes and RemoteAttributeTypes, the keys of both maps. */
  datatype AttributeType = Size | ModifiedTime | CreatedTime | User | Versions

  /** A QDateTime: invalid, or milliseconds since the epoch. */
  datatype DateTime = Invalid | At(msecs: int)

  /** QDateTime's `>`: an invalid time is earlier than every valid one. */
  predicate Later(a: DateTime, b: DateTime)
  {
    a.At? && (b.Invalid? || a.msecs > b.msecs)
  }

  /** The refresh period. */
  const UPDATE_PERIOD_MS := 2000

  /** The context object a pending request is connected through. */
  class ContextObject {
    constructor()
    {
    }
  }

  /** A node as the SDK reports it. */
  datatype Node = Node(isFile: bool, size: int, modificationTime: int, creationTime: int)

  datatype Version = Last | First

  class FileFolderAttributes {
    var cancelled: bool
    var size: int
    var modifiedTime: DateTime
    var createdTime: DateTime
    var requests: map<AttributeType, ContextObject>
    var requestTimestamps: map<AttributeType, int>

    /** The size starts at -1, meaning not known yet. */
    constructor()
      ensures !cancelled && size == -1 && modifiedTime == Invalid && createdTime == Invalid
      ensures requests == map[] && requestTimestamps == map[]
    {
      cancelled := false;
      size := -1;
      modifiedTime := Invalid;
      createdTime := Invalid;
      requests := map[];
      requestTimestamps := map[];
    }

    method Cancel()
      modifies this
      ensures cancelled
      ensures size == old(size) && requests == old(requests) && requestTimestamps == old(requestTimestamps)
      ensures modifiedTime == old(modifiedTime) && createdTime == old(createdTime)
    {
      cancelled := true;
    }

    /** Whether the attribute is due: never asked for, or last asked more
        than 2000 ms ago. When due, `now` is recorded. */
    method AttributeNeedsUpdate(t: AttributeType, now: int) returns (due: bool)
      modifies this
      ensures due <==> t !in old(requestTimestamps) || now - old(requestTimestamps)[t] > UPDATE_PERIOD_MS
      ensures requestTimestamps == if due then old(requestTimestamps)[t := now] else old(requestTimestamps)
      ensures size == old(size) && requests == old(requests) && cancelled == old(cancelled)
      ensures modifiedTime == old(modifiedTime) && createdTime == old(createdTime)
    {
      if t !in requestTimestamps || now - requestTimestamps[t] > UPDATE_PERIOD_MS {
        requestTimestamps := requestTimestamps[t := now];
        return true;
      }
      return false;
    }

    /** requestFinish: the pending request is taken out of the map, and its
        context object, if any, is handed back for deletion. */
    method RequestFinish(t: AttributeType) returns (deleted: Option<ContextObject>)
      modifies this
      ensures requests == old(requests) - {t} && t !in requests
      ensures deleted == if t in old(requests) then Some(old(requests)[t]) else None
      ensures size == old(size) && requestTimestamps == old(requestTimestamps) && cancelled == old(cancelled)
      ensures modifiedTime == old(modifiedTime) && createdTime == old(createdTime)
    {
      deleted := if t in requests then Some(requests[t]) else None;
      requests := requests - {t};
    }

    /** requestReady: a new context object, registered, when no request of
        the type is pending; otherwise nothing and no change. */
    method RequestReady(t: AttributeType) returns (context: Option<ContextObject>)
      modifies this
      ensures t !in old(requests) ==>
                context.Some? && fresh(context.value) && requests == old(requests)[t := context.value]
      ensures t in old(requests) ==> context.None? && requests == old(requests)
      ensures size == old(size) && requestTimestamps == old(requestTimestamps) && cancelled == old(cancelled)
      ensures modifiedTime == old(modifiedTime) && createdTime == old(createdTime)
    {
      if t !in requests {
        var c := new ContextObject();
        requests := requests[t := c];
        return Some(c);
      }
      return None;
    }

    /** The callback connected by requestSize: with a callback, the size is
        handed to it and the request finishes once the size is known
        (not negative). */
    method OnSizeReady(hasCallback: bool, sizeReady: int) returns (delivered: Option<int>)
      modifies this
      ensures delivered == if hasCallback then Some(sizeReady) else None
      ensures requests == if hasCallback && sizeReady >= 0 then old(requests) - {Size} else old(requests)
      ensures size == old(size) && requestTimestamps == old(requestTimestamps) && cancelled == old(cancelled)
      ensures modifiedTime == old(modifiedTime) && createdTime == old(createdTime)
    {
      delivered := None;
      if hasCallback {
        delivered := Some(sizeReady);
        if sizeReady >= 0 {
          var _ := RequestFinish(Size);
        }
      }
    }

    /** The callbacks connected by requestModifiedTime and
        requestCreatedTime: the request finishes once the time is valid. */
    method OnTimeReady(t: AttributeType, hasCallback: bool, time: DateTime) returns (delivered: Option<DateTime>)
      requires t == ModifiedTime || t == CreatedTime
      modifies this
      ensures delivered == if hasCallback then Some(time) else None
      ensures requests == if hasCallback && time.At? then old(requests) - {t} else old(requests)
      ensures size == old(size) && requestTimestamps == old(requestTimestamps) && cancelled == old(cancelled)
      ensures modifiedTime == old(modifiedTime) && createdTime == old(createdTime)
    {
      delivered := None;
      if hasCallback {
        delivered := Some(time);
        if time.At? {
          var _ := RequestFinish(t);
        }
      }
    }

    /** LocalFileFolderAttributes::requestSize. A file takes its size from
        the file system; for a folder the computation starts only while the
        size is still unknown. The current size is always emitted. */
    method LocalRequestSize(now: int, isFile: bool, fileSize: int)
      returns (context: Option<ContextObject>, startsCalculation: bool, emitted: int)
      modifies this
      ensures context.Some? <==> Size !in old(requests)
      ensures requests == if Size in old(requests) then old(requests) else old(requests)[Size := context.value]
      ensures var due := Size !in old(requestTimestamps) || now - old(requestTimestamps)[Size] > UPDATE_PERIOD_MS;
              size == (if due && isFile then fileSize else old(size)) &&
              (startsCalculation <==> due && !isFile && old(size) < 0) &&
              requestTimestamps == (if due then old(requestTimestamps)[Size := now] else old(requestTimestamps))
      ensures modifiedTime == old(modifiedTime) && createdTime == old(createdTime) && cancelled == old(cancelled)
      ensures emitted == size
    {
      context := RequestReady(Size);
      startsCalculation := false;
      var due := AttributeNeedsUpdate(Size, now);
      if due {
        if isFile {
          size := fileSize;
        } else if size < 0 {
          startsCalculation := true;
        }
      }
      emitted := size;
    }

    /** LocalFileFolderAttributes::onSizeCalculated. */
    method OnSizeCalculated(result: int) returns (emitted: int)
      modifies this
      ensures size == result && emitted == result
      ensures requests == old(requests) && requestTimestamps == old(requestTimestamps)
      ensures modifiedTime == old(modifiedTime) && createdTime == old(createdTime) && cancelled == old(cancelled)
    {
      size := result;
      emitted := size;
    }

    /** RemoteFileFolderAttributes::requestSize. A file's size comes from the
        node, clamped at 0; a folder asks the SDK for its folder info. */
    method RemoteRequestSize(now: int, node: Option<Node>)
      returns (context: Option<ContextObject>, asksFolderInfo: bool, emitted: int)
      modifies this
      ensures context.Some? <==> Size !in old(requests)
      ensures requests == if Size in old(requests) then old(requests) else old(requests)[Size := context.value]
      ensures var due := Size !in old(requestTimestamps) || now - old(requestTimestamps)[Size] > UPDATE_PERIOD_MS;
              size == (if due && node.Some? && node.value.isFile then Clamp(node.value.size) else old(size)) &&
              (asksFolderInfo <==> due && node.Some? && !node.value.isFile) &&
              requestTimestamps == (if due then old(requestTimestamps)[Size := now] else old(requestTimestamps))
      ensures modifiedTime == old(modifiedTime) && createdTime == old(createdTime) && cancelled == old(cancelled)
      ensures emitted == size
    {
      context := RequestReady(Size);
      asksFolderInfo := false;
      var due := AttributeNeedsUpdate(Size, now);
      if due && node.Some? {
        if node.value.isFile {
          size := Clamp(node.value.size);
        } else {
          asksFolderInfo := true;
        }
      }
      emitted := size;
    }

    /** RemoteFileFolderAttributes::onRequestFinish: a successful folder-info
        request sets the size, clamped at 0, and emits it. */
    method OnFolderInfo(isFolderInfo: bool, ok: bool, currentSize: int) returns (emitted: Option<int>)
      modifies this
      ensures isFolderInfo && ok ==> size == Clamp(currentSize) && emitted == Some(size)
      ensures !(isFolderInfo && ok) ==> size == old(size) && emitted.None?
      ensures requests == old(requests) && requestTimestamps == old(requestTimestamps)
      ensures modifiedTime == old(modifiedTime) && createdTime == old(createdTime) && cancelled == old(cancelled)
    {
      emitted := None;
      if isFolderInfo && ok {
        size := Clamp(currentSize);
        emitted := Some(size);
      }
    }

    /** RemoteFileFolderAttributes::requestModifiedTime: a file's
        modification time, a folder's creation time. */
    method RemoteRequestModifiedTime(now: int, node: Option<Node>)
      returns (context: Option<ContextObject>, emitted: DateTime)
      modifies this
      ensures context.Some? <==> ModifiedTime !in old(requests)
      ensures requests == if ModifiedTime in old(requests) then old(requests)
                          else old(requests)[ModifiedTime := context.value]
      ensures var due := ModifiedTime !in old(requestTimestamps) ||
                         now - old(requestTimestamps)[ModifiedTime] > UPDATE_PERIOD_MS;
              modifiedTime == (if due && node.Some?
                               then At(1000 * (if node.value.isFile then node.value.modificationTime
                                               else node.value.creationTime))
                               else old(modifiedTime)) &&
              requestTimestamps == (if due then old(requestTimestamps)[ModifiedTime := now] else old(requestTimestamps))
      ensures size == old(size) && createdTime == old(createdTime) && cancelled == old(cancelled)
      ensures emitted == modifiedTime
    {
      context := RequestReady(ModifiedTime);
      var due := AttributeNeedsUpdate(ModifiedTime, now);
      if due && node.Some? {
        var newTime := if node.value.isFile then node.value.modificationTime else node.value.creationTime;
        modifiedTime := At(1000 * newTime);
      }
      emitted := modifiedTime;
    }

    /** RemoteFileFolderAttributes::requestCreatedTime: once known, the
        created time is kept, and the throttle is not even consulted. The
        time comes from the first version of the node. */
    method RemoteRequestCreatedTime(now: int, firstVersion: Option<Node>)
      returns (context: Option<ContextObject>, emitted: DateTime)
      modifies this
      ensures context.Some? <==> CreatedTime !in old(requests)
      ensures requests == if CreatedTime in old(requests) then old(requests)
                          else old(requests)[CreatedTime := context.value]
      ensures old(createdTime).At? ==> createdTime == old(createdTime) &&
                                       requestTimestamps == old(requestTimestamps)
      ensures old(createdTime).Invalid? ==>
                var due := CreatedTime !in old(requestTimestamps) ||
                           now - old(requestTimestamps)[CreatedTime] > UPDATE_PERIOD_MS;
                createdTime == (if due && firstVersion.Some? then At(1000 * firstVersion.value.creationTime)
                                else old(createdTime)) &&
                requestTimestamps == (if due then old(requestTimestamps)[CreatedTime := now]
                                      else old(requestTimestamps))
      ensures size == old(size) && modifiedTime == old(modifiedTime) && cancelled == old(cancelled)
      ensures emitted == createdTime
    {
      context := RequestReady(CreatedTime);
      if createdTime.Invalid? {
        var due := AttributeNeedsUpdate(CreatedTime, now);
        if due && firstVersion.Some? {
          createdTime := At(1000 * firstVersion.value.creationTime);
        }
      }
      emitted := createdTime;
    }
  }

  /** std::max(x, 0). */
  function Clamp(x: int): (r: int)
    ensures r >= 0 && r >= x
    ensures r == x || r == 0
  {
    if x > 0 then x else 0
  }

  /** RemoteFileFolderAttributes::getNode: with more than one version, the
      newest (index 0) for Last and the oldest for First; otherwise the node
      itself. */
  function GetNode(node: Option<Node>, versions: seq<Node>, v: Version): (r: Option<Node>)
    ensures |versions| > 1 && v == Last ==> r == Some(versions[0])
    ensures |versions| > 1 && v == First ==> r == Some(versions[|versions| - 1])
    ensures |versions| <= 1 ==> r == node
    ensures r.Some? ==> r == node || r.value in versions
  {
    if |versions| > 1 then Some(versions[if v == Last then 0 else |versions| - 1]) else node
  }

  /** The sum of the file sizes. */
  function Sum(sizes: seq<int>): int
  {
    if sizes == [] then 0 else sizes[0] + Sum(sizes[1..])
  }

  lemma {:induction false} SumConcat(a: seq<int>, b: seq<int>)
    ensures Sum(a + b) == Sum(a) + Sum(b)
  {
    if a == [] {
      assert a + b == b;
    } else {
      assert (a + b)[1..] == a[1..] + b;
      SumConcat(a[1..], b);
    }
  }

  /** A folder of files that are all non-empty has a size of at least its
      number of files; with no negative size the sum is not negative. */
  lemma {:induction false} SumBounds(sizes: seq<int>)
    requires forall i :: 0 <= i < |sizes| ==> sizes[i] >= 0
    ensures Sum(sizes) >= 0
    ensures (forall i :: 0 <= i < |sizes| ==> sizes[i] >= 1) ==> Sum(sizes) >= |sizes|
  {
    if sizes != [] {
      assert forall i :: 0 <= i < |sizes| - 1 ==> sizes[1..][i] == sizes[i + 1];
      SumBounds(sizes[1..]);
    }
  }

  /** LocalFileFolderAttributes::calculateSize over the sizes of the files
      the directory iterator visits. */
  method CalculateSize(sizes: seq<int>) returns (newSize: int)
    ensures newSize == Sum(sizes)
  {
    newSize := 0;
    var i := 0;
    while i < |sizes|
      invariant 0 <= i <= |sizes|
      invariant newSize == Sum(sizes[..i])
    {
      assert sizes[..i + 1] == sizes[..i] + [sizes[i]];
      SumConcat(sizes[..i], [sizes[i]]);
      newSize := newSize + sizes[i];
      i := i + 1;
    }
    assert sizes[..i] == sizes;
  }

  /** The later of two times, the first on a tie. */
  function MaxTime(a: DateTime, b: DateTime): DateTime
  {
    if Later(b, a) then b else a
  }

  /** The latest valid time of the list, invalid when there is none. */
  function Latest(times: seq<DateTime>): DateTime
  {
    if times == [] then Invalid else MaxTime(Latest(times[..|times| - 1]), times[|times| - 1])
  }

  /** The latest time is no earlier than any time of the list, and is one
      of them unless it is invalid. */
  lemma {:induction false} LatestIsMaximum(times: seq<DateTime>)
    ensures forall k :: 0 <= k < |times| ==> !Later(times[k], Latest(times))
    ensures Latest(times) == Invalid || Latest(times) in times
  {
    if times != [] {
      var init := times[..|times| - 1];
      LatestIsMaximum(init);
      assert forall k :: 0 <= k < |init| ==> times[k] == init[k];
    }
  }

  /** LocalFileFolderAttributes::calculateModifiedTime. `cancelAfter` is the
      number of files visited before the cancel flag is seen set; the
      result is the latest time among those files. */
  method CalculateModifiedTime(times: seq<DateTime>, cancelAfter: nat) returns (newDate: DateTime)
    ensures newDate == Latest(times[..if cancelAfter < |times| then cancelAfter else |times|])
  {
    newDate := Invalid;
    var i := 0;
    while i < |times|
      invariant 0 <= i <= |times| && i <= cancelAfter
      invariant newDate == Latest(times[..i])
    {
      if i == cancelAfter {
        break;
      }
      assert times[..i + 1][..i] == times[..i];
      if Later(times[i], newDate) {
        newDate := times[i];
      }
      i := i + 1;
    }
  }
}
