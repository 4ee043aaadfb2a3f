// The host's request loop: recently used ids are refused, and every turn is counted once.

module HostLoop {
  import opened Common

  const RECENT_IDS: nat := 4096

  /** `bare`: the command takes no parameters; `succeeds`: its configuration parses and its backend call works. */
  datatype Request = Request(id: string, bare: bool, hasParams: bool, isShutdown: bool, succeeds: bool)

  /** Where a dispatch may throw: in the backend call, or while its reply is built, after it was counted. */
  datatype Throw = Never | InBackend | InReply

  datatype Line = TooLarge | Malformed | Parsed(request: Request, throws: Throw)

  /** The ids that passed most recently, oldest first. */
  function Recent(passed: seq<string>): seq<string> {
    if |passed| > RECENT_IDS then passed[|passed| - RECENT_IDS..] else passed
  }

  class HostController {
    var shuttingDown: bool
    var recentIds: seq<string>
    var recentIdSet: set<string>
    var received: nat
    var succeeded: nat
    var failed: nat
    ghost var passed: seq<string>
    ghost var lateThrows: nat

    /** The queue and the set always hold the same distinct ids: the last ones that passed. */
    ghost predicate Valid()
      reads this
    {
      && recentIds == Recent(passed) && Distinct(recentIds)
      && (forall id :: id in recentIdSet <==> id in recentIds)
    }

    /** Every line is counted as one success or one failure, but for what was thrown too late. */
    ghost predicate Balanced()
      reads this
    {
      received + lateThrows == succeeded + failed
    }

    constructor ()
      ensures Valid() && Balanced() && passed == [] && lateThrows == 0
    {
      shuttingDown, recentIds, recentIdSet := false, [], {};
      received, succeeded, failed, passed, lateThrows := 0, 0, 0, [], 0;
    }

    /** An id passes exactly when it is not among the last 4096 that passed. */
    method RememberRequestId(id: string) returns (isNew: bool)
      requires Valid()
      modifies `recentIds, `recentIdSet, `passed
      ensures Valid()
      ensures isNew <==> id !in Recent(old(passed))
      ensures isNew <==> forall k :: 0 <= k < |old(passed)| && |old(passed)| - 4096 <= k ==> old(passed)[k] != id
      ensures passed == if isNew then old(passed) + [id] else old(passed)
    {
      if id in recentIdSet {
        return false;
      }
      if |recentIds| == RECENT_IDS {
        assert forall i :: 0 < i < |recentIds| ==> recentIds[i] != recentIds[0];
        recentIdSet := recentIdSet - {recentIds[0]};
        recentIds := recentIds[1..];
      }
      assert forall other :: other in recentIdSet <==> other in recentIds;
      recentIds := recentIds + [id];
      recentIdSet := recentIdSet + {id};
      passed := passed + [id];
      isNew := true;
    }

    /** `dispatch`: a request that does not throw in the backend is counted exactly once. */
    method Dispatch(request: Request, throws: Throw) returns (thrown: bool, counted: bool, stop: bool)
      requires Valid()
      modifies `shuttingDown, `recentIds, `recentIdSet, `passed, `succeeded, `failed
      ensures Valid()
      ensures passed == if old(shuttingDown) || request.id in Recent(old(passed)) then old(passed)
                        else old(passed) + [request.id]
      ensures succeeded + failed == old(succeeded + failed) + (if counted then 1 else 0)
      ensures (!thrown ==> counted) && (thrown && counted ==> throws.InReply?)
      ensures succeeded > old(succeeded) <==>
        && !old(shuttingDown) && request.id !in Recent(old(passed)) && !(request.bare && request.hasParams)
        && request.succeeds && !(throws.InBackend? && !request.isShutdown)
      ensures shuttingDown <==> old(shuttingDown) || (request.isShutdown && succeeded > old(succeeded))
      ensures !(thrown && !counted) ==> (stop <==> shuttingDown)
      ensures thrown <==> throws.InReply? || !counted
      ensures !counted ==> !shuttingDown && !request.isShutdown
    {
      thrown, counted, stop := throws.InReply?, true, false;
      if shuttingDown {
        failed := failed + 1;
        stop := true;
        return;
      }
      var isNew := RememberRequestId(request.id);
      if !isNew || (request.bare && request.hasParams) {
        failed := failed + 1;
        return;
      }
      if throws.InBackend? && !request.isShutdown {
        return true, false, false;
      }
      if !request.succeeds {
        failed := failed + 1;
        return;
      }
      if request.isShutdown {
        shuttingDown := true;
        stop := true;
      }
      succeeded := succeeded + 1;
    }

    /** One turn of the main loop after a line was read: what is thrown counts as a failure. */
    method Turn(line: Line) returns (stop: bool)
      requires Valid() && Balanced()
      modifies this
      ensures Valid() && Balanced() && received == old(received) + 1
      ensures lateThrows == old(lateThrows) || (lateThrows == old(lateThrows) + 1 && line.Parsed? && line.throws.InReply?)
      ensures stop <==> shuttingDown && line.Parsed? && !line.throws.InReply?
      ensures shuttingDown && !old(shuttingDown) ==> line.Parsed? && line.request.isShutdown && line.request.succeeds
    {
      received := received + 1;
      if !line.Parsed? {
        failed := failed + 1;
        return false;
      }
      var thrown, counted;
      thrown, counted, stop := Dispatch(line.request, line.throws);
      if thrown {
        failed := failed + 1;
        stop := false;
        if counted {
          lateThrows := lateThrows + 1;
        }
      }
    }

    /**
     * The whole loop reads every line up to the one that shuts the host down; received =
     * succeeded + failed exactly when no turn threw after it was counted.
     */
    method Serve(lines: seq<Line>) returns (read: nat)
      requires Valid() && Balanced() && lateThrows == 0
      modifies this
      ensures Valid() && Balanced()
      ensures read <= |lines| && received == old(received) + read
      ensures read < |lines| ==> shuttingDown && read > 0 && lines[read - 1].Parsed? && !lines[read - 1].throws.InReply?
      ensures !old(shuttingDown) && (forall i :: 0 <= i < |lines| ==> lines[i].Parsed? ==> !lines[i].throws.InReply?) ==>
        if shuttingDown
        then read > 0 && lines[read - 1].Parsed? && lines[read - 1].request.isShutdown && lines[read - 1].request.succeeds
        else read == |lines|
      ensures received == succeeded + failed <==> lateThrows == 0
      ensures (forall i :: 0 <= i < |lines| ==> lines[i].Parsed? ==> !lines[i].throws.InReply?) ==>
        received == succeeded + failed
    {
      var stop := false;
      read := 0;
      while read < |lines| && !stop
        invariant Valid() && Balanced() && read <= |lines| && received == old(received) + read
        invariant (forall j :: 0 <= j < read ==> lines[j].Parsed? ==> !lines[j].throws.InReply?) ==> lateThrows == 0
        invariant stop ==> shuttingDown && read > 0 && lines[read - 1].Parsed? && !lines[read - 1].throws.InReply?
        invariant !old(shuttingDown) && (forall i :: 0 <= i < |lines| ==> lines[i].Parsed? ==> !lines[i].throws.InReply?)
          ==> (stop <==> shuttingDown)
              && (stop ==> lines[read - 1].request.isShutdown && lines[read - 1].request.succeeds)
      {
        stop := Turn(lines[read]);
        read := read + 1;
      }
    }
  }
}
