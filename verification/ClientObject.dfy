/**
 The Client of client/client.go as an object: the fields guarded by `mu` and one
 method per critical section, each proved to do the transition of ClientProtocol.
 */
module ClientObject {
  import opened Prelude
  import P = ClientProtocol

  /** `make(chan response, 1)`. */
  class Channel {
    var buffer: seq<P.Message>

    constructor ()
      ensures buffer == []
    {
      buffer := [];
    }

    /** A send that does not block: the one slot is free. */
    method Send(m: P.Message)
      requires buffer == []
      modifies this
      ensures buffer == [m]
    {
      buffer := [m];
    }
  }

  class Client {
    const restart: bool
    var process: Option<nat>
    var launched: nat
    var closed: bool
    var pending: map<nat, Channel>
    /** The channels of all calls, by call number. */
    ghost var channels: seq<Channel>

    ghost predicate ShowsSlot(s: P.State)
      reads this
    {
      restart == s.restart && process == s.process && launched == |s.procs| && closed == s.closed
    }

    ghost predicate ShowsCalls(calls: seq<P.Call>, entries: map<nat, nat>)
      reads this, channels
    {
      && |channels| == |calls|
      && (forall c | 0 <= c < |channels| :: channels[c].buffer == calls[c].buffer)
      && (forall c, d | 0 <= c < d < |channels| :: channels[c] != channels[d])
      && pending.Keys == entries.Keys
      && (forall id | id in pending :: entries[id] < |channels| && pending[id] == channels[entries[id]])
    }

    /** The object is in protocol state `s`. */
    ghost predicate Shows(s: P.State)
      reads this, channels
    {
      ShowsSlot(s) && ShowsCalls(s.calls, s.pending)
    }

    constructor (restart: bool, ghost s: P.State)
      requires P.Init(s) && s.restart == restart
      ensures Shows(s)
    {
      this.restart := restart;
      process, launched, closed := None, 0, false;
      pending := map[];
      channels := [];
    }

    /** `ensureProcess`: reuse, refuse, or launch the process numbered `launched`. */
    method EnsureProcess(counter: nat, spawns: bool, ghost s: P.State) returns (p: Option<nat>)
      requires Shows(s) && counter == s.issued % P.ID_SPACE
      modifies this
      ensures channels == old(channels)
      ensures p.Some? <==> !old(closed) && (old(process).Some? || (spawns && (counter == 0 || restart)))
      ensures p.Some? ==> p == if old(process).Some? then old(process) else Some(old(launched))
      ensures p.Some? <==> P.CanEnsure(s, spawns)
      ensures p.Some? ==> Shows(P.EnsureProcess(s)) && p == process
      ensures p.None? ==> Shows(s)
    {
      if closed {
        return None;
      }
      if process.Some? {
        return process;
      }
      if (counter > 0 && !restart) || !spawns {
        return None;
      }
      process := Some(launched);
      launched := launched + 1;
      return process;
    }

    /** The registration section of `call`. */
    method Register(p: nat, id: nat, result: Channel, ghost c: nat, ghost s: P.State)
      returns (outcome: Option<P.Outcome>)
      requires Shows(s) && c < |s.calls| && result == channels[c] && p == s.calls[c].pid && id == s.calls[c].id
      modifies this
      ensures channels == old(channels)
      ensures Shows(P.RegisterCall(s, c))
      ensures P.RegisterCall(s, c).calls[c].phase == if outcome.Some? then P.Returned(outcome.value) else P.Registered
    {
      if closed {
        return Some(P.Rejected);
      }
      if process != Some(p) {
        return Some(P.Stale);
      }
      pending := pending[id := result];
      return None;
    }

    /** The locked part of `readResponses`: look the channel up and delete the entry. */
    method TakeChannel(p: nat, m: P.Message, ghost s: P.State) returns (channel: Option<Channel>)
      requires Shows(s) && P.SidecarEnabled(s, p, P.Take) && m == s.procs[p].stdout[s.procs[p].read]
      modifies this
      ensures channels == old(channels)
      ensures Shows(P.TakeChannel(s, p))
      ensures channel.Some? <==> m.id in s.pending
      ensures channel.Some? ==> channel.value == channels[s.pending[m.id]]
    {
      if m.id in pending {
        channel := Some(pending[m.id]);
        pending := pending - {m.id};
      } else {
        channel := None;
      }
    }

    /** `removePending`. */
    method RemovePending(id: nat, ghost c: nat, ghost next: P.Phase, ghost s: P.State)
      requires Shows(s) && c < |s.calls| && id == s.calls[c].id
      modifies this
      ensures channels == old(channels)
      ensures Shows(P.RemovePending(s, c, next))
    {
      pending := pending - {id};
    }

    /** The locked part of `failProcess`. */
    method FailProcess(p: nat, ghost s: P.State)
      requires Shows(s) && P.Drainable(s) && p < |s.procs|
      modifies this, channels
      ensures channels == old(channels)
      ensures Shows(P.FailLocked(s, p))
    {
      P.FailLockedParts(s, p);
      if process == Some(p) {
        process := None;
        FailPendingLocked(P.ProcessFailed(p), s);
      }
    }

    /** `failPendingLocked` drains the map with one failure per entry. No send blocks
        because each entry has a channel of its own and that channel is empty. */
    method FailPendingLocked(cause: P.Cause, ghost s: P.State)
      requires ShowsCalls(s.calls, s.pending) && P.Drainable(s)
      modifies this`pending, channels
      ensures pending == map[] && channels == old(channels)
      ensures forall id | id in old(pending) :: old(pending)[id].buffer == [P.Failure(cause)]
      ensures ShowsCalls(P.FailPending(s, cause).calls, map[])
    {
      ghost var was := pending;
      Drain(cause);
      ghost var t := P.FailPending(s, cause);
      forall c | 0 <= c < |channels|
        ensures channels[c].buffer == t.calls[c].buffer
      {
        if P.IsPending(s, c) {
          assert was[s.calls[c].id] == channels[c];
        } else {
          assert forall id | id in was :: s.pending[id] != c && was[id] != channels[c];
        }
      }
    }

    /** The loop of `failPendingLocked`. */
    method Drain(cause: P.Cause)
      requires forall id | id in pending :: pending[id].buffer == []
      requires forall i, j | i in pending && j in pending && i != j :: pending[i] != pending[j]
      modifies this`pending, pending.Values
      ensures pending == map[]
      ensures forall id | id in old(pending) :: old(pending)[id].buffer == [P.Failure(cause)]
    {
      ghost var entries := pending;
      while pending != map[]
        invariant pending.Keys <= entries.Keys && entries == old(pending)
        invariant forall id | id in pending :: pending[id] == entries[id]
        invariant forall id | id in entries :: entries[id].buffer == if id in pending then [] else [P.Failure(cause)]
        decreases |pending|
      {
        var id :| id in pending;
        var channel := pending[id];
        assert channel == entries[id] && channel in entries.Values;
        channel.Send(P.Failure(cause));
        var rest := pending - {id};
        assert pending.Keys == rest.Keys + {id};
        pending := rest;
      }
    }

    /** `stopProcess` empties the slot and leaves pending alone. */
    method StopProcess(ghost s: P.State) returns (p: Option<nat>)
      requires Shows(s)
      modifies this
      ensures channels == old(channels)
      ensures p == s.process && Shows(P.StopIn(s))
    {
      p := process;
      process := None;
    }

    /** The locked part of `Close`. */
    method Close(ghost s: P.State) returns (p: Option<nat>)
      requires Shows(s) && P.Drainable(s)
      modifies this, channels
      ensures channels == old(channels)
      ensures Shows(P.CloseIn(s)) && p == (if s.closed then None else s.process)
    {
      if closed {
        return None;
      }
      closed := true;
      p := process;
      process := None;
      FailPendingLocked(P.ClientClosed, s);
    }
  }
}
