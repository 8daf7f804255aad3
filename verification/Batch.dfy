/** The batching transport object of `crates/cosmwasm/src/transport.rs`, updated in place. */
module Batch {
  import opened Prelude
  import opened Route
  import opened Transport

  class BatchHttpTransport {
    const maxSize: nat
    var queue: seq<Pending>
    var leader: bool
    /** The calls inside their tick loop, and the flushes their futures are driving. */
    var leading: set<nat>
    var inFlight: seq<Flush>
    /** The call futures and their answer channels. */
    var calls: seq<CallState>
    var settled: seq<Settlement>
    ghost var posted: seq<seq<Pending>>

    ghost function State(): World
      reads this
    {
      World(calls, queue, leader, leading, inFlight, posted, settled)
    }

    /** A zero batch size would never drain anything; one is the floor. */
    constructor WithPoster(requested: nat)
      ensures State() == IDLE
      ensures maxSize >= 1 && maxSize >= requested && (requested >= 1 ==> maxSize == requested)
      ensures Inv(State(), maxSize)
    {
      maxSize := if requested < 1 then 1 else requested;
      queue, leader, leading, inFlight, calls, settled, posted := [], false, {}, [], [], [], [];
      new;
      IdleIsSound(maxSize);
    }

    /** Park a call; the first to find the flag clear sets it and leads. */
    method Call(id: Option<Id>) returns (accepted: bool)
      requires maxSize > 0 && Inv(State(), maxSize)
      modifies this
      ensures accepted <==> id.Some?
      ensures State() == Apply(old(State()), maxSize, Event.Call(id)) && Inv(State(), maxSize)
    {
      hide Inv;
      EventKeepsInv(State(), maxSize, Event.Call(id));
      if id.None? {
        return false;
      }
      var ticket := |calls|;
      calls := calls + [Waiting];
      queue := queue + [Pending(ticket, id.value)];
      if !leader {
        leader := true;
        leading := leading + {ticket};
      }
      accepted := true;
    }

    /** A leader's timer fires: drain at most `maxSize` calls into one POST. */
    method OnTick(l: nat)
      requires maxSize > 0 && Inv(State(), maxSize) && Enabled(State(), Tick(l))
      modifies this
      ensures State() == Apply(old(State()), maxSize, Tick(l)) && Inv(State(), maxSize)
    {
      hide Inv;
      EventKeepsInv(State(), maxSize, Tick(l));
      var n := Min(|queue|, maxSize);
      var chunk := queue[..n];
      if chunk != [] {
        queue := queue[n..];
        inFlight := inFlight + [Flush(l, chunk)];
        posted := posted + [chunk];
      }
    }

    /** A POST finishes: route its response, or fail its whole chunk. */
    method OnPostDone(flush: nat, result: PostResult)
      requires maxSize > 0 && Inv(State(), maxSize) && Enabled(State(), Complete(flush, result))
      modifies this
      ensures State() == Apply(old(State()), maxSize, Complete(flush, result)) && Inv(State(), maxSize)
    {
      hide Inv;
      EventKeepsInv(State(), maxSize, Complete(flush, result));
      var chunk := inFlight[flush].chunk;
      var sends;
      match result {
        case Posted(body) => sends := RouteResponse(chunk, body);
        case PostError(detail) => sends := FailAll(chunk, PostFailed(detail));
      }
      inFlight := inFlight[..flush] + inFlight[flush + 1..];
      settled := settled + SettledBy(sends);
    }

    /** A leader's poll without a tick: leave once nothing is queued and none of its POSTs is under way. */
    method PollWithoutTick(l: nat) returns (left: bool)
      requires maxSize > 0 && Inv(State(), maxSize) && l in leading
      modifies this
      ensures left <==> Enabled(old(State()), LeaderExit(l))
      ensures State() == (if left then Apply(old(State()), maxSize, LeaderExit(l)) else old(State()))
              && Inv(State(), maxSize)
    {
      hide Inv;
      left := OwnedBy(inFlight, l) == [] && queue == [];
      if left {
        EventKeepsInv(State(), maxSize, LeaderExit(l));
        leader, leading := false, leading - {l};
      }
    }

    /** A call future is dropped at an await point; a leader's guard clears the flag. */
    method OnCancel(ticket: nat)
      requires maxSize > 0 && Inv(State(), maxSize) && Enabled(State(), Cancel(ticket))
      modifies this
      ensures State() == Apply(old(State()), maxSize, Cancel(ticket)) && Inv(State(), maxSize)
    {
      hide Inv;
      EventKeepsInv(State(), maxSize, Cancel(ticket));
      calls := calls[ticket := Abandoned];
      if ticket in leading {
        settled := settled + DroppedBy(Flatten(OwnedBy(inFlight, ticket)));
        inFlight := OwnedByOthers(inFlight, ticket);
        leader, leading := false, leading - {ticket};
      }
    }
  }
}
