/**
 * The batching transport of `crates/cosmwasm/src/transport.rs` as a protocol: calls, ticks, POST
 * answers, the leader's departure and the cancellation of any call future, in any interleaving.
 *
 * Everything between two await points is one event, since the transport runs on a single thread:
 * in particular the check-and-set of the leader flag, and the leader's way from its last poll to
 * the drop of its guard.
 */
module Transport {
  import opened Prelude
  import opened Route
  import Shrink

  /** What became of a call's single-use answer channel. */
  datatype Outcome = Sent(reply: Reply) | SenderDropped

  datatype Settlement = Settlement(ticket: nat, outcome: Outcome)

  /** The future of one call, as its caller sees it. */
  datatype CallState = Waiting | Returned(reply: Reply) | Abandoned

  datatype PostResult = Posted(body: Body) | PostError(detail: Text)

  /** A POST under way; it lives in the future of the leader that dispatched it. */
  datatype Flush = Flush(owner: nat, chunk: seq<Pending>)

  /**
   * `calls` has one entry per accepted call, by ticket. `leading` are the calls inside their tick
   * loop; that there is never more than one is proved, not assumed. `posted` and `settled` record
   * every POST started and every channel settled, in order.
   */
  datatype World = World(
    calls: seq<CallState>,
    queue: seq<Pending>,
    leaderFlag: bool,
    leading: set<nat>,
    inFlight: seq<Flush>,
    posted: seq<seq<Pending>>,
    settled: seq<Settlement>
  )

  const IDLE := World([], [], false, {}, [], [], [])

  datatype Event =
    | Call(id: Option<Id>)
    | Tick(leader: nat)
    | Complete(flush: nat, result: PostResult)
    | LeaderExit(leader: nat)
    | Return(ticket: nat)
    | Cancel(ticket: nat)

  function Sends(chunk: seq<Pending>, result: PostResult): seq<Send> {
    match result
    case Posted(body) => RouteBody(chunk, body)
    case PostError(detail) => FailAll(chunk, PostFailed(detail))
  }

  function SettledBy(sends: seq<Send>): (r: seq<Settlement>)
    ensures |r| == |sends|
  {
    seq(|sends|, i requires 0 <= i < |sends| => Settlement(sends[i].to.ticket, Sent(sends[i].reply)))
  }

  function DroppedBy(chunk: seq<Pending>): (r: seq<Settlement>)
    ensures |r| == |chunk|
  {
    seq(|chunk|, i requires 0 <= i < |chunk| => Settlement(chunk[i].ticket, SenderDropped))
  }

  function Flatten(chunks: seq<seq<Pending>>): seq<Pending> {
    if chunks == [] then [] else chunks[0] + Flatten(chunks[1..])
  }

  function Chunks(flushes: seq<Flush>): (r: seq<seq<Pending>>)
    ensures |r| == |flushes|
  {
    if flushes == [] then [] else [flushes[0].chunk] + Chunks(flushes[1..])
  }

  /** The chunks of the flushes one leader dispatched. */
  function OwnedBy(flushes: seq<Flush>, owner: nat): seq<seq<Pending>> {
    if flushes == [] then []
    else (if flushes[0].owner == owner then [flushes[0].chunk] else []) + OwnedBy(flushes[1..], owner)
  }

  function OwnedByOthers(flushes: seq<Flush>, owner: nat): seq<Flush> {
    if flushes == [] then []
    else (if flushes[0].owner == owner then [] else [flushes[0]]) + OwnedByOthers(flushes[1..], owner)
  }

  /** The outcome recorded for a ticket, if its channel has settled. */
  function OutcomeOf(settled: seq<Settlement>, ticket: nat): (r: Option<Outcome>)
    ensures r.Some? <==> ticket in Tickets(settled)
    ensures r.Some? ==> Settlement(ticket, r.value) in settled
  {
    if settled == [] then None
    else if settled[0].ticket == ticket then Some(settled[0].outcome)
    else OutcomeOf(settled[1..], ticket)
  }

  function Tickets(settled: seq<Settlement>): (r: seq<nat>)
    ensures |r| == |settled|
  {
    if settled == [] then [] else [settled[0].ticket] + Tickets(settled[1..])
  }

  function Received(outcome: Outcome): Reply {
    match outcome
    case Sent(reply) => reply
    case SenderDropped => Failed(Cancelled)
  }

  predicate InProgress(w: World, ticket: nat) {
    ticket < |w.calls| && w.calls[ticket].Waiting?
  }

  /** When an event can happen. */
  predicate Enabled(w: World, e: Event) {
    match e
    case Call(_) => true
    case Tick(l) => l in w.leading
    case Complete(flush, _) => flush < |w.inFlight|
    case LeaderExit(l) => l in w.leading && OwnedBy(w.inFlight, l) == [] && w.queue == []
    case Return(t) => InProgress(w, t) && t !in w.leading && OutcomeOf(w.settled, t).Some?
    case Cancel(t) => InProgress(w, t)
  }

  /** An envelope without an id is refused before it is queued; its ticket is never issued. */
  function AcceptCall(w: World, id: Option<Id>): World {
    if id.None? then w
    else
      var ticket := |w.calls|;
      w.(calls := w.calls + [Waiting],
         queue := w.queue + [Pending(ticket, id.value)],
         leaderFlag := true,
         leading := if w.leaderFlag then w.leading else w.leading + {ticket})
  }

  function DrainOnTick(w: World, max: nat, leader: nat): World {
    var n := Min(|w.queue|, max);
    var chunk := w.queue[..n];
    if chunk == [] then w
    else w.(queue := w.queue[n..], inFlight := w.inFlight + [Flush(leader, chunk)], posted := w.posted + [chunk])
  }

  function CompleteFlush(w: World, flush: nat, result: PostResult): World
    requires flush < |w.inFlight|
  {
    w.(inFlight := w.inFlight[..flush] + w.inFlight[flush + 1..],
       settled := w.settled + SettledBy(Sends(w.inFlight[flush].chunk, result)))
  }

  /** The guard clears the flag; a departing leader keeps waiting for its own answer. */
  function StepDown(w: World, leader: nat): World {
    w.(leaderFlag := false, leading := w.leading - {leader})
  }

  /** A dropped leader takes its in-flight chunks with it; the queue stays. */
  function CancelCall(w: World, ticket: nat): World
    requires ticket < |w.calls|
  {
    var gone := w.(calls := w.calls[ticket := Abandoned]);
    if ticket in w.leading then
      StepDown(gone, ticket).(inFlight := OwnedByOthers(w.inFlight, ticket),
                              settled := w.settled + DroppedBy(Flatten(OwnedBy(w.inFlight, ticket))))
    else gone
  }

  function Apply(w: World, max: nat, e: Event): World
    requires Enabled(w, e)
  {
    match e
    case Call(id) => AcceptCall(w, id)
    case Tick(l) => DrainOnTick(w, max, l)
    case Complete(flush, result) => CompleteFlush(w, flush, result)
    case LeaderExit(l) => StepDown(w, l)
    case Return(t) => w.(calls := w.calls[t := Returned(Received(OutcomeOf(w.settled, t).value))])
    case Cancel(t) => CancelCall(w, t)
  }

  /** Every event of the run can happen when its turn comes. */
  predicate Runs(w: World, max: nat, events: seq<Event>)
    decreases |events|
  {
    events == [] || (Enabled(w, events[0]) && Runs(Apply(w, max, events[0]), max, events[1..]))
  }

  function After(w: World, max: nat, events: seq<Event>): World
    requires Runs(w, max, events)
    decreases |events|
  {
    if events == [] then w else After(Apply(w, max, events[0]), max, events[1..])
  }

  // ----- conservation: every accepted call is in exactly one place -----

  function QueueTickets(chunk: seq<Pending>): (r: seq<nat>)
    ensures |r| == |chunk|
  {
    seq(|chunk|, i requires 0 <= i < |chunk| => chunk[i].ticket)
  }

  function Issued(n: nat): (r: seq<nat>)
    ensures |r| == n
  {
    seq(n, i => i)
  }

  /** Where the tickets are: queued, in flight, or settled, counted with multiplicity. */
  function Places(w: World): multiset<nat> {
    multiset(QueueTickets(w.queue)) + multiset(QueueTickets(Flatten(Chunks(w.inFlight)))) + multiset(Tickets(w.settled))
  }

  predicate Conserved(w: World) {
    Places(w) == multiset(Issued(|w.calls|))
  }

  lemma IssuedOnce(n: nat, t: nat)
    ensures multiset(Issued(n))[t] == if t < n then 1 else 0
  {
    if n > 0 {
      assert Issued(n) == Issued(n - 1) + [n - 1];
      IssuedOnce(n - 1, t);
    }
  }

  /** Each accepted call is queued, in flight, or settled, in exactly one of these and exactly once. */
  lemma ExactlyOnePlace(w: World, t: nat)
    requires Conserved(w)
    ensures multiset(QueueTickets(w.queue))[t] + multiset(QueueTickets(Flatten(Chunks(w.inFlight))))[t]
          + multiset(Tickets(w.settled))[t]
         == if t < |w.calls| then 1 else 0
  {
    IssuedOnce(|w.calls|, t);
    assert Places(w)[t] == multiset(Issued(|w.calls|))[t];
  }

  lemma {:induction false} FlattenAppend(a: seq<seq<Pending>>, b: seq<seq<Pending>>)
    ensures Flatten(a + b) == Flatten(a) + Flatten(b)
  {
    if a == [] {
      assert a + b == b;
    } else {
      assert (a + b)[1..] == a[1..] + b;
      FlattenAppend(a[1..], b);
    }
  }

  lemma FlattenOne(chunk: seq<Pending>)
    ensures Flatten([chunk]) == chunk
  {
    assert [chunk][1..] == [];
  }

  lemma {:induction false} TicketsAppend(a: seq<Settlement>, b: seq<Settlement>)
    ensures Tickets(a + b) == Tickets(a) + Tickets(b)
  {
    if a == [] {
      assert a + b == b;
    } else {
      assert (a + b)[1..] == a[1..] + b;
      TicketsAppend(a[1..], b);
    }
  }

  lemma {:induction false} TicketsAt(settled: seq<Settlement>, i: nat)
    requires i < |settled|
    ensures Tickets(settled)[i] == settled[i].ticket
  {
    if i > 0 { TicketsAt(settled[1..], i - 1); }
  }

  lemma QueueTicketsAppend(a: seq<Pending>, b: seq<Pending>)
    ensures QueueTickets(a + b) == QueueTickets(a) + QueueTickets(b)
  {
  }

  lemma TakeOneOut(s: seq<Pending>, j: nat)
    requires j < |s|
    ensures multiset(s) == multiset(s[..j] + s[j + 1..]) + multiset{s[j]}
    ensures multiset(QueueTickets(s)) == multiset(QueueTickets(s[..j] + s[j + 1..])) + multiset{s[j].ticket}
  {
    assert s == s[..j] + ([s[j]] + s[j + 1..]);
    QueueTicketsAppend(s[..j], [s[j]] + s[j + 1..]);
    QueueTicketsAppend([s[j]], s[j + 1..]);
    QueueTicketsAppend(s[..j], s[j + 1..]);
    assert QueueTickets([s[j]]) == [s[j].ticket];
  }

  lemma {:induction false} TicketsFollowPendings(a: seq<Pending>, b: seq<Pending>)
    requires multiset(a) == multiset(b)
    ensures multiset(QueueTickets(a)) == multiset(QueueTickets(b))
    decreases |a|
  {
    hide QueueTickets;
    if a == [] {
      assert |b| == |multiset(b)| == 0;
    } else {
      assert a[0] in multiset(b);
      var j :| 0 <= j < |b| && b[j] == a[0];
      TakeOneOut(a, 0);
      TakeOneOut(b, j);
      var a', b' := a[..0] + a[1..], b[..j] + b[j + 1..];
      assert multiset(a') == multiset(a) - multiset{a[0]};
      assert multiset(b') == multiset(b) - multiset{b[j]};
      TicketsFollowPendings(a', b');
    }
  }

  /** A finished flush settles each of its calls once, whatever came back. */
  lemma FlushSettlesItsChunk(chunk: seq<Pending>, result: PostResult)
    ensures multiset(Tickets(SettledBy(Sends(chunk, result)))) == multiset(QueueTickets(chunk))
  {
    var sends := Sends(chunk, result);
    match result {
      case Posted(body) => EveryCallAnsweredOnce(chunk, body);
      case PostError(detail) => assert Receivers(sends) == chunk;
    }
    TicketsFollowPendings(Receivers(sends), chunk);
    forall i | 0 <= i < |sends| ensures Tickets(SettledBy(sends))[i] == QueueTickets(Receivers(sends))[i] {
      TicketsAt(SettledBy(sends), i);
    }
    assert Tickets(SettledBy(sends)) == QueueTickets(Receivers(sends));
  }

  /** A POST that failed tells every call of its chunk so. */
  lemma FailedPostFailsEveryone(chunk: seq<Pending>, detail: Text, p: Pending)
    requires p in chunk
    ensures Settlement(p.ticket, Sent(Failed(PostFailed(detail)))) in SettledBy(Sends(chunk, PostError(detail)))
    ensures forall s :: s in SettledBy(Sends(chunk, PostError(detail))) ==>
            s.outcome == Sent(Failed(PostFailed(detail)))
  {
    var i :| 0 <= i < |chunk| && chunk[i] == p;
    assert SettledBy(Sends(chunk, PostError(detail)))[i] == Settlement(p.ticket, Sent(Failed(PostFailed(detail))));
  }

  lemma DroppedTickets(chunk: seq<Pending>)
    ensures Tickets(DroppedBy(chunk)) == QueueTickets(chunk)
  {
    forall i | 0 <= i < |chunk| ensures Tickets(DroppedBy(chunk))[i] == QueueTickets(chunk)[i] {
      TicketsAt(DroppedBy(chunk), i);
    }
  }

  lemma {:induction false} ChunksAppend(a: seq<Flush>, b: seq<Flush>)
    ensures Chunks(a + b) == Chunks(a) + Chunks(b)
  {
    if a == [] {
      assert a + b == b;
    } else {
      assert (a + b)[1..] == a[1..] + b;
      ChunksAppend(a[1..], b);
    }
  }

  lemma InFlightAppend(a: seq<Flush>, b: seq<Flush>)
    ensures Flatten(Chunks(a + b)) == Flatten(Chunks(a)) + Flatten(Chunks(b))
  {
    ChunksAppend(a, b);
    FlattenAppend(Chunks(a), Chunks(b));
  }

  lemma OneFlush(f: Flush)
    ensures Flatten(Chunks([f])) == f.chunk
  {
    assert [f][1..] == [];
    FlattenOne(f.chunk);
  }

  lemma CompleteConserves(w: World, flush: nat, result: PostResult)
    requires flush < |w.inFlight|
    ensures Places(CompleteFlush(w, flush, result)) == Places(w)
  {
    var f := w.inFlight[flush];
    var before, after := w.inFlight[..flush], w.inFlight[flush + 1..];
    assert w.inFlight == before + ([f] + after);
    InFlightAppend(before, [f] + after);
    InFlightAppend([f], after);
    OneFlush(f);
    InFlightAppend(before, after);
    QueueTicketsAppend(Flatten(Chunks(before)), f.chunk + Flatten(Chunks(after)));
    QueueTicketsAppend(f.chunk, Flatten(Chunks(after)));
    QueueTicketsAppend(Flatten(Chunks(before)), Flatten(Chunks(after)));
    FlushSettlesItsChunk(f.chunk, result);
    TicketsAppend(w.settled, SettledBy(Sends(f.chunk, result)));
  }

  lemma TickConserves(w: World, max: nat, leader: nat)
    ensures Places(DrainOnTick(w, max, leader)) == Places(w)
  {
    var n := Min(|w.queue|, max);
    var chunk := w.queue[..n];
    if chunk != [] {
      assert w.queue == chunk + w.queue[n..];
      QueueTicketsAppend(chunk, w.queue[n..]);
      InFlightAppend(w.inFlight, [Flush(leader, chunk)]);
      OneFlush(Flush(leader, chunk));
      QueueTicketsAppend(Flatten(Chunks(w.inFlight)), chunk);
    }
  }

  lemma OwnedUnfolds(flushes: seq<Flush>, owner: nat)
    requires flushes != []
    ensures var f, rest := flushes[0], flushes[1..];
            && Flatten(Chunks(flushes)) == f.chunk + Flatten(Chunks(rest))
            && Flatten(OwnedBy(flushes, owner))
            == (if f.owner == owner then f.chunk else []) + Flatten(OwnedBy(rest, owner))
            && Flatten(Chunks(OwnedByOthers(flushes, owner)))
            == (if f.owner == owner then [] else f.chunk) + Flatten(Chunks(OwnedByOthers(rest, owner)))
  {
    var f, rest := flushes[0], flushes[1..];
    assert flushes == [f] + rest;
    InFlightAppend([f], rest);
    OneFlush(f);
    FlattenOne(f.chunk);
    FlattenAppend([f.chunk], OwnedBy(rest, owner));
    InFlightAppend([f], OwnedByOthers(rest, owner));
    if f.owner == owner {
      assert OwnedByOthers(flushes, owner) == OwnedByOthers(rest, owner);
    } else {
      assert OwnedBy(flushes, owner) == OwnedBy(rest, owner);
    }
    hide Flatten, Chunks;
  }

  /** What a leader owns and what the others own make up all that is in flight. */
  lemma {:induction false} FlushesSplit(flushes: seq<Flush>, owner: nat)
    ensures multiset(QueueTickets(Flatten(Chunks(flushes))))
         == multiset(QueueTickets(Flatten(OwnedBy(flushes, owner))))
          + multiset(QueueTickets(Flatten(Chunks(OwnedByOthers(flushes, owner)))))
  {
    if flushes != [] {
      hide QueueTickets, Flatten, Chunks, OwnedBy, OwnedByOthers;
      var f, rest := flushes[0], flushes[1..];
      FlushesSplit(rest, owner);
      OwnedUnfolds(flushes, owner);
      var mine := if f.owner == owner then f.chunk else [];
      var others := if f.owner == owner then [] else f.chunk;
      QueueTicketsAppend(f.chunk, Flatten(Chunks(rest)));
      QueueTicketsAppend(mine, Flatten(OwnedBy(rest, owner)));
      QueueTicketsAppend(others, Flatten(Chunks(OwnedByOthers(rest, owner))));
      NoTickets();
    }
  }

  lemma NoTickets()
    ensures QueueTickets([]) == []
  {
  }

  lemma CancelConserves(w: World, ticket: nat)
    requires ticket < |w.calls|
    ensures Places(CancelCall(w, ticket)) == Places(w)
  {
    if ticket in w.leading {
      var lost := Flatten(OwnedBy(w.inFlight, ticket));
      FlushesSplit(w.inFlight, ticket);
      DroppedTickets(lost);
      TicketsAppend(w.settled, DroppedBy(lost));
    }
  }

  lemma CallConserves(w: World, id: Option<Id>)
    requires Conserved(w)
    ensures Conserved(AcceptCall(w, id))
  {
    hide Flatten, Chunks, Tickets;
    if id.Some? {
      var p := Pending(|w.calls|, id.value);
      QueueTicketsAppend(w.queue, [p]);
      assert QueueTickets([p]) == [|w.calls|];
      assert Issued(|w.calls| + 1) == Issued(|w.calls|) + [|w.calls|];
      hide QueueTickets, Issued;
    }
  }

  /** Where the tickets are depends on the queue, the flushes and the settlements only. */
  lemma SamePlaces(w: World, v: World)
    requires v.queue == w.queue && v.inFlight == w.inFlight && v.settled == w.settled
    ensures Places(v) == Places(w)
  {
  }

  lemma StaysConserved(w: World, v: World)
    requires Conserved(w) && Places(v) == Places(w) && |v.calls| == |w.calls|
    ensures Conserved(v)
  {
  }

  lemma EventConserves(w: World, max: nat, e: Event)
    requires Conserved(w) && Enabled(w, e)
    ensures Conserved(Apply(w, max, e))
  {
    hide Places, Issued, Conserved, OwnedBy, OutcomeOf, AcceptCall;
    var v := Apply(w, max, e);
    match e
    case Call(id) => CallConserves(w, id);
    case _ =>
      assert |v.calls| == |w.calls|;
      match e {
        case Tick(l) => TickConserves(w, max, l);
        case Complete(flush, result) => CompleteConserves(w, flush, result);
        case Cancel(t) => CancelConserves(w, t);
        case _ => SamePlaces(w, v);
      }
      StaysConserved(w, v);
  }

  // ----- the invariant of every reachable state -----

  /** The calls in arrival order: those posted, then those still queued. */
  function Arrivals(w: World): seq<Pending> {
    Flatten(w.posted) + w.queue
  }

  predicate ChunksFit(chunks: seq<seq<Pending>>, max: nat) {
    forall i :: 0 <= i < |chunks| ==> 0 < |chunks[i]| <= max
  }

  /** At most one call leads, exactly while the flag is set; it has not given up, and owns every flush. */
  predicate LeaderSound(w: World) {
    && (forall l, m :: l in w.leading && m in w.leading ==> l == m)
    && (w.leaderFlag <==> w.leading != {})
    && (forall l :: l in w.leading ==> InProgress(w, l) && OutcomeOf(w.settled, l) != Some(SenderDropped))
    && (forall f :: f in w.inFlight ==> f.owner in w.leading)
  }

  /** A call that returned returned what was sent to it. */
  predicate ReturnsSound(w: World) {
    forall t :: 0 <= t < |w.calls| && w.calls[t].Returned? ==>
      OutcomeOf(w.settled, t).Some? && w.calls[t].reply == Received(OutcomeOf(w.settled, t).value)
  }

  ghost predicate Inv(w: World, max: nat) {
    && Conserved(w)
    && LeaderSound(w)
    && ReturnsSound(w)
    && ChunksFit(Chunks(w.inFlight), max) && ChunksFit(w.posted, max)
    && QueueTickets(Arrivals(w)) == Issued(|w.calls|)
  }

  lemma {:induction false} OutcomeSettles(settled: seq<Settlement>, more: seq<Settlement>, t: nat)
    ensures OutcomeOf(settled + more, t) == if OutcomeOf(settled, t).Some? then OutcomeOf(settled, t)
            else OutcomeOf(more, t)
  {
    if settled == [] {
      assert settled + more == more;
    } else {
      assert (settled + more)[1..] == settled[1..] + more;
      OutcomeSettles(settled[1..], more, t);
    }
  }

  lemma SentIsNotDropped(sends: seq<Send>, t: nat)
    ensures OutcomeOf(SettledBy(sends), t) != Some(SenderDropped)
  {
  }

  lemma SettlingKeepsReturns(w: World, v: World, more: seq<Settlement>)
    requires ReturnsSound(w) && v.settled == w.settled + more && |v.calls| == |w.calls|
    requires forall t :: 0 <= t < |v.calls| && v.calls[t].Returned? ==> v.calls[t] == w.calls[t]
    ensures ReturnsSound(v)
  {
    forall t | 0 <= t < |v.calls| && v.calls[t].Returned?
      ensures OutcomeOf(v.settled, t).Some? && v.calls[t].reply == Received(OutcomeOf(v.settled, t).value)
    {
      OutcomeSettles(w.settled, more, t);
    }
  }

  lemma FreshTicketUnsettled(w: World)
    requires Conserved(w)
    ensures OutcomeOf(w.settled, |w.calls|).None?
  {
    ExactlyOnePlace(w, |w.calls|);
    assert |w.calls| !in multiset(Tickets(w.settled));
  }

  lemma CompleteKeepsLeader(w: World, flush: nat, result: PostResult)
    requires LeaderSound(w) && flush < |w.inFlight|
    ensures LeaderSound(CompleteFlush(w, flush, result))
  {
    var sends := Sends(w.inFlight[flush].chunk, result);
    forall l | l in w.leading ensures OutcomeOf(w.settled + SettledBy(sends), l) != Some(SenderDropped) {
      OutcomeSettles(w.settled, SettledBy(sends), l);
      SentIsNotDropped(sends, l);
    }
  }

  lemma {:induction false} OthersAreElsewhere(flushes: seq<Flush>, owner: nat)
    ensures forall f :: f in OwnedByOthers(flushes, owner) ==> f in flushes && f.owner != owner
    ensures (forall f :: f in flushes ==> f.owner == owner) ==>
              OwnedBy(flushes, owner) == Chunks(flushes) && OwnedByOthers(flushes, owner) == []
  {
    if flushes != [] { OthersAreElsewhere(flushes[1..], owner); }
  }

  lemma CancelKeepsLeader(w: World, ticket: nat)
    requires LeaderSound(w) && ticket < |w.calls|
    ensures LeaderSound(CancelCall(w, ticket))
  {
    OthersAreElsewhere(w.inFlight, ticket);
  }

  lemma EventKeepsLeader(w: World, max: nat, e: Event)
    requires Conserved(w) && LeaderSound(w) && Enabled(w, e)
    ensures LeaderSound(Apply(w, max, e))
  {
    match e
    case Call(id) => FreshTicketUnsettled(w);
    case Complete(flush, result) => CompleteKeepsLeader(w, flush, result);
    case Cancel(t) => CancelKeepsLeader(w, t);
    case LeaderExit(l) => NoOwnedFlush(w, l);
    case _ =>
  }

  /** Every flush belongs to the one leader, so a leader without a flush of its own leaves nothing in flight. */
  lemma NoOwnedFlush(w: World, l: nat)
    requires LeaderSound(w) && l in w.leading && OwnedBy(w.inFlight, l) == []
    ensures w.inFlight == []
  {
    OthersAreElsewhere(w.inFlight, l);
    assert forall f :: f in w.inFlight ==> f.owner == l;
  }

  lemma EventKeepsReturns(w: World, max: nat, e: Event)
    requires ReturnsSound(w) && Enabled(w, e)
    ensures ReturnsSound(Apply(w, max, e))
  {
    var v := Apply(w, max, e);
    match e
    case Complete(flush, result) => SettlingKeepsReturns(w, v, SettledBy(Sends(w.inFlight[flush].chunk, result)));
    case Cancel(t) =>
      if t in w.leading { SettlingKeepsReturns(w, v, DroppedBy(Flatten(OwnedBy(w.inFlight, t)))); }
    case _ =>
  }

  lemma TickKeepsArrivals(w: World, max: nat, leader: nat)
    ensures Arrivals(DrainOnTick(w, max, leader)) == Arrivals(w)
  {
    var n := Min(|w.queue|, max);
    var chunk := w.queue[..n];
    if chunk != [] {
      FlattenAppend(w.posted, [chunk]);
      FlattenOne(chunk);
      assert chunk + w.queue[n..] == w.queue;
    }
  }

  lemma EventKeepsArrivals(w: World, max: nat, e: Event)
    requires Enabled(w, e) && QueueTickets(Arrivals(w)) == Issued(|w.calls|)
    ensures QueueTickets(Arrivals(Apply(w, max, e))) == Issued(|Apply(w, max, e).calls|)
  {
    match e
    case Call(id) =>
      if id.Some? {
        var p := Pending(|w.calls|, id.value);
        assert Arrivals(AcceptCall(w, id)) == Arrivals(w) + [p];
        QueueTicketsAppend(Arrivals(w), [p]);
        assert Issued(|w.calls| + 1) == Issued(|w.calls|) + [|w.calls|];
      }
    case Tick(l) => TickKeepsArrivals(w, max, l);
    case _ =>
  }

  lemma EventKeepsInv(w: World, max: nat, e: Event)
    requires max > 0 && Inv(w, max) && Enabled(w, e)
    ensures Inv(Apply(w, max, e), max)
  {
    EventConserves(w, max, e);
    EventKeepsLeader(w, max, e);
    EventKeepsReturns(w, max, e);
    EventKeepsArrivals(w, max, e);
    EventKeepsChunks(w, max, e);
  }

  lemma {:induction false} OthersFit(flushes: seq<Flush>, owner: nat, max: nat)
    requires ChunksFit(Chunks(flushes), max)
    ensures ChunksFit(Chunks(OwnedByOthers(flushes, owner)), max)
  {
    if flushes != [] {
      var f, rest := flushes[0], flushes[1..];
      assert Chunks(flushes) == [f.chunk] + Chunks(rest);
      assert forall i :: 0 <= i < |Chunks(rest)| ==> Chunks(rest)[i] == Chunks(flushes)[i + 1];
      OthersFit(rest, owner, max);
      ChunksAppend(if f.owner == owner then [] else [f], OwnedByOthers(rest, owner));
      OneChunk(f);
      assert Chunks(flushes)[0] == f.chunk;
    }
  }

  lemma OneChunk(f: Flush)
    ensures Chunks([f]) == [f.chunk] && Chunks([]) == []
  {
    assert [f][1..] == [];
  }

  lemma CompleteFits(w: World, flush: nat, max: nat)
    requires flush < |w.inFlight| && ChunksFit(Chunks(w.inFlight), max)
    ensures ChunksFit(Chunks(w.inFlight[..flush] + w.inFlight[flush + 1..]), max)
  {
    var before, f, after := w.inFlight[..flush], w.inFlight[flush], w.inFlight[flush + 1..];
    assert w.inFlight == before + ([f] + after);
    ChunksAppend(before, [f] + after);
    ChunksAppend([f], after);
    ChunksAppend(before, after);
    OneChunk(f);
    var all := Chunks(w.inFlight);
    assert forall i :: 0 <= i < |Chunks(before)| ==> Chunks(before)[i] == all[i];
    assert forall i :: 0 <= i < |Chunks(after)| ==> Chunks(after)[i] == all[|Chunks(before)| + 1 + i];
  }

  lemma TickKeepsChunks(w: World, max: nat, l: nat)
    requires max > 0 && ChunksFit(Chunks(w.inFlight), max) && ChunksFit(w.posted, max)
    ensures ChunksFit(Chunks(DrainOnTick(w, max, l).inFlight), max) && ChunksFit(DrainOnTick(w, max, l).posted, max)
  {
    hide Chunks;
    var chunk := w.queue[..Min(|w.queue|, max)];
    ChunksAppend(w.inFlight, [Flush(l, chunk)]);
    OneChunk(Flush(l, chunk));
  }

  lemma EventKeepsChunks(w: World, max: nat, e: Event)
    requires max > 0 && Inv(w, max) && Enabled(w, e)
    ensures ChunksFit(Chunks(Apply(w, max, e).inFlight), max) && ChunksFit(Apply(w, max, e).posted, max)
  {
    hide Conserved, LeaderSound, ReturnsSound, Arrivals, ChunksFit, Chunks;
    hide OwnedBy, OwnedByOthers, DroppedBy, SettledBy;
    match e
    case Tick(l) =>
      TickKeepsChunks(w, max, l);
      hide DrainOnTick;
    case Complete(flush, _) => CompleteFits(w, flush, max);
    case Cancel(t) => OthersFit(w.inFlight, t, max);
    case _ =>
  }

  /** Safety of the protocol: the invariant holds after every run from the idle transport. */
  lemma {:induction false} RunKeepsInv(w: World, max: nat, events: seq<Event>)
    requires max > 0 && Inv(w, max) && Runs(w, max, events)
    ensures Inv(After(w, max, events), max)
    decreases |events|
  {
    if events != [] {
      EventKeepsInv(w, max, events[0]);
      RunKeepsInv(Apply(w, max, events[0]), max, events[1..]);
    }
  }

  lemma IdleIsSound(max: nat)
    ensures Inv(IDLE, max)
  {
    assert QueueTickets([]) == [] && Issued(0) == [];
  }

  // ----- what the invariant gives the caller -----

  /** A leader that leaves its loop uncancelled finds its own answer already delivered. */
  lemma DepartingLeaderIsAnswered(w: World, max: nat, l: nat)
    requires Inv(w, max) && Enabled(w, LeaderExit(l))
    ensures var v := Apply(w, max, LeaderExit(l));
            && Enabled(v, Return(l))
            && exists reply :: OutcomeOf(w.settled, l) == Some(Sent(reply))
                && Apply(v, max, Return(l)).calls[l] == Returned(reply)
  {
    ExactlyOnePlace(w, l);
    NoOwnedFlush(w, l);
    assert QueueTickets(w.queue) == [] && QueueTickets(Flatten(Chunks(w.inFlight))) == [];
    assert l in multiset(Tickets(w.settled));
    var outcome := OutcomeOf(w.settled, l).value;
    assert outcome == Sent(outcome.reply);
  }

  // ----- exactly when calls are stranded, and when replies are lost -----

  /** The event drops the future of the call that leads. */
  predicate DropsLeader(w: World, e: Event) {
    e.Cancel? && e.ticket in w.leading
  }

  /** A queue without a leader: nobody is ticking, so nothing in it moves. */
  predicate Stranded(w: World) {
    !w.leaderFlag && w.queue != []
  }

  /** At no point of the run is the queue stranded. */
  predicate NeverStranded(w: World, max: nat, events: seq<Event>)
    requires Runs(w, max, events)
    decreases |events|
  {
    !Stranded(w) && (events == [] || NeverStranded(Apply(w, max, events[0]), max, events[1..]))
  }

  /** Every leader the run drops is dropped with nothing queued. */
  predicate NoLeaderDroppedOverQueue(w: World, max: nat, events: seq<Event>)
    requires Runs(w, max, events)
    decreases |events|
  {
    events == [] ||
    (&& (DropsLeader(w, events[0]) ==> w.queue == [])
     && NoLeaderDroppedOverQueue(Apply(w, max, events[0]), max, events[1..]))
  }

  /** Every leader the run drops is dropped with no POST under way. */
  predicate NoLeaderDroppedOverFlights(w: World, max: nat, events: seq<Event>)
    requires Runs(w, max, events)
    decreases |events|
  {
    events == [] ||
    (&& (DropsLeader(w, events[0]) ==> w.inFlight == [])
     && NoLeaderDroppedOverFlights(Apply(w, max, events[0]), max, events[1..]))
  }

  /** Every channel settled so far was settled with a reply. */
  predicate EveryReplySent(w: World) {
    forall s :: s in w.settled ==> s.outcome.Sent?
  }

  lemma EventStrandsIff(w: World, max: nat, e: Event)
    requires Inv(w, max) && Enabled(w, e) && !Stranded(w)
    ensures Stranded(Apply(w, max, e)) <==> DropsLeader(w, e) && w.queue != []
  {
  }

  lemma EventLosesReplyIff(w: World, max: nat, e: Event)
    requires Inv(w, max) && Enabled(w, e) && EveryReplySent(w)
    ensures EveryReplySent(Apply(w, max, e)) <==> !(DropsLeader(w, e) && w.inFlight != [])
  {
    if DropsLeader(w, e) {
      CancelledLeaderState(w, e.ticket);
      hide Flatten, Chunks, CancelCall;
      var lost := Flatten(Chunks(w.inFlight));
      var v := Apply(w, max, e);
      assert v.settled == w.settled + DroppedBy(lost);
      if w.inFlight != [] {
        FlightsHoldCalls(w.inFlight, max);
        assert v.settled[|w.settled|] == DroppedBy(lost)[0];
        assert DroppedBy(lost)[0] in v.settled;
      } else {
        FlightsHoldCalls([], max);
        assert DroppedBy(lost) == [];
      }
    }
  }

  lemma FlightsHoldCalls(flushes: seq<Flush>, max: nat)
    requires ChunksFit(Chunks(flushes), max)
    ensures Flatten(Chunks(flushes)) == [] <==> flushes == []
  {
    if flushes != [] { assert |Chunks(flushes)[0]| > 0; }
  }

  /** The queue is stranded at some point of a run if and only if the run drops a leader over queued calls. */
  lemma {:induction false} StrandedIffLeaderDroppedOverQueue(w: World, max: nat, events: seq<Event>)
    requires max > 0 && Inv(w, max) && Runs(w, max, events) && !Stranded(w)
    ensures NeverStranded(w, max, events) <==> NoLeaderDroppedOverQueue(w, max, events)
    decreases |events|
  {
    if events != [] {
      var v := Apply(w, max, events[0]);
      EventKeepsInv(w, max, events[0]);
      EventStrandsIff(w, max, events[0]);
      hide Inv, Apply, Stranded, DropsLeader;
      if !Stranded(v) { StrandedIffLeaderDroppedOverQueue(v, max, events[1..]); }
    }
  }

  lemma {:induction false} SettledOnlyGrows(w: World, max: nat, events: seq<Event>)
    requires Runs(w, max, events)
    ensures w.settled <= After(w, max, events).settled
    decreases |events|
  {
    if events != [] { SettledOnlyGrows(Apply(w, max, events[0]), max, events[1..]); }
  }

  /** A run loses a reply if and only if it drops a leader whose POSTs are under way. */
  lemma {:induction false} RepliesLostIffLeaderDroppedOverFlights(w: World, max: nat, events: seq<Event>)
    requires max > 0 && Inv(w, max) && Runs(w, max, events) && EveryReplySent(w)
    ensures EveryReplySent(After(w, max, events)) <==> NoLeaderDroppedOverFlights(w, max, events)
    decreases |events|
  {
    if events != [] {
      var v := Apply(w, max, events[0]);
      EventKeepsInv(w, max, events[0]);
      EventLosesReplyIff(w, max, events[0]);
      hide Inv, Apply, DropsLeader;
      if EveryReplySent(v) {
        RepliesLostIffLeaderDroppedOverFlights(v, max, events[1..]);
      } else {
        SettledOnlyGrows(v, max, events[1..]);
      }
    }
  }

  /** Nothing waits anywhere, and every accepted call was sent its one reply. */
  predicate Served(w: World) {
    && w.queue == [] && w.inFlight == []
    && forall t :: 0 <= t < |w.calls| ==>
         multiset(Tickets(w.settled))[t] == 1 && OutcomeOf(w.settled, t).Some? && OutcomeOf(w.settled, t).value.Sent?
  }

  /** At every point of the run, a clear flag means that all is served. */
  predicate ServedWheneverClear(w: World, max: nat, events: seq<Event>)
    requires Runs(w, max, events)
    decreases |events|
  {
    && (!w.leaderFlag ==> Served(w))
    && (events == [] || ServedWheneverClear(Apply(w, max, events[0]), max, events[1..]))
  }

  lemma ClearFlagNoFlights(w: World)
    requires LeaderSound(w) && !w.leaderFlag
    ensures w.inFlight == []
  {
    SomeFlight(w.inFlight);
  }

  lemma SomeFlight(flushes: seq<Flush>)
    ensures flushes == [] || exists f :: f in flushes
  {
    if flushes != [] { assert flushes[0] in flushes; }
  }

  /** With the flag clear, all is served exactly when nothing is queued and no reply was lost. */
  lemma ClearAndServedIff(w: World, max: nat)
    requires Inv(w, max) && !w.leaderFlag
    ensures Served(w) <==> w.queue == [] && EveryReplySent(w)
  {
    ClearFlagNoFlights(w);
    if w.queue == [] && EveryReplySent(w) {
      assert QueueTickets(w.queue) == [] && QueueTickets(Flatten(Chunks(w.inFlight))) == [];
      forall t | 0 <= t < |w.calls|
        ensures multiset(Tickets(w.settled))[t] == 1 && OutcomeOf(w.settled, t).Some?
                && OutcomeOf(w.settled, t).value.Sent?
      {
        ExactlyOnePlace(w, t);
        assert t in multiset(Tickets(w.settled));
      }
    }
    if Served(w) {
      forall i | 0 <= i < |w.settled| ensures w.settled[i].outcome.Sent? {
        SettledOutcomeIs(w, i);
      }
    }
  }

  /** A settled ticket was issued and settled once, so its outcome is the one recorded. */
  lemma SettledOutcomeIs(w: World, i: nat)
    requires Conserved(w) && i < |w.settled|
    ensures w.settled[i].ticket < |w.calls|
    ensures OutcomeOf(w.settled, w.settled[i].ticket) == Some(w.settled[i].outcome)
  {
    var t := w.settled[i].ticket;
    TicketsAt(w.settled, i);
    assert t in multiset(Tickets(w.settled));
    ExactlyOnePlace(w, t);
    OnlyOutcome(w.settled, i);
  }

  lemma {:induction false} OnlyOutcome(settled: seq<Settlement>, i: nat)
    requires i < |settled| && multiset(Tickets(settled))[settled[i].ticket] == 1
    ensures OutcomeOf(settled, settled[i].ticket) == Some(settled[i].outcome)
  {
    if i > 0 {
      var t, rest := settled[i].ticket, settled[1..];
      TicketsAt(rest, i - 1);
      assert multiset(Tickets(settled)) == multiset{settled[0].ticket} + multiset(Tickets(rest));
      assert t in multiset(Tickets(rest));
      OnlyOutcome(rest, i - 1);
    }
  }

  /**
   * The exact condition: a clear flag always means that nothing waits and that every accepted call
   * was sent its one reply, if and only if no leader is dropped over queued calls or POSTs under way.
   */
  lemma ClearFlagMeansAllServed(max: nat, events: seq<Event>)
    requires max > 0 && Runs(IDLE, max, events)
    ensures ServedWheneverClear(IDLE, max, events)
       <==> NoLeaderDroppedOverQueue(IDLE, max, events) && NoLeaderDroppedOverFlights(IDLE, max, events)
  {
    IdleIsSound(max);
    StrandedIffLeaderDroppedOverQueue(IDLE, max, events);
    RepliesLostIffLeaderDroppedOverFlights(IDLE, max, events);
    ServedIffNothingLost(IDLE, max, events);
  }

  lemma {:induction false} ServedIffNothingLost(w: World, max: nat, events: seq<Event>)
    requires max > 0 && Inv(w, max) && Runs(w, max, events) && EveryReplySent(w)
    ensures ServedWheneverClear(w, max, events)
            <==> NeverStranded(w, max, events) && EveryReplySent(After(w, max, events))
    decreases |events|
  {
    if !w.leaderFlag { ClearAndServedIff(w, max); }
    if events != [] {
      var v := Apply(w, max, events[0]);
      EventKeepsInv(w, max, events[0]);
      EventLosesReplyIff(w, max, events[0]);
      if EveryReplySent(v) {
        hide Inv, Apply, Served;
        ServedIffNothingLost(v, max, events[1..]);
      } else {
        assert !v.leaderFlag;
        ClearAndServedIff(v, max);
        hide Inv, Apply, Served;
        SettledOnlyGrows(v, max, events[1..]);
        assert !EveryReplySent(After(v, max, events[1..]));
      }
    }
  }

  /** The smallest such run: a leader dropped before its first tick leaves its own and a later call behind. */
  lemma DroppedLeaderStrandsTheQueue(max: nat, first: Id, second: Id)
    ensures var run := [Call(Some(first)), Cancel(0)];
            Runs(IDLE, max, run) && After(IDLE, max, run).queue == [Pending(0, first)]
                && Stranded(After(IDLE, max, run))
    ensures var run := [Call(Some(first)), Call(Some(second)), Cancel(0)];
            && Runs(IDLE, max, run)
            && var w := After(IDLE, max, run);
               Stranded(w) && InProgress(w, 1) && OutcomeOf(w.settled, 1).None? && Pending(1, second) in w.queue
  {
    var short, long := [Call(Some(first)), Cancel(0)], [Call(Some(first)), Call(Some(second)), Cancel(0)];
    var one := Apply(IDLE, max, Call(Some(first)));
    assert one.queue == [Pending(0, first)] && one.calls == [Waiting] && one.leading == {0};
    assert short[1..] == [Cancel(0)] && long[1..] == [Call(Some(second)), Cancel(0)] && long[1..][1..] == [Cancel(0)];
    var two := Apply(one, max, Call(Some(second)));
    assert two.queue == [Pending(0, first), Pending(1, second)] && two.calls == [Waiting, Waiting]
           && two.leading == {0};
    assert [Cancel(0)][1..] == [];
    DropEnds(one, max, 0);
    DropEnds(two, max, 0);
    hide Apply, Enabled;
    assert Runs(one, max, short[1..]) && Runs(two, max, [Cancel(0)]);
  }

  /** A run that ends by dropping a leader with no POST under way: the queue stays, the flag clears. */
  lemma DropEnds(w: World, max: nat, l: nat)
    requires InProgress(w, l) && l in w.leading && w.inFlight == []
    ensures Runs(w, max, [Cancel(l)])
    ensures var v := After(w, max, [Cancel(l)]);
            v.queue == w.queue && !v.leaderFlag && v.settled == w.settled && v.calls == w.calls[l := Abandoned]
  {
    assert [Cancel(l)][1..] == [];
    assert OwnedBy(w.inFlight, l) == [] && DroppedBy(Flatten([])) == [];
  }

  /** What a cancelled leader strands stays queued, untouched, until the next accepted call leads. */
  lemma StrandedQueueWaitsForNextCall(w: World, max: nat, e: Event)
    requires Inv(w, max) && !w.leaderFlag && Enabled(w, e)
    ensures var v := Apply(w, max, e);
            if e.Call? && e.id.Some? then
              && v.leading == {|w.calls|}
              && v.queue == w.queue + [Pending(|w.calls|, e.id.value)]
            else v.queue == w.queue && v.leading == {}
  {
  }

  /** However long the run, a stranded queue neither moves nor is answered until a call is accepted. */
  lemma {:induction false} StrandedUntilNextCall(w: World, max: nat, events: seq<Event>)
    requires max > 0 && Inv(w, max) && Stranded(w) && Runs(w, max, events)
    requires forall e :: e in events && e.Call? ==> e.id.None?
    ensures var v := After(w, max, events); Stranded(v) && v.queue == w.queue && v.settled == w.settled
    decreases |events|
  {
    if events != [] {
      var v := Apply(w, max, events[0]);
      EventKeepsInv(w, max, events[0]);
      StrandedQueueWaitsForNextCall(w, max, events[0]);
      ClearFlagNoFlights(w);
      assert events[0] in events;
      assert v.settled == w.settled && Stranded(v);
      hide Inv, Apply, Stranded;
      StrandedUntilNextCall(v, max, events[1..]);
    }
  }

  lemma DroppedOutcome(lost: seq<Pending>, t: nat)
    ensures OutcomeOf(DroppedBy(lost), t) == if t in QueueTickets(lost) then Some(SenderDropped) else None
  {
    DroppedTickets(lost);
    var outcome := OutcomeOf(DroppedBy(lost), t);
    if outcome.Some? {
      var i :| 0 <= i < |lost| && DroppedBy(lost)[i] == Settlement(t, outcome.value);
    }
  }

  lemma CancelledLeaderState(w: World, l: nat)
    requires LeaderSound(w) && l in w.leading
    ensures var v := CancelCall(w, l);
            && v.queue == w.queue && v.inFlight == [] && !v.leaderFlag
            && v.settled == w.settled + DroppedBy(Flatten(Chunks(w.inFlight)))
  {
    hide Flatten, Chunks, DroppedBy;
    OthersAreElsewhere(w.inFlight, l);
    assert forall f :: f in w.inFlight ==> f.owner == l;
  }

  /** Cancelling the leader tells exactly the calls in flight that their flush was cancelled. */
  lemma CancelledLeaderDropsInFlight(w: World, max: nat, l: nat, t: nat)
    requires Inv(w, max) && l in w.leading && t < |w.calls|
    ensures var v := Apply(w, max, Cancel(l));
            && v.queue == w.queue && v.inFlight == [] && !v.leaderFlag
            && (OutcomeOf(v.settled, t) == if t in QueueTickets(Flatten(Chunks(w.inFlight))) then Some(SenderDropped)
                                           else OutcomeOf(w.settled, t))
  {
    var lost := Flatten(Chunks(w.inFlight));
    ExactlyOnePlace(w, t);
    CancelledLeaderState(w, l);
    assert InProgress(w, l);
    hide Inv, LeaderSound, CancelCall, Flatten, QueueTickets, Tickets, DroppedBy, Chunks;
    DroppedOutcome(lost, t);
    OutcomeSettles(w.settled, DroppedBy(lost), t);
    if t in QueueTickets(lost) {
      assert t in multiset(QueueTickets(lost));
      assert t !in multiset(Tickets(w.settled));
    }
  }

  /** And such a call, once it is polled again, returns that its flush was cancelled. */
  lemma DroppedCallReturnsCancelled(w: World, max: nat, l: nat, t: nat)
    requires Inv(w, max) && l in w.leading && t != l && InProgress(w, t)
    requires t in QueueTickets(Flatten(Chunks(w.inFlight)))
    ensures var v := Apply(w, max, Cancel(l));
            Enabled(v, Return(t)) && Apply(v, max, Return(t)).calls[t] == Returned(Failed(Cancelled))
  {
    CancelledLeaderDropsInFlight(w, max, l, t);
  }

  // ----- service is first in, first out, with an exact bound -----

  function Ticks(events: seq<Event>): nat {
    if events == [] then 0 else (if events[0].Tick? then 1 else 0) + Ticks(events[1..])
  }

  predicate NoCalls(events: seq<Event>) {
    forall e :: e in events ==> !e.Call?
  }

  lemma {:induction false} PostedOnlyGrows(w: World, max: nat, events: seq<Event>)
    requires Runs(w, max, events)
    ensures w.posted <= After(w, max, events).posted
    decreases |events|
  {
    if events != [] { PostedOnlyGrows(Apply(w, max, events[0]), max, events[1..]); }
  }

  lemma TickOnQueue(w: World, max: nat, l: nat)
    ensures var u := DrainOnTick(w, max, l);
            if w.queue != [] && max > 0 then
              && u.queue == w.queue[Min(|w.queue|, max)..]
              && u.posted == w.posted + [w.queue[..Min(|w.queue|, max)]]
            else u.queue == w.queue && u.posted == w.posted
  {
    assert w.queue == [] || max == 0 ==> w.queue[..Min(|w.queue|, max)] == [];
    assert w.queue != [] && max > 0 ==> w.queue[..Min(|w.queue|, max)] != [];
  }

  lemma OtherEventOnQueue(w: World, max: nat, e: Event)
    requires Enabled(w, e) && !e.Tick? && !e.Call?
    ensures var u := Apply(w, max, e); u.queue == w.queue && u.posted == w.posted
  {
    hide Sends, SettledBy, DroppedBy, OwnedBy, OwnedByOthers, Flatten, OutcomeOf, InProgress;
  }

  /** Only ticks take from the queue, and they take from its front. */
  lemma EventOnQueue(w: World, max: nat, e: Event)
    requires Enabled(w, e)
    ensures var u := Apply(w, max, e);
            if e.Tick? && w.queue != [] && max > 0 then
              && u.queue == w.queue[Min(|w.queue|, max)..]
              && u.posted == w.posted + [w.queue[..Min(|w.queue|, max)]]
            else w.queue <= u.queue && u.posted == w.posted
  {
    match e
    case Tick(l) =>
      TickOnQueue(w, max, l);
      hide DrainOnTick;
    case Call(id) => hide DrainOnTick, CancelCall, CompleteFlush;
    case _ =>
      OtherEventOnQueue(w, max, e);
      hide Apply;
  }

  /**
   * Where a call is after `k` more ticks when `p` calls were ahead of it and `base` POSTs had been
   * made: still queued with the earlier calls gone, or at its place in the chunk of tick
   * `p / max + 1`.
   */
  predicate ServedInTurn(call: Pending, base: nat, p: nat, max: nat, v: World, k: nat)
    requires max > 0
  {
    if k * max <= p then p - k * max < |v.queue| && v.queue[p - k * max] == call
    else
      var tick := base + p / max;
      tick < |v.posted| && p % max < |v.posted[tick]| && v.posted[tick][p % max] == call
  }

  lemma ServedThisTick(call: Pending, base: nat, p: nat, max: nat, v: World, k: nat)
    requires p < max && k >= 1
    requires base < |v.posted| && p < |v.posted[base]| && v.posted[base][p] == call
    ensures ServedInTurn(call, base, p, max, v, k)
  {
    QuotientIs(p, max, 0, p);
    MulAtLeast(k, max);
  }

  lemma ServedNextTick(call: Pending, base: nat, p: nat, max: nat, v: World, k: nat)
    requires 0 < max <= p && k >= 1
    requires ServedInTurn(call, base + 1, p - max, max, v, k - 1)
    ensures ServedInTurn(call, base, p, max, v, k)
  {
    var q, r := (p - max) / max, (p - max) % max;
    assert p - max == q * max + r;
    Distribute(q, 1, max);
    QuotientIs(p, max, q + 1, r);
    Distribute(k - 1, 1, max);
  }

  /** Service is first in, first out with an exact bound, whatever else the run does. */
  lemma {:induction false} ServiceIsFirstInFirstOut(w: World, max: nat, events: seq<Event>, p: nat)
    requires max > 0 && p < |w.queue| && Runs(w, max, events)
    ensures ServedInTurn(w.queue[p], |w.posted|, p, max, After(w, max, events), Ticks(events))
    decreases |events|
  {
    if events != [] {
      var u, rest := Apply(w, max, events[0]), events[1..];
      var v := After(u, max, rest);
      EventOnQueue(w, max, events[0]);
      hide Apply, ServedInTurn, Enabled;
      if !events[0].Tick? {
        ServiceIsFirstInFirstOut(u, max, rest, p);
      } else if p < max {
        PostedOnlyGrows(u, max, rest);
        assert u.posted[|w.posted|][p] == w.queue[p];
        ServedThisTick(w.queue[p], |w.posted|, p, max, v, Ticks(events));
      } else {
        ServiceIsFirstInFirstOut(u, max, rest, p - max);
        ServedNextTick(w.queue[p], |w.posted|, p, max, v, Ticks(events));
      }
    } else {
      assert 0 * max == 0;
    }
  }

  lemma QuietEventKeepsQueue(w: World, max: nat, e: Event)
    requires Enabled(w, e) && !e.Call? && !e.Tick?
    ensures Apply(w, max, e).queue == w.queue
  {
  }

  /** Without new arrivals, `n` queued calls are drained by exactly `ceil(n / max)` POSTs. */
  lemma {:induction false} PostsAreCeiling(w: World, max: nat, events: seq<Event>)
    requires max > 0 && Runs(w, max, events) && NoCalls(events)
    ensures var v := After(w, max, events);
            |v.posted| + Shrink.CeilDiv(|v.queue|, max) == |w.posted| + Shrink.CeilDiv(|w.queue|, max)
    decreases |events|
  {
    if events != [] {
      if events[0].Tick? && w.queue != [] { Shrink.CeilDivStep(|w.queue|, max); }
      EventOnQueue(w, max, events[0]);
      if !events[0].Tick? { QuietEventKeepsQueue(w, max, events[0]); }
      hide Shrink.CeilDiv, Apply;
      PostsAreCeiling(Apply(w, max, events[0]), max, events[1..]);
    }
  }

  function TicksOnly(leader: nat, n: nat): seq<Event> {
    if n == 0 then [] else [Tick(leader)] + TicksOnly(leader, n - 1)
  }

  /** A leader that is left alone empties the queue in exactly that many ticks. */
  lemma {:induction false} LeaderDrainsQueue(w: World, max: nat, l: nat)
    requires max > 0 && l in w.leading
    ensures var n := Shrink.CeilDiv(|w.queue|, max);
            && Runs(w, max, TicksOnly(l, n))
            && var v := After(w, max, TicksOnly(l, n));
               v.queue == [] && v.leading == w.leading && |v.posted| == |w.posted| + n
                   && |v.inFlight| == |w.inFlight| + n
    decreases |w.queue|
  {
    var n := Shrink.CeilDiv(|w.queue|, max);
    if w.queue == [] {
      QuotientIs(max - 1, max, 0, max - 1);
    } else {
      Shrink.CeilDivStep(|w.queue|, max);
      var u := Apply(w, max, Tick(l));
      assert TicksOnly(l, n)[1..] == TicksOnly(l, n - 1);
      LeaderDrainsQueue(u, max, l);
    }
  }

  // ----- service always completes -----

  /** The in-flight POSTs completing one after the other. */
  function CompleteEach(results: seq<PostResult>): seq<Event> {
    if results == [] then [] else [Complete(0, results[0])] + CompleteEach(results[1..])
  }

  lemma {:induction false} RunsAppend(w: World, max: nat, a: seq<Event>, b: seq<Event>)
    requires Runs(w, max, a) && Runs(After(w, max, a), max, b)
    ensures Runs(w, max, a + b) && After(w, max, a + b) == After(After(w, max, a), max, b)
    decreases |a|
  {
    if a == [] {
      assert a + b == b;
    } else {
      assert (a + b)[1..] == a[1..] + b;
      RunsAppend(Apply(w, max, a[0]), max, a[1..], b);
    }
  }

  lemma {:induction false} CompletionsEmptyInFlight(w: World, max: nat, results: seq<PostResult>)
    requires |results| == |w.inFlight|
    ensures Runs(w, max, CompleteEach(results))
    ensures var v := After(w, max, CompleteEach(results));
            v.inFlight == [] && v.queue == w.queue && v.leading == w.leading && |v.calls| == |w.calls|
    decreases |results|
  {
    if results != [] {
      assert CompleteEach(results)[1..] == CompleteEach(results[1..]);
      CompletionsEmptyInFlight(Apply(w, max, Complete(0, results[0])), max, results[1..]);
    }
  }

  /** From every reachable state with a leader, ticks and answers alone settle every accepted call. */
  lemma LeaderServesEveryone(w: World, max: nat, l: nat, results: seq<PostResult>)
    requires max > 0 && Inv(w, max) && l in w.leading
    requires |results| == |w.inFlight| + Shrink.CeilDiv(|w.queue|, max)
    ensures var events := TicksOnly(l, Shrink.CeilDiv(|w.queue|, max)) + CompleteEach(results) + [LeaderExit(l)];
            && Runs(w, max, events)
            && var v := After(w, max, events);
               !v.leaderFlag && forall t: nat :: t < |v.calls| ==> OutcomeOf(v.settled, t).Some?
  {
    var drain := TicksOnly(l, Shrink.CeilDiv(|w.queue|, max));
    LeaderDrainsQueue(w, max, l);
    var x := After(w, max, drain);
    CompletionsEmptyInFlight(x, max, results);
    var y := After(x, max, CompleteEach(results));
    RunsAppend(w, max, drain, CompleteEach(results));
    assert Runs(y, max, [LeaderExit(l)]);
    RunsAppend(w, max, drain + CompleteEach(results), [LeaderExit(l)]);
    var v := After(y, max, [LeaderExit(l)]);
    RunKeepsInv(w, max, drain + CompleteEach(results) + [LeaderExit(l)]);
    assert QueueTickets(v.queue) == [] && QueueTickets(Flatten(Chunks(v.inFlight))) == [];
    forall t: nat | t < |v.calls| ensures OutcomeOf(v.settled, t).Some? {
      ExactlyOnePlace(v, t);
      assert t in multiset(Tickets(v.settled));
    }
  }
}
