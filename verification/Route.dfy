/**
 * Routing of one batch response, from `route` in `crates/cosmwasm/src/transport.rs`.
 *
 * JSON-RPC 2.0, section 6 (Batch), lets responses come in any order, so a response element is
 * matched to a waiting call by id alone. Ids and texts are compared, never inspected. An element
 * whose id is absent or null matches no call, because a call's id is never null.
 */
module Route {
  import opened Prelude

  type Id(==, !new)
  type Text(==, !new)

  /** A call parked for a batch: the ticket names its single-use answer channel. */
  datatype Pending = Pending(ticket: nat, id: Id)

  datatype Element = Element(id: Option<Id>, error: Option<Text>, text: Text)

  datatype Body = NotJson(detail: Text) | Elements(items: seq<Element>)

  datatype CallError = BadResponse(detail: Text) | WholeResponse(message: Text) | NoEntry(id: Id)
                     | PostFailed(detail: Text) | Cancelled

  datatype Reply = Answer(text: Text) | Failed(error: CallError)

  datatype Send = Send(to: Pending, reply: Reply)

  // ----- the routing loop as a fold -----

  /** The calls still waiting, the answers already sent, and the first error nobody owns. */
  datatype Routing = Routing(waiting: seq<Pending>, sends: seq<Send>, orphan: Option<Text>)

  /** The index of the first waiting call with this id. */
  function Position(waiting: seq<Pending>, id: Option<Id>): (r: Option<nat>)
    ensures r.Some? ==> r.value < |waiting| && id == Some(waiting[r.value].id)
    ensures r.Some? ==> forall i :: 0 <= i < r.value ==> id != Some(waiting[i].id)
    ensures r.None? ==> forall i :: 0 <= i < |waiting| ==> id != Some(waiting[i].id)
  {
    if waiting == [] then None
    else if id == Some(waiting[0].id) then Some(0)
    else
      match Position(waiting[1..], id)
      case None => None
      case Some(i) => Some(i + 1)
  }

  /** Remove element `i` by moving the last element into its place. */
  function SwapRemove<T>(s: seq<T>, i: nat): (r: seq<T>)
    requires i < |s|
    ensures |r| == |s| - 1
    ensures forall j :: 0 <= j < |r| && j != i ==> r[j] == s[j]
    ensures i < |r| ==> r[i] == s[|s| - 1]
  {
    var last := |s| - 1;
    if i == last then s[..last] else s[..last][i := s[last]]
  }

  lemma SwapRemoveTakesOne<T>(s: seq<T>, i: nat)
    requires i < |s|
    ensures multiset(SwapRemove(s, i)) == multiset(s) - multiset{s[i]}
  {
    var last := |s| - 1;
    assert s == s[..last] + [s[last]];
  }

  function RouteOne(r: Routing, e: Element): Routing {
    match Position(r.waiting, e.id)
    case Some(i) => Routing(SwapRemove(r.waiting, i), r.sends + [Send(r.waiting[i], Answer(e.text))], r.orphan)
    case None => if r.orphan.None? then r.(orphan := e.error) else r
  }

  function RouteAll(r: Routing, items: seq<Element>): Routing
    decreases items
  {
    if items == [] then r else RouteAll(RouteOne(r, items[0]), items[1..])
  }

  function LeftOver(p: Pending, orphan: Option<Text>): Send {
    Send(p, Failed(if orphan.Some? then WholeResponse(orphan.value) else NoEntry(p.id)))
  }

  function FailAll(chunk: seq<Pending>, error: CallError): seq<Send> {
    seq(|chunk|, i requires 0 <= i < |chunk| => Send(chunk[i], Failed(error)))
  }

  /** Everything one response body sends to the calls of its chunk. */
  function RouteBody(chunk: seq<Pending>, body: Body): seq<Send> {
    match body
    case NotJson(detail) => FailAll(chunk, BadResponse(detail))
    case Elements(items) =>
      var r := RouteAll(Routing(chunk, [], None), items);
      r.sends + seq(|r.waiting|, i requires 0 <= i < |r.waiting| => LeftOver(r.waiting[i], r.orphan))
  }

  // ----- every call is answered exactly once -----

  function Receivers(sends: seq<Send>): (r: seq<Pending>)
    ensures |r| == |sends|
  {
    seq(|sends|, i requires 0 <= i < |sends| => sends[i].to)
  }

  lemma ReceiversAppend(a: seq<Send>, b: seq<Send>)
    ensures Receivers(a + b) == Receivers(a) + Receivers(b)
  {
  }

  lemma {:induction false} RouteAllConserves(r: Routing, items: seq<Element>)
    ensures var q := RouteAll(r, items);
            multiset(Receivers(q.sends)) + multiset(q.waiting) == multiset(Receivers(r.sends)) + multiset(r.waiting)
    decreases items
  {
    if items != [] {
      var s := RouteOne(r, items[0]);
      match Position(r.waiting, items[0].id) {
        case Some(i) =>
          SwapRemoveTakesOne(r.waiting, i);
          ReceiversAppend(r.sends, [Send(r.waiting[i], Answer(items[0].text))]);
          assert Receivers([Send(r.waiting[i], Answer(items[0].text))]) == [r.waiting[i]];
        case None =>
      }
      assert multiset(Receivers(s.sends)) + multiset(s.waiting) == multiset(Receivers(r.sends)) + multiset(r.waiting);
      RouteAllConserves(s, items[1..]);
    }
  }

  /** Whatever the response holds, every call of the chunk is sent exactly one result. */
  lemma EveryCallAnsweredOnce(chunk: seq<Pending>, body: Body)
    ensures multiset(Receivers(RouteBody(chunk, body))) == multiset(chunk)
  {
    match body
    case NotJson(detail) =>
      assert Receivers(FailAll(chunk, BadResponse(detail))) == chunk;
    case Elements(items) =>
      var start := Routing(chunk, [], None);
      var r := RouteAll(start, items);
      RouteAllConserves(start, items);
      var tail := seq(|r.waiting|, i requires 0 <= i < |r.waiting| => LeftOver(r.waiting[i], r.orphan));
      ReceiversAppend(r.sends, tail);
      assert Receivers(tail) == r.waiting;
      assert Receivers([]) == [];
  }

  // ----- how many calls of an id succeed -----

  function Ids(chunk: seq<Pending>): (r: seq<Id>)
    ensures |r| == |chunk|
  {
    seq(|chunk|, i requires 0 <= i < |chunk| => chunk[i].id)
  }

  /** The id of the call, if this answers it. */
  function AnsweredId(s: Send): seq<Id> {
    if s.reply.Answer? then [s.to.id] else []
  }

  /** The ids of the calls that were answered, in sending order. */
  function AnsweredIds(sends: seq<Send>): seq<Id> {
    if sends == [] then [] else AnsweredId(sends[0]) + AnsweredIds(sends[1..])
  }

  lemma {:induction false} AnsweredAppend(a: seq<Send>, b: seq<Send>)
    ensures AnsweredIds(a + b) == AnsweredIds(a) + AnsweredIds(b)
  {
    hide AnsweredId;
    if a == [] {
      assert a + b == b;
    } else {
      assert (a + b)[1..] == a[1..] + b;
      AnsweredAppend(a[1..], b);
    }
  }

  lemma {:induction false} FailuresAnswerNobody(sends: seq<Send>)
    requires forall i :: 0 <= i < |sends| ==> sends[i].reply.Failed?
    ensures AnsweredIds(sends) == []
  {
    if sends != [] { FailuresAnswerNobody(sends[1..]); }
  }

  /** The ids the response elements carry. */
  function ElementIds(items: seq<Element>): seq<Id> {
    if items == [] then [] else ElementId(items[0]) + ElementIds(items[1..])
  }

  function ElementId(e: Element): seq<Id> {
    if e.id.Some? then [e.id.value] else []
  }

  lemma RouteOneCounts(r: Routing, e: Element, id: Id)
    ensures var s := RouteOne(r, e);
            var hit := if e.id == Some(id) && multiset(Ids(r.waiting))[id] > 0 then 1 else 0;
            && multiset(Ids(s.waiting))[id] + hit == multiset(Ids(r.waiting))[id]
            && multiset(AnsweredIds(s.sends))[id] == multiset(AnsweredIds(r.sends))[id] + hit
  {
    var waiting := r.waiting;
    match Position(waiting, e.id) {
      case Some(i) =>
        assert Ids(SwapRemove(waiting, i)) == SwapRemove(Ids(waiting), i);
        SwapRemoveTakesOne(Ids(waiting), i);
        assert Ids(waiting)[i] in multiset(Ids(waiting));
        AnsweredAppend(r.sends, [Send(waiting[i], Answer(e.text))]);
        assert AnsweredIds([Send(waiting[i], Answer(e.text))]) == [waiting[i].id];
      case None =>
        if e.id == Some(id) {
          assert forall i :: 0 <= i < |waiting| ==> Ids(waiting)[i] != id;
          assert id !in Ids(waiting);
        }
    }
  }

  lemma {:induction false} RouteAllCounts(r: Routing, items: seq<Element>, id: Id)
    ensures multiset(AnsweredIds(RouteAll(r, items).sends))[id]
         == multiset(AnsweredIds(r.sends))[id] + Min(multiset(Ids(r.waiting))[id], multiset(ElementIds(items))[id])
    decreases items
  {
    hide RouteOne, Ids, AnsweredIds;
    if items != [] {
      RouteOneCounts(r, items[0], id);
      RouteAllCounts(RouteOne(r, items[0]), items[1..], id);
    }
  }

  /** For each id, as many calls succeed as there are both calls and response elements for it. */
  lemma SuccessesPerId(chunk: seq<Pending>, items: seq<Element>, id: Id)
    ensures multiset(AnsweredIds(RouteBody(chunk, Elements(items))))[id]
         == Min(multiset(Ids(chunk))[id], multiset(ElementIds(items))[id])
  {
    var start := Routing(chunk, [], None);
    var r := RouteAll(start, items);
    RouteAllCounts(start, items, id);
    var tail := seq(|r.waiting|, i requires 0 <= i < |r.waiting| => LeftOver(r.waiting[i], r.orphan));
    assert AnsweredIds([]) == [];
    hide AnsweredIds, Ids, ElementIds, RouteAll;
    AnsweredAppend(r.sends, tail);
    FailuresAnswerNobody(tail);
    assert AnsweredIds(r.sends + tail) == AnsweredIds(r.sends);
  }

  // ----- who receives what -----

  predicate DistinctIds(chunk: seq<Pending>) {
    forall i, j :: 0 <= i < j < |chunk| ==> chunk[i].id != chunk[j].id
  }

  predicate DistinctElements(items: seq<Element>) {
    forall i, j :: 0 <= i < j < |items| && items[i].id.Some? ==> items[i].id != items[j].id
  }

  /** The first element that carries `id`. */
  function FirstWith(items: seq<Element>, id: Id): (r: Option<Element>)
    ensures r.Some? ==> r.value in items && r.value.id == Some(id)
    ensures r.None? ==> forall e :: e in items ==> e.id != Some(id)
  {
    if items == [] then None
    else if items[0].id == Some(id) then Some(items[0])
    else FirstWith(items[1..], id)
  }

  lemma SwapRemoveKeepsDistinct(chunk: seq<Pending>, i: nat)
    requires i < |chunk| && DistinctIds(chunk)
    ensures DistinctIds(SwapRemove(chunk, i))
    ensures forall p :: p in SwapRemove(chunk, i) <==> p in chunk && p.id != chunk[i].id
  {
    var rest, last := SwapRemove(chunk, i), |chunk| - 1;
    forall p | p in chunk && p.id != chunk[i].id ensures p in rest {
      var k :| 0 <= k < |chunk| && chunk[k] == p;
      assert if k == last then rest[i] == p else rest[k] == p;
    }
    forall p | p in rest ensures p in chunk && p.id != chunk[i].id {
      var k :| 0 <= k < |rest| && rest[k] == p;
      assert if k == i then chunk[last] == p else chunk[k] == p;
    }
  }

  /** What routing owes one call: the first element with its id, or nothing. */
  ghost predicate Owed(s: Send, items: seq<Element>) {
    var first := FirstWith(items, s.to.id);
    if first.Some? then s.reply == Answer(first.value.text) else s.reply.Failed?
  }

  lemma {:induction false} RouteAllGivesFirst(r: Routing, items: seq<Element>)
    requires DistinctIds(r.waiting)
    ensures var q := RouteAll(r, items);
            && r.sends <= q.sends
            && (forall k :: |r.sends| <= k < |q.sends| ==>
                  q.sends[k].to in r.waiting && q.sends[k].reply.Answer? && Owed(q.sends[k], items))
            && (forall p :: p in q.waiting ==> p in r.waiting && FirstWith(items, p.id).None?)
    decreases items
  {
    if items != [] {
      var e := items[0];
      var s := RouteOne(r, e);
      var pos := Position(r.waiting, e.id);
      if pos.Some? { SwapRemoveKeepsDistinct(r.waiting, pos.value); }
      RouteAllGivesFirst(s, items[1..]);
      var q := RouteAll(s, items[1..]);
      forall k | |r.sends| <= k < |q.sends|
        ensures q.sends[k].to in r.waiting && q.sends[k].reply.Answer? && Owed(q.sends[k], items)
      {
        if k >= |s.sends| {
          assert q.sends[k].to in s.waiting && Owed(q.sends[k], items[1..]);
          assert e.id != Some(q.sends[k].to.id);
        } else {
          assert q.sends[k] == s.sends[k];
        }
      }
      forall p | p in q.waiting ensures p in r.waiting && FirstWith(items, p.id).None? {
        assert p in s.waiting && FirstWith(items[1..], p.id).None?;
        assert e.id != Some(p.id);
      }
    }
  }

  /** With distinct request ids each call gets the first element carrying its id, if there is one. */
  lemma EachCallGetsItsFirstElement(chunk: seq<Pending>, items: seq<Element>, s: Send)
    requires DistinctIds(chunk) && s in RouteBody(chunk, Elements(items))
    ensures s.to in chunk && Owed(s, items)
  {
    RouteAllGivesFirst(Routing(chunk, [], None), items);
  }

  lemma FirstWithIgnoresOrder(items: seq<Element>, shuffled: seq<Element>, id: Id)
    requires multiset(items) == multiset(shuffled) && DistinctElements(items)
    ensures FirstWith(items, id) == FirstWith(shuffled, id)
  {
    assert forall e :: e in items <==> e in multiset(items);
    assert forall e :: e in shuffled <==> e in multiset(shuffled);
    var a, b := FirstWith(items, id), FirstWith(shuffled, id);
    if a.Some? && b.Some? {
      var i :| 0 <= i < |items| && items[i] == a.value;
      var j :| 0 <= j < |items| && items[j] == b.value;
      assert i == j;
    }
  }

  /**
   * With distinct ids on both sides, the order of the response decides neither who succeeds nor
   * what they receive.
   */
  lemma ResponseOrderIsIrrelevant(chunk: seq<Pending>, items: seq<Element>, shuffled: seq<Element>, s: Send, t: Send)
    requires DistinctIds(chunk) && DistinctElements(items) && multiset(items) == multiset(shuffled)
    requires s in RouteBody(chunk, Elements(items)) && t in RouteBody(chunk, Elements(shuffled)) && s.to == t.to
    ensures s.reply.Answer? <==> t.reply.Answer?
    ensures s.reply.Answer? ==> s.reply == t.reply
  {
    EachCallGetsItsFirstElement(chunk, items, s);
    EachCallGetsItsFirstElement(chunk, shuffled, t);
    FirstWithIgnoresOrder(items, shuffled, s.to.id);
  }

  // ----- what the unanswered learn -----

  /**
   * No call is left for this element once the elements before it are served: it carries no id, or
   * the earlier elements with its id already cover every call of that id.
   */
  predicate Unowned(chunk: seq<Pending>, before: seq<Element>, e: Element) {
    e.id.None? || multiset(Ids(chunk))[e.id.value] <= multiset(ElementIds(before))[e.id.value]
  }

  /** The first error among the unowned of `items`, which come after `before`. */
  function OrphanAfter(chunk: seq<Pending>, before: seq<Element>, items: seq<Element>): Option<Text>
    decreases items
  {
    if items == [] then None
    else if Unowned(chunk, before, items[0]) && items[0].error.Some? then items[0].error
    else OrphanAfter(chunk, before + [items[0]], items[1..])
  }

  function FirstOrphanError(chunk: seq<Pending>, items: seq<Element>): Option<Text> {
    OrphanAfter(chunk, [], items)
  }

  /** What waits is, id by id, what the elements so far have not covered. */
  ghost predicate WaitingAfter(chunk: seq<Pending>, before: seq<Element>, waiting: seq<Pending>) {
    forall id :: multiset(Ids(waiting))[id] + Min(multiset(Ids(chunk))[id], multiset(ElementIds(before))[id])
        == multiset(Ids(chunk))[id]
  }

  lemma {:induction false} ElementIdsAppend(a: seq<Element>, b: seq<Element>)
    ensures ElementIds(a + b) == ElementIds(a) + ElementIds(b)
  {
    hide ElementId;
    if a == [] {
      assert a + b == b;
    } else {
      assert (a + b)[1..] == a[1..] + b;
      ElementIdsAppend(a[1..], b);
    }
  }

  /** An element finds a waiting call exactly when it is owned. */
  lemma OwnedFindsACall(chunk: seq<Pending>, before: seq<Element>, waiting: seq<Pending>, e: Element)
    requires WaitingAfter(chunk, before, waiting)
    ensures Position(waiting, e.id).None? <==> Unowned(chunk, before, e)
  {
    if e.id.Some? {
      var id := e.id.value;
      assert multiset(Ids(waiting))[id] + Min(multiset(Ids(chunk))[id], multiset(ElementIds(before))[id])
             == multiset(Ids(chunk))[id];
      var pos := Position(waiting, e.id);
      if pos.Some? {
        assert Ids(waiting)[pos.value] in multiset(Ids(waiting));
      } else {
        assert forall i :: 0 <= i < |waiting| ==> Ids(waiting)[i] != id;
        assert id !in multiset(Ids(waiting));
      }
    }
  }

  lemma WaitingAfterOne(chunk: seq<Pending>, before: seq<Element>, r: Routing, e: Element)
    requires WaitingAfter(chunk, before, r.waiting)
    ensures WaitingAfter(chunk, before + [e], RouteOne(r, e).waiting)
  {
    ElementIdsAppend(before, [e]);
    assert [e][1..] == [];
    assert ElementIds([e]) == if e.id.Some? then [e.id.value] else [];
    hide RouteOne, Ids, ElementIds;
    forall id
      ensures multiset(Ids(RouteOne(r, e).waiting))[id]
            + Min(multiset(Ids(chunk))[id], multiset(ElementIds(before + [e]))[id]) == multiset(Ids(chunk))[id]
    {
      RouteOneCounts(r, e, id);
      assert multiset(Ids(r.waiting))[id] + Min(multiset(Ids(chunk))[id], multiset(ElementIds(before))[id])
             == multiset(Ids(chunk))[id];
    }
  }

  lemma {:induction false} RouteAllOrphan(chunk: seq<Pending>, before: seq<Element>, r: Routing, items: seq<Element>)
    requires WaitingAfter(chunk, before, r.waiting)
    ensures RouteAll(r, items).orphan == if r.orphan.Some? then r.orphan else OrphanAfter(chunk, before, items)
    decreases items
  {
    hide WaitingAfter, Unowned;
    if items != [] {
      OwnedFindsACall(chunk, before, r.waiting, items[0]);
      WaitingAfterOne(chunk, before, r, items[0]);
      RouteAllOrphan(chunk, before + [items[0]], RouteOne(r, items[0]), items[1..]);
    }
  }

  lemma {:induction false} RoutedSendsAnswer(r: Routing, items: seq<Element>)
    requires forall s :: s in r.sends ==> s.reply.Answer?
    ensures forall s :: s in RouteAll(r, items).sends ==> s.reply.Answer?
    decreases items
  {
    if items != [] { RoutedSendsAnswer(RouteOne(r, items[0]), items[1..]); }
  }

  /**
   * Every call left unanswered learns the first error that the response carries for nobody, or, if
   * there is none, that its own id is missing; ids may repeat on either side.
   */
  lemma UnansweredLearnTheOrphanError(chunk: seq<Pending>, items: seq<Element>, s: Send)
    requires s in RouteBody(chunk, Elements(items)) && s.reply.Failed?
    ensures s.to in chunk
    ensures s.reply == match FirstOrphanError(chunk, items)
                       case Some(message) => Failed(WholeResponse(message))
                       case None => Failed(NoEntry(s.to.id))
  {
    var start := Routing(chunk, [], None);
    assert WaitingAfter(chunk, [], chunk);
    RoutedSendsAnswer(start, items);
    RouteAllOrphan(chunk, [], start, items);
    RoutedAreOfTheChunk(start, items);
  }

  lemma {:induction false} RoutedAreOfTheChunk(r: Routing, items: seq<Element>)
    ensures forall p :: p in RouteAll(r, items).waiting ==> p in r.waiting
    decreases items
  {
    if items != [] { RoutedAreOfTheChunk(RouteOne(r, items[0]), items[1..]); }
  }

  /** A response that is not JSON tells every call of the chunk so, and nobody anything else. */
  lemma NotJsonFailsEveryone(chunk: seq<Pending>, detail: Text)
    ensures forall p :: p in chunk ==> Send(p, Failed(BadResponse(detail))) in RouteBody(chunk, NotJson(detail))
    ensures forall s :: s in RouteBody(chunk, NotJson(detail)) ==>
            s.to in chunk && s.reply == Failed(BadResponse(detail))
  {
    forall p | p in chunk ensures Send(p, Failed(BadResponse(detail))) in RouteBody(chunk, NotJson(detail)) {
      var i :| 0 <= i < |chunk| && chunk[i] == p;
      assert RouteBody(chunk, NotJson(detail))[i] == Send(p, Failed(BadResponse(detail)));
    }
  }

  /** What every failed call of a chunk is told, by the kind of body. */
  lemma FailuresAreTold(chunk: seq<Pending>, body: Body)
    ensures forall s :: s in RouteBody(chunk, body) && s.reply.Failed? ==>
              s.reply.error == match body
                               case NotJson(detail) => BadResponse(detail)
                               case Elements(items) =>
                                 (match FirstOrphanError(chunk, items)
                                  case Some(message) => WholeResponse(message)
                                  case None => NoEntry(s.to.id))
  {
    match body
    case NotJson(detail) => NotJsonFailsEveryone(chunk, detail);
    case Elements(items) =>
      hide RouteBody, FirstOrphanError;
      forall s | s in RouteBody(chunk, Elements(items)) && s.reply.Failed?
        ensures s.reply.error == match FirstOrphanError(chunk, items)
                                 case Some(message) => WholeResponse(message)
                                 case None => NoEntry(s.to.id)
      {
        UnansweredLearnTheOrphanError(chunk, items, s);
      }
  }

  // ----- the loop itself -----

  /** Route a response body to the calls of a chunk, shrinking the chunk as calls are answered. */
  method RouteResponse(chunk: seq<Pending>, body: Body) returns (sends: seq<Send>)
    ensures sends == RouteBody(chunk, body)
    ensures forall s :: s in sends && s.reply.Failed? ==>
              s.reply.error == match body
                               case NotJson(detail) => BadResponse(detail)
                               case Elements(items) =>
                                 (match FirstOrphanError(chunk, items)
                                  case Some(message) => WholeResponse(message)
                                  case None => NoEntry(s.to.id))
  {
    FailuresAreTold(chunk, body);
    hide FirstOrphanError;
    if body.NotJson? {
      return FailAll(chunk, BadResponse(body.detail));
    }
    var items := body.items;
    var waiting, orphan := chunk, None;
    sends := [];
    ghost var goal := RouteAll(Routing(chunk, [], None), items);
    for k := 0 to |items|
      invariant RouteAll(Routing(waiting, sends, orphan), items[k..]) == goal
    {
      var e := items[k];
      assert items[k..][0] == e && items[k..][1..] == items[k + 1..];
      var pos := Position(waiting, e.id);
      if pos.Some? {
        sends := sends + [Send(waiting[pos.value], Answer(e.text))];
        waiting := SwapRemove(waiting, pos.value);
      } else if orphan.None? && e.error.Some? {
        orphan := e.error;
      }
    }
    ghost var answered := sends;
    for k := 0 to |waiting|
      invariant sends == answered + seq(k, i requires 0 <= i < k => LeftOver(waiting[i], orphan))
    {
      sends := sends + [LeftOver(waiting[k], orphan)];
    }
  }
}
