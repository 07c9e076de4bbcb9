/**
 * The client's view of its own hand (client/src/logic/CardHand.ts): card plays are sent to the server
 * and remembered as pending requests; the server's results are cached when they arrive and applied
 * after the next state synchronisation, each one resolving one pending request and, on success,
 * replacing the played slot with the previously announced next card.
 */
module Hand {
  import opened Maybe
  import opened Cards

  /** A pending play: the id it was recorded under and the hand slot played. */
  datatype PlayRequest = PlayRequest(id: int, handIndex: int)

  /** The `PlayCard` message sent to the server; `card` is absent when the slot is empty or the
      index lies outside the hand (`undefined` in the source). */
  datatype PlayCardMsg = PlayCardMsg(id: int, card: Option<CardId>)

  /** The server's `PlayCardResult`: the id of the play it answers and, on success, the new next card. */
  datatype PlayResult = PlayResult(id: int, nextCard: Option<CardId>)

  /** The whole client-side hand state. Slots and the next card are absent until the first
      `CardHand` message. */
  datatype HandState = HandState(
    cards: seq<Option<CardId>>,
    nextCard: Option<CardId>,
    cardPlayId: int,
    requests: seq<PlayRequest>,
    results: seq<PlayResult>)

  /** `findIndex`: the first pending request with the given id, or -1. */
  function {:induction false} FindRequest(reqs: seq<PlayRequest>, id: int): (i: int)
    ensures -1 <= i < |reqs|
    ensures i >= 0 ==> reqs[i].id == id && forall j :: 0 <= j < i ==> reqs[j].id != id
    ensures i == -1 <==> forall j :: 0 <= j < |reqs| ==> reqs[j].id != id
  {
    if reqs == [] then -1
    else if reqs[0].id == id then 0
    else
      var i := FindRequest(reqs[1..], id);
      assert forall j :: 1 <= j < |reqs| ==> reqs[j] == reqs[1..][j - 1];
      if i == -1 then -1 else i + 1
  }

  /** The slot `splice(i, 1)` removes from a non-empty list: `i` itself, or the last one for -1. */
  function SpliceSlot(n: nat, i: int): (k: nat)
    requires n > 0 && -1 <= i < n
    ensures k < n
    ensures i >= 0 ==> k == i
    ensures i == -1 ==> k == n - 1
  {
    if i >= 0 then i else n - 1
  }

  function RemoveAt<T>(s: seq<T>, k: nat): (r: seq<T>)
    requires k < |s|
    ensures |r| == |s| - 1
    ensures forall j :: 0 <= j < k ==> r[j] == s[j]
    ensures forall j :: k <= j < |r| ==> r[j] == s[j + 1]
  {
    s[..k] + s[k + 1..]
  }

  /** `cards[i] = v` on a JavaScript array. A write past the end grows the array to length i + 1,
      and the holes it leaves read as `undefined`. A negative index is a plain property, not an
      element, so the elements do not change. */
  function SetSlot(cards: seq<Option<CardId>>, i: int, v: Option<CardId>): (r: seq<Option<CardId>>)
    ensures |r| == if |cards| <= i then i + 1 else |cards|
    ensures forall j :: 0 <= j < |cards| && j != i ==> r[j] == cards[j]
    ensures forall j :: |cards| <= j < |r| && j != i ==> r[j] == None
    ensures 0 <= i ==> r[i] == v
  {
    if i < 0 then cards
    else if i < |cards| then cards[i := v]
    else cards + seq(i - |cards|, _ => None) + [v]
  }

  /** Applying one cached result. `None` is the `TypeError` the source raises when a successful
      result finds no pending request (`req` is `undefined`); nothing has changed at that point. */
  function ApplyResult(h: HandState, res: PlayResult): (r: Option<HandState>)
    ensures r.None? <==> h.requests == [] && res.nextCard.Some?
    ensures r.Some? ==> r.value.cardPlayId == h.cardPlayId && r.value.results == h.results
    ensures r.Some? && h.requests != [] ==> |r.value.requests| == |h.requests| - 1
    ensures r.Some? && res.nextCard.None? ==> r.value.cards == h.cards && r.value.nextCard == h.nextCard
    ensures r.Some? && res.nextCard.Some? ==> r.value.nextCard == res.nextCard
  {
    if h.requests == [] then
      if res.nextCard.Some? then None else Some(h)
    else
      var k := SpliceSlot(|h.requests|, FindRequest(h.requests, res.id));
      var req := h.requests[k];
      var h1 := h.(requests := RemoveAt(h.requests, k));
      if res.nextCard.Some? then
        Some(h1.(cards := SetSlot(h.cards, req.handIndex, h.nextCard), nextCard := res.nextCard))
      else Some(h1)
  }

  /** `onAfterSchemaSync`: the cached results in arrival order. The flag reports an abort by the
      `TypeError`; the state is then the one reached just before the failing result. */
  function {:induction false} ApplyAll(h: HandState, rs: seq<PlayResult>): (r: (HandState, bool))
    ensures r.0.cardPlayId == h.cardPlayId && r.0.results == h.results
    ensures !r.1 ==> |r.0.requests| == if |rs| <= |h.requests| then |h.requests| - |rs| else 0
    decreases |rs|
  {
    if rs == [] then (h, false)
    else match ApplyResult(h, rs[0]) {
      case None => (h, true)
      case Some(h1) => ApplyAll(h1, rs[1..])
    }
  }

  /** `playCard` as written: the request is recorded under the current id, but the message carries
      the incremented one. */
  function Play(h: HandState, index: int): (r: (HandState, PlayCardMsg))
    ensures r.0.requests == h.requests + [PlayRequest(h.cardPlayId, index)]
    ensures r.0.cardPlayId == h.cardPlayId + 1
    ensures r.1.id == h.cardPlayId + 1
    ensures r.1.card == if 0 <= index < |h.cards| then h.cards[index] else None
    ensures r.0.cards == h.cards && r.0.nextCard == h.nextCard && r.0.results == h.results
  {
    var h1 := h.(requests := h.requests + [PlayRequest(h.cardPlayId, index)], cardPlayId := h.cardPlayId + 1);
    (h1, PlayCardMsg(h1.cardPlayId, if 0 <= index < |h.cards| then h.cards[index] else None))
  }

  /** The pending ids are strictly increasing and all below the next id to hand out. */
  predicate IdsOrdered(h: HandState)
  {
    (forall i, j :: 0 <= i < j < |h.requests| ==> h.requests[i].id < h.requests[j].id) &&
    (forall i :: 0 <= i < |h.requests| ==> h.requests[i].id < h.cardPlayId)
  }

  /** Plays keep the pending ids ordered. */
  lemma PlayKeepsIdsOrdered(h: HandState, index: int)
    requires IdsOrdered(h)
    ensures IdsOrdered(Play(h, index).0)
  {
  }

  /** With a single play in flight the id mismatch goes unnoticed: the result (which echoes the
      message id) matches no request, so `splice(-1, 1)` removes the only one, which is the right one. */
  lemma SinglePlayResolves(h: HandState, index: int, next: CardId)
    requires h.requests == []
    ensures var (h1, msg) := Play(h, index);
      var r := ApplyResult(h1, PlayResult(msg.id, Some(next)));
      r.Some? && r.value.requests == [] &&
      r.value.cards == SetSlot(h.cards, index, h.nextCard) && r.value.nextCard == Some(next)
  {
    var (h1, msg) := Play(h, index);
    assert FindRequest(h1.requests, msg.id) == -1;
  }

  /** With two plays in flight, the server's answer to the FIRST play matches the SECOND request:
      that request is dropped and its slot is refilled, while the slot actually played keeps its old
      card and its request stays pending. */
  lemma SecondPlayMisroutesFirstResult(h: HandState, next: CardId)
    requires h.requests == [] && |h.cards| >= 2
    requires h.cards[1] != h.nextCard
    ensures var (h1, msg1) := Play(h, 0);
      var (h2, _) := Play(h1, 1);
      var r := ApplyResult(h2, PlayResult(msg1.id, Some(next)));
      r.Some? &&
      r.value.requests == [PlayRequest(h.cardPlayId, 0)] &&
      r.value.cards[0] == h.cards[0] && r.value.cards[1] != h.cards[1]
  {
    var (h1, msg1) := Play(h, 0);
    var (h2, msg2) := Play(h1, 1);
    assert h2.requests == [PlayRequest(h.cardPlayId, 0), PlayRequest(h.cardPlayId + 1, 1)];
    assert FindRequest(h2.requests, msg1.id) == 1;
  }

  /** `playCard` corrected: the request is recorded under the id the message carries. */
  function PlayMatched(h: HandState, index: int): (r: (HandState, PlayCardMsg))
    ensures r.0.requests == h.requests + [PlayRequest(r.1.id, index)]
    ensures r.0.cardPlayId == h.cardPlayId + 1
    ensures r.1.card == if 0 <= index < |h.cards| then h.cards[index] else None
  {
    var h1 := h.(requests := h.requests + [PlayRequest(h.cardPlayId, index)], cardPlayId := h.cardPlayId + 1);
    (h1, PlayCardMsg(h.cardPlayId, if 0 <= index < |h.cards| then h.cards[index] else None))
  }

  /** With the corrected play, a successful result for any pending play, in any order, resolves that
      play's own request and refills that play's own slot. */
  lemma MatchedResultResolvesOwnRequest(h: HandState, j: nat, next: CardId)
    requires IdsOrdered(h) && j < |h.requests|
    ensures var req := h.requests[j];
      var r := ApplyResult(h, PlayResult(req.id, Some(next)));
      r.Some? && r.value.requests == RemoveAt(h.requests, j) &&
      r.value.cards == SetSlot(h.cards, req.handIndex, h.nextCard) && r.value.nextCard == Some(next)
  {
  }

  /** The corrected play keeps ids ordered, and the message it sends answers to its own request. */
  lemma PlayMatchedResolvesOwnRequest(h: HandState, index: int, next: CardId)
    requires IdsOrdered(h)
    ensures var (h1, msg) := PlayMatched(h, index);
      IdsOrdered(h1) &&
      var r := ApplyResult(h1, PlayResult(msg.id, Some(next)));
      r.Some? && r.value.requests == h.requests &&
      r.value.cards == SetSlot(h.cards, index, h.nextCard)
  {
    var (h1, msg) := PlayMatched(h, index);
    assert IdsOrdered(h1);
    MatchedResultResolvesOwnRequest(h1, |h.requests|, next);
    assert RemoveAt(h1.requests, |h.requests|) == h.requests;
  }

  class CardHand {
    var cards: seq<Option<CardId>>
    var nextCard: Option<CardId>
    var cardPlayId: int
    var requests: seq<PlayRequest>
    var results: seq<PlayResult>

    function View(): HandState
      reads this
    {
      HandState(cards, nextCard, cardPlayId, requests, results)
    }

    constructor()
      ensures View() == HandState([], None, 1, [], [])
    {
      cards, nextCard, cardPlayId, requests, results := [], None, 1, [], [];
    }

    /** `onCardHand`: the hand and next card announced by the server replace the local ones. */
    method OnCardHand(msgCards: seq<CardId>, msgNextCard: CardId)
      modifies this
      ensures |cards| == |msgCards| && forall i :: 0 <= i < |msgCards| ==> cards[i] == Some(msgCards[i])
      ensures nextCard == Some(msgNextCard)
      ensures cardPlayId == old(cardPlayId) && requests == old(requests) && results == old(results)
    {
      cards := seq(|msgCards|, i requires 0 <= i < |msgCards| => Some(msgCards[i]));
      nextCard := Some(msgNextCard);
    }

    /** `playCard`: the request is recorded under the current id, and the message carries the
        incremented one (`Play`). */
    method PlayCard(index: int) returns (msg: PlayCardMsg)
      modifies this
      ensures (View(), msg) == Play(old(View()), index)
    {
      requests := requests + [PlayRequest(cardPlayId, index)];
      cardPlayId := cardPlayId + 1;
      msg := PlayCardMsg(cardPlayId, if 0 <= index < |cards| then cards[index] else None);
    }

    /** `onPlayCardResult`: caches the result and changes nothing else. */
    method OnPlayCardResult(res: PlayResult)
      modifies this
      ensures View() == old(View()).(results := old(results) + [res])
    {
      results := results + [res];
    }

    /** `onAfterSchemaSync`: applies the cached results in order and then forgets them; when a
        result raises the `TypeError`, the results already applied stay applied and the cache is
        kept. */
    method OnAfterSchemaSync() returns (aborted: bool)
      modifies this
      ensures (View().(results := old(results)), aborted) == ApplyAll(old(View()), old(results))
      ensures results == if aborted then old(results) else []
    {
      var i := 0;
      aborted := false;
      ghost var h0 := View();
      while i < |results|
        invariant 0 <= i <= |results| && results == old(results) && cardPlayId == old(cardPlayId)
        invariant ApplyAll(h0, results) == ApplyAll(View(), results[i..])
        decreases |results| - i
      {
        var res := results[i];
        assert results[i..][0] == res && results[i..][1..] == results[i + 1..];
        var reqId := FindRequest(requests, res.id);
        if requests == [] {
          if res.nextCard.Some? {
            aborted := true;
            return;
          }
        } else {
          var k := SpliceSlot(|requests|, reqId);
          var req := requests[k];
          requests := RemoveAt(requests, k);
          if res.nextCard.Some? {
            cards := SetSlot(cards, req.handIndex, nextCard);
            nextCard := res.nextCard;
          }
        }
        i := i + 1;
      }
      results := [];
    }
  }
}
