/**
 * The auto-engagement trigger (`createEngageVisitorMessages` with `createConversation`)
 * as a pure state transition over the engage-message store.
 */
module Engage {
  import opened Outcomes
  import opened Rules
  import opened Records
  import opened Templates
  import opened JsValues

  /** How the two inserts of `createConversation` went, as reported by the database. */
  datatype CreateOutcome =
    | BothCreated(conversationId: string, messageId: string)
    | ConversationFailed
    | MessageFailed  // the conversation was inserted, the message insert failed

  /** What the outside world answers for one candidate: its location lookup and its inserts. */
  datatype CandidateWorld = CandidateWorld(location: Result<Location, LookupFailure>, creation: CreateOutcome)

  /** The visitor-side inputs of one trigger call. */
  datatype Visit = Visit(customer: Customer, integration: Integration, browser: BrowserInfo,
                         users: map<string, User>)

  /** The store after the call, and the conversation/message pairs written during it. */
  datatype Outcome = Outcome(store: seq<EngageMessage>, created: seq<Pair>)

  /** `customer.messengerData.sessionCount || 0`. */
  function NumberOfVisits(customer: Customer): int {
    match customer.sessionCount
    case Some(n) => n
    case None => 0
  }

  /** A pair whose message points at its conversation, both at the parties they were made for. */
  predicate WellLinked(p: Pair, customer: Customer, integration: Integration, user: User,
                       engage: EngageMessage) {
    && p.message.conversationId == p.conversation.id
    && p.conversation.customerId == customer.id && p.message.customerId == customer.id
    && p.conversation.userId == user.id && p.message.userId == user.id
    && p.conversation.integrationId == integration.id
    && p.message.engageMessageId == engage.id && p.message.fromUserId == engage.fromUserId
    && p.message.content == p.conversation.content
  }

  /**
   * `createConversation`: substitute the placeholders, insert the conversation, then the
   * message. A failure of either insert is swallowed and the call settles to `undefined`.
   */
  function CreateConversation(customer: Customer, integration: Integration, user: User,
                              engage: EngageMessage, outcome: CreateOutcome): (r: Option<Pair>)
    ensures r.Some? <==> outcome.BothCreated?
    ensures r.Some? ==> WellLinked(r.value, customer, integration, user, engage)
    ensures r.Some? ==> r.value.conversation.content == ReplaceKeys(engage.content, customer, user)
    ensures r.Some? ==> r.value.conversation.id == outcome.conversationId
                        && r.value.message.id == outcome.messageId
  {
    var content := ReplaceKeys(engage.content, customer, user);
    match outcome
    case BothCreated(conversationId, messageId) =>
      var conversation := Conversation(conversationId, user.id, customer.id, integration.id, content);
      var message := Message(messageId, conversationId, user.id, customer.id, content,
                             engage.id, engage.fromUserId);
      Some(Pair(conversation, message))
    case ConversationFailed => None
    case MessageFailed => None
  }

  /** The `EngageMessages.find` filter: a live visitor-auto messenger message not yet sent to this customer. */
  predicate IsCandidate(m: EngageMessage, brandId: string, customerId: string) {
    && m.brandId == brandId
    && m.kind == "visitorAuto"
    && m.channel == "messenger"
    && m.isLive
    && customerId !in m.customerIds
  }

  predicate StoreWellTyped(store: seq<EngageMessage>) {
    forall m | m in store :: AllWellTyped(m.rules)
  }

  /**
   * Whether the pipeline of a candidate reaches the `$push`: its rules passed and its
   * sender was found (with no user, `replaceKeys` throws before anything is written).
   */
  predicate Fires(m: EngageMessage, brandId: string, visit: Visit, world: string -> CandidateWorld)
    requires AllWellTyped(m.rules)
  {
    && IsCandidate(m, brandId, visit.customer.id)
    && CheckRules(m.rules, visit.browser, NumberOfVisits(visit.customer), world(m.id).location) == Some(true)
    && m.fromUserId in visit.users
  }

  /** `$push: { customerIds: customer._id }`. */
  function Mark(m: EngageMessage, customerId: string): EngageMessage {
    m.(customerIds := m.customerIds + [customerId])
  }

  /** The engage messages a list of pairs came from, in order. */
  function EngageIds(created: seq<Pair>): seq<string> {
    seq(|created|, k requires 0 <= k < |created| => created[k].message.engageMessageId)
  }

  predicate UniqueIds(store: seq<EngageMessage>) {
    forall i, j | 0 <= i < j < |store| :: store[i].id != store[j].id
  }

  predicate NoDuplicates(ids: seq<string>) {
    forall i, j | 0 <= i < j < |ids| :: ids[i] != ids[j]
  }

  /** One candidate's pipeline: its record after the call and the pair it wrote, if any. */
  function RunCandidate(m: EngageMessage, brandId: string, visit: Visit, world: string -> CandidateWorld)
    : (r: (EngageMessage, Option<Pair>))
    requires AllWellTyped(m.rules)
    ensures r.0 == if Fires(m, brandId, visit, world) then Mark(m, visit.customer.id) else m
    ensures r.1.Some? <==> Fires(m, brandId, visit, world) && world(m.id).creation.BothCreated?
    ensures r.1.Some? ==> r.1.value == PairFor(m, visit, world)
  {
    if !IsCandidate(m, brandId, visit.customer.id) then (m, None)
    else
      var passed := CheckRules(m.rules, visit.browser, NumberOfVisits(visit.customer), world(m.id).location);
      if passed != Some(true) then (m, None)
      else if m.fromUserId !in visit.users then (m, None)
      else
        var pair := CreateConversation(visit.customer, visit.integration, visit.users[m.fromUserId],
                                       m, world(m.id).creation);
        // the `.then` after `createConversation` runs whether or not the inserts succeeded
        (Mark(m, visit.customer.id), pair)
  }

  /**
   * Every candidate's pipeline, one message after the other. Each pipeline reads and
   * writes only its own message's record (record `i` of the result depends on record `i`
   * of the input alone), so the order in which the pipelines run cannot change the store.
   */
  function RunAll(store: seq<EngageMessage>, brandId: string, visit: Visit, world: string -> CandidateWorld)
    : (r: Outcome)
    requires StoreWellTyped(store)
    ensures |r.store| == |store|
    ensures forall i | 0 <= i < |store| ::
              r.store[i] == if Fires(store[i], brandId, visit, world) then Mark(store[i], visit.customer.id)
                            else store[i]
    ensures CreatedFromFired(store, brandId, visit, world, r.created)
    decreases |store|
  {
    if |store| == 0 then Outcome([], [])
    else
      var step := RunCandidate(store[0], brandId, visit, world);
      var rest := RunAll(store[1..], brandId, visit, world);
      SourceAtFront(store, brandId, visit, world);
      PairsHaveSourceStep(store, store[1..], brandId, visit, world, step.1, rest.created);
      SourcesHavePairsStep(store, store[1..], brandId, visit, world, step.1, rest.created);
      NoDuplicatesStep(store, store[1..], brandId, visit, world, step.1, rest.created);
      Outcome([step.0] + rest.store, Written(step.1) + rest.created)
  }

  function Written(pair: Option<Pair>): seq<Pair> {
    if pair.Some? then [pair.value] else []
  }

  /** The pair `createConversation` writes for `m`, once its sender exists and both inserts succeeded. */
  function PairFor(m: EngageMessage, visit: Visit, world: string -> CandidateWorld): Pair
    requires m.fromUserId in visit.users && world(m.id).creation.BothCreated?
  {
    CreateConversation(visit.customer, visit.integration, visit.users[m.fromUserId], m,
                       world(m.id).creation).value
  }

  /** Whether the pipeline of `m` wrote a conversation/message pair. */
  predicate Produces(m: EngageMessage, brandId: string, visit: Visit, world: string -> CandidateWorld)
    requires AllWellTyped(m.rules)
  {
    Fires(m, brandId, visit, world) && world(m.id).creation.BothCreated?
  }

  /** The pair is the one the pipeline of message `i` of the store wrote. */
  predicate SourceAt(store: seq<EngageMessage>, i: int, brandId: string, visit: Visit,
                     world: string -> CandidateWorld, p: Pair)
    requires StoreWellTyped(store)
  {
    && 0 <= i < |store|
    && store[i].id == p.message.engageMessageId
    && Produces(store[i], brandId, visit, world)
    && p == PairFor(store[i], visit, world)
  }

  /** The pair is the one the pipeline of some message of the store wrote. */
  predicate HasSource(store: seq<EngageMessage>, brandId: string, visit: Visit,
                      world: string -> CandidateWorld, p: Pair)
    requires StoreWellTyped(store)
  {
    exists i | 0 <= i < |store| :: SourceAt(store, i, brandId, visit, world, p)
  }

  /** Every written pair comes from a message of the store whose pipeline wrote one. */
  predicate PairsHaveSource(store: seq<EngageMessage>, brandId: string, visit: Visit,
                            world: string -> CandidateWorld, created: seq<Pair>)
    requires StoreWellTyped(store)
  {
    forall k | 0 <= k < |created| :: HasSource(store, brandId, visit, world, created[k])
  }

  /** Every message whose pipeline wrote a pair has it among the written pairs. */
  predicate SourcesHavePairs(store: seq<EngageMessage>, brandId: string, visit: Visit,
                             world: string -> CandidateWorld, created: seq<Pair>)
    requires StoreWellTyped(store)
  {
    forall i | 0 <= i < |store| ::
      Produces(store[i], brandId, visit, world) ==> store[i].id in EngageIds(created)
  }

  /** The facts `RunAll` promises about the pairs it wrote. */
  predicate CreatedFromFired(store: seq<EngageMessage>, brandId: string, visit: Visit,
                             world: string -> CandidateWorld, created: seq<Pair>)
    requires StoreWellTyped(store)
  {
    && PairsHaveSource(store, brandId, visit, world, created)
    && SourcesHavePairs(store, brandId, visit, world, created)
    && (UniqueIds(store) ==> NoDuplicates(EngageIds(created)))
  }

  lemma EngageIdsAppend(a: seq<Pair>, b: seq<Pair>)
    ensures EngageIds(a + b) == EngageIds(a) + EngageIds(b)
  {
  }

  /** A source found in the tail of the store is a source in the whole store. */
  lemma SourceInTail(store: seq<EngageMessage>, tail: seq<EngageMessage>, brandId: string,
                     visit: Visit, world: string -> CandidateWorld, p: Pair)
    requires |store| > 0 && tail == store[1..] && StoreWellTyped(store)
    requires HasSource(tail, brandId, visit, world, p)
    ensures HasSource(store, brandId, visit, world, p)
  {
    var i :| 0 <= i < |tail| && SourceAt(tail, i, brandId, visit, world, p);
    assert store[i + 1] == tail[i];
    assert SourceAt(store, i + 1, brandId, visit, world, p);
  }

  /** The pair written for the first message has that message as its source. */
  lemma SourceAtFront(store: seq<EngageMessage>, brandId: string, visit: Visit,
                      world: string -> CandidateWorld)
    requires |store| > 0 && StoreWellTyped(store)
    ensures var pair := RunCandidate(store[0], brandId, visit, world).1;
            pair.Some? ==> HasSource(store, brandId, visit, world, pair.value)
  {
    var pair := RunCandidate(store[0], brandId, visit, world).1;
    if pair.Some? {
      assert SourceAt(store, 0, brandId, visit, world, pair.value);
    }
  }

  /** Pairs with sources in the tail of the store have sources in the whole store. */
  lemma PairsHaveSourceInStore(store: seq<EngageMessage>, tail: seq<EngageMessage>, brandId: string,
                               visit: Visit, world: string -> CandidateWorld, created: seq<Pair>)
    requires |store| > 0 && tail == store[1..] && StoreWellTyped(store)
    requires PairsHaveSource(tail, brandId, visit, world, created)
    ensures PairsHaveSource(store, brandId, visit, world, created)
  {
    forall k | 0 <= k < |created|
      ensures HasSource(store, brandId, visit, world, created[k])
    {
      SourceInTail(store, tail, brandId, visit, world, created[k]);
    }
  }

  lemma PairsHaveSourceAppend(store: seq<EngageMessage>, brandId: string, visit: Visit,
                              world: string -> CandidateWorld, a: seq<Pair>, b: seq<Pair>)
    requires StoreWellTyped(store)
    requires PairsHaveSource(store, brandId, visit, world, a)
    requires PairsHaveSource(store, brandId, visit, world, b)
    ensures PairsHaveSource(store, brandId, visit, world, a + b)
  {
    forall k | 0 <= k < |a + b|
      ensures HasSource(store, brandId, visit, world, (a + b)[k])
    {
      if k >= |a| {
        assert (a + b)[k] == b[k - |a|];
      }
    }
  }

  lemma PairsHaveSourceStep(store: seq<EngageMessage>, tail: seq<EngageMessage>, brandId: string,
                            visit: Visit, world: string -> CandidateWorld, pair: Option<Pair>,
                            created: seq<Pair>)
    requires |store| > 0 && tail == store[1..] && StoreWellTyped(store)
    requires pair.Some? ==> HasSource(store, brandId, visit, world, pair.value)
    requires PairsHaveSource(tail, brandId, visit, world, created)
    ensures PairsHaveSource(store, brandId, visit, world, Written(pair) + created)
  {
    PairsHaveSourceInStore(store, tail, brandId, visit, world, created);
    PairsHaveSourceAppend(store, brandId, visit, world, Written(pair), created);
  }

  lemma SourcesHavePairsStep(store: seq<EngageMessage>, tail: seq<EngageMessage>, brandId: string,
                             visit: Visit, world: string -> CandidateWorld, pair: Option<Pair>,
                             created: seq<Pair>)
    requires |store| > 0 && tail == store[1..] && StoreWellTyped(store)
    requires pair == RunCandidate(store[0], brandId, visit, world).1
    requires SourcesHavePairs(tail, brandId, visit, world, created)
    ensures SourcesHavePairs(store, brandId, visit, world, Written(pair) + created)
  {
    var written := Written(pair);
    var all := written + created;
    EngageIdsAppend(written, created);
    forall i | 0 <= i < |store| && Produces(store[i], brandId, visit, world)
      ensures store[i].id in EngageIds(all)
    {
      if i == 0 {
        assert EngageIds(all)[0] == store[0].id;
      } else {
        assert tail[i - 1] == store[i];
        assert store[i].id in EngageIds(created);
      }
    }
  }

  lemma NoDuplicatesStep(store: seq<EngageMessage>, tail: seq<EngageMessage>, brandId: string,
                         visit: Visit, world: string -> CandidateWorld, pair: Option<Pair>,
                         created: seq<Pair>)
    requires |store| > 0 && tail == store[1..] && StoreWellTyped(store)
    requires pair == RunCandidate(store[0], brandId, visit, world).1
    requires PairsHaveSource(tail, brandId, visit, world, created)
    requires UniqueIds(tail) ==> NoDuplicates(EngageIds(created))
    ensures UniqueIds(store) ==> NoDuplicates(EngageIds(Written(pair) + created))
  {
    if UniqueIds(store) {
      assert UniqueIds(tail);
      var written := Written(pair);
      EngageIdsAppend(written, created);
      if pair.Some? {
        forall j | 0 <= j < |created|
          ensures EngageIds(created)[j] != store[0].id
        {
          assert HasSource(tail, brandId, visit, world, created[j]);
          var i :| 0 <= i < |tail| && SourceAt(tail, i, brandId, visit, world, created[j]);
          assert store[i + 1] == tail[i];
        }
      }
    }
  }

  /** The integration was found and does not hide the conversation list. */
  predicate Active(lookup: Option<BrandIntegration>) {
    lookup.Some? && !lookup.value.hideConversationList
  }

  /**
   * `createEngageVisitorMessages`: look up the brand's messenger integration, stop if it
   * is missing or hides the conversation list, otherwise run every candidate's pipeline.
   */
  function Trigger(store: seq<EngageMessage>, lookup: Option<BrandIntegration>, visit: Visit,
                   world: string -> CandidateWorld): (r: Outcome)
    requires StoreWellTyped(store)
    ensures |r.store| == |store|
    ensures forall i | 0 <= i < |store| ::
              r.store[i] == if Active(lookup) && Fires(store[i], lookup.value.brandId, visit, world)
                            then Mark(store[i], visit.customer.id)
                            else store[i]
    ensures !Active(lookup) ==> r.created == []
    ensures Active(lookup) ==> CreatedFromFired(store, lookup.value.brandId, visit, world, r.created)
  {
    if lookup.None? then Outcome(store, [])
    else if lookup.value.hideConversationList then Outcome(store, [])
    else RunAll(store, lookup.value.brandId, visit, world)
  }

  // ---------------------------------------------------------------------------
  // Properties of the trigger
  // ---------------------------------------------------------------------------

  /** With the conversation list hidden nothing is created and no message is marked. */
  lemma HiddenListDoesNothing(store: seq<EngageMessage>, lookup: Option<BrandIntegration>, visit: Visit,
                              world: string -> CandidateWorld)
    requires StoreWellTyped(store)
    requires lookup.Some? && lookup.value.hideConversationList
    ensures Trigger(store, lookup, visit, world) == Outcome(store, [])
  {
  }

  /**
   * A record changes only by one `$push` of this customer onto `customerIds`, and only if
   * the customer was not there yet, so no record ever lists the customer twice.
   */
  lemma TriggerOnlyAppendsCustomer(store: seq<EngageMessage>, lookup: Option<BrandIntegration>,
                                   visit: Visit, world: string -> CandidateWorld)
    requires StoreWellTyped(store)
    ensures var r := Trigger(store, lookup, visit, world);
            forall i | 0 <= i < |store| ::
              && r.store[i].(customerIds := store[i].customerIds) == store[i]
              && (r.store[i] == store[i]
                  || (visit.customer.id !in store[i].customerIds
                      && r.store[i].customerIds == store[i].customerIds + [visit.customer.id]))
    ensures var r := Trigger(store, lookup, visit, world);
            forall i | 0 <= i < |store| ::
              multiset(store[i].customerIds)[visit.customer.id] <= 1 ==>
                multiset(r.store[i].customerIds)[visit.customer.id] <= 1
  {
  }

  /** A failed pipeline of one message leaves every other message's record as it would be. */
  lemma CandidatesAreIsolated(store: seq<EngageMessage>, lookup: Option<BrandIntegration>, visit: Visit,
                              world: string -> CandidateWorld, other: string -> CandidateWorld, j: nat)
    requires StoreWellTyped(store)
    requires j < |store|
    requires world(store[j].id) == other(store[j].id)
    ensures Trigger(store, lookup, visit, world).store[j] == Trigger(store, lookup, visit, other).store[j]
  {
  }

  /**
   * The customer is pushed even when an insert failed, because `createConversation`
   * swallows the error: the message is marked and no pair for it is written.
   */
  lemma MarkedDespiteFailedCreation(store: seq<EngageMessage>, lookup: Option<BrandIntegration>,
                                    visit: Visit, world: string -> CandidateWorld, i: nat)
    requires StoreWellTyped(store) && UniqueIds(store)
    requires i < |store| && Active(lookup)
    requires Fires(store[i], lookup.value.brandId, visit, world)
    requires !world(store[i].id).creation.BothCreated?
    ensures Trigger(store, lookup, visit, world).store[i] == Mark(store[i], visit.customer.id)
    ensures store[i].id !in EngageIds(Trigger(store, lookup, visit, world).created)
  {
  }

  lemma TriggerKeepsRules(store: seq<EngageMessage>, lookup: Option<BrandIntegration>, visit: Visit,
                          world: string -> CandidateWorld)
    requires StoreWellTyped(store)
    ensures StoreWellTyped(Trigger(store, lookup, visit, world).store)
    ensures UniqueIds(store) ==> UniqueIds(Trigger(store, lookup, visit, world).store)
  {
    var r := Trigger(store, lookup, visit, world);
    forall m | m in r.store
      ensures AllWellTyped(m.rules)
    {
      var i :| 0 <= i < |r.store| && r.store[i] == m;
      assert m.rules == store[i].rules;
    }
  }

  /** A record that already lists the customer is no candidate for that customer. */
  lemma MarkedIsNoCandidate(m: EngageMessage, customerId: string, brandId: string, visit: Visit,
                            world: string -> CandidateWorld)
    requires AllWellTyped(m.rules)
    requires visit.customer.id == customerId
    ensures !Fires(Mark(m, customerId), brandId, visit, world)
  {
    assert customerId in Mark(m, customerId).customerIds;
  }

  /** Record `i` of `records` has id `id`, and lists the customer exactly when `listed`. */
  predicate RecordFor(records: seq<EngageMessage>, i: int, id: string, customerId: string, listed: bool) {
    0 <= i < |records| && records[i].id == id && (customerId in records[i].customerIds <==> listed)
  }

  predicate HasRecord(records: seq<EngageMessage>, id: string, customerId: string, listed: bool) {
    exists i | 0 <= i < |records| :: RecordFor(records, i, id, customerId, listed)
  }

  /** Every pair a call wrote is for a message that now lists the customer. */
  lemma PairsAreForMarkedMessages(store: seq<EngageMessage>, lookup: Option<BrandIntegration>,
                                  visit: Visit, world: string -> CandidateWorld, r: Outcome)
    requires StoreWellTyped(store)
    requires r == Trigger(store, lookup, visit, world)
    ensures forall a | 0 <= a < |r.created| ::
              HasRecord(r.store, EngageIds(r.created)[a], visit.customer.id, true)
  {
    forall a | 0 <= a < |r.created|
      ensures HasRecord(r.store, EngageIds(r.created)[a], visit.customer.id, true)
    {
      assert HasSource(store, lookup.value.brandId, visit, world, r.created[a]);
      var i :| 0 <= i < |store| && SourceAt(store, i, lookup.value.brandId, visit, world, r.created[a]);
      assert RecordFor(r.store, i, EngageIds(r.created)[a], visit.customer.id, true);
    }
  }

  /** Every pair a call wrote is for a message that did not list the customer before it. */
  lemma PairsAreForUnmarkedMessages(store: seq<EngageMessage>, lookup: Option<BrandIntegration>,
                                    visit: Visit, world: string -> CandidateWorld, r: Outcome)
    requires StoreWellTyped(store)
    requires r == Trigger(store, lookup, visit, world)
    ensures forall b | 0 <= b < |r.created| ::
              HasRecord(store, EngageIds(r.created)[b], visit.customer.id, false)
  {
    forall b | 0 <= b < |r.created|
      ensures HasRecord(store, EngageIds(r.created)[b], visit.customer.id, false)
    {
      assert HasSource(store, lookup.value.brandId, visit, world, r.created[b]);
      var j :| 0 <= j < |store| && SourceAt(store, j, lookup.value.brandId, visit, world, r.created[b]);
      assert RecordFor(store, j, EngageIds(r.created)[b], visit.customer.id, false);
    }
  }

  /**
   * The pair is the conversation and first message made for this visitor from message `i`
   * of the store: linked to the customer, the integration argument and the message's
   * sender, and carrying the message's text with the placeholders substituted.
   */
  predicate MadeFrom(store: seq<EngageMessage>, i: int, visit: Visit, p: Pair) {
    && 0 <= i < |store|
    && store[i].id == p.message.engageMessageId
    && store[i].fromUserId in visit.users
    && WellLinked(p, visit.customer, visit.integration, visit.users[store[i].fromUserId], store[i])
    && p.conversation.content == ReplaceKeys(store[i].content, visit.customer, visit.users[store[i].fromUserId])
  }

  predicate MadeForVisit(store: seq<EngageMessage>, visit: Visit, p: Pair) {
    exists i | 0 <= i < |store| :: MadeFrom(store, i, visit, p)
  }

  /** Every pair a call wrote belongs to this visitor and to a message of the store. */
  lemma CreatedPairsBelongToVisit(store: seq<EngageMessage>, lookup: Option<BrandIntegration>,
                                  visit: Visit, world: string -> CandidateWorld, r: Outcome)
    requires StoreWellTyped(store)
    requires r == Trigger(store, lookup, visit, world)
    ensures forall k | 0 <= k < |r.created| :: MadeForVisit(store, visit, r.created[k])
  {
    forall k | 0 <= k < |r.created|
      ensures MadeForVisit(store, visit, r.created[k])
    {
      assert HasSource(store, lookup.value.brandId, visit, world, r.created[k]);
      var i :| 0 <= i < |store| && SourceAt(store, i, lookup.value.brandId, visit, world, r.created[k]);
      assert MadeFrom(store, i, visit, r.created[k]);
    }
  }

  /** Each user in the map is stored under its own id, as `Users.findOne({ _id })` returns it. */
  predicate UsersById(users: map<string, User>) {
    forall id | id in users :: users[id].id == id
  }

  /**
   * With users looked up by id, every pair a call wrote is from the sender its engage
   * message names: the conversation and the message carry that user's id.
   */
  lemma CreatedPairsAreFromSender(store: seq<EngageMessage>, lookup: Option<BrandIntegration>,
                                  visit: Visit, world: string -> CandidateWorld, r: Outcome)
    requires StoreWellTyped(store)
    requires r == Trigger(store, lookup, visit, world)
    ensures UsersById(visit.users) ==>
              forall k | 0 <= k < |r.created| ::
                && r.created[k].conversation.userId == r.created[k].message.fromUserId
                && r.created[k].message.userId == r.created[k].message.fromUserId
  {
    if UsersById(visit.users) {
      CreatedPairsBelongToVisit(store, lookup, visit, world, r);
      forall k | 0 <= k < |r.created|
        ensures r.created[k].conversation.userId == r.created[k].message.fromUserId
        ensures r.created[k].message.userId == r.created[k].message.fromUserId
      {
        var i :| 0 <= i < |store| && MadeFrom(store, i, visit, r.created[k]);
        assert visit.users[store[i].fromUserId].id == store[i].fromUserId;
      }
    }
  }

  /** Ids marked with the customer and ids not marked with it name different messages. */
  lemma MarkedAndUnmarkedDiffer(mid: seq<EngageMessage>, customerId: string, ids1: seq<string>,
                                ids2: seq<string>)
    requires UniqueIds(mid)
    requires forall a | 0 <= a < |ids1| :: HasRecord(mid, ids1[a], customerId, true)
    requires forall b | 0 <= b < |ids2| :: HasRecord(mid, ids2[b], customerId, false)
    ensures forall a, b | 0 <= a < |ids1| && 0 <= b < |ids2| :: ids1[a] != ids2[b]
  {
    forall a, b | 0 <= a < |ids1| && 0 <= b < |ids2|
      ensures ids1[a] != ids2[b]
    {
      var i :| 0 <= i < |mid| && RecordFor(mid, i, ids1[a], customerId, true);
      var j :| 0 <= j < |mid| && RecordFor(mid, j, ids2[b], customerId, false);
      assert i != j;
    }
  }

  /**
   * Two calls in a row for the same customer: a message marked by the first is not a
   * candidate of the second, and across both calls each message yields at most one
   * conversation for this customer.
   */
  lemma SecondRunDoesNotRefire(store: seq<EngageMessage>, lookup: Option<BrandIntegration>, visit: Visit,
                               world: string -> CandidateWorld, lookup2: Option<BrandIntegration>,
                               visit2: Visit, world2: string -> CandidateWorld)
    requires StoreWellTyped(store)
    requires visit2.customer.id == visit.customer.id
    ensures StoreWellTyped(Trigger(store, lookup, visit, world).store)
    ensures var r1 := Trigger(store, lookup, visit, world);
            var r2 := Trigger(r1.store, lookup2, visit2, world2);
            forall i | 0 <= i < |store| :: r1.store[i] != store[i] ==> r2.store[i] == r1.store[i]
    ensures var r1 := Trigger(store, lookup, visit, world);
            var r2 := Trigger(r1.store, lookup2, visit2, world2);
            UniqueIds(store) ==> NoDuplicates(EngageIds(r1.created + r2.created))
  {
    TriggerKeepsRules(store, lookup, visit, world);
    var r1 := Trigger(store, lookup, visit, world);
    var r2 := Trigger(r1.store, lookup2, visit2, world2);
    forall i | 0 <= i < |store| && r1.store[i] != store[i]
      ensures r2.store[i] == r1.store[i]
    {
      if Active(lookup2) {
        MarkedIsNoCandidate(store[i], visit.customer.id, lookup2.value.brandId, visit2, world2);
      }
    }
    if UniqueIds(store) {
      EngageIdsAppend(r1.created, r2.created);
      PairsAreForMarkedMessages(store, lookup, visit, world, r1);
      PairsAreForUnmarkedMessages(r1.store, lookup2, visit2, world2, r2);
      assert UniqueIds(r1.store);
      MarkedAndUnmarkedDiffer(r1.store, visit.customer.id, EngageIds(r1.created), EngageIds(r2.created));
    }
  }

  /**
   * Two live messages of a brand, of which only the first matches the visitor: one pair
   * is written, for the first message, and only the first message is marked.
   */
  lemma OneOfTwoMessagesMatches(customer: Customer, integration: Integration, sender: User,
                                location: Location)
    ensures var english := Rule("browserLanguage", "is", Str("en"));
            var french := Rule("browserLanguage", "is", Str("fr"));
            var m1 := EngageMessage("m1", "b", "visitorAuto", "messenger", true, sender.id, [english], "Hi", []);
            var m2 := EngageMessage("m2", "b", "visitorAuto", "messenger", true, sender.id, [french], "Salut", []);
            var visit := Visit(customer, integration, BrowserInfo(Some("en"), None), map[sender.id := sender]);
            var world := (id: string) => CandidateWorld(Ok(location), BothCreated("c-" + id, "x-" + id));
            var r := Trigger([m1, m2], Some(BrandIntegration("b", false)), visit, world);
            && r.store == [Mark(m1, customer.id), m2]
            && |r.created| == 1
            && r.created[0].message.engageMessageId == "m1"
  {
    var english := Rule("browserLanguage", "is", Str("en"));
    var french := Rule("browserLanguage", "is", Str("fr"));
    var m1 := EngageMessage("m1", "b", "visitorAuto", "messenger", true, sender.id, [english], "Hi", []);
    var m2 := EngageMessage("m2", "b", "visitorAuto", "messenger", true, sender.id, [french], "Salut", []);
    var visit := Visit(customer, integration, BrowserInfo(Some("en"), None), map[sender.id := sender]);
    var world := (id: string) => CandidateWorld(Ok(location), BothCreated("c-" + id, "x-" + id));
    var ctx := Context(visit.browser, NumberOfVisits(customer), location);
    assert CheckRule(english, ctx) == Ok(true);
    assert CheckRule(french, ctx) == Ok(false);
    assert Fires(m1, "b", visit, world);
    assert !Fires(m2, "b", visit, world);
    assert [m1, m2][1..] == [m2];
    assert RunAll([m2], "b", visit, world).created == [];
    assert RunCandidate(m1, "b", visit, world).1.Some?;
  }
}
