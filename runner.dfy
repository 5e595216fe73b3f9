/** The polling engine of the marketplace client. Each poll sends the two
    continuation tags it holds, receives a list of objects (order counters, chat
    bookmarks, anything else) and turns the differences since the last poll into
    events. Nothing is reported on the very first poll: it only fills the table of
    last messages. The HTTP request, the JSON decoding and the HTML parsing of the
    chat list are replaced by the already decoded objects. */
module Runner {
  import opened Types

  /** One entry of the chat list: the chat (node) id, the preview of its last
      message and the name shown for the chat. */
  datatype Contact = Contact(nodeId: int, messageText: string, senderUsername: string)

  /** An object of the poll response. */
  datatype RunnerObject =
    | OrdersCounters(tag: string, buyer: int, seller: int)
    | ChatBookmarks(tag: string, html: string, contacts: seq<Contact>)
    | OtherObject(kind: string)

  /** One sub-request of a poll (its `data` field is always false). */
  datatype SubRequest = SubRequest(kind: string, id: int, tag: string)

  /** Everything a poll reads and writes: the two tags, the account's copy of the
      chat list markup, the table of last messages and the events produced so far. */
  datatype PollState = PollState(
    orderTag: string,
    messageTag: string,
    chatsHtml: string,
    lastMessages: map<int, MessageEvent>,
    events: seq<Event>)

  /** The request of a poll: the orders sub-request carries the order tag and the
      chats sub-request the message tag. */
  function RequestFor(accountId: int, orderTag: string, messageTag: string): seq<SubRequest> {
    [SubRequest("orders_counters", accountId, orderTag), SubRequest("chat_bookmarks", accountId, messageTag)]
  }

  /** The chat's stored message has the same text: the contact is old news. */
  predicate Unchanged(lastMessages: map<int, MessageEvent>, c: Contact) {
    c.nodeId in lastMessages && lastMessages[c.nodeId].messageText == c.messageText
  }

  /** One contact: skipped when unchanged; otherwise stored with the current message
      tag and, except on the first poll, reported. */
  function ContactStep(st: PollState, first: bool, c: Contact): PollState {
    if Unchanged(st.lastMessages, c) then st
    else
      var m := MessageEvent(c.nodeId, c.messageText, c.senderUsername, st.messageTag);
      st.(lastMessages := st.lastMessages[c.nodeId := m],
          events := if first then st.events else st.events + [NewMessage(m)])
  }

  /** The contacts of one chat list, in page order. */
  function ContactsStep(st: PollState, first: bool, cs: seq<Contact>): PollState {
    if cs == [] then st else ContactStep(ContactsStep(st, first, cs[..|cs| - 1]), first, cs[|cs| - 1])
  }

  /** One response object. */
  function ObjectStep(st: PollState, first: bool, o: RunnerObject): PollState {
    match o
    case OrdersCounters(tag, buyer, seller) =>
      st.(orderTag := tag,
          events := if first then st.events else st.events + [NewOrder(OrderEvent(buyer, seller))])
    case ChatBookmarks(tag, html, contacts) =>
      ContactsStep(st.(messageTag := tag, chatsHtml := html), first, contacts)
    case OtherObject(_) => st
  }

  /** The response objects, in response order. */
  function ObjectsStep(st: PollState, first: bool, objs: seq<RunnerObject>): PollState {
    if objs == [] then st else ObjectStep(ObjectsStep(st, first, objs[..|objs| - 1]), first, objs[|objs| - 1])
  }

  /** A whole poll: it starts with no events. */
  function Poll(st: PollState, first: bool, objs: seq<RunnerObject>): PollState {
    ObjectsStep(st.(events := []), first, objs)
  }

  /** Reference definition of the tags: the tag of the last object of the kind,
      or the tag held before when there is none. */
  function LastOrdersTag(objs: seq<RunnerObject>, held: string): string {
    if objs == [] then held
    else if objs[|objs| - 1].OrdersCounters? then objs[|objs| - 1].tag
    else LastOrdersTag(objs[..|objs| - 1], held)
  }

  function LastChatTag(objs: seq<RunnerObject>, held: string): string {
    if objs == [] then held
    else if objs[|objs| - 1].ChatBookmarks? then objs[|objs| - 1].tag
    else LastChatTag(objs[..|objs| - 1], held)
  }

  /** Reference definition of the order events: one per counters object, in order. */
  function OrderEventsOf(objs: seq<RunnerObject>): seq<Event> {
    if objs == [] then []
    else
      var o := objs[|objs| - 1];
      OrderEventsOf(objs[..|objs| - 1]) + (if o.OrdersCounters? then [NewOrder(OrderEvent(o.buyer, o.seller))] else [])
  }

  /** The order events among `evs`, in order. */
  function OrderEventsIn(evs: seq<Event>): seq<Event> {
    if evs == [] then []
    else OrderEventsIn(evs[..|evs| - 1]) + (if evs[|evs| - 1].NewOrder? then [evs[|evs| - 1]] else [])
  }

  /** All contacts of all chat lists of the response, in order. */
  function AllContacts(objs: seq<RunnerObject>): seq<Contact> {
    if objs == [] then []
    else
      var o := objs[|objs| - 1];
      AllContacts(objs[..|objs| - 1]) + (if o.ChatBookmarks? then o.contacts else [])
  }

  /** The text of the last contact with node `k`, if any. */
  function LastContactText(cs: seq<Contact>, k: int): Option<string> {
    if cs == [] then None
    else if cs[|cs| - 1].nodeId == k then Some(cs[|cs| - 1].messageText)
    else LastContactText(cs[..|cs| - 1], k)
  }

  /** The text the table holds for node `k`, if any. */
  function TextOf(lastMessages: map<int, MessageEvent>, k: int): Option<string> {
    if k in lastMessages then Some(lastMessages[k].messageText) else None
  }

  /** The text a poll has on record for node `k` once the contacts `prev` have
      been read: that of the last of them for the node, else the table's. */
  function StoredText(table: map<int, MessageEvent>, prev: seq<Contact>, k: int): Option<string> {
    match LastContactText(prev, k)
    case Some(t) => Some(t)
    case None => TextOf(table, k)
  }

  /** Reference definition of the message events of one chat list with tag
      `tag`, read after the contacts `prev`: one event per contact whose text
      differs from the text on record for its chat, with the contact's chat,
      text and sender and the list's tag, in page order. */
  function ChatEvents(table: map<int, MessageEvent>, prev: seq<Contact>, cs: seq<Contact>, tag: string): (r: seq<Event>)
    ensures |r| <= |cs| && forall i :: 0 <= i < |r| ==> r[i].NewMessage? && r[i].message.tag == tag
  {
    if cs == [] then []
    else
      var init := cs[..|cs| - 1];
      var c := cs[|cs| - 1];
      ChatEvents(table, prev, init, tag)
        + (if StoredText(table, prev + init, c.nodeId) == Some(c.messageText) then []
           else [NewMessage(MessageEvent(c.nodeId, c.messageText, c.senderUsername, tag))])
  }

  /** Reference definition of the message events of a response, given the table
      before the poll: those of each chat list in response order. */
  function MessageEventsOf(table: map<int, MessageEvent>, objs: seq<RunnerObject>): seq<Event> {
    if objs == [] then []
    else
      var init := objs[..|objs| - 1];
      var o := objs[|objs| - 1];
      MessageEventsOf(table, init) + (if o.ChatBookmarks? then ChatEvents(table, AllContacts(init), o.contacts, o.tag) else [])
  }

  /** The message events among `evs`, in order. */
  function MessageEventsIn(evs: seq<Event>): seq<Event> {
    if evs == [] then []
    else MessageEventsIn(evs[..|evs| - 1]) + (if evs[|evs| - 1].NewMessage? then [evs[|evs| - 1]] else [])
  }

  /** The runner object: the tags, the first-poll flag and the last-message table
      are updated in place by each poll. `chatsHtml` is the account's copy of the
      chat list, which the poll overwrites. */
  class MessageRunner {
    const accountId: int
    var messageTag: string
    var orderTag: string
    var firstRequest: bool
    var lastMessages: map<int, MessageEvent>
    var chatsHtml: string

    /** The initial tags are random in the program; here they are given. */
    constructor (accountId: int, messageTag: string, orderTag: string, chatsHtml: string)
      ensures this.accountId == accountId && this.messageTag == messageTag && this.orderTag == orderTag
      ensures firstRequest && lastMessages == map[] && this.chatsHtml == chatsHtml
    {
      this.accountId := accountId;
      this.messageTag := messageTag;
      this.orderTag := orderTag;
      this.firstRequest := true;
      this.lastMessages := map[];
      this.chatsHtml := chatsHtml;
    }

    function State(): PollState
      reads this
    {
      PollState(orderTag, messageTag, chatsHtml, lastMessages, [])
    }

    /** The sub-requests the next poll sends. */
    function Request(): (r: seq<SubRequest>)
      reads this
      ensures |r| == 2 && r[0].tag == orderTag && r[1].tag == messageTag
      ensures r[0].kind == "orders_counters" && r[1].kind == "chat_bookmarks"
    {
      RequestFor(accountId, orderTag, messageTag)
    }

    /** Stores `msg` as the last message of its chat. */
    method UpdateLastMessage(msg: MessageEvent)
      modifies this
      ensures lastMessages == old(lastMessages)[msg.nodeId := msg]
      ensures messageTag == old(messageTag) && orderTag == old(orderTag)
      ensures firstRequest == old(firstRequest) && chatsHtml == old(chatsHtml)
    {
      lastMessages := lastMessages[msg.nodeId := msg];
    }

    /** Processes one poll response and returns its events. */
    method GetUpdates(objs: seq<RunnerObject>) returns (events: seq<Event>)
      modifies this
      ensures var p := Poll(old(State()), old(firstRequest), objs);
        && events == p.events
        && orderTag == p.orderTag && messageTag == p.messageTag
        && chatsHtml == p.chatsHtml && lastMessages == p.lastMessages
      ensures !firstRequest
    {
      ghost var st0 := State();
      var first := firstRequest;
      events := [];
      var i := 0;
      while i < |objs|
        invariant 0 <= i <= |objs|
        invariant firstRequest == first
        invariant PollState(orderTag, messageTag, chatsHtml, lastMessages, events) == ObjectsStep(st0, first, objs[..i])
      {
        assert objs[..i + 1][..i] == objs[..i];
        var obj := objs[i];
        match obj {
          case OrdersCounters(tag, buyer, seller) =>
            orderTag := tag;
            if !firstRequest {
              events := events + [NewOrder(OrderEvent(buyer, seller))];
            }
          case ChatBookmarks(tag, html, contacts) =>
            messageTag := tag;
            chatsHtml := html;
            ghost var mid := PollState(orderTag, messageTag, chatsHtml, lastMessages, events);
            var j := 0;
            while j < |contacts|
              invariant 0 <= j <= |contacts|
              invariant firstRequest == first
              invariant PollState(orderTag, messageTag, chatsHtml, lastMessages, events) == ContactsStep(mid, first, contacts[..j])
            {
              assert contacts[..j + 1][..j] == contacts[..j];
              var c := contacts[j];
              if !(c.nodeId in lastMessages && lastMessages[c.nodeId].messageText == c.messageText) {
                var msg := MessageEvent(c.nodeId, c.messageText, c.senderUsername, messageTag);
                UpdateLastMessage(msg);
                if !firstRequest {
                  events := events + [NewMessage(msg)];
                }
              }
              j := j + 1;
            }
            assert contacts[..|contacts|] == contacts;
          case OtherObject(_) =>
        }
        i := i + 1;
      }
      assert objs[..|objs|] == objs;
      if firstRequest {
        firstRequest := false;
      }
    }
  }

  // ---------------------------------------------------------------------------
  // Properties of a poll

  lemma {:induction false} ContactsStepFirstSilent(st: PollState, cs: seq<Contact>)
    ensures ContactsStep(st, true, cs).events == st.events
  {
    if cs != [] {
      ContactsStepFirstSilent(st, cs[..|cs| - 1]);
    }
  }

  lemma {:induction false} ObjectsStepFirstSilent(st: PollState, objs: seq<RunnerObject>)
    ensures ObjectsStep(st, true, objs).events == st.events
  {
    if objs != [] {
      var o := objs[|objs| - 1];
      var s := ObjectsStep(st, true, objs[..|objs| - 1]);
      ObjectsStepFirstSilent(st, objs[..|objs| - 1]);
      if o.ChatBookmarks? {
        ContactsStepFirstSilent(s.(messageTag := o.tag, chatsHtml := o.html), o.contacts);
      }
    }
  }

  /** The first poll reports nothing, whatever the response. */
  lemma FirstPollSilent(st: PollState, objs: seq<RunnerObject>)
    ensures Poll(st, true, objs).events == []
  {
    ObjectsStepFirstSilent(st.(events := []), objs);
  }

  lemma {:induction false} ContactsStepKeepsTags(st: PollState, first: bool, cs: seq<Contact>)
    ensures var r := ContactsStep(st, first, cs);
      r.orderTag == st.orderTag && r.messageTag == st.messageTag && r.chatsHtml == st.chatsHtml
  {
    if cs != [] {
      ContactsStepKeepsTags(st, first, cs[..|cs| - 1]);
    }
  }

  /** Each tag is the one of the last object of its own kind: a counters object
      never sets the message tag and a chat list never sets the order tag. */
  lemma {:induction false} PollTags(st: PollState, first: bool, objs: seq<RunnerObject>)
    ensures ObjectsStep(st, first, objs).orderTag == LastOrdersTag(objs, st.orderTag)
    ensures ObjectsStep(st, first, objs).messageTag == LastChatTag(objs, st.messageTag)
  {
    if objs != [] {
      var o := objs[|objs| - 1];
      PollTags(st, first, objs[..|objs| - 1]);
      if o.ChatBookmarks? {
        var s := ObjectsStep(st, first, objs[..|objs| - 1]);
        ContactsStepKeepsTags(s.(messageTag := o.tag, chatsHtml := o.html), first, o.contacts);
      }
    }
  }

  /** The tags a poll returns are the ones the next poll sends. */
  lemma NextRequestCarriesTags(accountId: int, st: PollState, first: bool, objs: seq<RunnerObject>)
    ensures var p := Poll(st, first, objs);
      RequestFor(accountId, p.orderTag, p.messageTag) ==
        [SubRequest("orders_counters", accountId, LastOrdersTag(objs, st.orderTag)),
         SubRequest("chat_bookmarks", accountId, LastChatTag(objs, st.messageTag))]
  {
    PollTags(st.(events := []), first, objs);
  }

  lemma {:induction false} OrderEventsInConcat(a: seq<Event>, b: seq<Event>)
    ensures OrderEventsIn(a + b) == OrderEventsIn(a) + OrderEventsIn(b)
    decreases |b|
  {
    if b == [] {
      assert a + b == a;
    } else {
      assert (a + b)[..|a + b| - 1] == a + b[..|b| - 1];
      OrderEventsInConcat(a, b[..|b| - 1]);
    }
  }

  lemma {:induction false} ContactsStepNoOrderEvents(st: PollState, first: bool, cs: seq<Contact>)
    ensures OrderEventsIn(ContactsStep(st, first, cs).events) == OrderEventsIn(st.events)
  {
    if cs != [] {
      var s := ContactsStep(st, first, cs[..|cs| - 1]);
      ContactsStepNoOrderEvents(st, first, cs[..|cs| - 1]);
      var r := ContactStep(s, first, cs[|cs| - 1]);
      if r.events != s.events {
        OrderEventsInConcat(s.events, r.events[|s.events|..]);
        assert r.events == s.events + r.events[|s.events|..];
      }
    }
  }

  /** After the first poll, the order events are exactly one per counters object,
      carrying its counters, in response order. */
  lemma {:induction false} PollOrderEvents(st: PollState, objs: seq<RunnerObject>)
    ensures OrderEventsIn(ObjectsStep(st, false, objs).events) == OrderEventsIn(st.events) + OrderEventsOf(objs)
  {
    if objs != [] {
      var o := objs[|objs| - 1];
      var s := ObjectsStep(st, false, objs[..|objs| - 1]);
      PollOrderEvents(st, objs[..|objs| - 1]);
      match o
      case OrdersCounters(tag, buyer, seller) =>
        OrderEventsInConcat(s.events, [NewOrder(OrderEvent(buyer, seller))]);
        assert OrderEventsIn([NewOrder(OrderEvent(buyer, seller))]) == [NewOrder(OrderEvent(buyer, seller))] by {
          assert [NewOrder(OrderEvent(buyer, seller))][..0] == [];
        }
      case ChatBookmarks(tag, html, contacts) =>
        ContactsStepNoOrderEvents(s.(messageTag := tag, chatsHtml := html), false, contacts);
      case OtherObject(_) =>
    }
  }

  lemma {:induction false} MessageEventsInConcat(a: seq<Event>, b: seq<Event>)
    ensures MessageEventsIn(a + b) == MessageEventsIn(a) + MessageEventsIn(b)
    decreases |b|
  {
    if b == [] {
      assert a + b == a;
    } else {
      assert (a + b)[..|a + b| - 1] == a + b[..|b| - 1];
      MessageEventsInConcat(a, b[..|b| - 1]);
    }
  }

  lemma MessageEventsInSingle(e: Event)
    ensures MessageEventsIn([e]) == if e.NewMessage? then [e] else []
  {
    assert [e][..0] == [];
  }

  /** The table holds, for every node, the text on record after `prev`. */
  ghost predicate OnRecord(lastMessages: map<int, MessageEvent>, table: map<int, MessageEvent>, prev: seq<Contact>) {
    forall k :: TextOf(lastMessages, k) == StoredText(table, prev, k)
  }

  /** One contact after the first poll, measured against the reference: the table
      stays on record, and the events grow by that contact's message event, if
      any. */
  lemma ContactStepMessage(st: PollState, table: map<int, MessageEvent>, before: seq<Contact>, c: Contact)
    requires OnRecord(st.lastMessages, table, before)
    ensures OnRecord(ContactStep(st, false, c).lastMessages, table, before + [c])
    ensures ContactStep(st, false, c).events == st.events
      + (if StoredText(table, before, c.nodeId) == Some(c.messageText) then []
         else [NewMessage(MessageEvent(c.nodeId, c.messageText, c.senderUsername, st.messageTag))])
  {
    var r := ContactStep(st, false, c);
    var after := before + [c];
    assert after[..|after| - 1] == before;
    assert TextOf(st.lastMessages, c.nodeId) == StoredText(table, before, c.nodeId);
    forall k
      ensures TextOf(r.lastMessages, k) == StoredText(table, after, k)
    {
      assert TextOf(st.lastMessages, k) == StoredText(table, before, k);
    }
  }

  /** The contacts of one chat list after the first poll keep the table on
      record. */
  lemma {:induction false} ContactsStepRecord(st: PollState, table: map<int, MessageEvent>, prev: seq<Contact>, cs: seq<Contact>)
    requires OnRecord(st.lastMessages, table, prev)
    ensures OnRecord(ContactsStep(st, false, cs).lastMessages, table, prev + cs)
  {
    if cs == [] {
      assert prev + cs == prev;
    } else {
      var init := cs[..|cs| - 1];
      var c := cs[|cs| - 1];
      ContactsStepRecord(st, table, prev, init);
      ContactStepMessage(ContactsStep(st, false, init), table, prev + init, c);
      assert (prev + init) + [c] == prev + cs;
    }
  }

  /** One contact after the first poll adds its message event exactly when its
      text differs from the text `t` the table holds for its chat. */
  lemma ContactStepEvent(st: PollState, c: Contact, t: Option<string>)
    requires TextOf(st.lastMessages, c.nodeId) == t
    ensures ContactStep(st, false, c).events == st.events
      + (if t == Some(c.messageText) then []
         else [NewMessage(MessageEvent(c.nodeId, c.messageText, c.senderUsername, st.messageTag))])
  {
  }

  /** The message events among `evs` followed by message events only. */
  lemma {:induction false} MessageEventsInMessages(evs: seq<Event>, added: seq<Event>)
    requires forall i :: 0 <= i < |added| ==> added[i].NewMessage?
    ensures MessageEventsIn(evs + added) == MessageEventsIn(evs) + added
  {
    if added == [] {
      assert evs + added == evs;
    } else {
      var init := added[..|added| - 1];
      MessageEventsInMessages(evs, init);
      assert (evs + added)[..|evs + added| - 1] == evs + init;
      assert init + [added[|added| - 1]] == added;
    }
  }

  /** One node of `ContactsStepRecord`. */
  lemma ContactsStepRecordAt(st: PollState, table: map<int, MessageEvent>, prev: seq<Contact>, cs: seq<Contact>, k: int)
    requires OnRecord(st.lastMessages, table, prev)
    ensures TextOf(ContactsStep(st, false, cs).lastMessages, k) == StoredText(table, prev + cs, k)
  {
    ContactsStepRecord(st, table, prev, cs);
  }

  /** The contacts of one chat list after the first poll append exactly the
      reference's message events. */
  lemma {:induction false} ContactsStepMessages(st: PollState, table: map<int, MessageEvent>, prev: seq<Contact>, cs: seq<Contact>)
    requires OnRecord(st.lastMessages, table, prev)
    ensures ContactsStep(st, false, cs).events == st.events + ChatEvents(table, prev, cs, st.messageTag)
  {
    if cs == [] {
      assert st.events + [] == st.events;
    } else {
      var init := cs[..|cs| - 1];
      var c := cs[|cs| - 1];
      ContactsStepMessages(st, table, prev, init);
      var s := ContactsStep(st, false, init);
      ContactsStepKeepsTags(st, false, init);
      var t := StoredText(table, prev + init, c.nodeId);
      ContactsStepRecordAt(st, table, prev, init, c.nodeId);
      ContactStepEvent(s, c, t);
      var added := if t == Some(c.messageText) then []
        else [NewMessage(MessageEvent(c.nodeId, c.messageText, c.senderUsername, st.messageTag))];
      assert st.events + ChatEvents(table, prev, init, st.messageTag) + added
        == st.events + (ChatEvents(table, prev, init, st.messageTag) + added);
    }
  }

  /** All objects after the first poll keep the table on record. */
  lemma {:induction false} ObjectsStepRecord(st: PollState, objs: seq<RunnerObject>)
    ensures OnRecord(ObjectsStep(st, false, objs).lastMessages, st.lastMessages, AllContacts(objs))
  {
    if objs != [] {
      var init := objs[..|objs| - 1];
      var o := objs[|objs| - 1];
      ObjectsStepRecord(st, init);
      var s := ObjectsStep(st, false, init);
      if o.ChatBookmarks? {
        var s' := s.(messageTag := o.tag, chatsHtml := o.html);
        assert OnRecord(s'.lastMessages, st.lastMessages, AllContacts(init));
        ContactsStepRecord(s', st.lastMessages, AllContacts(init), o.contacts);
        assert ObjectsStep(st, false, objs) == ContactsStep(s', false, o.contacts);
        assert AllContacts(objs) == AllContacts(init) + o.contacts;
      } else {
        assert ObjectsStep(st, false, objs).lastMessages == s.lastMessages;
        assert AllContacts(objs) == AllContacts(init) + [] == AllContacts(init);
      }
    }
  }

  /** One object after the first poll adds the message events of its chat list,
      if it is one, and no other message event. */
  lemma ObjectStepMessages(table: map<int, MessageEvent>, prev: seq<Contact>, s: PollState, o: RunnerObject)
    requires OnRecord(s.lastMessages, table, prev)
    ensures MessageEventsIn(ObjectStep(s, false, o).events)
      == MessageEventsIn(s.events) + (if o.ChatBookmarks? then ChatEvents(table, prev, o.contacts, o.tag) else [])
  {
    match o
    case OrdersCounters(tag, buyer, seller) =>
      MessageEventsInConcat(s.events, [NewOrder(OrderEvent(buyer, seller))]);
      MessageEventsInSingle(NewOrder(OrderEvent(buyer, seller)));
    case ChatBookmarks(tag, html, contacts) =>
      var s' := s.(messageTag := tag, chatsHtml := html);
      assert OnRecord(s'.lastMessages, table, prev);
      ContactsStepMessages(s', table, prev, contacts);
      MessageEventsInMessages(s.events, ChatEvents(table, prev, contacts, tag));
    case OtherObject(_) =>
      assert MessageEventsIn(s.events) + [] == MessageEventsIn(s.events);
  }

  /** The last object of a response after the first poll adds the message
      events of its chat list, if it is one, measured against the table before
      the poll and the contacts before it. */
  lemma ObjectsStepLast(st: PollState, objs: seq<RunnerObject>)
    requires objs != []
    ensures var init := objs[..|objs| - 1];
      var o := objs[|objs| - 1];
      MessageEventsIn(ObjectsStep(st, false, objs).events)
        == MessageEventsIn(ObjectsStep(st, false, init).events)
           + (if o.ChatBookmarks? then ChatEvents(st.lastMessages, AllContacts(init), o.contacts, o.tag) else [])
  {
    var init := objs[..|objs| - 1];
    ObjectsStepRecord(st, init);
    ObjectStepMessages(st.lastMessages, AllContacts(init), ObjectsStep(st, false, init), objs[|objs| - 1]);
  }

  /** All objects after the first poll add exactly the reference's message
      events. */
  lemma {:induction false} ObjectsStepMessages(st: PollState, objs: seq<RunnerObject>)
    ensures MessageEventsIn(ObjectsStep(st, false, objs).events) == MessageEventsIn(st.events) + MessageEventsOf(st.lastMessages, objs)
  {
    if objs == [] {
      assert MessageEventsIn(st.events) + [] == MessageEventsIn(st.events);
    } else {
      var init := objs[..|objs| - 1];
      var o := objs[|objs| - 1];
      ObjectsStepMessages(st, init);
      ObjectsStepLast(st, objs);
      var chat := if o.ChatBookmarks? then ChatEvents(st.lastMessages, AllContacts(init), o.contacts, o.tag) else [];
      EventsAssoc(MessageEventsIn(st.events), MessageEventsOf(st.lastMessages, init), chat);
    }
  }

  lemma EventsAssoc(a: seq<Event>, b: seq<Event>, c: seq<Event>)
    ensures a + b + c == a + (b + c)
  {
  }

  /** After the first poll, the message events are exactly those of the
      reference: one per contact whose text differs from the one on record for
      its chat, carrying chat, text, sender and the tag of its chat list, in
      response order. */
  lemma PollMessageEvents(st: PollState, objs: seq<RunnerObject>)
    ensures MessageEventsIn(Poll(st, false, objs).events) == MessageEventsOf(st.lastMessages, objs)
  {
    ObjectsStepMessages(st.(events := []), objs);
    assert MessageEventsIn([]) == [];
  }

  /** Every entry of the table is stored under its own chat id. */
  predicate WellKeyed(lastMessages: map<int, MessageEvent>) {
    forall k :: k in lastMessages ==> lastMessages[k].nodeId == k
  }

  /** The table after a chat list: a node that occurs holds the text of its last
      contact; any other node keeps its entry. */
  lemma {:induction false} ContactsStepTable(st: PollState, first: bool, cs: seq<Contact>, k: int)
    requires WellKeyed(st.lastMessages)
    ensures WellKeyed(ContactsStep(st, first, cs).lastMessages)
    ensures var lm := ContactsStep(st, first, cs).lastMessages;
      match LastContactText(cs, k)
      case Some(t) => k in lm && lm[k].messageText == t && lm[k].nodeId == k
      case None => (k in lm <==> k in st.lastMessages) && (k in lm ==> lm[k] == st.lastMessages[k])
  {
    if cs != [] {
      ContactsStepTable(st, first, cs[..|cs| - 1], k);
      var s := ContactsStep(st, first, cs[..|cs| - 1]);
      var c := cs[|cs| - 1];
      if !Unchanged(s.lastMessages, c) {
        var m := MessageEvent(c.nodeId, c.messageText, c.senderUsername, s.messageTag);
        assert ContactsStep(st, first, cs).lastMessages == s.lastMessages[c.nodeId := m];
      }
    }
  }

  lemma {:induction false} LastContactTextConcat(a: seq<Contact>, b: seq<Contact>, k: int)
    ensures LastContactText(a + b, k) == if LastContactText(b, k).Some? then LastContactText(b, k) else LastContactText(a, k)
    decreases |b|
  {
    if b == [] {
      assert a + b == a;
    } else {
      assert (a + b)[..|a + b| - 1] == a + b[..|b| - 1];
      LastContactTextConcat(a, b[..|b| - 1], k);
    }
  }

  /** After a poll, every chat of the response is in the table with the text of its
      last contact; every other chat keeps its entry. Nothing is removed. */
  lemma {:induction false} PollTable(st: PollState, first: bool, objs: seq<RunnerObject>, k: int)
    requires WellKeyed(st.lastMessages)
    ensures WellKeyed(ObjectsStep(st, first, objs).lastMessages)
    ensures var lm := ObjectsStep(st, first, objs).lastMessages;
      match LastContactText(AllContacts(objs), k)
      case Some(t) => k in lm && lm[k].messageText == t && lm[k].nodeId == k
      case None => (k in lm <==> k in st.lastMessages) && (k in lm ==> lm[k] == st.lastMessages[k])
  {
    if objs != [] {
      var o := objs[|objs| - 1];
      var init := objs[..|objs| - 1];
      var s := ObjectsStep(st, first, init);
      PollTable(st, first, init, k);
      if o.ChatBookmarks? {
        var s' := s.(messageTag := o.tag, chatsHtml := o.html);
        assert ObjectsStep(st, first, objs) == ContactsStep(s', first, o.contacts);
        assert AllContacts(objs) == AllContacts(init) + o.contacts;
        ContactsStepTable(s', first, o.contacts, k);
        LastContactTextConcat(AllContacts(init), o.contacts, k);
      } else {
        assert ObjectsStep(st, first, objs).lastMessages == s.lastMessages;
        assert AllContacts(objs) == AllContacts(init) + [] == AllContacts(init);
      }
    }
  }

  /** Entries are only added or overwritten. */
  lemma TableOnlyGrows(st: PollState, first: bool, objs: seq<RunnerObject>)
    requires WellKeyed(st.lastMessages)
    ensures st.lastMessages.Keys <= ObjectsStep(st, first, objs).lastMessages.Keys
  {
    forall k | k in st.lastMessages
      ensures k in ObjectsStep(st, first, objs).lastMessages
    {
      PollTable(st, first, objs, k);
    }
  }

  /** Every contact is unchanged with respect to the table. */
  predicate AllUnchanged(lastMessages: map<int, MessageEvent>, cs: seq<Contact>) {
    forall i :: 0 <= i < |cs| ==> Unchanged(lastMessages, cs[i])
  }

  lemma {:induction false} ContactsStepAllUnchanged(st: PollState, first: bool, cs: seq<Contact>)
    requires AllUnchanged(st.lastMessages, cs)
    ensures ContactsStep(st, first, cs).lastMessages == st.lastMessages
    ensures ContactsStep(st, first, cs).events == st.events
  {
    if cs != [] {
      ContactsStepAllUnchanged(st, first, cs[..|cs| - 1]);
    }
  }

  lemma {:induction false} ObjectsStepAllUnchanged(st: PollState, first: bool, objs: seq<RunnerObject>)
    requires AllUnchanged(st.lastMessages, AllContacts(objs))
    ensures ObjectsStep(st, first, objs).lastMessages == st.lastMessages
    ensures ObjectsStep(st, first, objs).events == st.events + (if first then [] else OrderEventsOf(objs))
  {
    if objs != [] {
      var o := objs[|objs| - 1];
      var init := objs[..|objs| - 1];
      var s := ObjectsStep(st, first, init);
      assert AllUnchanged(st.lastMessages, AllContacts(init)) by {
        forall i | 0 <= i < |AllContacts(init)|
          ensures Unchanged(st.lastMessages, AllContacts(init)[i])
        {
          assert AllContacts(init)[i] == AllContacts(objs)[i];
        }
      }
      ObjectsStepAllUnchanged(st, first, init);
      if o.ChatBookmarks? {
        assert AllUnchanged(s.lastMessages, o.contacts) by {
          forall i | 0 <= i < |o.contacts|
            ensures Unchanged(s.lastMessages, o.contacts[i])
          {
            assert o.contacts[i] == AllContacts(objs)[|AllContacts(init)| + i];
          }
        }
        ContactsStepAllUnchanged(s.(messageTag := o.tag, chatsHtml := o.html), first, o.contacts);
      }
    }
  }

  /** All contacts of one chat in the response show the same text. */
  predicate ConsistentTexts(cs: seq<Contact>) {
    forall i, j :: 0 <= i < |cs| && 0 <= j < |cs| && cs[i].nodeId == cs[j].nodeId ==> cs[i].messageText == cs[j].messageText
  }

  lemma {:induction false} LastContactTextIsSome(cs: seq<Contact>, i: int)
    requires 0 <= i < |cs| && ConsistentTexts(cs)
    ensures LastContactText(cs, cs[i].nodeId) == Some(cs[i].messageText)
  {
    var n := |cs| - 1;
    if cs[n].nodeId != cs[i].nodeId {
      assert ConsistentTexts(cs[..n]) by {
        forall a, b | 0 <= a < n && 0 <= b < n && cs[..n][a].nodeId == cs[..n][b].nodeId
          ensures cs[..n][a].messageText == cs[..n][b].messageText
        {
          assert cs[..n][a] == cs[a] && cs[..n][b] == cs[b];
        }
      }
      assert cs[..n][i] == cs[i];
      LastContactTextIsSome(cs[..n], i);
    }
  }

  /** Polling the same snapshot again reports no message and changes no entry: the
      only events are the order counters. */
  lemma RepeatedPollReportsNoMessages(st: PollState, first: bool, objs: seq<RunnerObject>)
    requires WellKeyed(st.lastMessages) && ConsistentTexts(AllContacts(objs))
    ensures var p := Poll(st, first, objs);
      var q := Poll(p, false, objs);
      q.lastMessages == p.lastMessages && q.events == OrderEventsOf(objs)
  {
    var p := Poll(st, first, objs);
    var cs := AllContacts(objs);
    forall i | 0 <= i < |cs|
      ensures Unchanged(p.lastMessages, cs[i])
    {
      LastContactTextIsSome(cs, i);
      PollTable(st.(events := []), first, objs, cs[i].nodeId);
    }
    ObjectsStepAllUnchanged(p.(events := []), false, objs);
  }

  /** An object of another type, wherever it stands, changes nothing. */
  lemma {:induction false} OtherObjectIgnored(st: PollState, first: bool, a: seq<RunnerObject>, kind: string, b: seq<RunnerObject>)
    ensures ObjectsStep(st, first, a + [OtherObject(kind)] + b) == ObjectsStep(st, first, a + b)
    decreases |b|
  {
    if b == [] {
      assert (a + [OtherObject(kind)] + b)[..|a| ] == a;
      assert a + b == a;
    } else {
      var x := a + [OtherObject(kind)] + b;
      assert x[..|x| - 1] == a + [OtherObject(kind)] + b[..|b| - 1];
      assert (a + b)[..|a + b| - 1] == a + b[..|b| - 1];
      OtherObjectIgnored(st, first, a, kind, b[..|b| - 1]);
    }
  }
}
