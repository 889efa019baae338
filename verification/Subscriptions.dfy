/** Topic subscriptions of the WebSocket connections (transport/ws_main/ws.go), on top of one bus subscriber. */
module Subscriptions {
  import opened Prelude
  import opened PubSub

  /** A connection with the events put on its send channel. */
  class WsConn {
    var sent: seq<Event>
    var closed: bool

    constructor ()
      ensures sent == [] && !closed
    {
      sent, closed := [], false;
    }

    /** A second close, or a send after it, would panic. */
    method Close()
      requires !closed
      modifies this`closed
      ensures closed
    {
      closed := true;
    }

    method Send(ev: Event)
      requires !closed
      modifies this`sent
      ensures sent == old(sent) + [ev]
    {
      sent := sent + [ev];
    }
  }

  type Pair = (WsConn, Topic)

  /** What the connections' own threads do to the transport. */
  datatype Call =
    | Subscribe(topic: Topic, conn: WsConn)
    | Unsubscribe(topic: Topic, conn: WsConn)
    | Close(conn: WsConn)

  function Callers(calls: seq<Call>): set<WsConn> {
    set i | 0 <= i < |calls| :: calls[i].conn
  }

  /** A thread closes its connection last, and once. */
  predicate ClosesLast(calls: seq<Call>) {
    forall i, j :: 0 <= i < j < |calls| && calls[i].Close? ==> calls[j].conn != calls[i].conn
  }

  function ByTopic(m: map<Topic, set<WsConn>>): set<Pair> {
    set topic, conn | topic in m && conn in m[topic] :: (conn, topic)
  }

  function ByConn(m: map<WsConn, set<Topic>>): set<Pair> {
    set conn, topic | conn in m && topic in m[conn] :: (conn, topic)
  }

  /** The events that concern a set of topics. Only the exact topic of an event is looked up. */
  function Concerning(events: seq<Event>, topics: set<Topic>): seq<Event> {
    if events == [] then []
    else (if events[0].topic in topics then [events[0]] else []) + Concerning(events[1..], topics)
  }

  lemma {:induction false} ConcerningCopies(ev: Event, n: nat, topics: set<Topic>)
    ensures Concerning(Copies(ev, n), topics) == Copies(ev, if ev.topic in topics then n else 0)
  {
    if n > 0 {
      assert Copies(ev, n)[1..] == Copies(ev, n - 1);
      ConcerningCopies(ev, n - 1, topics);
      assert [ev] + Copies(ev, n - 1) == Copies(ev, n);
    }
  }

  /** How often a connection that holds some topics gets an event, when all connections together hold
      allHeld and the subscriber's queue was empty. */
  function TimesDelivered(topic: Topic, held: set<Topic>, allHeld: set<Topic>): nat {
    if topic in held then Min(MAX_EVENTS, Hits(Sections(topic), allHeld)) else 0
  }

  /** An event arrives exactly once if and only if its own topic is held and no connection whatever holds a
      proper section of it. Holding only a proper section brings nothing. */
  lemma DeliveredOnceExactly(topic: Topic, held: set<Topic>, allHeld: set<Topic>)
    requires held <= allHeld
    ensures TimesDelivered(topic, held, allHeld) == 1 <==>
      topic in held && forall s :: s in allHeld && IsSection(s, topic) ==> s == topic
    ensures TimesDelivered(topic, held, allHeld) == 0 <==> topic !in held
  {
    HitsCountSections(topic, allHeld);
    var hit := set s | s in allHeld && IsSection(s, topic);
    if topic in held {
      assert topic in hit;
      var others := hit - {topic};
      assert hit == others + {topic};
      assert |hit| == |others| + 1;
      if others != {} {
        var s :| s in others;
        assert s in allHeld && IsSection(s, topic) && s != topic;
        assert |others| == |others - {s}| + 1;
      } else {
        assert forall s :: s in allHeld && IsSection(s, topic) ==> s in hit;
      }
    }
  }

  /** A connection that subscribed to the whole stream group gets nothing of a stream's events. */
  lemma SectionBringsNothing()
    ensures forall allHeld :: TimesDelivered("stream.7.viewers", {"stream"}, allHeld) == 0
  {
    assert |"stream"| == 6 && |"stream.7.viewers"| == 16;
  }

  /** Two copies of one event reach a connection that subscribed to it once, because another connection
      subscribed to the whole stream group. */
  lemma AnotherSubscriptionDuplicates()
    ensures TimesDelivered("stream.7.viewers", {"stream.7.viewers"}, {"stream.7.viewers", "stream"}) == 2
  {
    ThreeSections();
    var topic: Topic, all: set<Topic> := "stream.7.viewers", {"stream.7.viewers", "stream"};
    hide Sections;
    assert |"stream"| == 6 && |"stream.7"| == 8 && |topic| == 16;
    HitsOfThree("stream", "stream.7", topic, all);
  }

  lemma HitsOfThree(a: Topic, b: Topic, c: Topic, topics: set<Topic>)
    requires a in topics && b !in topics && c in topics
    ensures Hits([a, b, c], topics) == 2
  {
    HitsAppend([a, b], c);
    HitsAppend([a], b);
    HitsAppend([], a);
    assert [a, b] + [c] == [a, b, c] && [a] + [b] == [a, b] && [] + [a] == [a];
  }

  lemma ThreeSections()
    ensures Sections("stream.7.viewers") == ["stream", "stream.7", "stream.7.viewers"]
  {
    var topic: Topic := "stream.7.viewers";
    assert topic[..6] == "stream" && topic[..8] == "stream.7" && topic[6] == '.' && topic[8] == '.';
    hide SectionsFrom;
    WholeTopic(topic);
    NoDots(topic, 9, 16);
    NoDots(topic, 7, 8);
    DotAt(topic, 8);
    NoDots(topic, 0, 6);
    DotAt(topic, 6);
  }

  lemma WholeTopic(topic: Topic)
    ensures SectionsFrom(topic, |topic|) == [topic]
  {
  }

  lemma DotAt(topic: Topic, i: nat)
    requires i < |topic| && topic[i] == '.'
    ensures SectionsFrom(topic, i) == [topic[..i]] + SectionsFrom(topic, i + 1)
  {
  }

  lemma {:induction false} NoDots(topic: Topic, i: nat, j: nat)
    requires i <= j <= |topic| && forall k :: i <= k < j ==> topic[k] != '.'
    ensures SectionsFrom(topic, i) == SectionsFrom(topic, j)
    decreases j - i
  {
    if i < j {
      NoDots(topic, i + 1, j);
    }
  }

  class Transport {
    const events: Subscriber
    var topicConns: map<Topic, set<WsConn>>
    var connTopics: map<WsConn, set<Topic>>

    constructor (events: Subscriber)
      requires events.Mirrors() && events.topics == {} && !events.closed && |events.events| <= MAX_EVENTS
      ensures this.events == events && Valid() && Pairs() == {}
    {
      this.events, topicConns, connTopics := events, map[], map[];
    }

    /** The one relation that all four maps stand for. */
    ghost function Pairs(): set<Pair>
      reads this
    {
      ByTopic(topicConns)
    }

    /** The bus knows the shared subscriber for exactly the topics in topicConns, which holds no empty set. */
    ghost predicate BusAgrees()
      reads this, events, events.bus
    {
      && events.Mirrors() && !events.closed
      && |events.events| <= MAX_EVENTS
      && events.topics == topicConns.Keys
      && forall topic :: topic in topicConns ==> topicConns[topic] != {}
    }

    /** All four maps stand for one relation, and every connection in it is open. */
    ghost predicate Valid()
      reads this, events, events.bus, connTopics.Keys
    {
      && BusAgrees()
      && ByConn(connTopics) == Pairs()
      && forall conn :: conn in connTopics ==> connTopics[conn] != {} && !conn.closed
    }

    /** What Valid says about each of the four maps. */
    lemma FourMapsAgree(conn: WsConn, topic: Topic)
      requires Valid()
      ensures (conn, topic) in Pairs() <==> topic in topicConns && conn in topicConns[topic]
      ensures (conn, topic) in Pairs() <==> conn in connTopics && topic in connTopics[conn]
      ensures Registered(events.bus.topicSubs, topic, events) <==> exists c :: (c, topic) in Pairs()
      ensures topic in events.topics <==> exists c :: (c, topic) in Pairs()
      ensures topic in topicConns <==> exists c :: (c, topic) in Pairs()
      ensures conn in connTopics <==> exists t :: (conn, t) in Pairs()
    {
      if topic in topicConns {
        var c :| c in topicConns[topic];
        assert (c, topic) in Pairs();
      }
      if conn in connTopics {
        var t :| t in connTopics[conn];
        assert (conn, t) in ByConn(connTopics);
      }
      assert (conn, topic) in Pairs() <==> (conn, topic) in ByConn(connTopics);
      assert topic in TopicsOf(events.bus.topicSubs, events) <==> Registered(events.bus.topicSubs, topic, events);
      forall t | (conn, t) in Pairs()
        ensures conn in connTopics
      {
        assert (conn, t) in ByConn(connTopics);
      }
    }

    method Subscribe(topic: Topic, conn: WsConn)
      requires Valid() && !conn.closed
      modifies this, events`topics, events.bus
      ensures Valid() && Pairs() == old(Pairs()) + {(conn, topic)}
      ensures old(events.bus.Open()) ==> events.bus.Open()
    {
      Enter(topic, conn);
      var topics := {};
      if conn in connTopics && connTopics[conn] != {} {
        topics := connTopics[conn];
      }
      connTopics := connTopics[conn := topics + {topic}];
      AddedByConn(old(connTopics), conn, topics, topic);
    }

    /** The first half of subscribe: the pair enters topicConns, and a topic that nobody held enters the bus. */
    method Enter(topic: Topic, conn: WsConn)
      requires BusAgrees()
      modifies this`topicConns, events`topics, events.bus
      ensures BusAgrees() && Pairs() == old(Pairs()) + {(conn, topic)}
      ensures old(events.bus.Open()) ==> events.bus.Open()
    {
      var conns := {};
      if topic in topicConns {
        conns := topicConns[topic];
      } else {
        events.Subscribe(topic);
      }
      topicConns := topicConns[topic := conns + {conn}];
      AddedByTopic(old(topicConns), topic, conns, conn);
    }

    /** Also for a pair that is not there. */
    method Unsubscribe(topic: Topic, conn: WsConn)
      requires Valid()
      modifies this, events`topics, events.bus
      ensures Valid() && Pairs() == old(Pairs()) - {(conn, topic)}
      ensures old(events.bus.Open()) ==> events.bus.Open()
    {
      Drop(topic, conn);
      if conn in connTopics {
        var topics := connTopics[conn] - {topic};
        if topics == {} {
          connTopics := connTopics - {conn};
        } else {
          connTopics := connTopics[conn := topics];
        }
      }
      RemovedByConn(old(connTopics), connTopics, conn, topic);
    }

    /** The part that unsubscribe and closeConn share: one pair leaves topicConns, and a topic that nobody
        holds any more leaves the bus. */
    method Drop(topic: Topic, conn: WsConn)
      requires BusAgrees()
      modifies this`topicConns, events`topics, events.bus
      ensures BusAgrees() && Pairs() == old(Pairs()) - {(conn, topic)}
      ensures old(events.bus.Open()) ==> events.bus.Open()
    {
      var conns := {};
      if topic in topicConns {
        conns := topicConns[topic] - {conn};
      }
      if conns == {} {
        topicConns := topicConns - {topic};
        events.Unsubscribe(topic);
      } else {
        topicConns := topicConns[topic := conns];
      }
      RemovedByTopic(old(topicConns), topicConns, topic, conn);
    }

    /** closeConn: exactly the pairs of the connection go, and it is closed. */
    method CloseConn(conn: WsConn)
      requires Valid() && !conn.closed
      modifies this, events`topics, events.bus, conn`closed
      ensures Valid() && conn.closed
      ensures Pairs() == set p | p in old(Pairs()) && p.0 != conn
      ensures old(events.bus.Open()) ==> events.bus.Open()
    {
      DropAll(conn, if conn in connTopics then connTopics[conn] else {});
      WithoutConn(connTopics, conn);
      connTopics := connTopics - {conn};
      conn.Close();
    }

    /** The loop of closeConn. */
    method DropAll(conn: WsConn, topics: set<Topic>)
      requires BusAgrees()
      modifies this`topicConns, events`topics, events.bus
      ensures BusAgrees() && Pairs() == Without(old(Pairs()), conn, topics)
      ensures old(events.bus.Open()) ==> events.bus.Open()
    {
      var todo := topics;
      while todo != {}
        invariant BusAgrees() && (old(events.bus.Open()) ==> events.bus.Open())
        invariant todo <= topics && Pairs() == Without(old(Pairs()), conn, topics - todo)
        decreases todo
      {
        var topic :| topic in todo;
        Drop(topic, conn);
        todo := todo - {topic};
      }
      assert topics - todo == topics;
    }

    /** The body of the loop in readEvents. */
    method ForwardOne()
      requires Valid() && events.events != []
      modifies events`events, connTopics.Keys
      ensures Valid() && events.events == old(events.events)[1..]
      ensures forall conn :: conn in connTopics ==>
        && conn.sent == old(conn.sent) + Concerning([old(events.events)[0]], connTopics[conn])
        && conn.closed == old(conn.closed)
      ensures old(events.bus.Open()) ==> events.bus.Open()
    {
      var ev := events.Read();
      var todo := if ev.value.topic in topicConns then topicConns[ev.value.topic] else {};
      ghost var all := todo;
      HoldersAre(ev.value.topic, all);
      while todo != {}
        invariant todo <= all && events.events == old(events.events)[1..]
        invariant forall conn :: conn in connTopics ==> !conn.closed
        invariant forall conn :: conn in connTopics ==>
          conn.sent == if conn in all && conn !in todo then old(conn.sent) + [ev.value] else old(conn.sent)
        decreases todo
      {
        var conn :| conn in todo;
        assert conn in connTopics;
        conn.Send(ev.value);
        todo := todo - {conn};
      }
      ConcerningOne(ev.value);
    }

    lemma HoldersAre(topic: Topic, conns: set<WsConn>)
      requires Valid() && conns == if topic in topicConns then topicConns[topic] else {}
      ensures conns <= connTopics.Keys
      ensures forall conn :: conn in connTopics ==> (conn in conns <==> topic in connTopics[conn])
    {
      forall conn | conn in conns
        ensures conn in connTopics
      {
        assert (conn, topic) in Pairs();
        assert (conn, topic) in ByConn(connTopics);
      }
      forall conn | conn in connTopics
        ensures conn in conns <==> topic in connTopics[conn]
      {
        assert (conn, topic) in Pairs() <==> (conn, topic) in ByConn(connTopics);
      }
    }

    /** readEvents until the queue is empty: every connection gets the events of its own topics, in order. */
    method ForwardAll()
      requires Valid()
      modifies events`events, connTopics.Keys
      ensures Valid() && events.events == []
      ensures forall conn :: conn in connTopics ==>
        conn.sent == old(conn.sent) + Concerning(old(events.events), connTopics[conn])
      ensures old(events.bus.Open()) ==> events.bus.Open()
    {
      ghost var n := 0;
      while events.events != []
        invariant Valid() && (old(events.bus.Open()) ==> events.bus.Open())
        invariant n <= |old(events.events)| && events.events == old(events.events)[n..]
        invariant forall conn :: conn in connTopics ==>
          conn.sent + Concerning(events.events, connTopics[conn]) == old(conn.sent) + Concerning(old(events.events), connTopics[conn])
        decreases |events.events|
      {
        ghost var queue, sent := events.events, map conn | conn in connTopics :: conn.sent;
        ForwardOne();
        n := n + 1;
        forall conn | conn in connTopics
          ensures conn.sent + Concerning(events.events, connTopics[conn]) == sent[conn] + Concerning(queue, connTopics[conn])
        {
          ConcerningCons(queue, connTopics[conn]);
          Associative(sent[conn], Concerning([queue[0]], connTopics[conn]), Concerning(events.events, connTopics[conn]));
        }
      }
    }

    /** Any calls of the connections' threads, one after the other. */
    method Serve(calls: seq<Call>)
      requires Valid() && ClosesLast(calls) && forall conn :: conn in Callers(calls) ==> !conn.closed
      modifies this, events`topics, events.bus, Callers(calls)`closed
      ensures Valid()
      ensures forall conn :: conn in Callers(calls) ==> (conn.closed <==> Close(conn) in calls)
      ensures old(events.bus.Open()) ==> events.bus.Open()
    {
      for i := 0 to |calls|
        invariant Valid() && (old(events.bus.Open()) ==> events.bus.Open())
        invariant forall conn :: conn in Callers(calls) ==> (conn.closed <==> Close(conn) in calls[..i])
      {
        assert calls[..i + 1] == calls[..i] + [calls[i]];
        assert calls[i].conn in Callers(calls);
        match calls[i]
        case Subscribe(topic, conn) => Subscribe(topic, conn);
        case Unsubscribe(topic, conn) => Unsubscribe(topic, conn);
        case Close(conn) => CloseConn(conn);
      }
      assert calls[..|calls|] == calls;
    }

    lemma PickedIsOpen(conn: WsConn, topic: Topic)
      requires Valid() && topic in topicConns && conn in topicConns[topic]
      ensures !conn.closed
    {
      FourMapsAgree(conn, topic);
    }

    /** readEvents looks connections up without the lock and sends to them later. A connection that was picked
        is sent to after any calls in between; the send hits a closed channel, and panics, if and only if one
        of them closed that connection. */
    method PickThenSend(ev: Event, conn: WsConn, calls: seq<Call>) returns (panics: bool)
      requires Valid() && ev.topic in topicConns && conn in topicConns[ev.topic]
      requires ClosesLast(calls) && forall c :: c in Callers(calls) ==> !c.closed
      modifies this, events`topics, events.bus, Callers(calls)`closed, conn`sent
      ensures Valid() && panics == (Close(conn) in calls)
      ensures conn.sent == old(conn.sent) + if panics then [] else [ev]
    {
      PickedIsOpen(conn, ev.topic);
      Serve(calls);
      panics := conn.closed;
      if !panics {
        conn.Send(ev);
      }
    }

    /** One event through both levels, behind whatever is queued: the queue takes a copy for each section of
        the topic that any connection holds, as far as it has room, and every connection gets those of the
        queued events and copies that are of its own topics, in order. */
    method PublishAndForward(ev: Event)
      requires Valid() && events.bus.Open()
      modifies events, connTopics.Keys, AllSubs(events.bus.topicSubs)
      ensures Valid() && events.bus.Open() && events.events == []
      ensures var queue := old(events.events);
        var copies := Copies(ev, Min(Hits(Sections(ev.topic), events.topics), MAX_EVENTS - |queue|));
        forall conn :: conn in connTopics ==> conn.sent == old(conn.sent) + Concerning(queue + copies, connTopics[conn])
      ensures old(events.events) == [] ==> forall conn :: conn in connTopics ==>
        conn.sent == old(conn.sent) + Copies(ev, TimesDelivered(ev.topic, connTopics[conn], events.topics))
    {
      Queue(ev);
      ForwardAll();
      ConcerningOnly(ev, Min(Hits(Sections(ev.topic), events.topics), MAX_EVENTS));
    }

    /** What Publish leaves in the queue of the shared subscriber. */
    method Queue(ev: Event)
      requires Valid() && events.bus.Open()
      modifies AllSubs(events.bus.topicSubs)
      ensures Valid() && events.bus.Open() && events.topics == old(events.topics)
      ensures events.events == old(events.events)
        + Copies(ev, Min(Hits(Sections(ev.topic), events.topics), MAX_EVENTS - |old(events.events)|))
    {
      events.bus.Publish(ev);
      if events !in AllSubs(events.bus.topicSubs) {
        HitsCountSections(ev.topic, events.topics);
        assert (set s | s in events.topics && IsSection(s, ev.topic)) == {};
      }
      hide Hits;
      hide Sections;
    }
  }

  lemma ConcerningOnly(ev: Event, n: nat)
    ensures forall topics :: Concerning([] + Copies(ev, n), topics) == Copies(ev, if ev.topic in topics then n else 0)
  {
    assert [] + Copies(ev, n) == Copies(ev, n);
    forall topics
      ensures Concerning(Copies(ev, n), topics) == Copies(ev, if ev.topic in topics then n else 0)
    {
      ConcerningCopies(ev, n, topics);
    }
  }

  lemma ConcerningOne(ev: Event)
    ensures forall topics :: Concerning([ev], topics) == if ev.topic in topics then [ev] else []
  {
    assert [ev][1..] == [];
  }

  lemma ConcerningCons(events: seq<Event>, topics: set<Topic>)
    requires events != []
    ensures Concerning(events, topics) == Concerning([events[0]], topics) + Concerning(events[1..], topics)
  {
    ConcerningOne(events[0]);
  }

  lemma AddedByTopic(m: map<Topic, set<WsConn>>, topic: Topic, conns: set<WsConn>, conn: WsConn)
    requires conns == if topic in m then m[topic] else {}
    ensures ByTopic(m[topic := conns + {conn}]) == ByTopic(m) + {(conn, topic)}
  {
    var after := ByTopic(m[topic := conns + {conn}]);
    assert forall p :: p in after <==> p in ByTopic(m) || p == (conn, topic);
  }

  lemma RemovedByTopic(m: map<Topic, set<WsConn>>, after: map<Topic, set<WsConn>>, topic: Topic, conn: WsConn)
    requires after.Keys + {topic} == m.Keys + {topic}
    requires forall t :: t in after && t != topic ==> after[t] == m[t]
    requires (if topic in after then after[topic] else {}) == (if topic in m then m[topic] else {}) - {conn}
    ensures ByTopic(after) == ByTopic(m) - {(conn, topic)}
  {
    forall c, t
      ensures (c, t) in ByTopic(after) <==> (c, t) in ByTopic(m) && (c, t) != (conn, topic)
    {
      if t == topic {
        assert c in (if topic in after then after[topic] else {}) <==> c in (if topic in m then m[topic] else {}) && c != conn;
      } else {
        assert t in after.Keys + {topic} <==> t in m.Keys + {topic};
      }
    }
  }

  lemma RemovedByConn(m: map<WsConn, set<Topic>>, after: map<WsConn, set<Topic>>, conn: WsConn, topic: Topic)
    requires after.Keys + {conn} == m.Keys + {conn}
    requires forall c :: c in after && c != conn ==> after[c] == m[c]
    requires (if conn in after then after[conn] else {}) == (if conn in m then m[conn] else {}) - {topic}
    ensures ByConn(after) == ByConn(m) - {(conn, topic)}
  {
    forall c, t
      ensures (c, t) in ByConn(after) <==> (c, t) in ByConn(m) && (c, t) != (conn, topic)
    {
      if c == conn {
        assert t in (if conn in after then after[conn] else {}) <==> t in (if conn in m then m[conn] else {}) && t != topic;
      } else {
        assert c in after.Keys + {conn} <==> c in m.Keys + {conn};
      }
    }
  }

  function Without(pairs: set<Pair>, conn: WsConn, topics: set<Topic>): set<Pair> {
    set p | p in pairs && !(p.0 == conn && p.1 in topics)
  }

  lemma WithoutConn(m: map<WsConn, set<Topic>>, conn: WsConn)
    ensures ByConn(m - {conn}) == Without(ByConn(m), conn, if conn in m then m[conn] else {})
    ensures ByConn(m - {conn}) == set p | p in ByConn(m) && p.0 != conn
  {
  }

  lemma AddedByConn(m: map<WsConn, set<Topic>>, conn: WsConn, topics: set<Topic>, topic: Topic)
    requires topics == if conn in m then m[conn] else {}
    ensures ByConn(m[conn := topics + {topic}]) == ByConn(m) + {(conn, topic)}
  {
    var after := ByConn(m[conn := topics + {topic}]);
    assert forall p :: p in after <==> p in ByConn(m) || p == (conn, topic);
  }
}
