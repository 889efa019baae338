/** The in-memory event bus (infra/mem_pubsub): topics, sections and subscribers with bounded queues. */
module PubSub {
  import opened Prelude

  type Topic = string

  datatype Event = Event(topic: Topic, payload: string)

  const MAX_EVENTS := 16

  // ---- Sections of a topic ----

  /** The topic itself, and every proper prefix that ends before a dot. */
  predicate IsSection(s: Topic, topic: Topic) {
    s == topic || (s < topic && topic[|s|] == '.')
  }

  /** What forEachSection calls back with, from position i on. */
  function SectionsFrom(topic: Topic, i: nat): seq<Topic>
    requires i <= |topic|
    decreases |topic| - i
  {
    if i == |topic| then [topic]
    else (if topic[i] == '.' then [topic[..i]] else []) + SectionsFrom(topic, i + 1)
  }

  function Sections(topic: Topic): seq<Topic> {
    SectionsFrom(topic, 0)
  }

  /** Each section comes exactly once, shortest first, and nothing else comes. */
  lemma {:induction false} SectionsFromExact(topic: Topic, i: nat)
    requires i <= |topic|
    ensures forall k :: 0 <= k < |SectionsFrom(topic, i)| ==>
      IsSection(SectionsFrom(topic, i)[k], topic) && |SectionsFrom(topic, i)[k]| >= i
    ensures forall j, k :: 0 <= j < k < |SectionsFrom(topic, i)| ==> |SectionsFrom(topic, i)[j]| < |SectionsFrom(topic, i)[k]|
    decreases |topic| - i
  {
    if i < |topic| {
      SectionsFromExact(topic, i + 1);
    }
  }

  lemma {:induction false} SectionsFromComplete(topic: Topic, i: nat, s: Topic)
    requires i <= |topic| && IsSection(s, topic) && |s| >= i
    ensures s in SectionsFrom(topic, i)
    decreases |topic| - i
  {
    if i < |topic| {
      if |s| == i {
        assert s == topic[..i];
        assert SectionsFrom(topic, i)[0] == s;
      } else {
        SectionsFromComplete(topic, i + 1, s);
      }
    }
  }

  lemma SectionsExact(topic: Topic)
    ensures forall s: Topic :: s in Sections(topic) <==> IsSection(s, topic)
    ensures forall j, k :: 0 <= j < k < |Sections(topic)| ==> |Sections(topic)[j]| < |Sections(topic)[k]|
  {
    SectionsFromExact(topic, 0);
    forall s: Topic | IsSection(s, topic)
      ensures s in Sections(topic)
    {
      SectionsFromComplete(topic, 0, s);
    }
  }

  // ---- Bounded delivery ----

  /** A non-blocking send on a channel with room for 16 events. */
  function Offered(events: seq<Event>, ev: Event): seq<Event> {
    if |events| < MAX_EVENTS then events + [ev] else events
  }

  function OfferedTimes(events: seq<Event>, ev: Event, n: nat): seq<Event> {
    if n == 0 then events else Offered(OfferedTimes(events, ev, n - 1), ev)
  }

  function Copies(ev: Event, n: nat): seq<Event> {
    seq(n, _ => ev)
  }

  lemma {:induction false} OfferedTimesIs(events: seq<Event>, ev: Event, n: nat)
    requires |events| <= 16
    ensures OfferedTimes(events, ev, n) == events + Copies(ev, Min(n, 16 - |events|))
  {
    if n > 0 {
      OfferedTimesIs(events, ev, n - 1);
    }
  }

  /** How many of the sections are in a set of topics. */
  function Hits(sections: seq<Topic>, topics: set<Topic>): nat {
    if |sections| == 0 then 0
    else Hits(sections[..|sections| - 1], topics) + if sections[|sections| - 1] in topics then 1 else 0
  }

  /** Sections are distinct, so the hits count the subscribed sections. */
  lemma HitsCountSections(topic: Topic, topics: set<Topic>)
    ensures Hits(Sections(topic), topics) == |set s | s in topics && IsSection(s, topic)|
  {
    SectionsExact(topic);
    HitsCount(Sections(topic), topics);
    assert (set s | s in topics && IsSection(s, topic)) == HitSet(Sections(topic), topics);
  }

  lemma {:induction false} HitsCount(sections: seq<Topic>, topics: set<Topic>)
    requires forall j, k :: 0 <= j < k < |sections| ==> |sections[j]| < |sections[k]|
    ensures Hits(sections, topics) == |HitSet(sections, topics)|
  {
    if sections == [] {
      assert HitSet(sections, topics) == {};
    } else {
      var rest, last := sections[..|sections| - 1], sections[|sections| - 1];
      HitsCount(rest, topics);
      assert sections == rest + [last];
      HitSetNext(rest, last, topics);
    }
  }

  function HitSet(sections: seq<Topic>, topics: set<Topic>): set<Topic> {
    set s | s in topics && s in sections
  }

  lemma HitSetNext(rest: seq<Topic>, last: Topic, topics: set<Topic>)
    requires last !in rest
    ensures |HitSet(rest + [last], topics)| == |HitSet(rest, topics)| + if last in topics then 1 else 0
  {
    var before := HitSet(rest, topics);
    assert HitSet(rest + [last], topics) == if last in topics then before + {last} else before;
  }

  // ---- The registrations ----

  type Registrations = map<Topic, set<Subscriber>>

  predicate Registered(m: Registrations, topic: Topic, sub: Subscriber) {
    topic in m && sub in m[topic]
  }

  function SubsOf(m: Registrations, topic: Topic): set<Subscriber> {
    if topic in m then m[topic] else {}
  }

  function AllSubs(m: Registrations): set<Subscriber> {
    set t, x | t in m && x in m[t] :: x
  }

  function TopicsOf(m: Registrations, sub: Subscriber): set<Topic> {
    set t | t in m && sub in m[t]
  }

  class Bus {
    var topicSubs: Registrations

    constructor ()
      ensures topicSubs == map[]
    {
      topicSubs := map[];
    }

    method Subscribe(topic: Topic, sub: Subscriber)
      modifies this
      ensures topicSubs == old(topicSubs)[topic := SubsOf(old(topicSubs), topic) + {sub}]
      ensures TopicsOf(topicSubs, sub) == TopicsOf(old(topicSubs), sub) + {topic}
    {
      var subs := {};
      if topic in topicSubs {
        subs := topicSubs[topic];
      }
      topicSubs := topicSubs[topic := subs + {sub}];
    }

    /** The emptied inner map stays. */
    method Unsubscribe(topic: Topic, sub: Subscriber)
      modifies this
      ensures topicSubs == if topic in old(topicSubs) then old(topicSubs)[topic := old(topicSubs)[topic] - {sub}] else old(topicSubs)
      ensures TopicsOf(topicSubs, sub) == TopicsOf(old(topicSubs), sub) - {topic}
    {
      if topic in topicSubs {
        topicSubs := topicSubs[topic := topicSubs[topic] - {sub}];
      }
    }

    /** No queue that may be sent to is closed, and none is overfull. */
    ghost predicate Open()
      reads this, AllSubs(topicSubs)
    {
      forall x :: x in AllSubs(topicSubs) ==> !x.closed && |x.events| <= MAX_EVENTS
    }

    /** Publish: every subscriber is offered the event once for each section of the topic that it has
        subscribed to, and takes what its queue has room for. */
    method Publish(ev: Event)
      requires Open()
      modifies AllSubs(topicSubs)
      ensures Open()
      ensures forall x :: x in AllSubs(topicSubs) ==>
        x.events == old(x.events) + Copies(ev, Min(Hits(Sections(ev.topic), TopicsOf(topicSubs, x)), MAX_EVENTS - |old(x.events)|))
      ensures forall x :: x in AllSubs(topicSubs) ==> x.topics == old(x.topics)
    {
      ghost var sections := Sections(ev.topic);
      ForEachSection(ev.topic, ev);
      forall x | x in AllSubs(topicSubs)
        ensures x.events == old(x.events) + Copies(ev, Min(Hits(sections, TopicsOf(topicSubs, x)), MAX_EVENTS - |old(x.events)|))
      {
        OfferedTimesIs(old(x.events), ev, Hits(sections, TopicsOf(topicSubs, x)));
      }
    }

    /** The loop of forEachSection with the callback that Publish gives it. */
    method ForEachSection(topic: Topic, ev: Event)
      modifies AllSubs(topicSubs)
      ensures forall x :: x in AllSubs(topicSubs) ==>
        && x.events == OfferedTimes(old(x.events), ev, Hits(Sections(topic), TopicsOf(topicSubs, x)))
        && x.topics == old(x.topics) && x.closed == old(x.closed)
    {
      ghost var done: seq<Topic> := [];
      for i := 0 to |topic|
        invariant Sections(topic) == done + SectionsFrom(topic, i)
        invariant forall x :: x in AllSubs(topicSubs) ==>
          && x.events == OfferedTimes(old(x.events), ev, Hits(done, TopicsOf(topicSubs, x)))
          && x.topics == old(x.topics) && x.closed == old(x.closed)
      {
        if topic[i] == '.' {
          Associative(done, [topic[..i]], SectionsFrom(topic, i + 1));
          ghost var were := map x | x in AllSubs(topicSubs) :: x.events;
          SendToSection(topic[..i], ev);
          forall x | x in AllSubs(topicSubs)
            ensures x.events == OfferedTimes(old(x.events), ev, Hits(done + [topic[..i]], TopicsOf(topicSubs, x)))
          {
            OneSectionMore(old(x.events), were[x], x.events, ev, done, topic[..i], TopicsOf(topicSubs, x));
          }
          done := done + [topic[..i]];
        }
      }
      ghost var were := map x | x in AllSubs(topicSubs) :: x.events;
      SendToSection(topic, ev);
      forall x | x in AllSubs(topicSubs)
        ensures x.events == OfferedTimes(old(x.events), ev, Hits(done + [topic], TopicsOf(topicSubs, x)))
      {
        OneSectionMore(old(x.events), were[x], x.events, ev, done, topic, TopicsOf(topicSubs, x));
      }
      hide OfferedTimes;
      hide Hits;
    }

    /** The callback of Publish: a non-blocking send to each subscriber of one section. */
    method SendToSection(section: Topic, ev: Event)
      modifies AllSubs(topicSubs)
      ensures forall x :: x in AllSubs(topicSubs) ==>
        && x.events == (if Registered(topicSubs, section, x) then Offered(old(x.events), ev) else old(x.events))
        && x.topics == old(x.topics) && x.closed == old(x.closed)
    {
      var todo := SubsOf(topicSubs, section);
      while todo != {}
        invariant todo <= SubsOf(topicSubs, section)
        invariant forall x :: x in AllSubs(topicSubs) ==>
          && x.events == (if Registered(topicSubs, section, x) && x !in todo then Offered(old(x.events), ev) else old(x.events))
          && x.topics == old(x.topics) && x.closed == old(x.closed)
        decreases todo
      {
        var sub :| sub in todo;
        assert sub in AllSubs(topicSubs);
        todo := todo - {sub};
        if |sub.events| < MAX_EVENTS {
          sub.events := sub.events + [ev];
        }
      }
    }
  }

  lemma OneSectionMore(events: seq<Event>, now: seq<Event>, next: seq<Event>, ev: Event, done: seq<Topic>, section: Topic, topics: set<Topic>)
    requires now == OfferedTimes(events, ev, Hits(done, topics))
    requires next == if section in topics then Offered(now, ev) else now
    ensures next == OfferedTimes(events, ev, Hits(done + [section], topics))
  {
    HitsAppend(done, section);
    hide Hits;
  }

  lemma HitsAppend(done: seq<Topic>, section: Topic)
    ensures forall topics :: Hits(done + [section], topics) == Hits(done, topics) + if section in topics then 1 else 0
  {
    assert (done + [section])[..|done|] == done;
  }

  class Subscriber {
    const bus: Bus
    var events: seq<Event>
    var topics: set<Topic>
    var closed: bool

    constructor (bus: Bus)
      ensures this.bus == bus && events == [] && topics == {} && !closed
    {
      this.bus, events, topics, closed := bus, [], {}, false;
    }

    /** With one caller, the subscriber's own topics mirror its registrations. */
    ghost predicate Mirrors()
      reads this, bus
    {
      topics == TopicsOf(bus.topicSubs, this)
    }

    method Subscribe(topic: Topic)
      requires Mirrors()
      modifies this`topics, bus
      ensures Mirrors() && topics == old(topics) + {topic}
      ensures bus.topicSubs == old(bus.topicSubs)[topic := SubsOf(old(bus.topicSubs), topic) + {this}]
      ensures old(bus.Open()) && !closed && |events| <= MAX_EVENTS ==> bus.Open()
    {
      bus.Subscribe(topic, this);
      topics := topics + {topic};
    }

    method Unsubscribe(topic: Topic)
      requires Mirrors()
      modifies this`topics, bus
      ensures Mirrors() && topics == old(topics) - {topic}
      ensures old(bus.Open()) ==> bus.Open()
      ensures forall x: Subscriber :: x != this ==> TopicsOf(bus.topicSubs, x) == TopicsOf(old(bus.topicSubs), x)
    {
      bus.Unsubscribe(topic, this);
      topics := topics - {topic};
    }

    /** Read: a closed channel still gives out what is queued. */
    method Read() returns (ev: Option<Event>)
      requires events != [] || closed
      modifies this`events
      ensures old(events) == [] ==> ev.None? && events == []
      ensures old(events) != [] ==> ev == Some(old(events)[0]) && events == old(events)[1..]
    {
      if events == [] {
        return None;
      }
      ev := Some(events[0]);
      events := events[1..];
    }

    /** Close: after it no topic of the bus knows the subscriber, so no later event is sent on the closed
        queue; the other subscribers keep theirs. */
    method Close()
      requires Mirrors()
      modifies this`topics, this`closed, bus
      ensures Mirrors() && topics == {} && closed
      ensures this !in AllSubs(bus.topicSubs)
      ensures old(bus.Open()) ==> bus.Open()
      ensures forall x: Subscriber :: x != this ==> TopicsOf(bus.topicSubs, x) == TopicsOf(old(bus.topicSubs), x)
    {
      var todo := topics;
      while todo != {}
        invariant TopicsOf(bus.topicSubs, this) == todo
        invariant forall x: Subscriber :: x != this ==> TopicsOf(bus.topicSubs, x) == TopicsOf(old(bus.topicSubs), x)
        decreases todo
      {
        var topic :| topic in todo;
        ghost var before := bus.topicSubs;
        bus.Unsubscribe(topic, this);
        assert forall x: Subscriber :: x != this ==> TopicsOf(bus.topicSubs, x) == TopicsOf(before, x);
        todo := todo - {topic};
      }
      topics := {};
      closed := true;
      assert forall t :: t in bus.topicSubs && this in bus.topicSubs[t] ==> t in TopicsOf(bus.topicSubs, this);
      forall x | x in AllSubs(bus.topicSubs)
        ensures x != this && x in AllSubs(old(bus.topicSubs))
      {
        var t :| t in bus.topicSubs && x in bus.topicSubs[t];
        assert t in TopicsOf(bus.topicSubs, x);
        assert t in TopicsOf(old(bus.topicSubs), x);
      }
    }
  }
}
