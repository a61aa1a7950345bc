/**
 The fan-out event bus as one thread sees it while it holds the lock: a map from topics to
 subscriber channels, each with a bounded buffer.
 */
module Bus {
  const BUFFER_SIZE := 16

  class Channel<T> {
    var buf: seq<T>
    var closed: bool

    constructor ()
      ensures buf == [] && !closed
    {
      buf := [];
      closed := false;
    }

    /** A send on a closed channel panics, so it has to be open. */
    method TrySend(data: T)
      requires !closed
      modifies this`buf
      ensures buf == Offered(old(buf), data)
    {
      if |buf| < BUFFER_SIZE {
        buf := buf + [data];
      }
    }

    /** Closing a closed channel panics. */
    method Close()
      requires !closed
      modifies this`closed
      ensures closed
    {
      closed := true;
    }
  }

  /** A full buffer drops the event. */
  function Offered<T>(buf: seq<T>, data: T): seq<T> {
    if |buf| < BUFFER_SIZE then buf + [data] else buf
  }

  /** A list without the first occurrence of `x`. */
  function Remove<T(==)>(s: seq<T>, x: T): seq<T> {
    if s == [] then [] else if s[0] == x then s[1..] else [s[0]] + Remove(s[1..], x)
  }

  /** The subscriber map without `x` below `topic`; an emptied topic is dropped. */
  function Without<T(==)>(m: map<string, seq<T>>, topic: string, x: T): map<string, seq<T>> {
    if topic !in m then m
    else
      var rest := Remove(m[topic], x);
      if rest == [] then m - {topic} else m[topic := rest]
  }

  /** No list is empty, and no channel occurs twice. */
  ghost predicate Shape<T>(m: map<string, seq<T>>) {
    && (forall t | t in m :: m[t] != [])
    && (forall t, i, u, j | t in m && 0 <= i < |m[t]| && u in m && 0 <= j < |m[u]| :: m[t][i] == m[u][j] ==> t == u && i == j)
  }

  lemma {:induction false} RemoveAt<T>(s: seq<T>, i: nat)
    requires i < |s| && s[i] !in s[..i]
    ensures Remove(s, s[i]) == s[..i] + s[i + 1..]
  {
    if i > 0 {
      assert s[..i][0] == s[0];
      assert s[1..][..i - 1] == s[..i][1..];
      RemoveAt(s[1..], i - 1);
    }
  }

  lemma WithoutShape<T>(m: map<string, seq<T>>, topic: string, i: nat)
    requires Shape(m) && topic in m && i < |m[topic]|
    ensures var w, s := Without(m, topic, m[topic][i]), m[topic];
            && w == (if |s| == 1 then m - {topic} else m[topic := s[..i] + s[i + 1..]])
            && Shape(w)
            && forall t, j | t in w && 0 <= j < |w[t]| :: w[t][j] != s[i] && t in m && w[t][j] in m[t]
  {
    var s := m[topic];
    RemoveAt(s, i);
    var rest := s[..i] + s[i + 1..];
    assert forall j | 0 <= j < |rest| :: rest[j] == s[if j < i then j else j + 1];
  }

  class EventBus<T> {
    var subscribers: map<string, seq<Channel<T>>>

    function Subs(topic: string): seq<Channel<T>>
      reads this
    {
      if topic in subscribers then subscribers[topic] else []
    }

    /** Every channel in the map is open and occurs once, in one topic; no topic has an empty
        list. */
    ghost predicate Valid()
      reads this, Channels()
    {
      Shape(subscribers) && forall t, i | t in subscribers && 0 <= i < |subscribers[t]| :: !subscribers[t][i].closed
    }

    ghost function Channels(): set<Channel<T>>
      reads this
    {
      set t, i | t in subscribers && 0 <= i < |subscribers[t]| :: subscribers[t][i]
    }

    constructor ()
      ensures Valid() && subscribers == map[]
    {
      subscribers := map[];
    }

    method Subscribe(topic: string) returns (ch: Channel<T>)
      requires Valid()
      modifies this
      ensures Valid() && fresh(ch) && ch.buf == [] && !ch.closed
      ensures subscribers == old(subscribers)[topic := old(Subs(topic)) + [ch]]
    {
      ch := new Channel();
      subscribers := subscribers[topic := Subs(topic) + [ch]];
    }

    /** Unsubscribing removes and closes the channel if it is subscribed to this topic; in any
        other case, a second time for one, nothing happens. */
    method Unsubscribe(topic: string, sub: Channel<T>)
      requires Valid()
      modifies this, sub`closed
      ensures Valid()
      ensures sub !in old(Subs(topic)) ==> subscribers == old(subscribers) && sub.closed == old(sub.closed)
      ensures sub in old(Subs(topic)) ==> sub.closed && sub !in Channels() && subscribers == Without(old(subscribers), topic, sub)
    {
      var subs := Subs(topic);
      for i := 0 to |subs|
        invariant sub !in subs[..i]
      {
        if subs[i] == sub {
          var newSubs := subs[..i] + subs[i + 1..];
          WithoutShape(subscribers, topic, i);
          if |newSubs| == 0 {
            subscribers := subscribers - {topic};
          } else {
            subscribers := subscribers[topic := newSubs];
          }
          sub.Close();
          return;
        }
      }
    }

    /** Every subscriber of the topic is offered the event, whatever the others' buffers hold;
        nothing else changes. */
    method Publish(topic: string, data: T)
      requires Valid()
      modifies Subs(topic)`buf
      ensures Valid()
      ensures forall i | 0 <= i < |Subs(topic)| :: Subs(topic)[i].buf == Offered(old(Subs(topic)[i].buf), data)
    {
      var subs := Subs(topic);
      for i := 0 to |subs|
        invariant Valid() && forall k | 0 <= k < |subs| ::
          subs[k].buf == if k < i then Offered(old(subs[k].buf), data) else old(subs[k].buf)
      {
        subs[i].TrySend(data);
      }
    }

    /** Closing closes every channel once and empties the map. */
    method Close()
      requires Valid()
      modifies this, Channels()`closed
      ensures Valid() && subscribers == map[]
      ensures forall c | c in old(Channels()) :: c.closed
    {
      ghost var m := subscribers;
      while subscribers != map[]
        invariant forall t | t in subscribers :: t in m && subscribers[t] == m[t]
        invariant forall t, i | t in m && 0 <= i < |m[t]| :: m[t][i].closed <==> t !in subscribers
        decreases |subscribers|
      {
        var topic :| topic in subscribers;
        var subs := subscribers[topic];
        ghost var rest := subscribers - {topic};
        for i := 0 to |subs|
          invariant topic in subscribers && subscribers - {topic} == rest
          invariant forall t, j | t in m && 0 <= j < |m[t]| :: m[t][j].closed <==> (if t == topic then j < i else t !in rest)
        {
          subs[i].Close();
        }
        subscribers := subscribers - {topic};
      }
    }
  }
}
