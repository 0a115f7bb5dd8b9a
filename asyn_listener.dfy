/**
 * RedisAsynListener: a subscriber to the Redis channels `itemChannel` and
 * `valueChannel` that pairs the latest key published on the first with the
 * latest value published on the second and writes the pair into the shared
 * local cache.
 */
module AsynListener {
  import opened Common
  import opened Cache

  const ItemChannel := "itemChannel"
  const ValueChannel := "valueChannel"

  /** One published message as `onMessage` receives it. */
  datatype Message = Message(channel: string, payload: string)

  /** The listener's two buffers, the fields `item` and `value`. */
  datatype Buffers = Buffers(item: Option<string>, value: Option<string>)

  const Empty := Buffers(None, None)

  /** The buffers together with the contents of the shared cache. */
  datatype ListenerState = ListenerState(buffers: Buffers, cache: map<string, string>)

  /** The first half of `onMessage`: the message overwrites the buffer of its channel. */
  function Buffer(b: Buffers, m: Message): Buffers
  {
    if m.channel == ItemChannel then b.(item := Some(m.payload))
    else if m.channel == ValueChannel then b.(value := Some(m.payload))
    else b
  }

  /** The guard of the write: both buffers non-null and non-empty. */
  predicate Paired(b: Buffers)
  {
    b.item.Some? && b.item.value != "" && b.value.Some? && b.value.value != ""
  }

  /** One call of `onMessage`, as a function of the state before it. */
  function Receive(s: ListenerState, m: Message): (r: ListenerState)
    // A message only ever adds or overwrites cache entries.
    ensures s.cache.Keys <= r.cache.Keys
    // Only the key in the item buffer (after this message) can change.
    ensures forall k :: k in s.cache && Some(k) != Buffer(s.buffers, m).item ==> r.cache[k] == s.cache[k]
    ensures forall k :: k in r.cache && Some(k) != Buffer(s.buffers, m).item ==> k in s.cache
    // When both buffers hold a non-empty text, the pair is written and both buffers are cleared.
    ensures Paired(Buffer(s.buffers, m)) ==>
              r.buffers == Empty
              && r.cache == s.cache[Buffer(s.buffers, m).item.value := Buffer(s.buffers, m).value.value]
    // Otherwise the cache is untouched and the message just sits in its buffer.
    ensures !Paired(Buffer(s.buffers, m)) ==> r.cache == s.cache && r.buffers == Buffer(s.buffers, m)
    // A message on its channel replaces what was buffered there before.
    ensures m.channel == ItemChannel && !Paired(Buffer(s.buffers, m)) ==>
              r.buffers == Buffers(Some(m.payload), s.buffers.value)
    ensures m.channel == ValueChannel && !Paired(Buffer(s.buffers, m)) ==>
              r.buffers == Buffers(s.buffers.item, Some(m.payload))
    // A message on any other channel changes nothing in a state the listener can be in.
    ensures m.channel != ItemChannel && m.channel != ValueChannel && !Paired(s.buffers) ==> r == s
    // An empty message, or a single message after a write, never writes.
    ensures m.payload == "" && !Paired(s.buffers) ==> r.cache == s.cache
    ensures s.buffers == Empty ==> r.cache == s.cache
    // The listener never holds a complete pair between messages.
    ensures !Paired(r.buffers)
  {
    var b := Buffer(s.buffers, m);
    if Paired(b) then ListenerState(Empty, s.cache[b.item.value := b.value.value])
    else ListenerState(b, s.cache)
  }

  /** The state after the messages `ms`, delivered in order. */
  function Replay(s: ListenerState, ms: seq<Message>): (r: ListenerState)
    ensures ms == [] ==> r == s
    ensures |ms| == 1 ==> r == Receive(s, ms[0])
    ensures ms != [] ==> !Paired(r.buffers)
    decreases |ms|
  {
    if ms == [] then s else Receive(Replay(s, ms[..|ms| - 1]), ms[|ms| - 1])
  }

  /** Keys only accumulate: no sequence of messages removes a cache entry. */
  lemma {:induction false} ReplayNeverRemoves(s: ListenerState, ms: seq<Message>)
    ensures s.cache.Keys <= Replay(s, ms).cache.Keys
    decreases |ms|
  {
    if ms != [] {
      ReplayNeverRemoves(s, ms[..|ms| - 1]);
    }
  }

  /**
   * A key that is neither buffered nor ever published on `itemChannel` keeps
   * its cached value, and a key never cached is never added.
   */
  lemma {:induction false} ReplayKeepsUnpublishedKeys(s: ListenerState, ms: seq<Message>, k: string)
    requires s.buffers.item != Some(k)
    requires forall i :: 0 <= i < |ms| && ms[i].channel == ItemChannel ==> ms[i].payload != k
    ensures Replay(s, ms).buffers.item != Some(k)
    ensures k in Replay(s, ms).cache <==> k in s.cache
    ensures k in s.cache ==> Replay(s, ms).cache[k] == s.cache[k]
    decreases |ms|
  {
    if ms != [] {
      ReplayKeepsUnpublishedKeys(s, ms[..|ms| - 1], k);
    }
  }

  /**
   * Of two keys published on `itemChannel` before a value arrives, the first
   * is lost: the value is paired with the second.
   */
  lemma LaterItemWins(cache: map<string, string>, k1: string, k2: string, v: string)
    requires k2 != "" && v != ""
    ensures Replay(ListenerState(Empty, cache),
                   [Message(ItemChannel, k1), Message(ItemChannel, k2), Message(ValueChannel, v)])
            == ListenerState(Empty, cache[k2 := v])
  {
    var s0 := ListenerState(Empty, cache);
    var ms := [Message(ItemChannel, k1), Message(ItemChannel, k2), Message(ValueChannel, v)];
    assert ms[..1][..0] == [] && ms[..2][..1] == ms[..1] && ms[..3][..2] == ms[..2] && ms[..3] == ms;
    assert Replay(s0, ms[..1]) == ListenerState(Buffers(Some(k1), None), cache);
    assert Replay(s0, ms[..2]) == ListenerState(Buffers(Some(k2), None), cache);
  }

  /** The two halves of a pair can arrive in either order. */
  lemma PairingIgnoresOrder(cache: map<string, string>, k: string, v: string)
    requires k != "" && v != ""
    ensures Replay(ListenerState(Empty, cache), [Message(ItemChannel, k), Message(ValueChannel, v)])
            == ListenerState(Empty, cache[k := v])
    ensures Replay(ListenerState(Empty, cache), [Message(ValueChannel, v), Message(ItemChannel, k)])
            == ListenerState(Empty, cache[k := v])
  {
    var s0 := ListenerState(Empty, cache);
    var kv := [Message(ItemChannel, k), Message(ValueChannel, v)];
    var vk := [Message(ValueChannel, v), Message(ItemChannel, k)];
    assert kv[..1][..0] == [] && kv[..2][..1] == kv[..1] && kv[..2] == kv;
    assert vk[..1][..0] == [] && vk[..2][..1] == vk[..1] && vk[..2] == vk;
    assert Replay(s0, kv[..1]) == ListenerState(Buffers(Some(k), None), cache);
    assert Replay(s0, vk[..1]) == ListenerState(Buffers(None, Some(v)), cache);
  }

  /**
   * The static field `single`: one object shared by every listener, so that a
   * flag set by one instance is seen by all.
   */
  class ListenerStatics {
    var single: bool

    constructor ()
      ensures !single
    {
      single := false;
    }
  }

  class RedisAsynListener {
    const cache: LocalCache
    const statics: ListenerStatics
    var item: Option<string>
    var value: Option<string>

    /** The buffers and the shared cache as one value. */
    ghost function State(): ListenerState
      reads this, cache
    {
      ListenerState(Buffers(item, value), cache.entries)
    }

    constructor (cache: LocalCache, statics: ListenerStatics)
      ensures this.cache == cache && this.statics == statics
      ensures item == None && value == None
    {
      this.cache := cache;
      this.statics := statics;
      item := None;
      value := None;
    }

    /** `TinetJedisPubSub.onMessage`, which updates the fields of the enclosing listener. */
    method OnMessage(channel: string, message: string)
      modifies this, cache
      ensures State() == Receive(old(State()), Message(channel, message))
    {
      if channel == ItemChannel {
        item := Some(message);
      } else if channel == ValueChannel {
        value := Some(message);
      }
      if item.Some? && item.value != "" && value.Some? && value.value != "" {
        if cache.ContainsKey(item.value) {
          cache.Replace(item.value, value.value);
        } else {
          cache.Put(item.value, value.value);
        }
        item := None;
        value := None;
      }
    }

    /**
     * `run`: the subscription delivers `messages` and then ends as `end`
     * says. Nothing in this code unsubscribes, so in the running system it
     * ends abruptly: `getResource` throws when no connection can be opened
     * (then no message is delivered), and `subscribe` throws when the
     * connection drops.
     */
    method Run(messages: seq<Message>, end: Completion<()>) returns (r: Completion<()>)
      modifies this, cache
      ensures State() == Replay(old(State()), messages)
      ensures r == end
    {
      for i := 0 to |messages|
        invariant State() == Replay(old(State()), messages[..i])
      {
        assert messages[..i + 1][..i] == messages[..i];
        OnMessage(messages[i].channel, messages[i].payload);
      }
      assert messages[..|messages|] == messages;
      r := end;
    }

    /**
     * `singleThreadListenerAction`: runs the subscription unless some
     * listener's subscription has already returned normally; an exception
     * from `run` escapes before `single` is set, so a later call subscribes again.
     */
    method SingleThreadListenerAction(messages: seq<Message>, end: Completion<()>) returns (r: Completion<()>)
      modifies this, cache, statics
      ensures old(statics.single) ==> State() == old(State()) && statics.single && r == Normal(())
      ensures !old(statics.single) ==> State() == Replay(old(State()), messages) && r == end
      ensures !old(statics.single) ==> (statics.single <==> end.Normal?)
    {
      if !statics.single {
        r := Run(messages, end);
        if r.Abrupt? {
          return;
        }
        statics.single := true;
      } else {
        r := Normal(());
      }
    }
  }
}
