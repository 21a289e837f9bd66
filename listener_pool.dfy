/**
 * `ListenerPool`: the registry of listeners by stream and the polling loop
 * that claims stuck messages, falls back to reading new ones, hands every
 * message to every listener of its stream and acknowledges it only when all of
 * them succeeded.
 *
 * Each operation is a method that takes the store as a parameter and changes
 * it through the store's own methods; its postcondition equates the result
 * and the store's new state with a specification function on `StoreState`,
 * and the lemmas in `PoolProperties` state what the source promises about
 * those functions.
 */
module ListenerPool {
  import opened Wrappers
  import opened Naming
  import opened RedisStreams

  /** What `handle_event` does with a payload: return normally or raise. */
  datatype HandlerResult = Handled | Raised(error: string)

  /** A listener class: its name, its `stream_name`, and its `handle_event`. */
  datatype Listener = Listener(name: string, stream: string, handler: Payload -> HandlerResult)

  // ---------------------------------------------------------------------------
  // Specification: the registry

  /** The distinct streams of `ls`, in the order the listeners first name them
      (the key order of the Ruby hash `listener_pool` builds). */
  function FirstSeen(ls: seq<Listener>): seq<string>
  {
    if ls == [] then []
    else
      var prior := FirstSeen(ls[..|ls| - 1]);
      var s := ls[|ls| - 1].stream;
      if s in prior then prior else prior + [s]
  }

  /** The listeners of stream `s`, in enumeration order. */
  function Bound(ls: seq<Listener>, s: string): seq<Listener>
  {
    if ls == [] then []
    else Bound(ls[..|ls| - 1], s) + (if ls[|ls| - 1].stream == s then [ls[|ls| - 1]] else [])
  }

  /** `create_and_subscribe_to_stream`: ask whether the group exists and create it only if not. */
  function Subscribe(st: StoreState, stream: string, group: string, ctx: Context): Step<bool>
  {
    var e := GroupExistsStep(st, stream, group, ctx);
    if e.result then Step(false, e.state)
    else Step(true, CreateGroupStep(e.state, stream, group, ctx).state)
  }

  /** Subscribing to each stream of `xs` in turn. */
  function Provision(st: StoreState, xs: seq<string>, group: string, ctx: Context): StoreState
  {
    if xs == [] then st
    else Subscribe(Provision(st, xs[..|xs| - 1], group, ctx), xs[|xs| - 1], group, ctx).state
  }

  // ---------------------------------------------------------------------------
  // Specification: dispatch

  /** The error handler's call, if any, after listener `l` ran on `m`. */
  function Report(l: Listener, m: Message): seq<Call>
  {
    match l.handler(m.payload)
    case Handled => []
    case Raised(e) => [ErrorHandlerCall(m, e)]
  }

  /** The calls `deliver_message` makes while invoking the listeners of `ls`:
      each handler, followed by the error handler when that handler raised. */
  function InvokeCalls(ls: seq<Listener>, m: Message): seq<Call>
  {
    if ls == [] then []
    else
      var l := ls[|ls| - 1];
      InvokeCalls(ls[..|ls| - 1], m) + [HandleCall(l.name, m.payload)] + Report(l, m)
  }

  /** The `listener_failed` flag after invoking every listener of `ls`. */
  predicate Failed(ls: seq<Listener>, p: Payload)
  {
    ls != [] && (Failed(ls[..|ls| - 1], p) || ls[|ls| - 1].handler(p).Raised?)
  }

  /** The listeners of `ls` whose handler raises on `p`. */
  function Raising(ls: seq<Listener>, p: Payload): seq<Listener>
  {
    if ls == [] then []
    else Raising(ls[..|ls| - 1], p) + (if ls[|ls| - 1].handler(p).Raised? then [ls[|ls| - 1]] else [])
  }

  /** `deliver_message`: invoke every listener, then acknowledge unless one raised. */
  function DeliverStep(st: StoreState, stream: string, m: Message, ls: seq<Listener>, group: string, ctx: Context): Step<Outcome<AckError>>
  {
    var st' := st.(calls := st.calls + InvokeCalls(ls, m));
    if Failed(ls, m.payload) then Step(Pass, st')
    else AckStep(st', stream, group, m.id, ctx)
  }

  /** `messages.each { deliver_message }`: an exception from an acknowledgement stops the rest. */
  function DeliverAllStep(st: StoreState, stream: string, msgs: seq<Message>, ls: seq<Listener>, group: string, ctx: Context): Step<Outcome<AckError>>
    decreases |msgs|
  {
    if msgs == [] then Step(Pass, st)
    else
      var d := DeliverStep(st, stream, msgs[0], ls, group, ctx);
      if d.result.Fail? then d else DeliverAllStep(d.state, stream, msgs[1..], ls, group, ctx)
  }

  // ---------------------------------------------------------------------------
  // Specification: polling

  /** Whether a claim answered nil or nothing, so that `poll_stream` reads instead. */
  predicate NothingClaimed(r: Option<seq<Message>>)
  {
    r.None? || r.value == []
  }

  /** The messages `poll_stream` works on: the claimed ones, or, when the claim
      brought nothing, the newly read ones. */
  function FetchStep(st: StoreState, stream: string, group: string, ctx: Context): Step<seq<Message>>
  {
    var c := ClaimStep(st, stream, group, ctx);
    if NothingClaimed(c.result) then ReadStep(c.state, stream, group, ctx) else Step(c.result.value, c.state)
  }

  /** `poll_stream`: nothing without the group; claim, read only when the claim
      brought nothing, and deliver whatever came back, in order. */
  function PollStreamStep(st: StoreState, stream: string, ls: seq<Listener>, group: string, ctx: Context): Step<Outcome<AckError>>
  {
    var e := GroupExistsStep(st, stream, group, ctx);
    if !e.result then Step(Pass, e.state)
    else
      var r := FetchStep(e.state, stream, group, ctx);
      if r.result == [] then Step(Pass, r.state)
      else DeliverAllStep(r.state, stream, r.result, ls, group, ctx)
  }

  /** `poll_stream` for each stream of `xs` in turn, with its bound listeners;
      an exception stops the rest. */
  function PollStreamsStep(st: StoreState, xs: seq<string>, ls: seq<Listener>, group: string, ctx: Context): Step<Outcome<AckError>>
    decreases |xs|
  {
    if xs == [] then Step(Pass, st)
    else
      var r := PollStreamStep(st, xs[0], Bound(ls, xs[0]), group, ctx);
      if r.result.Fail? then r else PollStreamsStep(r.state, xs[1..], ls, group, ctx)
  }

  /** `poll`: rebuild the registry (provisioning groups), then poll every stream of it. */
  function PollStep(st: StoreState, ls: seq<Listener>, group: string, ctx: Context): Step<Outcome<AckError>>
  {
    PollStreamsStep(Provision(st, FirstSeen(ls), group, ctx), FirstSeen(ls), ls, group, ctx)
  }

  /** `pool` and its key order `streams` are the registry of `ls`: the streams
      in first-seen order, each mapped to its listeners in enumeration order. */
  ghost predicate Registered(pool: map<string, seq<Listener>>, streams: seq<string>, ls: seq<Listener>)
  {
    && streams == FirstSeen(ls)
    && (forall s :: s in pool <==> s in streams)
    && (forall s :: s in pool ==> pool[s] == Bound(ls, s))
  }

  /** Adding listener `l` to the registry of `ls` the way `listener_pool` does
      gives the registry of `ls + [l]`. */
  lemma RegisterOne(pool: map<string, seq<Listener>>, streams: seq<string>, ls: seq<Listener>, l: Listener)
    requires Registered(pool, streams, ls)
    ensures var pool' := if l.stream in pool then pool else pool[l.stream := []];
      var streams' := if l.stream in pool then streams else streams + [l.stream];
      Registered(pool'[l.stream := pool'[l.stream] + [l]], streams', ls + [l])
  {
    assert (ls + [l])[..|ls|] == ls;
    if l.stream !in pool {
      BoundEmpty(ls, l.stream);
    }
  }

  /** A stream has listeners in the registry exactly when some listener names it. */
  lemma {:induction false} BoundEmpty(ls: seq<Listener>, s: string)
    ensures Bound(ls, s) == [] <==> s !in FirstSeen(ls)
  {
    if ls != [] {
      BoundEmpty(ls[..|ls| - 1], s);
    }
  }

  /** Invoking the listeners of `ls` up to and including the one at `i`. */
  lemma InvokeNext(ls: seq<Listener>, i: nat, m: Message)
    requires i < |ls|
    ensures Failed(ls[..i + 1], m.payload) == (Failed(ls[..i], m.payload) || ls[i].handler(m.payload).Raised?)
    ensures InvokeCalls(ls[..i + 1], m) == InvokeCalls(ls[..i], m) + [HandleCall(ls[i].name, m.payload)] + Report(ls[i], m)
  {
    assert ls[..i + 1][..i] == ls[..i];
  }

  /** Subscribing to one more stream extends the provisioning by one step. */
  lemma ProvisionSnoc(st: StoreState, xs: seq<string>, x: string, group: string, ctx: Context)
    ensures Provision(st, xs + [x], group, ctx) == Subscribe(Provision(st, xs, group, ctx), x, group, ctx).state
  {
    assert (xs + [x])[..|xs|] == xs;
  }

  // ---------------------------------------------------------------------------
  // The operations

  /** `listener_pool`: groups the listeners by stream and subscribes to each
      stream the first time it is seen. */
  method Registry(store: Store, listeners: seq<Listener>, group: string, ctx: Context)
    returns (streams: seq<string>, pool: map<string, seq<Listener>>)
    modifies store
    ensures Registered(pool, streams, listeners)
    ensures store.Model() == Provision(old(store.Model()), streams, group, ctx)
  {
    streams, pool := [], map[];
    for i := 0 to |listeners|
      invariant Registered(pool, streams, listeners[..i])
      invariant store.Model() == Provision(old(store.Model()), streams, group, ctx)
    {
      var listener := listeners[i];
      var stream := listener.stream;
      assert listeners[..i + 1] == listeners[..i] + [listener];
      RegisterOne(pool, streams, listeners[..i], listener);
      if stream !in pool {
        ghost var before := store.Model();
        var _ := CreateAndSubscribeToStream(store, stream, group, ctx);
        assert store.Model() == Subscribe(before, stream, group, ctx).state;
        ProvisionSnoc(old(store.Model()), streams, stream, group, ctx);
        pool := pool[stream := []];
        streams := streams + [stream];
      }
      pool := pool[stream := pool[stream] + [listener]];
    }
    assert listeners[..|listeners|] == listeners;
  }

  /** `create_and_subscribe_to_stream`: answers whether it created the group. */
  method CreateAndSubscribeToStream(store: Store, stream: string, group: string, ctx: Context) returns (created: bool)
    modifies store
    ensures Step(created, store.Model()) == Subscribe(old(store.Model()), stream, group, ctx)
    ensures created == !HasGroup(old(store.Model()), stream, group, ctx)
  {
    var present := store.GroupExists(stream, group, ctx);
    if !present {
      var o := store.CreateGroup(stream, group, ctx);
      assert o.Pass?;  // the group was just found absent, so no BUSYGROUP error
      return true;
    }
    return false;
  }

  /** `poll`: every stream of the registry, in registry order. */
  method Poll(store: Store, listeners: seq<Listener>, group: string, ctx: Context) returns (o: Outcome<AckError>)
    modifies store
    ensures Step(o, store.Model()) == PollStep(old(store.Model()), listeners, group, ctx)
  {
    var streams, pool := Registry(store, listeners, group, ctx);
    ghost var provisioned := store.Model();
    o := Pass;
    for i := 0 to |streams|
      invariant PollStreamsStep(provisioned, streams, listeners, group, ctx)
             == PollStreamsStep(store.Model(), streams[i..], listeners, group, ctx)
    {
      assert streams[i..][0] == streams[i] && streams[i..][1..] == streams[i + 1..];
      o := PollStream(store, streams[i], pool[streams[i]], group, ctx);
      if o.Fail? {
        return;
      }
    }
    o := Pass;
  }

  /** `poll_stream`. */
  method PollStream(store: Store, stream: string, listeners: seq<Listener>, group: string, ctx: Context) returns (o: Outcome<AckError>)
    modifies store
    ensures Step(o, store.Model()) == PollStreamStep(old(store.Model()), stream, listeners, group, ctx)
    ensures !HasGroup(old(store.Model()), stream, group, ctx) ==>
      o == Pass && store.Model() == Record(old(store.Model()), GroupExistsCall(stream, group))
  {
    var present := store.GroupExists(stream, group, ctx);
    if !present {
      return Pass;
    }
    var messages: seq<Message>;
    var claimed := store.ClaimNextStuckMessage(stream, group, ctx);
    if claimed.None? || claimed.value == [] {
      messages := store.ReadNextMessages(stream, group, ctx);
    } else {
      messages := claimed.value;
    }
    if messages == [] {
      return Pass;
    }
    ghost var before := store.Model();
    o := Pass;
    for i := 0 to |messages|
      invariant DeliverAllStep(before, stream, messages, listeners, group, ctx)
             == DeliverAllStep(store.Model(), stream, messages[i..], listeners, group, ctx)
    {
      assert messages[i..][0] == messages[i] && messages[i..][1..] == messages[i + 1..];
      o := DeliverMessage(store, stream, messages[i], listeners, group, ctx);
      if o.Fail? {
        return;
      }
    }
    o := Pass;
  }

  /** `deliver_message`: every listener is invoked, each failure goes to the
      error handler, and the message is acknowledged only when none failed. */
  method DeliverMessage(store: Store, stream: string, message: Message, listeners: seq<Listener>, group: string, ctx: Context)
    returns (o: Outcome<AckError>)
    modifies store
    ensures Step(o, store.Model()) == DeliverStep(old(store.Model()), stream, message, listeners, group, ctx)
  {
    var failed := InvokeAll(store, stream, message, listeners);
    if failed {
      return Pass;
    }
    ghost var invoked := store.Model();
    o := store.MarkProcessed(stream, group, message.id, ctx);
    assert Step(o, store.Model()) == AckStep(invoked, stream, group, message.id, ctx);
  }

  /** The `listeners.each` loop of `deliver_message`: invoke each listener in
      turn, report its failure to the error handler, and raise the
      `listener_failed` flag, without stopping at a failure. */
  method InvokeAll(store: Store, stream: string, message: Message, listeners: seq<Listener>) returns (failed: bool)
    modifies store
    ensures failed == Failed(listeners, message.payload)
    ensures store.Model() == old(store.Model()).(calls := old(store.calls) + InvokeCalls(listeners, message))
  {
    failed := false;
    for i := 0 to |listeners|
      invariant failed == Failed(listeners[..i], message.payload)
      invariant store.groups == old(store.groups) && store.entries == old(store.entries) && store.cursors == old(store.cursors)
      invariant store.calls == old(store.calls) + InvokeCalls(listeners[..i], message)
    {
      InvokeNext(listeners, i, message);
      var r := InvokeListener(store, stream, message, listeners[i]);
      if r.Raised? {
        failed := true;
        store.Note(ErrorHandlerCall(message, r.error));
      }
      assert store.calls == old(store.calls) + InvokeCalls(listeners[..i + 1], message);
    }
    assert listeners[..|listeners|] == listeners;
  }

  /** `invoke_listener`: `handle_event` with the payload `message[1]`. */
  method InvokeListener(store: Store, stream: string, message: Message, listener: Listener) returns (r: HandlerResult)
    modifies store
    ensures r == listener.handler(message.payload)
    ensures store.Model() == Record(old(store.Model()), HandleCall(listener.name, message.payload))
  {
    store.Note(HandleCall(listener.name, message.payload));
    r := listener.handler(message.payload);
  }
}
