/**
 * What the delivery engine promises, stated over the specification functions
 * of `ListenerPool`: the shape of the registry, provisioning at most once per
 * stream, every listener invoked and acknowledgement exactly when all of them
 * succeeded, claim before read, and every registered stream polled.
 */
module PoolProperties {
  import opened Wrappers
  import opened Naming
  import opened RedisStreams
  import opened ListenerPool

  // ---------------------------------------------------------------------------
  // Views of a record of calls

  /** The handler calls of a record of calls, in order. */
  function Handles(calls: seq<Call>): seq<Call>
  {
    if calls == [] then []
    else Handles(calls[..|calls| - 1]) + (if calls[|calls| - 1].HandleCall? then [calls[|calls| - 1]] else [])
  }

  /** The error handler calls of a record of calls, in order. */
  function Reports(calls: seq<Call>): seq<Call>
  {
    if calls == [] then []
    else Reports(calls[..|calls| - 1]) + (if calls[|calls| - 1].ErrorHandlerCall? then [calls[|calls| - 1]] else [])
  }

  /** The calls recorded in `st'` after those of `st`. */
  function Added(st: StoreState, st': StoreState): seq<Call>
    requires st.calls <= st'.calls
  {
    st'.calls[|st.calls|..]
  }

  lemma AddedIs(st: StoreState, st': StoreState, x: seq<Call>)
    requires st'.calls == st.calls + x
    ensures st.calls <= st'.calls && Added(st, st') == x
  {
  }

  lemma AddedTrans(a: StoreState, b: StoreState, c: StoreState)
    requires a.calls <= b.calls <= c.calls
    ensures Added(a, c) == Added(a, b) + Added(b, c)
  {
  }

  /** One `group_exists?` call per stream of `xs`, in order. */
  function ExistsCalls(xs: seq<string>, group: string): seq<Call>
  {
    seq(|xs|, i requires 0 <= i < |xs| => GroupExistsCall(xs[i], group))
  }

  lemma {:induction false} HandlesAppend(a: seq<Call>, b: seq<Call>)
    ensures Handles(a + b) == Handles(a) + Handles(b)
    ensures Reports(a + b) == Reports(a) + Reports(b)
    decreases |b|
  {
    if b != [] {
      var b', x := b[..|b| - 1], b[|b| - 1];
      assert (a + b)[..|a + b| - 1] == a + b';
      assert (a + b)[|a + b| - 1] == x;
      HandlesAppend(a, b');
    } else {
      assert a + b == a;
    }
  }

  // ---------------------------------------------------------------------------
  // The registry

  /** The registry's streams are exactly the streams the listeners name, each once. */
  lemma {:induction false} FirstSeenStreams(ls: seq<Listener>)
    ensures forall s :: s in FirstSeen(ls) <==> exists i :: 0 <= i < |ls| && ls[i].stream == s
    ensures forall i, j :: 0 <= i < j < |FirstSeen(ls)| ==> FirstSeen(ls)[i] != FirstSeen(ls)[j]
  {
    if ls != [] {
      var p := ls[..|ls| - 1];
      FirstSeenStreams(p);
      forall s | exists i :: 0 <= i < |ls| && ls[i].stream == s
        ensures s in FirstSeen(ls)
      {
        var i :| 0 <= i < |ls| && ls[i].stream == s;
        if i < |ls| - 1 {
          assert p[i].stream == s;
        }
      }
      forall s | s in FirstSeen(ls)
        ensures exists i :: 0 <= i < |ls| && ls[i].stream == s
      {
        if s in FirstSeen(p) {
          var i :| 0 <= i < |p| && p[i].stream == s;
          assert ls[i].stream == s;
        } else {
          assert ls[|ls| - 1].stream == s;
        }
      }
    }
  }

  /** Each stream's list holds only listeners of that stream and every one of them. */
  lemma {:induction false} BoundListeners(ls: seq<Listener>, s: string)
    ensures forall j :: 0 <= j < |Bound(ls, s)| ==> Bound(ls, s)[j].stream == s
    ensures forall i :: 0 <= i < |ls| && ls[i].stream == s ==> ls[i] in Bound(ls, s)
  {
    if ls != [] {
      var p := ls[..|ls| - 1];
      BoundListeners(p, s);
      forall i | 0 <= i < |ls| && ls[i].stream == s
        ensures ls[i] in Bound(ls, s)
      {
        if i < |ls| - 1 {
          assert ls[i] == p[i];
        }
      }
    }
  }

  // ---------------------------------------------------------------------------
  // Provisioning consumer groups

  /** `create_and_subscribe_to_stream` creates the group exactly when it was
      missing, answers whether it did, leaves the group existing, and a second
      call only asks. */
  lemma SubscribeOnce(st: StoreState, stream: string, group: string, ctx: Context)
    ensures var first := Subscribe(st, stream, group, ctx);
      && first.result == !HasGroup(st, stream, group, ctx)
      && HasGroup(first.state, stream, group, ctx)
      && first.state.calls == st.calls + [GroupExistsCall(stream, group)]
           + (if first.result then [CreateGroupCall(stream, group)] else [])
      && Subscribe(first.state, stream, group, ctx) == Step(false, Record(first.state, GroupExistsCall(stream, group)))
  {
    var st' := Record(Record(st, GroupExistsCall(stream, group)), CreateGroupCall(stream, group));
    CreatedHasGroup(st', stream, stream, group, ctx);
  }

  /** Subscribing to one stream does not change whether another stream's group exists. */
  lemma SubscribeKeepsOthers(st: StoreState, stream: string, other: string, group: string, ctx: Context)
    requires other != stream
    ensures HasGroup(Subscribe(st, stream, group, ctx).state, other, group, ctx) == HasGroup(st, other, group, ctx)
  {
    var st' := Record(Record(st, GroupExistsCall(stream, group)), CreateGroupCall(stream, group));
    CreatedHasGroup(st', stream, other, group, ctx);
  }

  /** After provisioning `xs`, every stream of `xs` has its group, and every
      other stream's group exists exactly as before. */
  lemma {:induction false} ProvisionEstablishes(st: StoreState, xs: seq<string>, s: string, group: string, ctx: Context)
    ensures st.calls <= Provision(st, xs, group, ctx).calls
    ensures s in xs ==> HasGroup(Provision(st, xs, group, ctx), s, group, ctx)
    ensures s !in xs ==> HasGroup(Provision(st, xs, group, ctx), s, group, ctx) == HasGroup(st, s, group, ctx)
  {
    if xs != [] {
      var prefix, x := xs[..|xs| - 1], xs[|xs| - 1];
      assert xs == prefix + [x];
      var p := Provision(st, prefix, group, ctx);
      ProvisionEstablishes(st, prefix, s, group, ctx);
      SubscribeOnce(p, x, group, ctx);
      if s != x {
        SubscribeKeepsOthers(p, x, s, group, ctx);
      }
    }
  }

  /** Subscribing adds the question and, when the group was missing, its creation. */
  lemma SubscribeAdds(st: StoreState, x: string, group: string, ctx: Context)
    ensures st.calls <= Subscribe(st, x, group, ctx).state.calls
    ensures Added(st, Subscribe(st, x, group, ctx).state)
         == [GroupExistsCall(x, group)] + (if HasGroup(st, x, group, ctx) then [] else [CreateGroupCall(x, group)])
  {
    SubscribeOnce(st, x, group, ctx);
    AddedIs(st, Subscribe(st, x, group, ctx).state,
      [GroupExistsCall(x, group)] + (if HasGroup(st, x, group, ctx) then [] else [CreateGroupCall(x, group)]));
  }

  /** Over distinct streams, provisioning asks about each stream once and
      creates a group for exactly the streams whose group was missing, once. */
  lemma {:induction false} ProvisionCreatesOnce(st: StoreState, xs: seq<string>, group: string, ctx: Context)
    requires forall i, j :: 0 <= i < j < |xs| ==> xs[i] != xs[j]
    ensures st.calls <= Provision(st, xs, group, ctx).calls
    ensures forall s :: multiset(Added(st, Provision(st, xs, group, ctx)))[CreateGroupCall(s, group)]
                      == if s in xs && !HasGroup(st, s, group, ctx) then 1 else 0
    ensures forall s :: multiset(Added(st, Provision(st, xs, group, ctx)))[GroupExistsCall(s, group)]
                      == if s in xs then 1 else 0
  {
    if xs == [] {
      assert Added(st, st) == [];
    } else {
      var prefix, x := xs[..|xs| - 1], xs[|xs| - 1];
      var p := Provision(st, prefix, group, ctx);
      var q := Provision(st, xs, group, ctx);
      assert x !in prefix;
      ProvisionCreatesOnce(st, prefix, group, ctx);
      ProvisionEstablishes(st, prefix, x, group, ctx);
      SubscribeAdds(p, x, group, ctx);
      AddedTrans(st, p, q);
      forall s
        ensures multiset(Added(st, q))[CreateGroupCall(s, group)] == if s in xs && !HasGroup(st, s, group, ctx) then 1 else 0
        ensures multiset(Added(st, q))[GroupExistsCall(s, group)] == if s in xs then 1 else 0
      {
        assert s in xs <==> s in prefix || s == x;
      }
    }
  }

  /** Subscribing to a stream whose group exists only asks. */
  lemma SubscribeExisting(st: StoreState, x: string, group: string, ctx: Context)
    requires HasGroup(st, x, group, ctx)
    ensures Subscribe(st, x, group, ctx).state == Record(st, GroupExistsCall(x, group))
  {
  }

  /** When every stream of `xs` already has its group, provisioning only asks. */
  lemma {:induction false} ProvisionExistingOnlyAsks(st: StoreState, xs: seq<string>, group: string, ctx: Context)
    requires forall s :: s in xs ==> HasGroup(st, s, group, ctx)
    ensures Provision(st, xs, group, ctx) == st.(calls := st.calls + ExistsCalls(xs, group))
  {
    if xs != [] {
      var prefix, x := xs[..|xs| - 1], xs[|xs| - 1];
      var p := st.(calls := st.calls + ExistsCalls(prefix, group));
      assert forall s :: s in prefix ==> s in xs;
      ProvisionExistingOnlyAsks(st, prefix, group, ctx);
      assert HasGroup(p, x, group, ctx) by {
        assert x in xs;
        SameStreamsSameGroups(st, p, x, group, ctx);
      }
      SubscribeExisting(p, x, group, ctx);
      assert Provision(st, xs, group, ctx) == Subscribe(p, x, group, ctx).state;
      assert ExistsCalls(xs, group) == ExistsCalls(prefix, group) + [GroupExistsCall(x, group)];
    }
  }

  /** Whether a group exists depends only on the streams and their groups. */
  lemma SameStreamsSameGroups(a: StoreState, b: StoreState, s: string, group: string, ctx: Context)
    requires a.groups == b.groups && a.entries == b.entries
    ensures HasGroup(a, s, group, ctx) == HasGroup(b, s, group, ctx)
  {
  }

  /** Provisioning is idempotent: the second time, nothing is created and the
      store is left as the first time left it, apart from the questions asked. */
  lemma ProvisionIdempotent(st: StoreState, xs: seq<string>, group: string, ctx: Context)
    ensures var p := Provision(st, xs, group, ctx);
      Provision(p, xs, group, ctx) == p.(calls := p.calls + ExistsCalls(xs, group))
  {
    var p := Provision(st, xs, group, ctx);
    forall s | s in xs
      ensures HasGroup(p, s, group, ctx)
    {
      ProvisionEstablishes(st, xs, s, group, ctx);
    }
    ProvisionExistingOnlyAsks(p, xs, group, ctx);
  }

  // ---------------------------------------------------------------------------
  // Dispatch

  /** Every listener is invoked with the payload, in order, whatever the earlier ones did. */
  lemma {:induction false} EveryListenerInvoked(ls: seq<Listener>, m: Message)
    ensures Handles(InvokeCalls(ls, m)) == Invocations(ls, m)
  {
    if ls == [] {
      assert Invocations(ls, m) == [];
    } else {
      var p, l := ls[..|ls| - 1], ls[|ls| - 1];
      EveryListenerInvoked(p, m);
      var tail := [HandleCall(l.name, m.payload)] + Report(l, m);
      assert InvokeCalls(ls, m) == InvokeCalls(p, m) + tail;
      HandlesAppend(InvokeCalls(p, m), tail);
      InvokedOnce(l, m);
      InvocationsSnoc(ls, m);
      assert Handles(InvokeCalls(ls, m)) == Handles(InvokeCalls(p, m)) + [HandleCall(l.name, m.payload)];
    }
  }

  lemma InvocationsSnoc(ls: seq<Listener>, m: Message)
    requires ls != []
    ensures Invocations(ls, m) == Invocations(ls[..|ls| - 1], m) + [HandleCall(ls[|ls| - 1].name, m.payload)]
  {
  }

  lemma InvokedOnce(l: Listener, m: Message)
    ensures Handles([HandleCall(l.name, m.payload)] + Report(l, m)) == [HandleCall(l.name, m.payload)]
    ensures Reports([HandleCall(l.name, m.payload)] + Report(l, m)) == Report(l, m)
  {
    var h := HandleCall(l.name, m.payload);
    assert [h][..0] == [];
    assert Handles([h]) == [h] && Reports([h]) == [];
    if l.handler(m.payload).Raised? {
      var e := ErrorHandlerCall(m, l.handler(m.payload).error);
      assert Report(l, m) == [e];
      var both := [h, e];
      assert both[..1] == [h];
      assert Handles(both) == Handles([h]) + [];
      assert Reports(both) == Reports([h]) + [e];
    } else {
      assert [h] + Report(l, m) == [h];
    }
  }

  /** The handler calls of invoking every listener of `ls` on `m`, in order. */
  function Invocations(ls: seq<Listener>, m: Message): seq<Call>
  {
    seq(|ls|, i requires 0 <= i < |ls| => HandleCall(ls[i].name, m.payload))
  }

  /** The handler calls of delivering `msgs` one after another to all of `ls`. */
  function BatchInvocations(msgs: seq<Message>, ls: seq<Listener>): seq<Call>
    decreases |msgs|
  {
    if msgs == [] then [] else Invocations(ls, msgs[0]) + BatchInvocations(msgs[1..], ls)
  }

  /** Delivering a batch that no acknowledgement interrupts hands the messages
      to the listeners in the order they came, each to all listeners in turn. */
  lemma {:induction false} MessagesInOrder(st: StoreState, stream: string, msgs: seq<Message>, ls: seq<Listener>, group: string, ctx: Context)
    ensures var r := DeliverAllStep(st, stream, msgs, ls, group, ctx);
      && st.calls <= r.state.calls
      && (r.result.Pass? ==> Handles(Added(st, r.state)) == BatchInvocations(msgs, ls))
    decreases |msgs|
  {
    if msgs == [] {
      assert Added(st, st) == [];
    } else {
      var d := DeliverStep(st, stream, msgs[0], ls, group, ctx);
      DeliverHandles(st, stream, msgs[0], ls, group, ctx);
      if d.result.Pass? {
        MessagesInOrder(d.state, stream, msgs[1..], ls, group, ctx);
        var r := DeliverAllStep(d.state, stream, msgs[1..], ls, group, ctx);
        AddedTrans(st, d.state, r.state);
        HandlesAppend(Added(st, d.state), Added(d.state, r.state));
        assert DeliverAllStep(st, stream, msgs, ls, group, ctx) == r;
        assert BatchInvocations(msgs, ls) == Invocations(ls, msgs[0]) + BatchInvocations(msgs[1..], ls);
        assert Handles(Added(st, r.state)) == Handles(Added(st, d.state)) + Handles(Added(d.state, r.state));
      }
    }
  }

  /** One `deliver_message` calls exactly the handlers of `ls`, in order. */
  lemma DeliverHandles(st: StoreState, stream: string, m: Message, ls: seq<Listener>, group: string, ctx: Context)
    ensures var d := DeliverStep(st, stream, m, ls, group, ctx);
      st.calls <= d.state.calls && Handles(Added(st, d.state)) == Invocations(ls, m)
  {
    DeliverCalls(st, stream, m, ls, group, ctx);
    var ack := if Failed(ls, m.payload) then [] else [AckCall(stream, group, m.id)];
    HandlesAppend(InvokeCalls(ls, m), ack);
    assert Handles(ack) == [] by {
      if ack != [] { assert ack[..0] == []; }
    }
    EveryListenerInvoked(ls, m);
    assert Invocations(ls, m) + [] == Invocations(ls, m);
  }

  /** The error handler runs once for each listener that raised, in listener
      order, each time with the message and that listener's error; only the
      handlers and the error handler are called. */
  lemma {:induction false} EachFailureReported(ls: seq<Listener>, m: Message)
    ensures |Reports(InvokeCalls(ls, m))| == |Raising(ls, m.payload)|
    ensures forall i :: 0 <= i < |Reports(InvokeCalls(ls, m))| ==>
      && Raising(ls, m.payload)[i].handler(m.payload).Raised?
      && Reports(InvokeCalls(ls, m))[i] == ErrorHandlerCall(m, Raising(ls, m.payload)[i].handler(m.payload).error)
    ensures forall c :: c in InvokeCalls(ls, m) ==> c.HandleCall? || c.ErrorHandlerCall?
  {
    if ls != [] {
      var p, l := ls[..|ls| - 1], ls[|ls| - 1];
      EachFailureReported(p, m);
      ReportsStep(ls, m);
      ReportsSnoc(Reports(InvokeCalls(p, m)), Raising(p, m.payload), l, m);
    }
  }

  /** Invoking one more listener adds its handler call and its report, if any. */
  lemma ReportsStep(ls: seq<Listener>, m: Message)
    requires ls != []
    ensures var p, l := ls[..|ls| - 1], ls[|ls| - 1];
      && InvokeCalls(ls, m) == InvokeCalls(p, m) + [HandleCall(l.name, m.payload)] + Report(l, m)
      && Reports(InvokeCalls(ls, m)) == Reports(InvokeCalls(p, m)) + Report(l, m)
  {
    var p, l := ls[..|ls| - 1], ls[|ls| - 1];
    var tail := [HandleCall(l.name, m.payload)] + Report(l, m);
    assert InvokeCalls(ls, m) == InvokeCalls(p, m) + tail;
    HandlesAppend(InvokeCalls(p, m), tail);
    InvokedOnce(l, m);
  }

  /** The pairing of error-handler calls with raising listeners survives one
      more listener. */
  lemma ReportsSnoc(reports: seq<Call>, raised: seq<Listener>, l: Listener, m: Message)
    requires |reports| == |raised|
    requires forall i :: 0 <= i < |reports| ==>
      raised[i].handler(m.payload).Raised? && reports[i] == ErrorHandlerCall(m, raised[i].handler(m.payload).error)
    ensures var rs, ra := reports + Report(l, m), raised + (if l.handler(m.payload).Raised? then [l] else []);
      && |rs| == |ra|
      && forall i :: 0 <= i < |rs| ==> ra[i].handler(m.payload).Raised? && rs[i] == ErrorHandlerCall(m, ra[i].handler(m.payload).error)
  {
    if l.handler(m.payload).Raised? {
      assert Report(l, m) == [ErrorHandlerCall(m, l.handler(m.payload).error)];
    } else {
      assert Report(l, m) == [];
    }
  }

  /** The failure flag is set exactly when some listener raised. */
  lemma {:induction false} FailedIffSomeRaised(ls: seq<Listener>, p: Payload)
    ensures Failed(ls, p) <==> Raising(ls, p) != []
    ensures Failed(ls, p) <==> exists i :: 0 <= i < |ls| && ls[i].handler(p).Raised?
  {
    if ls != [] {
      var prefix := ls[..|ls| - 1];
      FailedIffSomeRaised(prefix, p);
      if exists i :: 0 <= i < |ls| && ls[i].handler(p).Raised? {
        var i :| 0 <= i < |ls| && ls[i].handler(p).Raised?;
        if i < |prefix| {
          assert prefix[i] == ls[i];
        }
      }
      if exists i :: 0 <= i < |prefix| && prefix[i].handler(p).Raised? {
        var i :| 0 <= i < |prefix| && prefix[i].handler(p).Raised?;
        assert ls[i] == prefix[i];
      }
    }
  }

  /** The pending-entries list of `stream`'s group in `st`. */
  function PendingOf(st: StoreState, stream: string, group: string, ctx: Context): map<MessageId, string>
  {
    CursorOf(st, StreamName(stream, ctx.suffix), GroupName(stream, group, ctx.suffix)).pending
  }

  /** One `deliver_message` records the listeners' calls, then the
      acknowledgement unless one of them failed. */
  lemma DeliverCalls(st: StoreState, stream: string, m: Message, ls: seq<Listener>, group: string, ctx: Context)
    ensures var d := DeliverStep(st, stream, m, ls, group, ctx);
      && st.calls <= d.state.calls
      && Added(st, d.state) == InvokeCalls(ls, m) + (if Failed(ls, m.payload) then [] else [AckCall(stream, group, m.id)])
  {
    var d := DeliverStep(st, stream, m, ls, group, ctx);
    AddedIs(st, d.state, InvokeCalls(ls, m) + (if Failed(ls, m.payload) then [] else [AckCall(stream, group, m.id)]));
  }

  /** One `deliver_message` leaves the streams and their groups alone. */
  lemma DeliverKeepsStreams(st: StoreState, stream: string, m: Message, ls: seq<Listener>, group: string, ctx: Context)
    ensures var d := DeliverStep(st, stream, m, ls, group, ctx);
      d.state.groups == st.groups && d.state.entries == st.entries
  {
  }

  /** A failed delivery returns normally and changes nothing but the record of calls. */
  lemma DeliverFailedKeepsStore(st: StoreState, stream: string, m: Message, ls: seq<Listener>, group: string, ctx: Context)
    requires Failed(ls, m.payload)
    ensures var d := DeliverStep(st, stream, m, ls, group, ctx);
      d.result == Pass && d.state == st.(calls := d.state.calls)
  {
  }

  /** A successful delivery returns normally exactly when the id was pending,
      and removes just that id from the pending list. */
  lemma DeliverAcknowledges(st: StoreState, stream: string, m: Message, ls: seq<Listener>, group: string, ctx: Context)
    requires !Failed(ls, m.payload)
    ensures var d := DeliverStep(st, stream, m, ls, group, ctx);
      && (d.result.Pass? <==> m.id in PendingOf(st, stream, group, ctx))
      && PendingOf(d.state, stream, group, ctx) == PendingOf(st, stream, group, ctx) - {m.id}
  {
  }

  /** `deliver_message` acknowledges the message exactly once when no listener
      raised and never when one did, and acknowledges nothing else. */
  lemma DeliverAcksIffAllSucceed(st: StoreState, stream: string, m: Message, ls: seq<Listener>, group: string, ctx: Context)
    ensures var d := DeliverStep(st, stream, m, ls, group, ctx);
      && st.calls <= d.state.calls
      && multiset(Added(st, d.state))[AckCall(stream, group, m.id)] == (if Failed(ls, m.payload) then 0 else 1)
      && (forall c :: c in Added(st, d.state) && c.AckCall? ==> c == AckCall(stream, group, m.id))
  {
    DeliverCalls(st, stream, m, ls, group, ctx);
    EachFailureReported(ls, m);
    OnlyAck(InvokeCalls(ls, m), !Failed(ls, m.payload), AckCall(stream, group, m.id));
  }

  /** Appending at most the one acknowledgement `a` to calls with no acknowledgement. */
  lemma OnlyAck(calls: seq<Call>, acked: bool, a: Call)
    requires forall c :: c in calls ==> !c.AckCall?
    requires a.AckCall?
    ensures multiset(calls + (if acked then [a] else []))[a] == if acked then 1 else 0
    ensures forall c :: c in calls + (if acked then [a] else []) && c.AckCall? ==> c == a
  {
    assert multiset(calls)[a] == 0;
  }

  /** Delivering a batch never changes the streams or their groups. */
  lemma {:induction false} DeliverAllKeepsStreams(st: StoreState, stream: string, msgs: seq<Message>, ls: seq<Listener>, group: string, ctx: Context)
    ensures var r := DeliverAllStep(st, stream, msgs, ls, group, ctx);
      && st.calls <= r.state.calls
      && r.state.groups == st.groups && r.state.entries == st.entries
    decreases |msgs|
  {
    if msgs != [] {
      var d := DeliverStep(st, stream, msgs[0], ls, group, ctx);
      DeliverCalls(st, stream, msgs[0], ls, group, ctx);
      DeliverKeepsStreams(st, stream, msgs[0], ls, group, ctx);
      if d.result.Pass? {
        DeliverAllKeepsStreams(d.state, stream, msgs[1..], ls, group, ctx);
      }
    }
  }

  /** Delivering a batch only invokes handlers, the error handler and acknowledgements. */
  lemma {:induction false} DeliverAllCalls(st: StoreState, stream: string, msgs: seq<Message>, ls: seq<Listener>, group: string, ctx: Context)
    ensures var r := DeliverAllStep(st, stream, msgs, ls, group, ctx);
      && st.calls <= r.state.calls
      && (forall c :: c in Added(st, r.state) ==> c.HandleCall? || c.ErrorHandlerCall? || c.AckCall?)
    decreases |msgs|
  {
    if msgs != [] {
      var d := DeliverStep(st, stream, msgs[0], ls, group, ctx);
      DeliverCallKinds(st, stream, msgs[0], ls, group, ctx);
      if d.result.Pass? {
        var r := DeliverAllStep(d.state, stream, msgs[1..], ls, group, ctx);
        DeliverAllCalls(d.state, stream, msgs[1..], ls, group, ctx);
        AddedTrans(st, d.state, r.state);
        assert DeliverAllStep(st, stream, msgs, ls, group, ctx) == r;
      } else {
        assert DeliverAllStep(st, stream, msgs, ls, group, ctx) == d;
      }
    }
  }

  lemma DeliverCallKinds(st: StoreState, stream: string, m: Message, ls: seq<Listener>, group: string, ctx: Context)
    ensures var d := DeliverStep(st, stream, m, ls, group, ctx);
      && st.calls <= d.state.calls
      && (forall c :: c in Added(st, d.state) ==> c.HandleCall? || c.ErrorHandlerCall? || c.AckCall?)
  {
    DeliverCalls(st, stream, m, ls, group, ctx);
    EachFailureReported(ls, m);
  }

  /** When every listener raises on every message, nothing is acknowledged and
      the store is left as it was: every message stays pending. */
  lemma {:induction false} AlwaysFailingNeverAcks(st: StoreState, stream: string, msgs: seq<Message>, ls: seq<Listener>, group: string, ctx: Context)
    requires forall m :: m in msgs ==> Failed(ls, m.payload)
    ensures var r := DeliverAllStep(st, stream, msgs, ls, group, ctx);
      && r.result == Pass
      && st.calls <= r.state.calls
      && r.state == st.(calls := r.state.calls)
      && (forall c :: c in Added(st, r.state) ==> !c.AckCall?)
    decreases |msgs|
  {
    if msgs != [] {
      var d := DeliverStep(st, stream, msgs[0], ls, group, ctx);
      FailedDeliveryNoAck(st, stream, msgs[0], ls, group, ctx);
      assert forall m :: m in msgs[1..] ==> m in msgs;
      var r := DeliverAllStep(d.state, stream, msgs[1..], ls, group, ctx);
      AlwaysFailingNeverAcks(d.state, stream, msgs[1..], ls, group, ctx);
      AddedTrans(st, d.state, r.state);
      assert DeliverAllStep(st, stream, msgs, ls, group, ctx) == r;
    }
  }

  /** A delivery on which some listener raised returns normally, acknowledges
      nothing and changes nothing but the record of calls. */
  lemma FailedDeliveryNoAck(st: StoreState, stream: string, m: Message, ls: seq<Listener>, group: string, ctx: Context)
    requires Failed(ls, m.payload)
    ensures var d := DeliverStep(st, stream, m, ls, group, ctx);
      && d.result == Pass
      && st.calls <= d.state.calls
      && d.state == st.(calls := d.state.calls)
      && (forall c :: c in Added(st, d.state) ==> !c.AckCall?)
  {
    DeliverCalls(st, stream, m, ls, group, ctx);
    DeliverFailedKeepsStore(st, stream, m, ls, group, ctx);
    EachFailureReported(ls, m);
  }

  /** A batch acknowledges only ids of its own messages. */
  lemma {:induction false} DeliverAllAcksOnly(st: StoreState, stream: string, msgs: seq<Message>, ls: seq<Listener>, group: string, ctx: Context, id: MessageId)
    requires forall m :: m in msgs ==> m.id != id
    ensures var r := DeliverAllStep(st, stream, msgs, ls, group, ctx);
      st.calls <= r.state.calls && AckCall(stream, group, id) !in Added(st, r.state)
    decreases |msgs|
  {
    if msgs != [] {
      var d := DeliverStep(st, stream, msgs[0], ls, group, ctx);
      DeliverAcksIffAllSucceed(st, stream, msgs[0], ls, group, ctx);
      if d.result.Pass? {
        assert forall m :: m in msgs[1..] ==> m in msgs;
        var r := DeliverAllStep(d.state, stream, msgs[1..], ls, group, ctx);
        DeliverAllAcksOnly(d.state, stream, msgs[1..], ls, group, ctx, id);
        AddedTrans(st, d.state, r.state);
        assert DeliverAllStep(st, stream, msgs, ls, group, ctx) == r;
      } else {
        assert DeliverAllStep(st, stream, msgs, ls, group, ctx) == d;
      }
    }
  }

  /** When no listener raises and every message is pending under its own id,
      the batch returns normally and every message leaves the pending list. */
  lemma {:induction false} AlwaysSucceedingClearsPending(st: StoreState, stream: string, msgs: seq<Message>, ls: seq<Listener>, group: string, ctx: Context)
    requires forall m :: m in msgs ==> !Failed(ls, m.payload)
    requires forall i, j :: 0 <= i < j < |msgs| ==> msgs[i].id != msgs[j].id
    requires forall m :: m in msgs ==> m.id in PendingOf(st, stream, group, ctx)
    ensures var r := DeliverAllStep(st, stream, msgs, ls, group, ctx);
      && r.result == Pass
      && PendingOf(r.state, stream, group, ctx).Keys == PendingOf(st, stream, group, ctx).Keys - (set m | m in msgs :: m.id)
    decreases |msgs|
  {
    if msgs != [] {
      var d := DeliverStep(st, stream, msgs[0], ls, group, ctx);
      DeliverAcknowledges(st, stream, msgs[0], ls, group, ctx);
      RestOfBatch(msgs, ls, PendingOf(st, stream, group, ctx), PendingOf(d.state, stream, group, ctx));
      AlwaysSucceedingClearsPending(d.state, stream, msgs[1..], ls, group, ctx);
    } else {
      assert (set m | m in msgs :: m.id) == {};
    }
  }

  /** When no listener raises and every message is pending under its own id,
      each message is acknowledged exactly once. */
  lemma {:induction false} AlwaysSucceedingAcksEach(st: StoreState, stream: string, msgs: seq<Message>, ls: seq<Listener>, group: string, ctx: Context)
    requires forall m :: m in msgs ==> !Failed(ls, m.payload)
    requires forall i, j :: 0 <= i < j < |msgs| ==> msgs[i].id != msgs[j].id
    requires forall m :: m in msgs ==> m.id in PendingOf(st, stream, group, ctx)
    ensures var r := DeliverAllStep(st, stream, msgs, ls, group, ctx);
      && st.calls <= r.state.calls
      && (forall m :: m in msgs ==> multiset(Added(st, r.state))[AckCall(stream, group, m.id)] == 1)
    decreases |msgs|
  {
    if msgs != [] {
      var m0, rest := msgs[0], msgs[1..];
      assert m0 in msgs;
      var d := DeliverStep(st, stream, m0, ls, group, ctx);
      DeliverAcksIffAllSucceed(st, stream, m0, ls, group, ctx);
      DeliverAcknowledges(st, stream, m0, ls, group, ctx);
      assert d.result.Pass?;
      RestOfBatch(msgs, ls, PendingOf(st, stream, group, ctx), PendingOf(d.state, stream, group, ctx));
      AlwaysSucceedingAcksEach(d.state, stream, rest, ls, group, ctx);
      DeliverAllAcksOnly(d.state, stream, rest, ls, group, ctx, m0.id);
      var r := DeliverAllStep(d.state, stream, rest, ls, group, ctx);
      var first, later := Added(st, d.state), Added(d.state, r.state);
      AddedTrans(st, d.state, r.state);
      AcksJoin(msgs, stream, group, first, later);
    }
  }

  /** Each message of a batch is acknowledged once in `first + later` when the
      head is acknowledged once in `first`, alone, and the tail once each in `later`. */
  lemma AcksJoin(msgs: seq<Message>, stream: string, group: string, first: seq<Call>, later: seq<Call>)
    requires msgs != []
    requires multiset(first)[AckCall(stream, group, msgs[0].id)] == 1
    requires AckCall(stream, group, msgs[0].id) !in later
    requires forall c :: c in first && c.AckCall? ==> c == AckCall(stream, group, msgs[0].id)
    requires forall m :: m in msgs[1..] ==> multiset(later)[AckCall(stream, group, m.id)] == 1
    ensures forall m :: m in msgs ==> multiset(first + later)[AckCall(stream, group, m.id)] == 1
  {
    forall m | m in msgs
      ensures multiset(first + later)[AckCall(stream, group, m.id)] == 1
    {
      AckCountSplit(first, later, AckCall(stream, group, msgs[0].id), AckCall(stream, group, m.id));
      if m != msgs[0] {
        assert m in msgs[1..] by { assert msgs == [msgs[0]] + msgs[1..]; }
      }
    }
  }

  /** Counting acknowledgements across a record that acknowledged only `a0`,
      once, followed by one that never acknowledges `a0`. */
  lemma AckCountSplit(first: seq<Call>, later: seq<Call>, a0: Call, a: Call)
    requires multiset(first)[a0] == 1 && a0 !in later
    requires a.AckCall? && forall c :: c in first && c.AckCall? ==> c == a0
    ensures multiset(first + later)[a] == if a == a0 then 1 else multiset(later)[a]
  {
    if a != a0 {
      assert a !in first;
    }
  }

  /** The hypotheses of `AlwaysSucceedingAcksEach` carry over from a batch to its tail
      once the head's id has left the pending list. */
  lemma RestOfBatch(msgs: seq<Message>, ls: seq<Listener>, pending: map<MessageId, string>, pending': map<MessageId, string>)
    requires msgs != []
    requires forall m :: m in msgs ==> !Failed(ls, m.payload)
    requires forall i, j :: 0 <= i < j < |msgs| ==> msgs[i].id != msgs[j].id
    requires forall m :: m in msgs ==> m.id in pending
    requires pending' == pending - {msgs[0].id}
    ensures forall m :: m in msgs[1..] ==> !Failed(ls, m.payload) && m.id in pending' && m.id != msgs[0].id
    ensures forall i, j :: 0 <= i < j < |msgs[1..]| ==> msgs[1..][i].id != msgs[1..][j].id
    ensures (set m | m in msgs :: m.id) == {msgs[0].id} + (set m | m in msgs[1..] :: m.id)
  {
    var rest := msgs[1..];
    forall m | m in rest
      ensures !Failed(ls, m.payload) && m.id in pending' && m.id != msgs[0].id
    {
      var j :| 0 <= j < |rest| && rest[j] == m;
      assert msgs[j + 1] == m;
    }
    forall i, j | 0 <= i < j < |rest|
      ensures rest[i].id != rest[j].id
    {
      assert rest[i] == msgs[i + 1] && rest[j] == msgs[j + 1];
    }
    assert msgs == [msgs[0]] + rest;
  }

  // ---------------------------------------------------------------------------
  // Polling

  /** Fetching records the claim, then the read exactly when the claim brought
      nothing, which with the group present means nothing was stuck; the
      streams and their groups are left alone. */
  lemma FetchCalls(st: StoreState, stream: string, group: string, ctx: Context)
    requires HasGroup(st, stream, group, ctx)
    ensures var f := FetchStep(st, stream, group, ctx);
      var stuck := CursorOf(st, StreamName(stream, ctx.suffix), GroupName(stream, group, ctx.suffix)).stuck;
      && st.calls <= f.state.calls
      && Added(st, f.state) == [ClaimCall(stream, group)] + (if stuck == [] then [ReadCall(stream, group)] else [])
      && f.state.groups == st.groups && f.state.entries == st.entries
  {
    var f := FetchStep(st, stream, group, ctx);
    var stuck := CursorOf(st, StreamName(stream, ctx.suffix), GroupName(stream, group, ctx.suffix)).stuck;
    AddedIs(st, f.state, [ClaimCall(stream, group)] + (if stuck == [] then [ReadCall(stream, group)] else []));
  }

  /** With the group present, every message a fetch hands out is pending
      afterwards, whether it was claimed or read. */
  lemma FetchedArePending(st: StoreState, stream: string, group: string, ctx: Context)
    requires HasGroup(st, stream, group, ctx)
    ensures var f := FetchStep(st, stream, group, ctx);
      forall m :: m in f.result ==> m.id in PendingOf(f.state, stream, group, ctx)
  {
    var key, name := StreamName(stream, ctx.suffix), GroupName(stream, group, ctx.suffix);
    var c := CursorOf(st, key, name);
    var claimed := ClaimStep(st, stream, group, ctx);
    OwnAssigns(c.pending, c.stuck, Consumer(ctx));
    if c.stuck == [] {
      var c' := CursorOf(claimed.state, key, name);
      assert c'.unread == c.unread;
      OwnAssigns(c'.pending, c'.unread, Consumer(ctx));
    }
  }

  /** When no listener raises and the fetched ids are distinct, `poll_stream`
      returns normally, acknowledges each fetched message exactly once and
      removes every fetched id from the pending list. */
  lemma PollStreamAcksEach(st: StoreState, stream: string, ls: seq<Listener>, group: string, ctx: Context)
    requires HasGroup(st, stream, group, ctx)
    requires forall p :: !Failed(ls, p)
    requires var f := FetchStep(GroupExistsStep(st, stream, group, ctx).state, stream, group, ctx);
      forall i, j :: 0 <= i < j < |f.result| ==> f.result[i].id != f.result[j].id
    ensures var f := FetchStep(GroupExistsStep(st, stream, group, ctx).state, stream, group, ctx);
      var r := PollStreamStep(st, stream, ls, group, ctx);
      && r.result == Pass
      && st.calls <= r.state.calls
      && (forall m :: m in f.result ==> multiset(Added(st, r.state))[AckCall(stream, group, m.id)] == 1)
      && PendingOf(r.state, stream, group, ctx).Keys == PendingOf(f.state, stream, group, ctx).Keys - (set m | m in f.result :: m.id)
  {
    var f := FetchStep(GroupExistsStep(st, stream, group, ctx).state, stream, group, ctx);
    var r := PollStreamStep(st, stream, ls, group, ctx);
    PollStreamDelivers(st, stream, ls, group, ctx);
    if f.result == [] {
      assert (set m | m in f.result :: m.id) == {};
    } else {
      AlwaysSucceedingClearsPending(f.state, stream, f.result, ls, group, ctx);
      AlwaysSucceedingAcksEach(f.state, stream, f.result, ls, group, ctx);
      AddedTrans(st, f.state, r.state);
      forall m | m in f.result
        ensures multiset(Added(st, r.state))[AckCall(stream, group, m.id)] == 1
      {
        AckCountAfter(Added(st, f.state), Added(f.state, r.state), AckCall(stream, group, m.id));
      }
    }
  }

  /** With the group present, `poll_stream` fetches pending messages without
      acknowledging anything, then delivers them as a batch. */
  lemma PollStreamDelivers(st: StoreState, stream: string, ls: seq<Listener>, group: string, ctx: Context)
    requires HasGroup(st, stream, group, ctx)
    ensures var f := FetchStep(GroupExistsStep(st, stream, group, ctx).state, stream, group, ctx);
      && st.calls <= f.state.calls
      && (forall c :: c in Added(st, f.state) ==> !c.AckCall?)
      && (forall m :: m in f.result ==> m.id in PendingOf(f.state, stream, group, ctx))
      && PollStreamStep(st, stream, ls, group, ctx) ==
         if f.result == [] then Step(Pass, f.state) else DeliverAllStep(f.state, stream, f.result, ls, group, ctx)
  {
    var e := GroupExistsStep(st, stream, group, ctx);
    var f := FetchStep(e.state, stream, group, ctx);
    SameStreamsSameGroups(st, e.state, stream, group, ctx);
    FetchedArePending(e.state, stream, group, ctx);
    FetchCalls(e.state, stream, group, ctx);
    AddedIs(st, e.state, [GroupExistsCall(stream, group)]);
    AddedTrans(st, e.state, f.state);
  }

  /** Acknowledgements counted after a head that holds none of them. */
  lemma AckCountAfter(head: seq<Call>, later: seq<Call>, a: Call)
    requires a.AckCall? && forall c :: c in head ==> !c.AckCall?
    ensures multiset(head + later)[a] == multiset(later)[a]
  {
    assert a !in head;
  }

  /** The calls `poll_stream` makes before delivering, with the group present:
      the question, the claim, and the read when nothing was stuck. */
  function PollHead(st: StoreState, stream: string, group: string, ctx: Context): seq<Call>
  {
    var stuck := CursorOf(st, StreamName(stream, ctx.suffix), GroupName(stream, group, ctx.suffix)).stuck;
    [GroupExistsCall(stream, group), ClaimCall(stream, group)] + (if stuck == [] then [ReadCall(stream, group)] else [])
  }

  /** With the group present, `poll_stream` records its head calls, then only
      handler, error handler and acknowledgement calls. */
  lemma PollStreamShape(st: StoreState, stream: string, ls: seq<Listener>, group: string, ctx: Context)
    requires HasGroup(st, stream, group, ctx)
    ensures var r := PollStreamStep(st, stream, ls, group, ctx);
      && st.calls <= r.state.calls
      && PollHead(st, stream, group, ctx) <= Added(st, r.state)
      && forall i :: |PollHead(st, stream, group, ctx)| <= i < |Added(st, r.state)| ==>
           Added(st, r.state)[i].HandleCall? || Added(st, r.state)[i].ErrorHandlerCall? || Added(st, r.state)[i].AckCall?
  {
    var e := GroupExistsStep(st, stream, group, ctx);
    var f := FetchStep(e.state, stream, group, ctx);
    SameStreamsSameGroups(st, e.state, stream, group, ctx);
    FetchCalls(e.state, stream, group, ctx);
    AddedIs(st, f.state, PollHead(st, stream, group, ctx));
    var r := PollStreamStep(st, stream, ls, group, ctx);
    if f.result != [] {
      DeliverAllCalls(f.state, stream, f.result, ls, group, ctx);
      AddedTrans(st, f.state, r.state);
    } else {
      assert r.state == f.state;
    }
  }

  /** With the group present, `poll_stream` first asks, then claims, and reads
      exactly when there was nothing stuck to claim, at most once. */
  lemma ClaimBeforeRead(st: StoreState, stream: string, ls: seq<Listener>, group: string, ctx: Context)
    requires HasGroup(st, stream, group, ctx)
    ensures var r := PollStreamStep(st, stream, ls, group, ctx);
      && st.calls <= r.state.calls
      && |Added(st, r.state)| >= 2
      && Added(st, r.state)[0] == GroupExistsCall(stream, group)
      && Added(st, r.state)[1] == ClaimCall(stream, group)
      && (ReadCall(stream, group) in Added(st, r.state) <==>
            CursorOf(st, StreamName(stream, ctx.suffix), GroupName(stream, group, ctx.suffix)).stuck == [])
      && multiset(Added(st, r.state))[ReadCall(stream, group)] <= 1
  {
    PollStreamShape(st, stream, ls, group, ctx);
    var r := PollStreamStep(st, stream, ls, group, ctx);
    HeadThenDeliveries(Added(st, r.state), PollHead(st, stream, group, ctx), ReadCall(stream, group));
  }

  /** A record that starts with `head` and continues with deliveries holds the
      read call as often as `head` does. */
  lemma HeadThenDeliveries(calls: seq<Call>, head: seq<Call>, read: Call)
    requires head <= calls && read.ReadCall?
    requires forall i :: |head| <= i < |calls| ==> calls[i].HandleCall? || calls[i].ErrorHandlerCall? || calls[i].AckCall?
    ensures read in calls <==> read in head
    ensures multiset(calls)[read] == multiset(head)[read]
  {
    var rest := calls[|head|..];
    assert calls == head + rest;
    assert read !in rest;
  }

  /** With nothing stuck and nothing new, `poll_stream` invokes no listener and
      acknowledges nothing. */
  lemma NoMessagesNoInvocation(st: StoreState, stream: string, ls: seq<Listener>, group: string, ctx: Context)
    requires var c := CursorOf(st, StreamName(stream, ctx.suffix), GroupName(stream, group, ctx.suffix));
      c.stuck == [] && c.unread == []
    ensures var r := PollStreamStep(st, stream, ls, group, ctx);
      && r.result == Pass
      && st.calls <= r.state.calls
      && (forall c :: c in Added(st, r.state) ==> !c.HandleCall? && !c.AckCall?)
  {
    var e := GroupExistsStep(st, stream, group, ctx);
    if e.result {
      SameStreamsSameGroups(st, e.state, stream, group, ctx);
      FetchCalls(e.state, stream, group, ctx);
      var f := FetchStep(e.state, stream, group, ctx);
      assert f.result == [];
      AddedIs(st, f.state, [GroupExistsCall(stream, group), ClaimCall(stream, group), ReadCall(stream, group)]);
    } else {
      AddedIs(st, e.state, [GroupExistsCall(stream, group)]);
    }
  }

  /** `poll_stream` never changes the streams or their groups. */
  lemma PollStreamKeepsGroups(st: StoreState, stream: string, ls: seq<Listener>, group: string, ctx: Context)
    ensures var r := PollStreamStep(st, stream, ls, group, ctx);
      st.calls <= r.state.calls && r.state.groups == st.groups && r.state.entries == st.entries
  {
    var e := GroupExistsStep(st, stream, group, ctx);
    if e.result {
      SameStreamsSameGroups(st, e.state, stream, group, ctx);
      FetchCalls(e.state, stream, group, ctx);
      var f := FetchStep(e.state, stream, group, ctx);
      if f.result != [] {
        DeliverAllKeepsStreams(f.state, stream, f.result, ls, group, ctx);
      }
    }
  }

  /** When every stream of `xs` has its group and no acknowledgement raised,
      every stream of `xs` was claimed from. */
  lemma {:induction false} PollStreamsClaimsEach(st: StoreState, xs: seq<string>, ls: seq<Listener>, group: string, ctx: Context)
    requires forall s :: s in xs ==> HasGroup(st, s, group, ctx)
    ensures var r := PollStreamsStep(st, xs, ls, group, ctx);
      && st.calls <= r.state.calls
      && (r.result.Pass? ==> forall s :: s in xs ==> ClaimCall(s, group) in Added(st, r.state))
    decreases |xs|
  {
    if xs != [] {
      var x, rest := xs[0], xs[1..];
      assert x in xs;
      var r0 := PollStreamStep(st, x, Bound(ls, x), group, ctx);
      PollStreamClaims(st, x, Bound(ls, x), group, ctx);
      if r0.result.Pass? {
        assert xs == [x] + rest;
        forall s | s in rest
          ensures HasGroup(r0.state, s, group, ctx)
        {
          SameStreamsSameGroups(st, r0.state, s, group, ctx);
        }
        PollStreamsClaimsEach(r0.state, rest, ls, group, ctx);
        var r := PollStreamsStep(r0.state, rest, ls, group, ctx);
        AddedTrans(st, r0.state, r.state);
      }
    }
  }

  /** With the group present, `poll_stream` claims and leaves the streams and their groups alone. */
  lemma PollStreamClaims(st: StoreState, stream: string, ls: seq<Listener>, group: string, ctx: Context)
    requires HasGroup(st, stream, group, ctx)
    ensures var r := PollStreamStep(st, stream, ls, group, ctx);
      && st.calls <= r.state.calls
      && ClaimCall(stream, group) in Added(st, r.state)
      && r.state.groups == st.groups && r.state.entries == st.entries
  {
    var r := PollStreamStep(st, stream, ls, group, ctx);
    ClaimBeforeRead(st, stream, ls, group, ctx);
    PollStreamKeepsGroups(st, stream, ls, group, ctx);
    assert Added(st, r.state)[1] == ClaimCall(stream, group);
  }

  /** `poll` claims from every stream some listener is bound to, unless an
      acknowledgement raised. */
  lemma PollVisitsEveryStream(st: StoreState, ls: seq<Listener>, group: string, ctx: Context)
    ensures var r := PollStep(st, ls, group, ctx);
      && st.calls <= r.state.calls
      && (r.result.Pass? ==> forall i :: 0 <= i < |ls| ==> ClaimCall(ls[i].stream, group) in Added(st, r.state))
  {
    var xs := FirstSeen(ls);
    var p := Provision(st, xs, group, ctx);
    forall s | s in xs
      ensures HasGroup(p, s, group, ctx)
    {
      ProvisionEstablishes(st, xs, s, group, ctx);
    }
    ProvisionEstablishes(st, xs, "", group, ctx);
    PollStreamsClaimsEach(p, xs, ls, group, ctx);
    FirstSeenStreams(ls);
    var r := PollStep(st, ls, group, ctx);
    AddedTrans(st, p, r.state);
    forall i | 0 <= i < |ls|
      ensures r.result.Pass? ==> ClaimCall(ls[i].stream, group) in Added(st, r.state)
    {
      assert ls[i].stream in xs;
    }
  }
}
