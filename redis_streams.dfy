/**
 * `RedisStreams`: the façade over the stream store's X* commands, over an
 * abstract in-memory store.
 *
 * The store keeps, per stream key (the logical stream name after
 * `stream_name`), its log of entries and the names of its consumer groups
 * (what `XINFO GROUPS` lists; only whether a name is listed matters). Per
 * (stream key, group name) it keeps a cursor: the entries appended since the
 * group was created and not yet delivered to it (what `XREADGROUP ... '>'`
 * returns), the pending entries whose idle time makes them claimable, and the
 * pending-entries list (message id → owning consumer). Besides the store's own state, `calls` records, in
 * order, every call the delivery engine makes to its collaborators, so that
 * ordering and "never called" can be stated.
 */
module RedisStreams {
  import opened Wrappers
  import opened Naming

  type MessageId = string

  /** The hash of an entry: event name → data. */
  type Payload = map<string, string>

  /** An entry as reads return it: the pair `[id, payload]`. */
  datatype Message = Message(id: MessageId, payload: Payload)

  /** What the module reads from its surroundings: `Config.suffix`,
      `Socket.gethostname` and `Thread.current.object_id`. */
  datatype Context = Context(suffix: Option<string>, hostname: string, threadId: string)

  /** The consumer this process reads and claims as. */
  function Consumer(ctx: Context): string
  {
    ConsumerName(ctx.hostname, ctx.threadId)
  }

  /** A consumer group's cursor over its stream. */
  datatype GroupState = GroupState(
    unread: seq<Message>,              // appended after creation, not yet delivered
    stuck: seq<Message>,               // pending and idle long enough to be claimed
    pending: map<MessageId, string>)   // delivered, not acknowledged: id → owning consumer

  /** A group created with `$` as its start id sees no earlier entries. */
  const NewGroup := GroupState([], [], map[])

  /** A call the delivery engine makes; the stream and group are the logical
      names passed to `RedisStreams`, as the engine's callers see them. */
  datatype Call =
    | GroupExistsCall(stream: string, group: string)
    | CreateGroupCall(stream: string, group: string)
    | ClaimCall(stream: string, group: string)
    | ReadCall(stream: string, group: string)
    | HandleCall(listener: string, payload: Payload)
    | ErrorHandlerCall(message: Message, error: string)
    | AckCall(stream: string, group: string, id: MessageId)

  /** The abstract value of the store together with the record of calls. */
  datatype StoreState = StoreState(
    groups: map<string, seq<string>>,
    entries: map<string, seq<Message>>,
    cursors: map<(string, string), GroupState>,
    calls: seq<Call>)

  /** A result paired with the state an operation leaves behind. */
  datatype Step<+R> = Step(result: R, state: StoreState)

  /** The reply of `XINFO GROUPS <key>`: an error when the stream does not
      exist, otherwise one line per group, each reduced to its `name` field. */
  datatype XinfoReply = CommandError(message: string) | GroupLines(names: seq<string>)

  /** The exception `mark_processed` raises: stream key, group name, id and the count the store reported. */
  datatype AckError = AckError(stream: string, group: string, id: MessageId, count: int)

  /** The error `XGROUP CREATE` reports for a group that already exists. */
  const BusyGroup := "BUSYGROUP Consumer Group name already exists"

  /** The error `XINFO` reports for a stream that does not exist. */
  const NoSuchKey := "ERR no such key"

  /** The error `XGROUP DESTROY` reports for a stream that does not exist. */
  const NoStream := "ERR The XGROUP subcommand requires the key to exist."

  /** The error `XPENDING` reports for a stream or a group that does not exist. */
  function NoGroup(key: string, name: string): string
  {
    "NOGROUP No such key '" + key + "' or consumer group '" + name + "'"
  }

  /** The reply of `XPENDING <key> <group>`, reduced to its size and the
      consumers that own pending entries. */
  datatype PendingSummary = PendingSummary(size: nat, consumers: set<string>)

  // ---------------------------------------------------------------------------
  // Result checks

  /** Ruby's `lines.any? { |line| line['name'] == name }`. */
  function AnyNamed(names: seq<string>, name: string): (b: bool)
    ensures b <==> exists i :: 0 <= i < |names| && names[i] == name
  {
    if names == [] then false else names[0] == name || AnyNamed(names[1..], name)
  }

  /** `group_exists?` given the store's `XINFO` reply: true exactly when some
      line is named `<stream_name>-<group>`; a command error answers false
      instead of propagating. */
  function GroupExistsIn(reply: XinfoReply, stream: string, group: string, suffix: Option<string>): (b: bool)
    ensures b <==> reply.GroupLines? && GroupName(stream, group, suffix) in reply.names
    ensures reply.CommandError? ==> !b
  {
    match reply
    case CommandError(_) => false
    case GroupLines(names) => AnyNamed(names, GroupName(stream, group, suffix))
  }

  /** `mark_processed`'s check of the count `XACK` reports: return normally on
      exactly one acknowledged entry, raise with the count otherwise. */
  function AckOutcome(key: string, name: string, id: MessageId, count: int): (o: Outcome<AckError>)
    ensures o.Pass? <==> count == 1
    ensures o.Fail? ==> o.error == AckError(key, name, id, count)
  {
    if count == 1 then Pass else Fail(AckError(key, name, id, count))
  }

  /** `result[stream] || []` on a reply of `XREADGROUP`/`XREAD`. */
  function EntriesFor(reply: map<string, seq<Message>>, key: string): seq<Message>
  {
    if key in reply then reply[key] else []
  }

  // ---------------------------------------------------------------------------
  // The store's state and its commands, as functions on StoreState

  function GroupsOf(st: StoreState, key: string): seq<string>
  {
    if key in st.groups then st.groups[key] else []
  }

  function CursorOf(st: StoreState, key: string, name: string): GroupState
  {
    if (key, name) in st.cursors then st.cursors[(key, name)] else NewGroup
  }

  function Xinfo(st: StoreState, key: string): XinfoReply
  {
    if key in st.entries then GroupLines(GroupsOf(st, key)) else CommandError(NoSuchKey)
  }

  /** Whether `group_exists?(stream, group)` answers true in state `st`. */
  function HasGroup(st: StoreState, stream: string, group: string, ctx: Context): bool
  {
    GroupExistsIn(Xinfo(st, StreamName(stream, ctx.suffix)), stream, group, ctx.suffix)
  }

  function Record(st: StoreState, c: Call): StoreState
  {
    st.(calls := st.calls + [c])
  }

  /** `XGROUP CREATE <key> <name> $ MKSTREAM` on a group that does not exist. */
  function Created(st: StoreState, stream: string, group: string, ctx: Context): StoreState
  {
    var key := StreamName(stream, ctx.suffix);
    var name := GroupName(stream, group, ctx.suffix);
    st.(entries := if key in st.entries then st.entries else st.entries[key := []],
        groups := st.groups[key := GroupsOf(st, key) + [name]],
        cursors := st.cursors[(key, name) := NewGroup])
  }

  /** `map id -> consumer` for every id in `msgs`, over `pending`. */
  function Own(pending: map<MessageId, string>, msgs: seq<Message>, consumer: string): map<MessageId, string>
  {
    if msgs == [] then pending
    else Own(pending, msgs[..|msgs| - 1], consumer)[msgs[|msgs| - 1].id := consumer]
  }

  /** The entries handed out become pending for the consumer; every other
      pending entry keeps its owner. */
  lemma {:induction false} OwnAssigns(pending: map<MessageId, string>, msgs: seq<Message>, consumer: string)
    ensures forall id :: id in Own(pending, msgs, consumer) <==> id in pending || exists m :: m in msgs && m.id == id
    ensures forall m :: m in msgs ==> Own(pending, msgs, consumer)[m.id] == consumer
    ensures forall id :: id in pending && (forall m :: m in msgs ==> m.id != id) ==> Own(pending, msgs, consumer)[id] == pending[id]
  {
    if msgs != [] {
      var prefix := msgs[..|msgs| - 1];
      OwnAssigns(pending, prefix, consumer);
      assert forall m :: m in msgs <==> m in prefix || m == msgs[|msgs| - 1];
    }
  }

  /** `group_exists?`, recorded. */
  function GroupExistsStep(st: StoreState, stream: string, group: string, ctx: Context): Step<bool>
  {
    Step(HasGroup(st, stream, group, ctx), Record(st, GroupExistsCall(stream, group)))
  }

  /** `create_group`, recorded: the store refuses a group that already exists. */
  function CreateGroupStep(st: StoreState, stream: string, group: string, ctx: Context): Step<Outcome<string>>
  {
    var st' := Record(st, CreateGroupCall(stream, group));
    if HasGroup(st, stream, group, ctx) then Step(Fail(BusyGroup), st')
    else Step(Pass, Created(st', stream, group, ctx))
  }

  /** `claim_next_stuck_message`, recorded: nil when the group does not exist,
      otherwise the claimable entries, which now belong to this consumer. */
  function ClaimStep(st: StoreState, stream: string, group: string, ctx: Context): Step<Option<seq<Message>>>
  {
    var st' := Record(st, ClaimCall(stream, group));
    var key := StreamName(stream, ctx.suffix);
    var name := GroupName(stream, group, ctx.suffix);
    if name !in GroupsOf(st, key) then Step(None, st')
    else
      var c := CursorOf(st, key, name);
      Step(Some(c.stuck),
           st'.(cursors := st.cursors[(key, name) := c.(stuck := [], pending := Own(c.pending, c.stuck, Consumer(ctx)))]))
  }

  /** The reply of `XREADGROUP GROUP <name> <consumer> STREAMS <key> >`. */
  function ReadReply(st: StoreState, key: string, name: string): map<string, seq<Message>>
  {
    if name in GroupsOf(st, key) && CursorOf(st, key, name).unread != [] then map[key := CursorOf(st, key, name).unread]
    else map[]
  }

  /** `read_next_messages`, recorded: the undelivered entries, which become pending for this consumer. */
  function ReadStep(st: StoreState, stream: string, group: string, ctx: Context): Step<seq<Message>>
  {
    var st' := Record(st, ReadCall(stream, group));
    var key := StreamName(stream, ctx.suffix);
    var name := GroupName(stream, group, ctx.suffix);
    var msgs := EntriesFor(ReadReply(st, key, name), key);
    if msgs == [] then Step([], st')
    else
      var c := CursorOf(st, key, name);
      Step(msgs, st'.(cursors := st.cursors[(key, name) := c.(unread := [], pending := Own(c.pending, msgs, Consumer(ctx)))]))
  }

  /** `msgs` without the entries carrying `id`, order kept. */
  function Unclaimable(msgs: seq<Message>, id: MessageId): (r: seq<Message>)
    ensures forall m :: m in r <==> m in msgs && m.id != id
  {
    if msgs == [] then []
    else (if msgs[0].id == id then [] else [msgs[0]]) + Unclaimable(msgs[1..], id)
  }

  /** `mark_processed`, recorded: `XACK` counts 1 when the id is pending and 0
      otherwise; an acknowledged entry leaves the pending list, and with it the
      entries a claim could take. */
  function AckStep(st: StoreState, stream: string, group: string, id: MessageId, ctx: Context): Step<Outcome<AckError>>
  {
    var st' := Record(st, AckCall(stream, group, id));
    var key := StreamName(stream, ctx.suffix);
    var name := GroupName(stream, group, ctx.suffix);
    var c := CursorOf(st, key, name);
    if id in c.pending then
      Step(AckOutcome(key, name, id, 1),
           st'.(cursors := st.cursors[(key, name) := c.(stuck := Unclaimable(c.stuck, id), pending := c.pending - {id})]))
    else
      Step(AckOutcome(key, name, id, 0), st')
  }

  // ---------------------------------------------------------------------------
  // Properties of the store commands

  /** After creation the group exists, and `group_exists?` of every other
      logical stream answers as before. */
  lemma CreatedHasGroup(st: StoreState, stream: string, other: string, group: string, ctx: Context)
    ensures HasGroup(Created(st, stream, group, ctx), stream, group, ctx)
    ensures other != stream ==>
      HasGroup(Created(st, stream, group, ctx), other, group, ctx) == HasGroup(st, other, group, ctx)
  {
    var key := StreamName(stream, ctx.suffix);
    var name := GroupName(stream, group, ctx.suffix);
    assert GroupsOf(Created(st, stream, group, ctx), key) == GroupsOf(st, key) + [name];
    assert name in GroupsOf(st, key) + [name];
    if other != stream {
      StreamNameInjective(stream, other, ctx.suffix);
    }
  }

  /** Claiming in an existing group hands out exactly its claimable entries,
      which now belong to this consumer, so a second claim finds nothing. */
  lemma ClaimTakesOwnership(st: StoreState, stream: string, group: string, ctx: Context)
    requires GroupName(stream, group, ctx.suffix) in GroupsOf(st, StreamName(stream, ctx.suffix))
    ensures var key, name := StreamName(stream, ctx.suffix), GroupName(stream, group, ctx.suffix);
      var s := ClaimStep(st, stream, group, ctx);
      && s.result == Some(CursorOf(st, key, name).stuck)
      && (forall m :: m in CursorOf(st, key, name).stuck ==>
            m.id in CursorOf(s.state, key, name).pending && CursorOf(s.state, key, name).pending[m.id] == Consumer(ctx))
      && ClaimStep(s.state, stream, group, ctx).result == Some([])
  {
    var key, name := StreamName(stream, ctx.suffix), GroupName(stream, group, ctx.suffix);
    var c := CursorOf(st, key, name);
    OwnAssigns(c.pending, c.stuck, Consumer(ctx));
  }

  /** An acknowledgement succeeds exactly when the id is pending in the
      group, removes it, and a second acknowledgement of the same id raises. */
  lemma AckTwiceRaises(st: StoreState, stream: string, group: string, id: MessageId, ctx: Context)
    ensures var first := AckStep(st, stream, group, id, ctx);
      && (first.result.Pass? <==> id in CursorOf(st, StreamName(stream, ctx.suffix), GroupName(stream, group, ctx.suffix)).pending)
      && AckStep(first.state, stream, group, id, ctx).result == Fail(AckError(StreamName(stream, ctx.suffix), GroupName(stream, group, ctx.suffix), id, 0))
  {
    var key := StreamName(stream, ctx.suffix);
    var name := GroupName(stream, group, ctx.suffix);
    var first := AckStep(st, stream, group, id, ctx);
    assert id !in CursorOf(first.state, key, name).pending;
  }

  /** An acknowledged entry is never handed out again by a claim. */
  lemma AckedNotReclaimed(st: StoreState, stream: string, group: string, id: MessageId, ctx: Context)
    ensures var first := AckStep(st, stream, group, id, ctx);
      var again := ClaimStep(first.state, stream, group, ctx);
      first.result.Pass? ==> (again.result.None? || forall m :: m in again.result.value ==> m.id != id)
  {
  }

  /** The cursors after `XADD` of `m` to `key`: each group in `names` gets
      `m` to read next, with its claimable and pending entries unchanged. */
  function Appended(cs: map<(string, string), GroupState>, key: string, names: seq<string>, m: Message): (r: map<(string, string), GroupState>)
    ensures r.Keys == cs.Keys + (set n | n in names :: (key, n))
    ensures forall n :: n in names ==>
      r[(key, n)] == (if (key, n) in cs then cs[(key, n)] else NewGroup).(unread := (if (key, n) in cs then cs[(key, n)] else NewGroup).unread + [m])
    ensures forall k :: k in cs && !(k.0 == key && k.1 in names) ==> r[k] == cs[k]
  {
    map k | k in cs.Keys + (set n | n in names :: (key, n)) ::
      if k.0 == key && k.1 in names then
        var c := if k in cs then cs[k] else NewGroup; c.(unread := c.unread + [m])
      else cs[k]
  }

  /** Every claimable entry of a group is on its pending-entries list: a claim
      only takes entries that were delivered and never acknowledged. */
  ghost predicate StuckPending(st: StoreState)
  {
    forall k, m :: k in st.cursors && m in st.cursors[k].stuck ==> m.id in st.cursors[k].pending
  }

  /** A change that leaves each group's claimable and pending entries alone,
      or leaves a group nothing to claim, keeps `StuckPending`. */
  lemma SameClaimsKeepStuckPending(st: StoreState, st': StoreState)
    requires StuckPending(st)
    requires forall k :: k in st'.cursors ==>
      || st'.cursors[k].stuck == []
      || (k in st.cursors && st'.cursors[k].stuck == st.cursors[k].stuck && st'.cursors[k].pending == st.cursors[k].pending)
    ensures StuckPending(st')
  {
  }

  /** What `XADD` does to the cursors, over the store's value: each group of
      the stream gets `m` to read next and nothing else changes, so
      `StuckPending` is kept. */
  lemma AppendedFrame(st: StoreState, st': StoreState, key: string, m: Message)
    requires st'.groups == st.groups
    requires st'.cursors == Appended(st.cursors, key, GroupsOf(st, key), m)
    ensures forall n :: n in GroupsOf(st, key) ==>
      CursorOf(st', key, n) == CursorOf(st, key, n).(unread := CursorOf(st, key, n).unread + [m])
    ensures st'.cursors.Keys == st.cursors.Keys + (set n | n in GroupsOf(st, key) :: (key, n))
    ensures forall k :: k in st.cursors && !(k.0 == key && k.1 in GroupsOf(st, key)) ==> k in st'.cursors && st'.cursors[k] == st.cursors[k]
    ensures StuckPending(st) ==> StuckPending(st')
  {
    if StuckPending(st) {
      SameClaimsKeepStuckPending(st, st');
    }
  }

  lemma CreateKeepsStuckPending(st: StoreState, stream: string, group: string, ctx: Context)
    requires StuckPending(st)
    ensures StuckPending(CreateGroupStep(st, stream, group, ctx).state)
  {
  }

  lemma ClaimKeepsStuckPending(st: StoreState, stream: string, group: string, ctx: Context)
    requires StuckPending(st)
    ensures StuckPending(ClaimStep(st, stream, group, ctx).state)
  {
  }

  lemma ReadKeepsStuckPending(st: StoreState, stream: string, group: string, ctx: Context)
    requires StuckPending(st)
    ensures StuckPending(ReadStep(st, stream, group, ctx).state)
  {
    var key, name := StreamName(stream, ctx.suffix), GroupName(stream, group, ctx.suffix);
    var c := CursorOf(st, key, name);
    OwnAssigns(c.pending, EntriesFor(ReadReply(st, key, name), key), Consumer(ctx));
  }

  lemma AckKeepsStuckPending(st: StoreState, stream: string, group: string, id: MessageId, ctx: Context)
    requires StuckPending(st)
    ensures StuckPending(AckStep(st, stream, group, id, ctx).state)
  {
  }

  // ---------------------------------------------------------------------------
  // The store

  class Store {
    var groups: map<string, seq<string>>
    var entries: map<string, seq<Message>>
    var cursors: map<(string, string), GroupState>
    var calls: seq<Call>

    function Model(): StoreState
      reads this
    {
      StoreState(groups, entries, cursors, calls)
    }

    /** An empty store: no streams, no groups, nothing called yet. */
    constructor ()
      ensures Model() == StoreState(map[], map[], map[], [])
    {
      groups, entries, cursors, calls := map[], map[], map[], [];
    }

    /** Records a call that is not a store command (a handler, the error handler). */
    method Note(c: Call)
      modifies this
      ensures Model() == Record(old(Model()), c)
    {
      calls := calls + [c];
    }

    /** `group_exists?`: reads `XINFO GROUPS` and looks for `<stream_name>-<group>`. */
    method GroupExists(stream: string, group: string, ctx: Context) returns (b: bool)
      modifies this
      ensures Step(b, Model()) == GroupExistsStep(old(Model()), stream, group, ctx)
    {
      var key := StreamName(stream, ctx.suffix);
      var info := if key in entries then GroupLines(if key in groups then groups[key] else []) else CommandError(NoSuchKey);
      b := GroupExistsIn(info, stream, group, ctx.suffix);
      calls := calls + [GroupExistsCall(stream, group)];
    }

    /** `create_group`: `XGROUP CREATE <key> <key>-<group> $ MKSTREAM`. */
    method CreateGroup(stream: string, group: string, ctx: Context) returns (o: Outcome<string>)
      modifies this
      ensures Step(o, Model()) == CreateGroupStep(old(Model()), stream, group, ctx)
    {
      var key := StreamName(stream, ctx.suffix);
      var name := GroupName(stream, group, ctx.suffix);
      var present := key in entries && name in (if key in groups then groups[key] else []);
      calls := calls + [CreateGroupCall(stream, group)];
      if present {
        return Fail(BusyGroup);
      }
      if key !in entries {
        entries := entries[key := []];
      }
      groups := groups[key := (if key in groups then groups[key] else []) + [name]];
      cursors := cursors[(key, name) := NewGroup];
      o := Pass;
    }

    /** `claim_next_stuck_message`: claims the group's idle pending entries for this consumer. */
    method ClaimNextStuckMessage(stream: string, group: string, ctx: Context) returns (r: Option<seq<Message>>)
      modifies this
      ensures Step(r, Model()) == ClaimStep(old(Model()), stream, group, ctx)
    {
      var key := StreamName(stream, ctx.suffix);
      var name := GroupName(stream, group, ctx.suffix);
      calls := calls + [ClaimCall(stream, group)];
      if name !in (if key in groups then groups[key] else []) {
        return None;
      }
      var c := if (key, name) in cursors then cursors[(key, name)] else NewGroup;
      cursors := cursors[(key, name) := c.(stuck := [], pending := Own(c.pending, c.stuck, Consumer(ctx)))];
      r := Some(c.stuck);
    }

    /** `read_next_messages`: `XREADGROUP` with `>` as consumer `<hostname>-<thread id>`,
        then `result[stream] || []`. */
    method ReadNextMessages(stream: string, group: string, ctx: Context) returns (msgs: seq<Message>)
      modifies this
      ensures Step(msgs, Model()) == ReadStep(old(Model()), stream, group, ctx)
      ensures var c := CursorOf(old(Model()), StreamName(stream, ctx.suffix), GroupName(stream, group, ctx.suffix));
        msgs == if GroupName(stream, group, ctx.suffix) in GroupsOf(old(Model()), StreamName(stream, ctx.suffix)) then c.unread else []
    {
      var key := StreamName(stream, ctx.suffix);
      var name := GroupName(stream, group, ctx.suffix);
      var reply := ReadReply(Model(), key, name);
      msgs := EntriesFor(reply, key);
      calls := calls + [ReadCall(stream, group)];
      if msgs != [] {
        var c := if (key, name) in cursors then cursors[(key, name)] else NewGroup;
        cursors := cursors[(key, name) := c.(unread := [], pending := Own(c.pending, msgs, Consumer(ctx)))];
      }
    }

    /** `mark_processed`: `XACK`, raising unless exactly one entry was acknowledged. */
    method MarkProcessed(stream: string, group: string, id: MessageId, ctx: Context) returns (o: Outcome<AckError>)
      modifies this
      ensures Step(o, Model()) == AckStep(old(Model()), stream, group, id, ctx)
      ensures o.Pass? <==> id in CursorOf(old(Model()), StreamName(stream, ctx.suffix), GroupName(stream, group, ctx.suffix)).pending
    {
      var key := StreamName(stream, ctx.suffix);
      var name := GroupName(stream, group, ctx.suffix);
      var c := if (key, name) in cursors then cursors[(key, name)] else NewGroup;
      var count := 0;
      if id in c.pending {
        count := 1;
        cursors := cursors[(key, name) := c.(stuck := Unclaimable(c.stuck, id), pending := c.pending - {id})];
      }
      calls := calls + [AckCall(stream, group, id)];
      o := AckOutcome(key, name, id, count);
    }

    /** `delete_group`: `XGROUP DESTROY`, answering how many groups were destroyed;
        the store refuses a stream that does not exist, and the error propagates. */
    method DeleteGroup(stream: string, group: string, ctx: Context) returns (r: Result<nat, string>)
      modifies this
      ensures StuckPending(old(Model())) ==> StuckPending(Model())
      ensures StreamName(stream, ctx.suffix) !in old(entries) ==> r == Err(NoStream) && Model() == old(Model())
      ensures var key, name := StreamName(stream, ctx.suffix), GroupName(stream, group, ctx.suffix);
        key in old(entries) ==>
        && r == Ok(if HasGroup(old(Model()), stream, group, ctx) then 1 else 0)
        && !HasGroup(Model(), stream, group, ctx)
        && entries == old(entries) && calls == old(calls)
        && (forall k :: k != key ==> GroupsOf(Model(), k) == GroupsOf(old(Model()), k))
        && (forall n :: n in GroupsOf(Model(), key) <==> n in GroupsOf(old(Model()), key) && n != name)
        && (forall k :: k in cursors <==> k in old(cursors) && k != (key, name))
        && (forall k :: k in cursors ==> cursors[k] == old(cursors)[k])
    {
      var key := StreamName(stream, ctx.suffix);
      var name := GroupName(stream, group, ctx.suffix);
      if key !in entries {
        return Err(NoStream);
      }
      r := Ok(if HasGroup(Model(), stream, group, ctx) then 1 else 0);
      if key in groups {
        var kept := Without(groups[key], name);
        groups := groups[key := kept];
      }
      cursors := cursors - {(key, name)};
    }

    /** `publish`: `XADD` of `{event_name => data}`, creating the stream when
        absent; the store assigns `id`, and every group of the stream gets the
        entry to read next. */
    method Publish(stream: string, eventName: string, data: string, id: MessageId, ctx: Context) returns (r: MessageId)
      modifies this
      ensures StuckPending(old(Model())) ==> StuckPending(Model())
      ensures r == id
      ensures var key := StreamName(stream, ctx.suffix);
        && entries == old(entries)[key := (if key in old(entries) then old(entries)[key] else []) + [Message(id, map[eventName := data])]]
        && groups == old(groups) && calls == old(calls)
        && (forall n :: n in GroupsOf(old(Model()), key) ==>
              CursorOf(Model(), key, n) ==
              CursorOf(old(Model()), key, n).(unread := CursorOf(old(Model()), key, n).unread + [Message(id, map[eventName := data])]))
        && cursors.Keys == old(cursors).Keys + (set n | n in GroupsOf(old(Model()), key) :: (key, n))
        && (forall k :: k in old(cursors) && !(k.0 == key && k.1 in GroupsOf(old(Model()), key)) ==> k in cursors && cursors[k] == old(cursors)[k])
    {
      ghost var before := Model();
      var key := StreamName(stream, ctx.suffix);
      var m := Message(id, map[eventName := data]);
      entries := entries[key := (if key in entries then entries[key] else []) + [m]];
      var names := if key in groups then groups[key] else [];
      assert names == GroupsOf(before, key);
      cursors := Appended(cursors, key, names, m);
      AppendedFrame(before, Model(), key, m);
      r := id;
    }

    /** `read_one`: the first entry of the stream, nil when there is none. */
    method ReadOne(stream: string, ctx: Context) returns (r: Option<Message>)
      ensures var key := StreamName(stream, ctx.suffix);
        r.Some? <==> key in entries && entries[key] != []
      ensures r.Some? ==> r.value == entries[StreamName(stream, ctx.suffix)][0]
    {
      var key := StreamName(stream, ctx.suffix);
      var reply: map<string, seq<Message>> := if key in entries && entries[key] != [] then map[key := entries[key][..1]] else map[];
      r := if key in reply then Some(reply[key][0]) else None;
    }

    /** `truncate`: `XTRIM <key> MAXLEN 0`, answering how many entries were deleted;
        no group has anything left to read, while pending entries stay pending. */
    method Truncate(stream: string, ctx: Context) returns (deleted: nat)
      modifies this
      ensures StuckPending(old(Model())) ==> StuckPending(Model())
      ensures var key := StreamName(stream, ctx.suffix);
        && deleted == (if key in old(entries) then |old(entries)[key]| else 0)
        && entries == (if key in old(entries) then old(entries)[key := []] else old(entries))
        && groups == old(groups) && calls == old(calls)
        && cursors.Keys == old(cursors).Keys
        && (forall k :: k in cursors ==> cursors[k] == if k.0 == key then old(cursors)[k].(unread := []) else old(cursors)[k])
    {
      var key := StreamName(stream, ctx.suffix);
      deleted := if key in entries then |entries[key]| else 0;
      if key in entries {
        entries := entries[key := []];
      }
      cursors := map k | k in cursors :: if k.0 == key then cursors[k].(unread := []) else cursors[k];
    }

    /** `pending`: `XPENDING <key> <key>-<group>`, reduced to the size of the
        group's pending-entries list and the consumers owning its entries; the
        store answers `NOGROUP` when the stream or the group does not exist,
        and the error propagates. */
    method Pending(stream: string, group: string, ctx: Context) returns (r: Result<PendingSummary, string>)
      ensures var key, name := StreamName(stream, ctx.suffix), GroupName(stream, group, ctx.suffix);
        r.Err? <==> key !in entries || name !in GroupsOf(Model(), key)
      ensures var key, name := StreamName(stream, ctx.suffix), GroupName(stream, group, ctx.suffix);
        r.Err? ==> r.error == NoGroup(key, name)
      ensures var c := CursorOf(Model(), StreamName(stream, ctx.suffix), GroupName(stream, group, ctx.suffix));
        r.Ok? ==> r.value == PendingSummary(|c.pending.Keys|, c.pending.Values)
    {
      var key := StreamName(stream, ctx.suffix);
      var name := GroupName(stream, group, ctx.suffix);
      if key !in entries || name !in (if key in groups then groups[key] else []) {
        return Err(NoGroup(key, name));
      }
      var c := if (key, name) in cursors then cursors[(key, name)] else NewGroup;
      r := Ok(PendingSummary(|c.pending.Keys|, c.pending.Values));
    }
  }

  /** `names` with every occurrence of `name` removed, order kept. */
  function Without(names: seq<string>, name: string): (r: seq<string>)
    ensures forall n :: n in r <==> n in names && n != name
  {
    if names == [] then []
    else (if names[0] == name then [] else [names[0]]) + Without(names[1..], name)
  }
}
