# nagare-redis delivery engine, in Dafny

This project models the delivery engine of nagare-redis, a publish/subscribe
layer over Redis streams and consumer groups, and proves what the engine
promises about the calls it makes.

- `ListenerPool` (`listener_pool.dfy`) builds the registry of listeners by
  stream. On the first sighting of each stream it provisions that stream's
  consumer group.
- Its polling loop asks whether the group exists, claims stuck messages, and
  reads new messages only when the claim brought none. Every message goes to
  every listener bound to its stream.
- A message is acknowledged only when no listener raised. Each failure goes to
  the configured error handler.
- `RedisStreams` (`naming.dfy`, `redis_streams.dfy`) is the façade over the
  stream store. It covers the stream-suffix rule and the `<stream>-<group>`
  group names. It also covers `group_exists?`, the ack-count check, the result
  extraction of the reads, and the remaining X* commands, over an in-memory
  store.
- `Config.configure` fills in the unset settings with Ruby's `||=`. It exists
  twice: `NagareRedis::Config` (`nagare_redis_config.dfy`) and the older
  `Nagare::Config` (`nagare_config.dfy`). `RubyValues` gives the Ruby truthiness
  and `||` these rely on.

How the model is built:

- The store is the class `RedisStreams.Store`. Its fields are:
  - the groups of each stream key (what `XINFO GROUPS` lists; only whether a
    name is listed matters, because `group_exists?` asks `any?`);
  - the entries of each stream;
  - a cursor per group (unread entries, claimable entries, and the
    pending-entries list of id → owning consumer);
  - `calls`, the record of every call the engine makes to its collaborators:
    `group_exists?`, `create_group`, the claim, the read, `handle_event`, the
    error handler and `mark_processed`.

  Recording the calls is what lets "called first", "called exactly once" and
  "never called" be stated.
- Every engine operation is a method of `ListenerPool` that takes the store as
  a parameter and changes it through the store's own methods. Its
  postcondition equates the result and the new state with a specification
  function on the store's value: `Subscribe`, `Provision`, `DeliverStep`,
  `PollStreamStep` and `PollStep`. `PollStream`'s message loop keeps
  `DeliverAllStep` of the remaining messages as its invariant, and
  `InvokeAll` and `InvokeListener` state the record of listener calls they
  add. `PoolProperties` (`pool_properties.dfy`) proves the engine's promises
  about those functions.
- A listener is its name, its `stream_name`, and its `handle_event` as a
  function from payload to "returned" or "raised with a message".
- Ruby exceptions out of `mark_processed` are the `Fail` outcome. They stop the
  message loop and the stream loop, as the exception does.
- The configuration block is a function from the accessible settings to the
  settings it leaves. `Configure` writes them through the setters, then runs
  the `||=` lines one by one on the class's fields.
- `ENV['REDIS_URL']` is an input.

Where the code and its own comments or Redis's documented behaviour differ,
the model follows the code:

- `read_one`'s comment promises the last message of the stream. The code reads
  from id `0` with count 1, so the model returns the first entry.
- `truncate` is `XTRIM <key> MAXLEN 0`. It empties the stream and what the
  groups have left to read, but it does not clear the pending-entries lists:
  Redis's `XTRIM` leaves every group's pending-entries list as it was, although
  the method's comment says it empties the stream "for all readers".
- `mark_processed` raises on any count other than 1. `XACK` of a single id can
  only report 0 or 1, so in practice it raises exactly when the id was not
  pending.

## Model

| member | source | states |
|---|---|---|
| Naming.StreamNameShape | lib/nagare/redis_streams.rb:135-142 | with no suffix the stream key is the stream name itself; otherwise it is the name, a dash and the suffix, each part recoverable from the key |
| Naming.StreamNameInjective | lib/nagare/redis_streams.rb:135-142 | under one suffix, two logical streams share a key exactly when they are equal |
| Naming.GroupNameShape | lib/nagare/redis_streams.rb:54-55 | the group name is the suffixed stream key, a dash, then the logical group |
| Naming.GroupNameInjective | lib/nagare/redis_streams.rb:104-105 | for one stream, distinct logical groups get distinct group names |
| Naming.ConsumerNameShape | lib/nagare/redis_streams.rb:90-91 | the consumer name is the host name, a dash, then the thread id |
| RedisStreams.AnyNamed | lib/nagare/redis_streams.rb:37 | `any?` over the info lines is true iff some line carries the name |
| RedisStreams.GroupExistsIn | lib/nagare/redis_streams.rb:34-43 | `group_exists?` is true iff the reply lists `<stream_name>-<group>`; a command error answers false instead of raising |
| RedisStreams.AckOutcome | lib/nagare/redis_streams.rb:107-111 | returns normally iff the acknowledged count is exactly 1; otherwise raises naming stream key, group, id and count |
| RedisStreams.OwnAssigns | lib/nagare/redis_streams.rb:88-93 | entries handed to a consumer become pending for it; every other pending entry keeps its owner |
| RedisStreams.CreatedHasGroup | lib/nagare/redis_streams.rb:53-57 | after `XGROUP CREATE` the group exists, and every other stream's group answer is unchanged |
| RedisStreams.ClaimTakesOwnership | lib/nagare_redis/listener_pool.rb:64 | a claim in an existing group returns exactly its claimable entries, now owned by this consumer, so an immediate second claim returns none |
| RedisStreams.AckTwiceRaises | lib/nagare/redis_streams.rb:103-112 | an ack succeeds iff the id is pending, and acknowledging the same id again raises with count 0 |
| RedisStreams.Without | lib/nagare/redis_streams.rb:66-69 | removing a destroyed group keeps exactly the other names |
| RedisStreams.Store.constructor | lib/nagare/redis_streams.rb:21-24 | a fresh store has no streams, no groups and no recorded calls |
| RedisStreams.Store.GroupExists | lib/nagare/redis_streams.rb:34-43 | answers `group_exists?` on the current store and records the call, changing nothing else |
| RedisStreams.Store.CreateGroup | lib/nagare/redis_streams.rb:53-57 | creates `<key>-<group>` at `$`, creating the stream if absent; an existing group is refused with BUSYGROUP |
| RedisStreams.Store.ClaimNextStuckMessage | lib/nagare_redis/listener_pool.rb:64 | nil when the group is absent; otherwise the claimable entries, which become owned by this consumer |
| RedisStreams.Store.ReadNextMessages | lib/nagare/redis_streams.rb:88-93 | returns the group's undelivered entries for the suffixed stream, or `[]` when there are none or the group is absent; what it returns becomes pending for the consumer |
| RedisStreams.Store.MarkProcessed | lib/nagare/redis_streams.rb:103-112 | acknowledges `message_id` on `<key>-<group>`; returns normally iff the id was pending, which it then no longer is, so no claim can take it |
| RedisStreams.AckedNotReclaimed | lib/nagare/redis_streams.rb:103-112 | after an acknowledgement that returned normally, a claim in the group hands out no entry with that id |
| RedisStreams.CreateKeepsStuckPending | lib/nagare/redis_streams.rb:53-57 | creating a group keeps every claimable entry on its group's pending list |
| RedisStreams.ClaimKeepsStuckPending | lib/nagare_redis/listener_pool.rb:64 | a claim keeps every claimable entry on its group's pending list |
| RedisStreams.ReadKeepsStuckPending | lib/nagare/redis_streams.rb:88-93 | reading new entries keeps every claimable entry on its group's pending list |
| RedisStreams.AckKeepsStuckPending | lib/nagare/redis_streams.rb:103-112 | an acknowledgement keeps every claimable entry on its group's pending list |
| RedisStreams.Appended | lib/nagare/redis_streams.rb:79-82 | after `XADD` every group of the stream gets the entry to read next, a group without a cursor starts from an empty one, and every other cursor is unchanged |
| RedisStreams.AppendedFrame | lib/nagare/redis_streams.rb:79-82 | over the store's value, each group of the stream gets the entry to read next with its claimable and pending entries unchanged, no other cursor changes, and every claimable entry stays pending |
| RedisStreams.Store.DeleteGroup | lib/nagare/redis_streams.rb:66-69 | raises, changing nothing, when the stream does not exist; otherwise answers 1 iff the group existed, afterwards the group and its cursor are gone, and every other group, cursor and entry is unchanged; every claimable entry stays pending |
| RedisStreams.Store.Publish | lib/nagare/redis_streams.rb:79-82 | appends `{event_name => data}` to the suffixed stream, creating it if absent; every group of that stream gets the entry appended to what it has to read, with its claimable entries and pending list unchanged; no cursor outside those groups appears or changes, and nothing else changes; every claimable entry stays pending |
| RedisStreams.Store.ReadOne | lib/nagare/redis_streams.rb:120-124 | nil iff the stream is absent or empty; otherwise its first entry |
| RedisStreams.Store.Truncate | lib/nagare/redis_streams.rb:130-133 | answers how many entries were deleted; the stream is empty and no group has anything to read, while pending lists stay, and every claimable entry stays pending |
| RedisStreams.Store.Pending | lib/nagare/redis_streams.rb:153-157 | raises `NOGROUP` exactly when the stream or the group does not exist; otherwise the size of the group's pending list and the consumers that own its entries |
| ListenerPool.Registry | lib/nagare_redis/listener_pool.rb:14-26 | the result maps exactly the named streams, in first-seen order, to their listeners in enumeration order; the store is provisioned for those streams in that order |
| ListenerPool.RegisterOne | lib/nagare_redis/listener_pool.rb:18-23 | adding a listener as the loop body does gives the registry of the longer listener list |
| ListenerPool.BoundEmpty | lib/nagare_redis/listener_pool.rb:18-23 | a stream has an empty list iff no listener names it |
| ListenerPool.CreateAndSubscribeToStream | lib/nagare_redis/listener_pool.rb:108-115 | answers true iff `group_exists?` was false, and creates the group exactly then |
| ListenerPool.Poll | lib/nagare_redis/listener_pool.rb:53-57 | builds the registry, then polls each of its streams in order with its listeners, stopping at an acknowledgement error |
| ListenerPool.PollStream | lib/nagare_redis/listener_pool.rb:61-74 | without the group it only asks and returns; otherwise it claims, reads only when the claim brought nothing, and delivers what came back in order (`PollStreamStep`) |
| ListenerPool.DeliverMessage | lib/nagare_redis/listener_pool.rb:80-93 | records every listener's invocation and failure report, then the acknowledgement only when none raised; returns normally on failure and the ack outcome otherwise (`DeliverStep`) |
| ListenerPool.InvokeAll | lib/nagare_redis/listener_pool.rb:81-88 | the failure flag is set iff some listener raised; each handler call, and its error-handler call after it, is recorded in order |
| ListenerPool.InvokeListener | lib/nagare_redis/listener_pool.rb:95-98 | calls `handle_event` with the payload `message[1]` and returns its outcome |
| PoolProperties.FirstSeenStreams | lib/nagare_redis/listener_pool.rb:15-22 | the registry's streams are exactly the streams the listeners name, each once |
| PoolProperties.BoundListeners | lib/nagare_redis/listener_pool.rb:15-23 | each stream's list holds only that stream's listeners, and all of them |
| PoolProperties.SubscribeOnce | lib/nagare_redis/listener_pool.rb:108-115 | creates iff the group was missing and answers so; afterwards the group exists, and a second call only asks and answers false |
| PoolProperties.SubscribeKeepsOthers | lib/nagare_redis/listener_pool.rb:108-115 | subscribing one stream does not change whether another stream's group exists |
| PoolProperties.SubscribeAdds | lib/nagare_redis/listener_pool.rb:108-115 | a subscription records the question, then the creation only when the group was missing |
| PoolProperties.SubscribeExisting | lib/nagare_redis/listener_pool.rb:109 | with the group present, a subscription changes nothing but the recorded question |
| PoolProperties.ProvisionEstablishes | lib/nagare_redis/listener_pool.rb:15-25 | after provisioning, every registered stream has its group, and other streams are as before |
| PoolProperties.ProvisionCreatesOnce | lib/nagare_redis/listener_pool.rb:18-22 | over distinct streams, each is asked about once and created exactly once iff its group was missing |
| PoolProperties.ProvisionExistingOnlyAsks | lib/nagare_redis/listener_pool.rb:15-25 | when every group exists, provisioning changes nothing but one question per stream |
| PoolProperties.SameStreamsSameGroups | lib/nagare/redis_streams.rb:34-43 | whether a group exists depends only on the streams and their groups |
| PoolProperties.ProvisionIdempotent | lib/nagare_redis/listener_pool.rb:15-25 | building the registry a second time creates nothing and changes nothing but the questions |
| PoolProperties.EveryListenerInvoked | lib/nagare_redis/listener_pool.rb:83-88 | the handler calls of one dispatch are exactly one per listener, in order, with the payload, whatever earlier listeners did |
| PoolProperties.MessagesInOrder | lib/nagare_redis/listener_pool.rb:71-73 | a batch without an acknowledgement error makes handler calls message by message in the returned order, each to all listeners |
| PoolProperties.DeliverHandles | lib/nagare_redis/listener_pool.rb:80-93 | one delivery makes exactly the listeners' handler calls, in order |
| PoolProperties.EachFailureReported | lib/nagare_redis/listener_pool.rb:83-88 | the error handler runs once per raising listener, in listener order, each time with the message and that listener's error; nothing else is called while invoking |
| PoolProperties.FailedIffSomeRaised | lib/nagare_redis/listener_pool.rb:81-90 | `listener_failed` is set iff some listener raised |
| PoolProperties.DeliverCalls | lib/nagare_redis/listener_pool.rb:80-93 | a delivery records the listeners' calls, then the acknowledgement iff none failed |
| PoolProperties.DeliverKeepsStreams | lib/nagare_redis/listener_pool.rb:80-93 | a delivery never changes the streams or their groups |
| PoolProperties.DeliverFailedKeepsStore | lib/nagare_redis/listener_pool.rb:90 | after a failure the delivery returns normally and changes nothing but the record, so the message stays pending |
| PoolProperties.DeliverAcknowledges | lib/nagare_redis/listener_pool.rb:92 | after success the delivery returns normally iff the id was pending, and removes just that id |
| PoolProperties.DeliverAcksIffAllSucceed | lib/nagare_redis/listener_pool.rb:90-92 | the message is acknowledged exactly once if no listener raised and never if one did; nothing else is acknowledged |
| PoolProperties.DeliverAllKeepsStreams | lib/nagare_redis/listener_pool.rb:71-73 | delivering a batch never changes the streams or their groups |
| PoolProperties.DeliverAllCalls | lib/nagare_redis/listener_pool.rb:71-73 | a batch calls only handlers, the error handler and acknowledgements |
| PoolProperties.AlwaysFailingNeverAcks | spec/lib/nagare/listener_pool_spec.rb:86-94 | when every listener raises, nothing is acknowledged, the batch returns normally and the store keeps every message pending |
| PoolProperties.DeliverAllAcksOnly | lib/nagare_redis/listener_pool.rb:71-73 | a batch acknowledges only ids of its own messages |
| PoolProperties.AlwaysSucceedingClearsPending | lib/nagare_redis/listener_pool.rb:71-92 | when no listener raises and every id is pending, the batch returns normally and its ids leave the pending list |
| PoolProperties.AlwaysSucceedingAcksEach | spec/lib/nagare/listener_pool_spec.rb:64-72 | when no listener raises and every id is pending, each message is acknowledged exactly once |
| PoolProperties.FetchCalls | lib/nagare_redis/listener_pool.rb:64-68 | with the group present, the claim is recorded, then the read iff nothing was stuck |
| PoolProperties.FetchedArePending | lib/nagare_redis/listener_pool.rb:64-68 | with the group present, every message the claim or the read hands out is pending afterwards |
| PoolProperties.PollStreamDelivers | lib/nagare_redis/listener_pool.rb:61-74 | with the group present, `poll_stream` fetches pending messages without acknowledging any, then delivers them as one batch |
| PoolProperties.PollStreamAcksEach | lib/nagare_redis/listener_pool.rb:61-74 | when no listener raises and the fetched ids are distinct, `poll_stream` returns normally, acknowledges each fetched message exactly once and removes every fetched id from the pending list |
| PoolProperties.PollStreamShape | lib/nagare_redis/listener_pool.rb:61-74 | with the group present, `poll_stream` asks, claims, reads when nothing was stuck, then only dispatches and acknowledges |
| PoolProperties.ClaimBeforeRead | lib/nagare_redis/listener_pool.rb:64-68 | the first calls are the question, then the claim; the read happens at most once, and iff nothing was stuck |
| PoolProperties.NoMessagesNoInvocation | spec/lib/nagare/listener_pool_spec.rb:43-45 | with nothing stuck and nothing new, no listener is invoked and nothing is acknowledged |
| PoolProperties.PollStreamKeepsGroups | lib/nagare_redis/listener_pool.rb:61-74 | `poll_stream` never changes the streams or their groups |
| PoolProperties.PollStreamsClaimsEach | lib/nagare_redis/listener_pool.rb:54-56 | when every group exists and no ack raised, every stream is claimed from |
| PoolProperties.PollVisitsEveryStream | lib/nagare_redis/listener_pool.rb:53-57 | unless an ack raised, `poll` claims from the stream of every listener |
| RubyValues.Or | lib/nagare_redis/config.rb:19 | Ruby's `or` operator answers one of its operands; the answer is truthy iff either operand is, and it is the left one when that is truthy and the right one otherwise, so `false || nil` is nil |
| RubyValues.EnvValue | lib/nagare_redis/config.rb:20 | an environment variable's value is its string when the variable is set and nil otherwise |
| NagareRedisConfig.Config.constructor | lib/nagare_redis/config.rb:8-9 | before configuration every setting is nil |
| NagareRedisConfig.Config.SetAccessible | lib/nagare_redis/config.rb:17 | the block's writes set the eight accessors and leave `dead_consumer_timeout` alone |
| NagareRedisConfig.Config.Configure | lib/nagare_redis/config.rb:16-32 | returns self; the settings are the block's values with the or-assignment defaults applied; `dead_consumer_timeout` defaults to 5000 |
| NagareRedisConfig.ConfigureDefaults | lib/nagare_redis/config.rb:18-30 | a truthy value the block set is kept; any other setting gets its documented default |
| NagareRedisConfig.RedisUrlPrecedence | lib/nagare_redis/config.rb:20 | the URL is the block's value, else `REDIS_URL`, else `redis://localhost:6379` |
| NagareRedisConfig.ConfiguredIsComplete | lib/nagare_redis/config.rb:22-28 | afterwards every setting but the suffix is truthy, the error handler included; an unset suffix is nil |
| NagareRedisConfig.ConfigureIdempotent | lib/nagare_redis/config.rb:16-31 | configuring again with a block that sets nothing changes nothing |
| NagareConfig.Config.constructor | lib/nagare/config.rb:8 | before configuration every setting is nil |
| NagareConfig.Config.SetAccessible | lib/nagare/config.rb:16 | the block's writes set the five accessors and leave `dead_consumer_timeout` alone |
| NagareConfig.Config.Configure | lib/nagare/config.rb:15-24 | returns self; the settings are the block's values with the or-assignment defaults applied; `dead_consumer_timeout` defaults to 5000 |
| NagareConfig.ConfigureDefaults | lib/nagare/config.rb:17-22 | a truthy value the block set is kept; any other setting gets its default (`nagare`, 1, 600000, nil) |
| NagareConfig.RedisUrlPrecedence | lib/nagare/config.rb:19 | the URL is the block's value, else `REDIS_URL`, else `redis://localhost:6379` |
| NagareConfig.ConfiguredIsComplete | lib/nagare/config.rb:17-22 | afterwards every setting but the suffix is truthy; an unset suffix is nil |
| NagareConfig.ConfigureIdempotent | lib/nagare/config.rb:15-23 | configuring again with a block that sets nothing changes nothing |

## Left out

- The Redis connection and the real X* commands (`connection`, lib/nagare/redis_streams.rb:21-24) are an in-memory store. How the store assigns message ids, idle times, and the `XREADGROUP` options are not modelled.
- `claim_next_stuck_message`, called at lib/nagare_redis/listener_pool.rb:64, is defined in none of the files available to this model: it belongs to `nagare_redis/redis_streams`, which lib/nagare_redis.rb:8 requires and which is not part of this model. It is modelled as a store operation: nil when the group is absent, otherwise the group's claimable entries. Which pending entries are idle long enough is part of the store state, not computed from `min_idle_time`.
- `listener_pool.rb` calls `NagareRedis::RedisStreams`, defined in `nagare_redis/redis_streams`, which is not part of this model. The available `Nagare::RedisStreams` (lib/nagare/redis_streams.rb:5) is taken as its interface.
- `XREADGROUP` on a missing group raises `NOGROUP` in Redis. The model answers `[]`, because `poll_stream` only reads after `group_exists?` returned true.
- `Socket.gethostname`, `Thread.current.object_id` and `Config.suffix` are inputs (`Context`).
- `start_listening` (lib/nagare_redis/listener_pool.rb:39-47) is left out: its background thread and its `sleep 1` loop are concurrency and timing.
- `listeners` (lib/nagare_redis/listener_pool.rb:28-32) is left out: discovery through `ObjectSpace` is reflection, so the listeners are given as a sequence.
- `claim_pending_messages` (lib/nagare_redis/listener_pool.rb:76-78) is left out: it is dead code that returns nil whatever the store says.
- Logging is left out. The default error handler (lib/nagare_redis/config.rb:24-28) is a named value, and a call to the error handler is only recorded.
- ListenerPool.InvokeListener: a handler's outcome is a function of the payload alone. State a listener instance might keep, and errors other than `StandardError`, are not modelled.
- ListenerPool.DeliverMessage: the error handler is assumed not to raise. An exception from it would escape `deliver_message` and is not modelled.
- Retry counting and dead-letter routing are left out: `max_retries` and `dlq_stream` are configured, but none of the files available to this model uses them.
- RedisStreams.Store.Pending: returns the size and the owning consumers, or the `NOGROUP` error. The smallest and largest pending ids and the per-consumer counts that `XPENDING` also reports are not modelled.
- RedisStreams.Store.Publish: the id is a parameter. The store's id generation, and so monotonicity, is not modelled.
- RedisStreams.Store.DeleteGroup: it is not recorded in the record of calls, because the delivery engine never calls it; the same holds for `Publish`, `ReadOne`, `Truncate` and `Pending`.
- NagareRedisConfig.Config.Configure: the block is a function from the settings it can read to the settings it leaves. A block with other side effects, or one that reads `dead_consumer_timeout`, is not modelled.
- NagareConfig.Config.Configure: the same modelling of the block as for `NagareRedisConfig.Config.Configure`.
- A suffix that is not a string would be interpolated by Ruby. The naming rules take the suffix as an optional string.
- The integration spec's live round trip through Redis is not modelled.
