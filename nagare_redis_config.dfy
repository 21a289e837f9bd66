/**
 * `NagareRedis::Config`: the process-wide settings of the delivery engine.
 * `configure` yields the settings to a block, then gives every setting the
 * block left unset (nil or false) its default.
 */
module NagareRedisConfig {
  import opened Wrappers
  import opened RubyValues

  /** The settings `attr_accessor` exposes to the block, in declaration order. */
  datatype Accessors = Accessors(
    groupName: Value,
    redisUrl: Value,
    threads: Value,
    suffix: Value,
    minIdleTime: Value,
    errorHandler: Value,
    dlqStream: Value,
    maxRetries: Value)

  /** The names of those settings. */
  datatype Setting = GroupName | RedisUrl | Threads | Suffix | MinIdleTime | ErrorHandler | DlqStream | MaxRetries

  function Get(a: Accessors, s: Setting): Value
  {
    match s
    case GroupName => a.groupName
    case RedisUrl => a.redisUrl
    case Threads => a.threads
    case Suffix => a.suffix
    case MinIdleTime => a.minIdleTime
    case ErrorHandler => a.errorHandler
    case DlqStream => a.dlqStream
    case MaxRetries => a.maxRetries
  }

  const DefaultRedisUrl := "redis://localhost:6379"

  /** The handler installed when none is configured: it logs the message, the
      error's message and its backtrace. */
  const DefaultErrorHandler := Proc("log message, error and backtrace")

  /** The documented default of each setting; the URL's depends on `REDIS_URL`. */
  function Default(s: Setting, env: Option<string>): Value
  {
    match s
    case GroupName => Str("nagare_redis")
    case RedisUrl => if env.Some? then Str(env.value) else Str(DefaultRedisUrl)
    case Threads => Int(1)
    case Suffix => Nil
    case MinIdleTime => Int(600000)
    case ErrorHandler => DefaultErrorHandler
    case DlqStream => Str("dlq")
    case MaxRetries => Int(10)
  }

  /** The `||=` lines of `configure`, applied to what the block left. */
  function Defaulted(a: Accessors, env: Option<string>): Accessors
  {
    Accessors(
      Or(a.groupName, Str("nagare_redis")),
      Or(Or(a.redisUrl, EnvValue(env)), Str(DefaultRedisUrl)),
      Or(a.threads, Int(1)),
      Or(a.suffix, Nil),
      Or(a.minIdleTime, Int(600000)),
      Or(a.errorHandler, DefaultErrorHandler),
      Or(a.dlqStream, Str("dlq")),
      Or(a.maxRetries, Int(10)))
  }

  /** The class-level settings. `dead_consumer_timeout` has no accessor, so
      only `configure` itself ever sets it. */
  class Config {
    var groupName: Value
    var redisUrl: Value
    var threads: Value
    var suffix: Value
    var minIdleTime: Value
    var errorHandler: Value
    var dlqStream: Value
    var maxRetries: Value
    var deadConsumerTimeout: Value

    function Accessible(): Accessors
      reads this
    {
      Accessors(groupName, redisUrl, threads, suffix, minIdleTime, errorHandler, dlqStream, maxRetries)
    }

    /** Settings before any configuration: every instance variable is nil. */
    constructor ()
      ensures Accessible() == Accessors(Nil, Nil, Nil, Nil, Nil, Nil, Nil, Nil)
      ensures deadConsumerTimeout == Nil
    {
      groupName, redisUrl, threads, suffix := Nil, Nil, Nil, Nil;
      minIdleTime, errorHandler, dlqStream, maxRetries := Nil, Nil, Nil, Nil;
      deadConsumerTimeout := Nil;
    }

    /** The block's writes through the setters `attr_accessor` defines. */
    method SetAccessible(a: Accessors)
      modifies this
      ensures Accessible() == a
      ensures deadConsumerTimeout == old(deadConsumerTimeout)
    {
      groupName, redisUrl, threads, suffix := a.groupName, a.redisUrl, a.threads, a.suffix;
      minIdleTime, errorHandler, dlqStream, maxRetries := a.minIdleTime, a.errorHandler, a.dlqStream, a.maxRetries;
    }

    /** `configure`: run the block on the settings, then default what it left
        unset; `env` is `ENV['REDIS_URL']`. */
    method Configure(block: Accessors -> Accessors, env: Option<string>) returns (self: Config)
      modifies this
      ensures self == this
      ensures Accessible() == Defaulted(old(block(Accessible())), env)
      ensures deadConsumerTimeout == Or(old(deadConsumerTimeout), Int(5000))
    {
      var chosen := block(Accessible());
      ghost var want := Defaulted(chosen, env);
      SetAccessible(chosen);
      deadConsumerTimeout := Or(deadConsumerTimeout, Int(5000));
      groupName := Or(groupName, Str("nagare_redis"));
      assert groupName == want.groupName;
      redisUrl := Or(Or(redisUrl, EnvValue(env)), Str(DefaultRedisUrl));
      assert redisUrl == want.redisUrl;
      threads := Or(threads, Int(1));
      assert threads == want.threads;
      suffix := Or(suffix, Nil);
      assert suffix == want.suffix;
      minIdleTime := Or(minIdleTime, Int(600000));
      assert minIdleTime == want.minIdleTime;
      errorHandler := Or(errorHandler, DefaultErrorHandler);
      assert errorHandler == want.errorHandler;
      dlqStream := Or(dlqStream, Str("dlq"));
      assert dlqStream == want.dlqStream;
      maxRetries := Or(maxRetries, Int(10));
      assert maxRetries == want.maxRetries;
      self := this;
    }
  }

  /** A setting the block set to a truthy value is kept; any other gets its default. */
  lemma ConfigureDefaults(a: Accessors, env: Option<string>, s: Setting)
    ensures Get(Defaulted(a, env), s) == if Truthy(Get(a, s)) then Get(a, s) else Default(s, env)
  {
  }

  /** The URL is the configured one, else `REDIS_URL`, else the local server. */
  lemma RedisUrlPrecedence(a: Accessors, env: Option<string>)
    ensures Defaulted(a, env).redisUrl ==
      if Truthy(a.redisUrl) then a.redisUrl
      else if env.Some? then Str(env.value)
      else Str(DefaultRedisUrl)
  {
  }

  /** After `configure` every setting but the suffix is set, so the error
      handler can always be called; a suffix that is not set is nil, never false. */
  lemma ConfiguredIsComplete(a: Accessors, env: Option<string>)
    ensures forall s :: s != Suffix ==> Truthy(Get(Defaulted(a, env), s))
    ensures Defaulted(a, env).suffix != False
  {
    forall s | s != Suffix
      ensures Truthy(Get(Defaulted(a, env), s))
    {
      ConfigureDefaults(a, env, s);
    }
  }

  /** Configuring again with a block that sets nothing changes nothing, whatever
      `REDIS_URL` says by then. */
  lemma ConfigureIdempotent(a: Accessors, env: Option<string>, env': Option<string>)
    ensures Defaulted(Defaulted(a, env), env') == Defaulted(a, env)
  {
  }
}
