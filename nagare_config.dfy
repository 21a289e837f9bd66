/**
 * `Nagare::Config`: the settings of the original gem's namespace, a subset of
 * `NagareRedis::Config` with its own default group name.
 */
module NagareConfig {
  import opened Wrappers
  import opened RubyValues

  /** The settings `attr_accessor` exposes to the block, in declaration order. */
  datatype Accessors = Accessors(groupName: Value, redisUrl: Value, threads: Value, suffix: Value, minIdleTime: Value)

  datatype Setting = GroupName | RedisUrl | Threads | Suffix | MinIdleTime

  function Get(a: Accessors, s: Setting): Value
  {
    match s
    case GroupName => a.groupName
    case RedisUrl => a.redisUrl
    case Threads => a.threads
    case Suffix => a.suffix
    case MinIdleTime => a.minIdleTime
  }

  const DefaultRedisUrl := "redis://localhost:6379"

  /** The documented default of each setting; the URL's depends on `REDIS_URL`. */
  function Default(s: Setting, env: Option<string>): Value
  {
    match s
    case GroupName => Str("nagare")
    case RedisUrl => if env.Some? then Str(env.value) else Str(DefaultRedisUrl)
    case Threads => Int(1)
    case Suffix => Nil
    case MinIdleTime => Int(600000)
  }

  /** The `||=` lines of `configure`, applied to what the block left. */
  function Defaulted(a: Accessors, env: Option<string>): Accessors
  {
    Accessors(
      Or(a.groupName, Str("nagare")),
      Or(Or(a.redisUrl, EnvValue(env)), Str(DefaultRedisUrl)),
      Or(a.threads, Int(1)),
      Or(a.suffix, Nil),
      Or(a.minIdleTime, Int(600000)))
  }

  /** The class-level settings; `dead_consumer_timeout` has no accessor. */
  class Config {
    var groupName: Value
    var redisUrl: Value
    var threads: Value
    var suffix: Value
    var minIdleTime: Value
    var deadConsumerTimeout: Value

    function Accessible(): Accessors
      reads this
    {
      Accessors(groupName, redisUrl, threads, suffix, minIdleTime)
    }

    /** Settings before any configuration: every instance variable is nil. */
    constructor ()
      ensures Accessible() == Accessors(Nil, Nil, Nil, Nil, Nil)
      ensures deadConsumerTimeout == Nil
    {
      groupName, redisUrl, threads, suffix, minIdleTime := Nil, Nil, Nil, Nil, Nil;
      deadConsumerTimeout := Nil;
    }

    /** The block's writes through the setters `attr_accessor` defines. */
    method SetAccessible(a: Accessors)
      modifies this
      ensures Accessible() == a
      ensures deadConsumerTimeout == old(deadConsumerTimeout)
    {
      groupName, redisUrl, threads, suffix, minIdleTime := a.groupName, a.redisUrl, a.threads, a.suffix, a.minIdleTime;
    }

    /** `configure`: run the block on the settings, then default what it left
        unset; `env` is `ENV['REDIS_URL']`. */
    method Configure(block: Accessors -> Accessors, env: Option<string>) returns (self: Config)
      modifies this
      ensures self == this
      ensures Accessible() == Defaulted(old(block(Accessible())), env)
      ensures deadConsumerTimeout == Or(old(deadConsumerTimeout), Int(5000))
    {
      var chosen := block(Accessible());
      SetAccessible(chosen);
      deadConsumerTimeout := Or(deadConsumerTimeout, Int(5000));
      groupName := Or(groupName, Str("nagare"));
      redisUrl := Or(Or(redisUrl, EnvValue(env)), Str(DefaultRedisUrl));
      threads := Or(threads, Int(1));
      suffix := Or(suffix, Nil);
      minIdleTime := Or(minIdleTime, Int(600000));
      self := this;
    }
  }

  /** A setting the block set to a truthy value is kept; any other gets its default. */
  lemma ConfigureDefaults(a: Accessors, env: Option<string>, s: Setting)
    ensures Get(Defaulted(a, env), s) == if Truthy(Get(a, s)) then Get(a, s) else Default(s, env)
  {
  }

  /** The URL is the configured one, else `REDIS_URL`, else the local server. */
  lemma RedisUrlPrecedence(a: Accessors, env: Option<string>)
    ensures Defaulted(a, env).redisUrl ==
      if Truthy(a.redisUrl) then a.redisUrl
      else if env.Some? then Str(env.value)
      else Str(DefaultRedisUrl)
  {
  }

  /** After `configure` every setting but the suffix is set, and an unset suffix is nil. */
  lemma ConfiguredIsComplete(a: Accessors, env: Option<string>)
    ensures forall s :: s != Suffix ==> Truthy(Get(Defaulted(a, env), s))
    ensures Defaulted(a, env).suffix != False
  {
    forall s | s != Suffix
      ensures Truthy(Get(Defaulted(a, env), s))
    {
      ConfigureDefaults(a, env, s);
    }
  }

  /** Configuring again with a block that sets nothing changes nothing. */
  lemma ConfigureIdempotent(a: Accessors, env: Option<string>, env': Option<string>)
    ensures Defaulted(Defaulted(a, env), env') == Defaulted(a, env)
  {
  }
}
