/**
 * The naming rules of `RedisStreams`: every stream name is normalised with the
 * configured suffix, every consumer group is named `<stream>-<group>` after that
 * normalisation, and a consumer is named `<hostname>-<thread id>`.
 */
module Naming {
  import opened Wrappers

  /** `stream_name`: the logical name, followed by `-<suffix>` when a suffix is configured. */
  function StreamName(stream: string, suffix: Option<string>): string
  {
    match suffix
    case None => stream
    case Some(s) => stream + "-" + s
  }

  /** The group name used by create, delete, read, ack and pending: `<stream_name>-<group>`. */
  function GroupName(stream: string, group: string, suffix: Option<string>): string
  {
    StreamName(stream, suffix) + "-" + group
  }

  /** The consumer name used when reading: `<hostname>-<thread id>`. */
  function ConsumerName(hostname: string, threadId: string): string
  {
    hostname + "-" + threadId
  }

  /** `a + sep + x == b + sep + x` only when `a == b`. */
  lemma RightCancel(a: string, b: string, tail: string)
    requires a + tail == b + tail
    ensures a == b
  {
    assert |a| == |b|;
    assert a == (a + tail)[..|a|];
    assert b == (b + tail)[..|b|];
  }

  /** `sep + x == sep + y` with a common prefix only when `x == y`. */
  lemma LeftCancel(head: string, x: string, y: string)
    requires head + x == head + y
    ensures x == y
  {
    assert x == (head + x)[|head|..];
    assert y == (head + y)[|head|..];
  }

  /** Without a suffix the stream name is the logical name; with one it is the
      logical name, a dash, and the suffix, read back from the result. */
  lemma StreamNameShape(stream: string, suffix: Option<string>)
    ensures suffix.None? ==> StreamName(stream, suffix) == stream
    ensures suffix.Some? ==>
      && |StreamName(stream, suffix)| == |stream| + 1 + |suffix.value|
      && StreamName(stream, suffix)[..|stream|] == stream
      && StreamName(stream, suffix)[|stream|] == '-'
      && StreamName(stream, suffix)[|stream| + 1..] == suffix.value
  {
    if suffix.Some? {
      var r := StreamName(stream, suffix);
      assert r == stream + ("-" + suffix.value);
      assert r[..|stream|] == stream;
      assert r[|stream| + 1..] == suffix.value;
    }
  }

  /** Under one suffix, distinct logical streams never share a stream key. */
  lemma StreamNameInjective(a: string, b: string, suffix: Option<string>)
    ensures StreamName(a, suffix) == StreamName(b, suffix) <==> a == b
  {
    if StreamName(a, suffix) == StreamName(b, suffix) && suffix.Some? {
      assert StreamName(a, suffix) == a + ("-" + suffix.value);
      assert StreamName(b, suffix) == b + ("-" + suffix.value);
      RightCancel(a, b, "-" + suffix.value);
    }
  }

  /** The group name starts with the normalised stream name and a dash, and ends
      with the logical group; so it is derived from the stream and the group only. */
  lemma GroupNameShape(stream: string, group: string, suffix: Option<string>)
    ensures var key := StreamName(stream, suffix);
      && GroupName(stream, group, suffix)[..|key| + 1] == key + "-"
      && GroupName(stream, group, suffix)[|key| + 1..] == group
  {
    var key := StreamName(stream, suffix);
    assert GroupName(stream, group, suffix) == (key + "-") + group;
  }

  /** For one stream, distinct logical groups get distinct group names. */
  lemma GroupNameInjective(stream: string, g1: string, g2: string, suffix: Option<string>)
    ensures GroupName(stream, g1, suffix) == GroupName(stream, g2, suffix) <==> g1 == g2
  {
    if GroupName(stream, g1, suffix) == GroupName(stream, g2, suffix) {
      var key := StreamName(stream, suffix);
      assert (key + "-") + g1 == (key + "-") + g2;
      LeftCancel(key + "-", g1, g2);
    }
  }

  /** The consumer name is the host name, a dash, then the thread id. */
  lemma ConsumerNameShape(hostname: string, threadId: string)
    ensures |ConsumerName(hostname, threadId)| == |hostname| + 1 + |threadId|
    ensures ConsumerName(hostname, threadId)[..|hostname|] == hostname
    ensures ConsumerName(hostname, threadId)[|hostname|] == '-'
    ensures ConsumerName(hostname, threadId)[|hostname| + 1..] == threadId
  {
    var r := ConsumerName(hostname, threadId);
    assert r == hostname + ("-" + threadId);
    assert r[..|hostname|] == hostname;
    assert r[|hostname| + 1..] == threadId;
  }
}
