/**
 * The string derivations done once by the constructor of RedisPropertySource:
 * the system properties it reads, the Redis hash name, the host/port split of
 * the server address and the path of the file cache.
 */
module Settings {
  import opened Common

  const EnvironmentProperty := "config.environment"
  const EnvironmentDefault := "dev"
  const ServerProperty := "config.server"
  const ServerDefault := "localhost:6379"
  const RedisKeyPrefix := "config:"
  const CacheDirectory := "clink"
  const CacheSuffix := ".properties"

  /** `System.getProperty(name, default)`, with the system properties passed in. */
  function SystemProperty(props: map<string, string>, name: string, default: string): (r: string)
    ensures name in props ==> r == props[name]
    ensures name !in props ==> r == default
  {
    if name in props then props[name] else default
  }

  /** The Redis hash that holds every configuration item of one environment. */
  function RedisKey(env: string): (r: string)
    ensures |r| == |RedisKeyPrefix| + |env|
    ensures r[..|RedisKeyPrefix|] == RedisKeyPrefix
    ensures r[|RedisKeyPrefix|..] == env
  {
    RedisKeyPrefix + env
  }

  /** Distinct environments read distinct Redis hashes. */
  lemma RedisKeyInjective(env1: string, env2: string)
    ensures RedisKey(env1) == RedisKey(env2) <==> env1 == env2
  {
  }

  /** With no system properties set, the items are read from the hash `config:dev`. */
  lemma DefaultRedisKey()
    ensures RedisKey(SystemProperty(map[], EnvironmentProperty, EnvironmentDefault)) == "config:dev"
  {
  }

  /** With no system properties set, the server is `localhost`, port 6379. */
  lemma DefaultServer()
    ensures SplitServer(SystemProperty(map[], ServerProperty, ServerDefault)) == Normal(("localhost", "6379"))
  {
    SplitServerUnique(ServerDefault, "localhost", "6379");
  }

  /** `String.indexOf(char)`: the first position of `c` in `s`, or -1. */
  function IndexOf(s: string, c: char): (r: int)
    ensures -1 <= r < |s|
    ensures r == -1 <==> c !in s
    ensures 0 <= r ==> s[r] == c && c !in s[..r]
  {
    if s == [] then -1
    else if s[0] == c then 0
    else
      var i := IndexOf(s[1..], c);
      assert s[1..] + [] == s[1..];
      if i == -1 then -1
      else
        assert s[..i + 1] == [s[0]] + s[1..][..i];
        i + 1
  }

  /** `String.substring(begin, end)`, which throws on indices out of range. */
  function Substring(s: string, begin: int, end: int): (r: Completion<string>)
    ensures r.Normal? <==> 0 <= begin <= end <= |s|
    ensures r.Normal? ==> r.value == s[begin..end] && |r.value| == end - begin
    ensures r.Abrupt? ==> r.exception == StringIndexOutOfBoundsException
  {
    if 0 <= begin <= end <= |s| then Normal(s[begin..end])
    else Abrupt(StringIndexOutOfBoundsException)
  }

  /**
   * The host and the port text of a server address `host:port`, split at the
   * first ':'; without a ':' the first `substring` throws.
   */
  function SplitServer(url: string): (r: Completion<(string, string)>)
    ensures r.Abrupt? <==> ':' !in url
    ensures r.Abrupt? ==> r.exception == StringIndexOutOfBoundsException
    ensures r.Normal? ==> r.value.0 + ":" + r.value.1 == url
    ensures r.Normal? ==> ':' !in r.value.0
  {
    var colon := IndexOf(url, ':');
    match Substring(url, 0, colon)
    case Abrupt(e) => Abrupt(e)
    case Normal(host) =>
      match Substring(url, colon + 1, |url|)
      case Abrupt(e) => Abrupt(e)
      case Normal(port) =>
        assert url == url[..colon] + [url[colon]] + url[colon + 1..];
        Normal((host, port))
  }

  /**
   * Conversely, any address written as a colon-free host, ':' and a port text
   * splits into exactly that host and port text.
   */
  lemma SplitServerUnique(url: string, host: string, port: string)
    requires url == host + ":" + port && ':' !in host
    ensures SplitServer(url) == Normal((host, port))
  {
    var i := IndexOf(url, ':');
    assert url[..|host|] == host && url[|host|] == ':';
    assert i == |host|;
    assert url[|host| + 1..] == port;
  }

  /**
   * Where the file cache of application `source` lives:
   * `<home>/clink/<source>.properties`, or nowhere (`null`) when the
   * application identifier is null or empty.
   */
  function CachePath(source: Option<string>, home: string, separator: string): (r: Option<string>)
    ensures r.Some? <==> source.Some? && source.value != ""
    ensures r.Some? ==> r.value == home + separator + CacheDirectory + separator + source.value + CacheSuffix
  {
    if source.Some? && source.value != "" then
      Some(home + separator + CacheDirectory + separator + source.value + CacheSuffix)
    else None
  }

  /** On one host, distinct application ids get distinct cache path strings. */
  lemma CachePathInjective(a: string, b: string, home: string, separator: string)
    requires CachePath(Some(a), home, separator).Some?
    requires CachePath(Some(a), home, separator) == CachePath(Some(b), home, separator)
    ensures a == b
  {
    var prefix := home + separator + CacheDirectory + separator;
    var pa := CachePath(Some(a), home, separator).value;
    assert pa == prefix + a + CacheSuffix;
    assert pa == prefix + b + CacheSuffix;
    assert |a| == |b|;
    assert a == pa[|prefix|..|prefix| + |a|];
    assert b == pa[|prefix|..|prefix| + |b|];
  }
}
