/** Host names and wildcard domains (crates/gaterust-proxy/src/config.rs). */
module Domains {
  import opened Options

  /** `host` is one label, a dot, and `suffix`. */
  predicate WildcardMatches(host: string, suffix: string) {
    && |suffix| < |host|
    && host[|host| - |suffix|..] == suffix
    && host[|host| - |suffix| - 1] == '.'
    && '.' !in host[..|host| - |suffix| - 1]
  }

  /** The suffix of a wildcard domain `*.suffix`. */
  function StripStar(domain: string): Option<string> {
    if "*." <= domain then Some(domain[2..]) else None
  }

  /** What follows the left-most label. */
  function AfterFirstDot(host: string): Option<string> {
    if host == [] then None
    else if host[0] == '.' then Some(host[1..])
    else AfterFirstDot(host[1..])
  }

  /** At most one suffix can match a host: the one behind its left-most label. */
  lemma {:induction false} OnlyOneSuffixMatches(host: string, suffix: string)
    ensures WildcardMatches(host, suffix) <==> AfterFirstDot(host) == Some(suffix)
  {
    if host != [] && host[0] != '.' {
      OnlyOneSuffixMatches(host[1..], suffix);
      var rest := host[1..];
      if |suffix| < |rest| {
        assert rest[|rest| - |suffix|..] == host[|host| - |suffix|..];
        assert host[..|host| - |suffix| - 1] == [host[0]] + rest[..|rest| - |suffix| - 1];
      }
    } else if host != [] && |suffix| < |host| {
      if |suffix| == |host| - 1 {
        assert host[..0] == [] && host[1..] == host[|host| - |suffix|..];
      } else {
        assert host[0] in host[..|host| - |suffix| - 1];
      }
    }
  }

  lemma StripStarInjective(a: string, b: string)
    requires StripStar(a).Some? && StripStar(a) == StripStar(b)
    ensures a == b
  {
    assert a == "*." + a[2..] && b == "*." + b[2..];
  }
}
