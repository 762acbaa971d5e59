/**
  Splitting "host:port" the way Go's net.SplitHostPort does, which the
  server's client-address rule relies on, and the inverse join.
 */
module HostPort {

  datatype AddrError =
    | MissingPort
    | TooManyColons
    | MissingCloseBracket
    | UnexpectedOpenBracket
    | UnexpectedCloseBracket

  datatype SplitResult = Split(host: string, port: string) | Invalid(error: AddrError)

  /** Position of the last `c` in `s`, or -1. */
  function LastIndex(s: string, c: char): (i: int)
    ensures -1 <= i < |s|
    ensures i >= 0 ==> s[i] == c
    ensures forall j :: i < j < |s| ==> s[j] != c
  {
    if |s| == 0 then -1
    else if s[|s| - 1] == c then |s| - 1
    else LastIndex(s[..|s| - 1], c)
  }

  /** Position of the first `c` in `s`, or -1. */
  function FirstIndex(s: string, c: char): (i: int)
    ensures -1 <= i < |s|
    ensures i >= 0 ==> s[i] == c && c !in s[..i]
    ensures i < 0 ==> c !in s
  {
    if |s| == 0 then -1
    else if s[0] == c then 0
    else
      var k := FirstIndex(s[1..], c);
      if k < 0 then -1
      else
        assert s[..k + 1] == [s[0]] + s[1..][..k];
        k + 1
  }

  /** The last checks shared by both shapes: no stray brackets, then the port after the last colon. */
  function Finish(hostport: string, host: string, colon: nat, j: nat, k: nat): (r: SplitResult)
    requires colon < |hostport| && j <= |hostport| && k <= |hostport|
    ensures r.Split? ==> r.host == host && r.port == hostport[colon + 1..]
  {
    if '[' in hostport[j..] then Invalid(UnexpectedOpenBracket)
    else if ']' in hostport[k..] then Invalid(UnexpectedCloseBracket)
    else Split(host, hostport[colon + 1..])
  }

  /**
    The port is what follows the last colon; the host is what precedes it,
    unwrapped from square brackets when the address starts with '['.
   */
  function SplitHostPort(hostport: string): (r: SplitResult)
    ensures r.Split? ==>
      && ':' !in r.port
      && (hostport == r.host + ":" + r.port || hostport == "[" + r.host + "]:" + r.port)
    ensures ':' !in hostport ==> r == Invalid(MissingPort)
  {
    var colon := LastIndex(hostport, ':');
    if colon < 0 then Invalid(MissingPort)
    else
      assert ':' !in hostport[colon + 1..];
      if hostport[0] == '[' then
        var end := FirstIndex(hostport, ']');
        if end < 0 then Invalid(MissingCloseBracket)
        else if end + 1 == |hostport| then Invalid(MissingPort)
        else if end + 1 != colon then
          if hostport[end + 1] == ':' then Invalid(TooManyColons) else Invalid(MissingPort)
        else
          assert hostport == "[" + hostport[1..end] + "]:" + hostport[colon + 1..];
          Finish(hostport, hostport[1..end], colon, 1, end + 1)
      else
        var host := hostport[..colon];
        if ':' in host then Invalid(TooManyColons)
        else
          assert hostport == host + ":" + hostport[colon + 1..];
          Finish(hostport, host, colon, 0, 0)
  }

  /** Go's net.JoinHostPort: hosts containing a colon are put in square brackets. */
  function JoinHostPort(host: string, port: string): string
  {
    if ':' in host then "[" + host + "]:" + port else host + ":" + port
  }

  /** A host and a port free of brackets, the port also free of colons. */
  ghost predicate Plain(host: string, port: string)
  {
    '[' !in host && ']' !in host && ':' !in port && '[' !in port && ']' !in port
  }

  /** Locating the last colon: one at k with none after it. */
  lemma LastIndexAt(s: string, c: char, k: nat)
    requires k < |s| && s[k] == c && c !in s[k + 1..]
    ensures LastIndex(s, c) == k
  {
  }

  /** A bracketed host: "[host]:port". */
  lemma SplitJoinBracketed(host: string, port: string)
    requires Plain(host, port) && ':' in host
    ensures SplitHostPort("[" + host + "]:" + port) == Split(host, port)
  {
    var hp := "[" + host + "]:" + port;
    var end := |host| + 1;
    assert hp[..end] == "[" + host;
    assert hp[end] == ']';
    assert hp[1..] == host + "]:" + port;
    assert hp[end + 1..] == ":" + port;
    assert hp[end + 2..] == port;
    LastIndexAt(hp, ':', end + 1);
    assert FirstIndex(hp, ']') == end;
    assert hp[1..end] == host;
  }

  /** A host without colons: "host:port". */
  lemma SplitJoinBare(host: string, port: string)
    requires Plain(host, port) && ':' !in host
    ensures SplitHostPort(host + ":" + port) == Split(host, port)
  {
    var hp := host + ":" + port;
    assert hp[..|host|] == host;
    assert hp[|host| + 1..] == port;
    LastIndexAt(hp, ':', |host|);
    assert hp[0..] == hp;
    if host != [] {
      assert hp[0] == host[0];
    }
  }

  /** Splitting a joined address gives back its host and port. */
  lemma SplitJoin(host: string, port: string)
    requires Plain(host, port)
    ensures SplitHostPort(JoinHostPort(host, port)) == Split(host, port)
  {
    if ':' in host {
      SplitJoinBracketed(host, port);
    } else {
      SplitJoinBare(host, port);
    }
  }
}
