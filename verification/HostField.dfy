/** The text of a `Host` field, `host [ ":" port ]`, and of an origin-form target: printing and parsing. */
module HostField {
  import opened Wrappers

  /** Index of the first `c` in `s`, or the length of `s`. */
  function Find(s: string, c: char): (i: nat)
    ensures i <= |s| && c !in s[..i] && (i < |s| ==> s[i] == c)
  {
    if s == [] then 0
    else if s[0] == c then 0
    else
      var i := Find(s[1..], c) + 1;
      assert s[..i] == [s[0]] + s[1..][..i - 1];
      i
  }

  /** The first occurrence is the only one with none before it. */
  lemma {:induction false} FindIs(s: string, c: char, k: nat)
    requires k <= |s| && c !in s[..k] && (k < |s| ==> s[k] == c)
    ensures Find(s, c) == k
  {
    if k > 0 {
      assert s[0] == s[..k][0];
      assert s[1..][..k - 1] == s[..k][1..];
      FindIs(s[1..], c, k - 1);
    }
  }

  lemma FindAfter(a: string, c: char, b: string)
    requires c !in a
    ensures Find(a + [c] + b, c) == |a|
  {
    assert (a + [c] + b)[..|a|] == a;
    FindIs(a + [c] + b, c, |a|);
  }

  lemma FindNone(a: string, c: char)
    requires c !in a
    ensures Find(a, c) == |a|
  {
    assert a[..|a|] == a;
    FindIs(a, c, |a|);
  }

  predicate IsDigits(s: string) {
    s != [] && forall i | 0 <= i < |s| :: '0' <= s[i] <= '9'
  }

  function Number(s: string): nat
    requires forall i | 0 <= i < |s| :: '0' <= s[i] <= '9'
  {
    if s == [] then 0 else 10 * Number(s[..|s| - 1]) + (s[|s| - 1] as int - '0' as int)
  }

  /** A number in decimal, as many digits as it takes. */
  function Decimal(n: nat): (s: string)
    ensures IsDigits(s)
  {
    if n < 10 then ["0123456789"[n]] else Decimal(n / 10) + ["0123456789"[n % 10]]
  }

  lemma DigitValue(d: nat)
    requires d < 10
    ensures "0123456789"[d] as int - '0' as int == d
  {
  }

  /** A number is read as it is written, and leading zeros make no difference. */
  lemma {:induction false} NumberReadsDecimal(n: nat)
    ensures Number(Decimal(n)) == n
    decreases n
  {
    DigitValue(n % 10);
    if n < 10 {
      assert Decimal(n)[..0] == "";
    } else {
      NumberReadsDecimal(n / 10);
      assert Decimal(n)[..|Decimal(n)| - 1] == Decimal(n / 10);
    }
  }

  lemma {:induction false} LeadingZeros(s: string)
    requires forall i | 0 <= i < |s| :: '0' <= s[i] <= '9'
    ensures Number("0" + s) == Number(s)
    decreases |s|
  {
    if s == [] {
      assert ("0" + s)[..0] == "";
    } else {
      LeadingZeros(s[..|s| - 1]);
      assert ("0" + s)[..|s|] == "0" + s[..|s| - 1];
    }
  }

  /** A port as it is written, leading zeros included. */
  predicate IsPort(s: string) {
    IsDigits(s) && Number(s) < 0x1_0000
  }

  predicate IsBracketed(h: string) {
    |h| >= 2 && h[0] == '[' && h[|h| - 1] == ']' && ']' !in h[..|h| - 1]
  }

  /** A registered name, an IPv4 address, or an IPv6 address in brackets. */
  predicate IsHost(h: string) {
    IsBracketed(h) || (':' !in h && (h == [] || h[0] != '['))
  }

  function PrintHost(host: string, port: Option<string>): string {
    match port
    case None => host
    case Some(p) => host + ":" + p
  }

  /** Where the host ends. */
  function HostEnd(s: string): (i: Option<nat>)
    ensures i.Some? ==> i.value <= |s|
  {
    if s != [] && s[0] == '[' then
      var i := Find(s, ']');
      if i < |s| then Some(i + 1) else None
    else Some(Find(s, ':'))
  }

  function ParseHost(s: string): (r: Option<(string, Option<string>)>)
    ensures r.Some? && r.value.1.Some? ==> IsPort(r.value.1.value)
  {
    match HostEnd(s)
    case None => None
    case Some(i) =>
      if i == |s| then Some((s, None))
      else if s[i] == ':' && IsPort(s[i + 1..]) then Some((s[..i], Some(s[i + 1..])))
      else None
  }

  lemma HostEnds(host: string, port: Option<string>)
    requires IsHost(host)
    ensures HostEnd(PrintHost(host, port)) == Some(|host|)
  {
    var s := PrintHost(host, port);
    if IsBracketed(host) {
      var tail := if port.Some? then ":" + port.value else "";
      assert s == host[..|host| - 1] + [']'] + tail;
      FindAfter(host[..|host| - 1], ']', tail);
    } else {
      match port
      case None => FindNone(host, ':');
      case Some(p) => FindAfter(host, ':', p);
    }
  }

  /** Parsing gives back what was printed, bracketed IPv6 addresses included. */
  lemma HostRoundTrip(host: string, port: Option<string>)
    requires IsHost(host) && (port.Some? ==> IsPort(port.value))
    ensures ParseHost(PrintHost(host, port)) == Some((host, port))
  {
    HostEnds(host, port);
    var s := PrintHost(host, port);
    assert s[..|host|] == host;
    if port.Some? {
      assert s[|host| + 1..] == port.value;
    }
  }

  /** What ends where a host ends is a host. */
  lemma HostEndIsHost(s: string)
    requires HostEnd(s).Some?
    ensures IsHost(s[..HostEnd(s).value])
  {
    var i := HostEnd(s).value;
    var host := s[..i];
    if s != [] && s[0] == '[' {
      assert i >= 2 && host[i - 1] == ']';
      assert host[..i - 1] == s[..i - 1];
    } else if i > 0 {
      assert host[0] == s[0];
    }
  }

  /** Printing gives back what was parsed, and only hosts and ports are ever parsed. */
  lemma HostParsed(s: string)
    requires ParseHost(s).Some?
    ensures var (host, port) := ParseHost(s).value;
            IsHost(host) && (port.Some? ==> IsPort(port.value)) && PrintHost(host, port) == s
  {
    HostEndIsHost(s);
    var i := HostEnd(s).value;
    if i == |s| {
      assert s[..i] == s;
    } else {
      assert s == s[..i] + ":" + s[i + 1..];
    }
  }

  /** The text of an origin-form target. */
  function PrintTarget(path: string, query: Option<string>): string {
    match query
    case None => path
    case Some(q) => path + "?" + q
  }

  function ParseTarget(s: string): (string, Option<string>) {
    var i := Find(s, '?');
    (s[..i], if i == |s| then None else Some(s[i + 1..]))
  }

  lemma TargetRoundTrip(path: string, query: Option<string>)
    requires '?' !in path
    ensures PrintTarget(path, query) == path + (if query.Some? then "?" + query.value else "")
    ensures ParseTarget(PrintTarget(path, query)) == (path, query)
  {
    var s := PrintTarget(path, query);
    match query
    case None =>
      FindNone(path, '?');
      assert s[..|path|] == path;
    case Some(q) =>
      FindAfter(path, '?', q);
      assert s[..|path|] == path && s[|path| + 1..] == q;
  }
}
