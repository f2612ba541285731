/** Proxy normalisation and round-robin rotation of the rotating sessions
    (RotatingProxySession and the proxy-selection step that precedes every
    request of RequestsRotating and TLSRotating). */
module Proxies {

  import opened Maybe

  /** The dictionary {"http": ..., "https": ...} handed to the session. */
  datatype ProxyPair = ProxyPair(http: string, https: string)

  const HttpScheme := "http://"
  const HttpsScheme := "https://"

  /** The value that stands for "no proxy" in a rotation. */
  const Localhost := "http://localhost"

  predicate StartsWith(s: string, prefix: string) {
    |prefix| <= |s| && s[..|prefix|] == prefix
  }

  predicate HasScheme(proxy: string) {
    StartsWith(proxy, HttpScheme) || StartsWith(proxy, HttpsScheme)
  }

  /** format_proxy: both keys get the same URL; a proxy with a scheme is
      kept, anything else is turned into an http:// URL. The original
      string can always be recovered. */
  function FormatProxy(proxy: string): (r: ProxyPair)
    ensures r.http == r.https
    ensures HasScheme(r.http)
    ensures HasScheme(proxy) ==> r.http == proxy
    ensures !HasScheme(proxy) ==> |r.http| == |HttpScheme| + |proxy| && r.http[..|HttpScheme|] == HttpScheme && r.http[|HttpScheme|..] == proxy
  {
    if HasScheme(proxy) then ProxyPair(proxy, proxy)
    else
      var url := HttpScheme + proxy;
      assert url[..|HttpScheme|] == HttpScheme;
      ProxyPair(url, url)
  }

  /** Formatting an already formatted proxy changes nothing. */
  lemma FormatProxyIdempotent(proxy: string)
    ensures FormatProxy(FormatProxy(proxy).http) == FormatProxy(proxy)
  {
  }

  /** A bare host and port becomes an http:// URL, on an example. */
  lemma FormatProxyExamples()
    ensures FormatProxy("1.2.3.4:8080") == ProxyPair("http://1.2.3.4:8080", "http://1.2.3.4:8080")
    ensures FormatProxy("https://p:1") == ProxyPair("https://p:1", "https://p:1")
  {
    assert !StartsWith("1.2.3.4:8080", HttpScheme) by {
      assert "1.2.3.4:8080"[..|HttpScheme|] != HttpScheme by {
        assert "1.2.3.4:8080"[0] != HttpScheme[0];
      }
    }
    assert !StartsWith("1.2.3.4:8080", HttpsScheme) by {
      assert "1.2.3.4:8080"[0] != HttpsScheme[0];
    }
    assert HttpScheme + "1.2.3.4:8080" == "http://1.2.3.4:8080";
    assert StartsWith("https://p:1", HttpsScheme) by {
      assert "https://p:1"[..|HttpsScheme|] == HttpsScheme;
    }
  }

  /** The proxies argument of the session constructors. */
  datatype ProxyArg = NoArg | StrArg(proxy: string) | ListArg(items: seq<string>) | OtherArg

  /** RotatingProxySession.__init__: a string gives a one-element cycle, a
      non-empty list a cycle of its formatted elements in list order, and
      an empty list, None or any other value no rotation. */
  function InitCycle(arg: ProxyArg): (c: Option<seq<ProxyPair>>)
    ensures c.Some? <==> arg.StrArg? || (arg.ListArg? && |arg.items| > 0)
    ensures c.Some? ==> |c.value| > 0
    ensures arg.StrArg? ==> c == Some([FormatProxy(arg.proxy)])
    ensures arg.ListArg? && c.Some? ==>
      |c.value| == |arg.items| && forall i :: 0 <= i < |arg.items| ==> c.value[i] == FormatProxy(arg.items[i])
  {
    match arg
    case StrArg(p) => Some([FormatProxy(p)])
    case ListArg(items) =>
      if |items| > 0 then Some(seq(|items|, i requires 0 <= i < |items| => FormatProxy(items[i]))) else None
    case _ => None
  }

  /** The session's current proxies: none (an empty dictionary) or a pair. */
  datatype Proxies = Direct | Through(pair: ProxyPair)

  /** A rotating session as far as proxies go: the cycle, the position of
      the next element it yields, and the proxies currently set. */
  datatype Rotor = Rotor(cycle: Option<seq<ProxyPair>>, next: nat, proxies: Proxies)

  /** The representation invariant: a cycle is non-empty and the position
      is inside it. */
  predicate Valid(r: Rotor) {
    r.cycle.Some? ==> |r.cycle.value| > 0 && r.next < |r.cycle.value|
  }

  /** A freshly constructed session: the cycle from the argument, at its
      start, with no proxies set. */
  function NewRotor(arg: ProxyArg): (r: Rotor)
    ensures Valid(r)
  {
    Rotor(InitCycle(arg), 0, Direct)
  }

  /** What one pair taken from the cycle sets: localhost clears the proxies,
      anything else is used as is. */
  function ProxiesFor(pair: ProxyPair): Proxies {
    if pair.http != Localhost then Through(pair) else Direct
  }

  /** The proxy-selection step before a request: with a cycle, take its
      next pair and advance; without one, leave the session as it is. */
  function SelectProxy(r: Rotor): (s: Rotor)
    requires Valid(r)
    ensures Valid(s) && s.cycle == r.cycle
    ensures r.cycle.None? ==> s == r
    ensures r.cycle.Some? ==>
      && s.next == (r.next + 1) % |r.cycle.value|
      && (s.proxies == Direct <==> r.cycle.value[r.next].http == Localhost)
      && (s.proxies.Through? ==> s.proxies.pair == r.cycle.value[r.next])
  {
    match r.cycle
    case None => r
    case Some(c) => Rotor(r.cycle, (r.next + 1) % |c|, ProxiesFor(c[r.next]))
  }

  /** The session after `k` requests. */
  function Requests(r: Rotor, k: nat): (s: Rotor)
    requires Valid(r)
    ensures Valid(s) && s.cycle == r.cycle
    decreases k
  {
    if k == 0 then r else SelectProxy(Requests(r, k - 1))
  }

  /** Round robin: after `k` requests the cycle is `k` places further on,
      and the k-th request used the pair `k - 1` places after the start. */
  lemma {:induction false} RoundRobin(r: Rotor, k: nat)
    requires Valid(r) && r.cycle.Some?
    ensures var n := |r.cycle.value|;
            var s := Requests(r, k);
            && s.next == (r.next + k) % n
            && (k > 0 ==> s.proxies == ProxiesFor(r.cycle.value[(r.next + k - 1) % n]))
    decreases k
  {
    if k == 0 {
      ModUnique(r.next, |r.cycle.value|, 0, r.next);
    } else {
      RoundRobin(r, k - 1);
      RequestStep(r, k);
    }
  }

  /** One more request takes the pair at the current position and moves
      the position on by one. */
  lemma RequestStep(r: Rotor, k: nat)
    requires Valid(r) && r.cycle.Some? && k > 0
    requires Requests(r, k - 1).next == (r.next + k - 1) % |r.cycle.value|
    ensures var n := |r.cycle.value|;
            var s := Requests(r, k);
            s.next == (r.next + k) % n && s.proxies == ProxiesFor(r.cycle.value[(r.next + k - 1) % n])
  {
    var p := Requests(r, k - 1);
    assert Requests(r, k) == SelectProxy(p);
    ModStep(r.next + k - 1, |r.cycle.value|);
  }

  /** Stepping a position inside a cycle of length n by one is the same as
      taking the successor modulo n. */
  lemma ModStep(a: nat, n: nat)
    requires n > 0
    ensures (a % n + 1) % n == (a + 1) % n
  {
    var q, m := a / n, a % n;
    assert a == q * n + m;
    if m + 1 < n {
      ModUnique(a + 1, n, q, m + 1);
      ModUnique(m + 1, n, 0, m + 1);
    } else {
      assert a + 1 == (q + 1) * n + 0;
      ModUnique(a + 1, n, q + 1, 0);
      ModUnique(m + 1, n, 1, 0);
    }
  }

  lemma ModUnique(x: int, n: int, q: int, m: int)
    requires n > 0 && 0 <= m < n && x == q * n + m
    ensures x % n == m
  {
    var q', m' := x / n, x % n;
    assert x == q' * n + m';
    var d := q - q';
    assert d * n == m' - m;
    if d > 0 {
      MulAtLeast(d, n);
    } else if d < 0 {
      MulAtLeast(-d, n);
    }
  }

  lemma MulAtLeast(d: int, n: int)
    requires d > 0 && n > 0
    ensures d * n >= n
  {
  }

  /** A session built from a list of proxies uses them in list order, one
      per request, starting over after the last. */
  lemma ListRotation(items: seq<string>, k: nat)
    requires |items| > 0 && k > 0
    ensures Requests(NewRotor(ListArg(items)), k).proxies == ProxiesFor(FormatProxy(items[(k - 1) % |items|]))
  {
    RoundRobin(NewRotor(ListArg(items)), k);
  }

  /** A single proxy string is used for every request. */
  lemma StringUsedEveryTime(proxy: string, k: nat)
    requires k > 0
    ensures Requests(NewRotor(StrArg(proxy)), k).proxies == ProxiesFor(FormatProxy(proxy))
  {
    RoundRobin(NewRotor(StrArg(proxy)), k);
  }

  /** Without a rotation no request changes the session's proxies. */
  lemma NoRotationKeepsProxies(r: Rotor, k: nat)
    requires Valid(r) && r.cycle.None?
    ensures Requests(r, k) == r
  {
  }

}
