/**
 * The certificate expiry probe of internal/tls_checker.go. The TLS dial is an oracle that either
 * fails or yields the NotAfter values of the peer chain, leaf first. Times are naturals, and 0 is
 * Go's zero time, so no NotAfter is ever before the zero time.
 */
module TlsChecker {

  /** What the dial to a host yields: an error, or the chain's NotAfter values, leaf first. */
  datatype DialResult = DialFailed | Connected(notAfter: seq<nat>)

  /** The dial oracle, called with the address it connects to. */
  type Dialer = string -> DialResult

  /** The probe result: the expiry, and whether it ended in an error. */
  datatype Probe = Probe(at: nat, failed: bool)

  /** The address the probe dials: the host on port 443. */
  function DialTarget(host: string): string
  {
    host + ":443"
  }

  /**
   * The minimum the loop over the chain computes: a zero entry is skipped, the leaf sets the
   * minimum, and any later entry replaces it when strictly before it.
   */
  function ChainMin(chain: seq<nat>): nat
  {
    if chain == [] then 0
    else
      var n := |chain| - 1;
      var m := ChainMin(chain[..n]);
      if chain[n] == 0 then m
      else if n == 0 then chain[n]
      else if chain[n] < m then chain[n]
      else m
  }

  /** The result is the zero time or one of the chain's NotAfter values. */
  lemma {:induction false} ChainMinIsEntry(chain: seq<nat>)
    ensures ChainMin(chain) == 0 || ChainMin(chain) in chain
  {
    if chain != [] {
      var n := |chain| - 1;
      ChainMinIsEntry(chain[..n]);
      assert chain == chain[..n] + [chain[n]];
    }
  }

  /** With a zero leaf the minimum stays zero: no later NotAfter is before the zero time. */
  lemma {:induction false} LeafZero(chain: seq<nat>)
    requires chain != [] && chain[0] == 0
    ensures ChainMin(chain) == 0
  {
    var n := |chain| - 1;
    if n > 0 {
      assert chain[..n][0] == chain[0];
      LeafZero(chain[..n]);
    }
  }

  /**
   * With a non-zero leaf the result is the smallest non-zero NotAfter of the chain: it is
   * non-zero, and no non-zero entry is before it. Zero entries are never chosen.
   */
  lemma {:induction false} LeafNonZero(chain: seq<nat>)
    requires chain != [] && chain[0] != 0
    ensures ChainMin(chain) != 0
    ensures forall k :: 0 <= k < |chain| && chain[k] != 0 ==> ChainMin(chain) <= chain[k]
  {
    var n := |chain| - 1;
    if n > 0 {
      assert chain[..n][0] == chain[0];
      LeafNonZero(chain[..n]);
      forall k | 0 <= k < n && chain[k] != 0
        ensures ChainMin(chain) <= chain[k]
      {
        assert chain[..n][k] == chain[k];
      }
    }
  }

  /** A zero NotAfter anywhere after the leaf changes nothing. */
  lemma {:induction false} ZeroEntryIgnored(a: seq<nat>, b: seq<nat>)
    requires a != []
    ensures ChainMin(a + [0] + b) == ChainMin(a + b)
    decreases |b|
  {
    if b == [] {
      assert a + [0] + b == a + [0];
      assert (a + [0])[..|a|] == a;
      assert a + b == a;
    } else {
      var n := |b| - 1;
      assert (a + [0] + b)[..|a| + 1 + n] == a + [0] + b[..n];
      assert (a + b)[..|a| + n] == a + b[..n];
      assert (a + [0] + b)[|a| + 1 + n] == b[n] == (a + b)[|a| + n];
      ZeroEntryIgnored(a, b[..n]);
    }
  }

  /** The probe as a function of the oracle: a failed dial gives the zero time and an error. */
  function ExpirationOf(dial: Dialer, host: string): (p: Probe)
    ensures p.failed <==> dial(DialTarget(host)).DialFailed?
    ensures p.failed ==> p.at == 0
    ensures !p.failed ==> p.at == ChainMin(dial(DialTarget(host)).notAfter)
    ensures !p.failed && dial(DialTarget(host)).notAfter == [] ==> p.at == 0
  {
    match dial(DialTarget(host))
    case DialFailed => Probe(0, true)
    case Connected(chain) => Probe(ChainMin(chain), false)
  }

  /** Expiration: dial the host on port 443 and take the minimum over the chain, entry by entry. */
  method Expiration(dial: Dialer, host: string) returns (at: nat, failed: bool)
    ensures Probe(at, failed) == ExpirationOf(dial, host)
    ensures failed <==> dial(host + ":443").DialFailed?
  {
    var conn := dial(host + ":443");
    if conn.DialFailed? {
      return 0, true;
    }
    var chain := conn.notAfter;
    var min := 0;
    for i := 0 to |chain|
      invariant min == ChainMin(chain[..i])
    {
      assert chain[..i + 1][..i] == chain[..i];
      if chain[i] != 0 {
        if i == 0 {
          min := chain[i];
        } else if chain[i] < min {
          min := chain[i];
        }
      }
    }
    assert chain[..|chain|] == chain;
    return min, false;
  }
}
