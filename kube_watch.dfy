/**
 * The ingress cache engine of internal/kube_watch.go: the record store keyed by UID, the
 * coalescing notifier with its two capacity-1 wake-up channels, and one pass of each background
 * loop (icon discovery and certificate expiry). The lock, goroutines and timer become sequential
 * method calls; the receiver is the list of snapshots it has been handed.
 */
module KubeWatch {
  import opened Wrappers
  import opened KubeModel
  import opened KubeRefs
  import opened Snapshot
  import opened TlsChecker
  import opened Net

  /** Every entry is stored under its own UID. */
  ghost predicate KeyedByUID(cache: map<string, Ingress>) {
    forall u :: u in cache ==> cache[u].uid == u
  }

  /** A record of a snapshot is the entry stored under its UID. */
  lemma SnapshotItem(cache: map<string, Ingress>, items: seq<Ingress>, i: nat)
    requires KeyedByUID(cache) && IsSnapshot(cache, items) && i < |items|
    ensures items[i].uid in cache && cache[items[i].uid] == items[i]
  {
    assert Stored(cache, items[i]);
    var w :| w in cache && cache[w] == items[i];
  }

  /** The records of a list all have their UID in `done`. */
  ghost predicate Covered(s: seq<Ingress>, done: set<string>) {
    forall k :: 0 <= k < |s| ==> s[k].uid in done
  }

  lemma CoveredStep(items: seq<Ingress>, i: nat, done: set<string>)
    requires i < |items| && Covered(items[..i], done)
    ensures Covered(items[..i + 1], done + {items[i].uid})
  {
    assert forall k :: 0 <= k < i ==> items[..i + 1][k] == items[..i][k];
  }

  /** Once a whole snapshot is covered, so is every key of the cache it was taken from. */
  lemma CoveredAll(cache: map<string, Ingress>, items: seq<Ingress>, done: set<string>)
    requires KeyedByUID(cache) && IsSnapshot(cache, items) && Covered(items[..|items|], done)
    ensures cache.Keys <= done
  {
    assert items[..|items|] == items;
    forall u | u in cache ensures u in done {
      SnapshotCovers(cache, items, u);
    }
  }

  /** Every entry appears in a snapshot under its UID. */
  lemma SnapshotCovers(cache: map<string, Ingress>, items: seq<Ingress>, u: string)
    requires KeyedByUID(cache) && IsSnapshot(cache, items) && u in cache
    ensures exists k :: 0 <= k < |items| && items[k].uid == u
  {
    assert Listed(items, cache[u]);
    var k :| 0 <= k < |items| && items[k] == cache[u];
  }

  // ---- upsert ----

  /** The record stored on upsert: the new one, except that a discovered logo survives an empty one. */
  function Sticky(cache: map<string, Ingress>, rec: Ingress): (r: Ingress)
    ensures rec.uid in cache && cache[rec.uid].logoURL != "" && rec.logoURL == "" ==>
              r == rec.(logoURL := cache[rec.uid].logoURL)
    ensures !(rec.uid in cache && cache[rec.uid].logoURL != "" && rec.logoURL == "") ==> r == rec
  {
    var oldLogo := if rec.uid in cache then cache[rec.uid].logoURL else "";
    if oldLogo != "" && rec.logoURL == "" then rec.(logoURL := oldLogo) else rec
  }

  /** Sticky changes at most the logo, and never leaves a logo empty that was set before. */
  lemma StickyKeepsLogo(cache: map<string, Ingress>, rec: Ingress)
    ensures Sticky(cache, rec).(logoURL := rec.logoURL) == rec
    ensures rec.uid in cache && cache[rec.uid].logoURL != "" ==> Sticky(cache, rec).logoURL != ""
    ensures rec.logoURL != "" ==> Sticky(cache, rec) == rec
  {
  }

  /** The cache after an upsert of the given object. */
  ghost predicate Upserted(before: map<string, Ingress>, lookup: ServiceLookup, obj: KubeObject, after: map<string, Ingress>) {
    match obj
    case IngressObject(ing) =>
      && after.Keys == before.Keys + {ing.uid}
      && (forall u :: u in before && u != ing.uid ==> after[u] == before[u])
      && IsRefsOf(lookup, ing, after[ing.uid].refs)
      && after[ing.uid] == Sticky(before, Inspected(ing, after[ing.uid].refs))
    case _ => after == before
  }

  /** Storing the sticky record of an inspected ingress under its UID is the upsert. */
  lemma UpsertStored(before: map<string, Ingress>, lookup: ServiceLookup, ing: KubeIngress, inspected: Ingress)
    requires KeyedByUID(before)
    requires IsRefsOf(lookup, ing, inspected.refs) && inspected == Inspected(ing, inspected.refs)
    ensures Upserted(before, lookup, IngressObject(ing), before[inspected.uid := Sticky(before, inspected)])
    ensures KeyedByUID(before[inspected.uid := Sticky(before, inspected)])
  {
  }

  // ---- icon discovery pass ----

  /** A record the icon pass probes: shown, without a logo, with at least one reference. */
  predicate Candidate(rec: Ingress) {
    !rec.hide && rec.logoURL == "" && |rec.refs| > 0
  }

  /** The record after the icon pass: a candidate takes the discovered icon of its first reference, if any. */
  function LogoStep(detect: string -> string, rec: Ingress): (r: Ingress)
    ensures !Candidate(rec) ==> r == rec
    ensures Candidate(rec) && detect(rec.refs[0].url) == "" ==> r == rec
    ensures Candidate(rec) && detect(rec.refs[0].url) != "" ==> r == rec.(logoURL := detect(rec.refs[0].url))
  {
    if Candidate(rec) && detect(rec.refs[0].url) != "" then rec.(logoURL := detect(rec.refs[0].url)) else rec
  }

  // ---- certificate expiry pass ----

  /** What one reference contributes: the expiry of its host, or 0 when unparsable, failing or zero. */
  function HostExpiry(dial: Dialer, parse: ParseURL, url: string): Time
  {
    match parse(url)
    case None => 0
    case Some(u) => ExpirationOf(dial, u.hostname).at
  }

  /** The minimum scanTLSCerts computes for one record, reference by reference, skipping zeros. */
  function RecordMin(dial: Dialer, parse: ParseURL, refs: seq<Ref>): Time
  {
    if refs == [] then 0
    else
      var m := RecordMin(dial, parse, refs[..|refs| - 1]);
      var x := HostExpiry(dial, parse, refs[|refs| - 1].url);
      if x == 0 then m else TimeMin(m, x)
  }

  /**
   * The record minimum is the least non-zero expiry over the references, and 0 exactly when no
   * reference yields a non-zero expiry.
   */
  lemma {:induction false} RecordMinIsLeast(dial: Dialer, parse: ParseURL, refs: seq<Ref>)
    ensures var r := RecordMin(dial, parse, refs);
      && (r == 0 <==> forall k :: 0 <= k < |refs| ==> HostExpiry(dial, parse, refs[k].url) == 0)
      && (r != 0 ==> exists k :: 0 <= k < |refs| && HostExpiry(dial, parse, refs[k].url) == r)
      && (forall k :: 0 <= k < |refs| && HostExpiry(dial, parse, refs[k].url) != 0 ==> r <= HostExpiry(dial, parse, refs[k].url))
  {
    if refs != [] {
      var n := |refs| - 1;
      RecordMinIsLeast(dial, parse, refs[..n]);
      var m := RecordMin(dial, parse, refs[..n]);
      var x := HostExpiry(dial, parse, refs[n].url);
      forall k | 0 <= k < n ensures refs[..n][k] == refs[k] { }
      if m != 0 {
        var k :| 0 <= k < n && HostExpiry(dial, parse, refs[..n][k].url) == m;
        assert HostExpiry(dial, parse, refs[k].url) == m;
      }
    }
  }

  /** Taking one more reference into the minimum. */
  lemma RecordMinStep(dial: Dialer, parse: ParseURL, refs: seq<Ref>, j: nat)
    requires j < |refs|
    ensures var m, x := RecordMin(dial, parse, refs[..j]), HostExpiry(dial, parse, refs[j].url);
      RecordMin(dial, parse, refs[..j + 1]) == if x == 0 then m else TimeMin(m, x)
  {
    assert refs[..j + 1][..j] == refs[..j];
  }

  /** The record after the expiry pass: a TLS record with a non-zero minimum takes it. */
  function TlsStep(dial: Dialer, parse: ParseURL, rec: Ingress): (r: Ingress)
    ensures !rec.tls ==> r == rec
    ensures RecordMin(dial, parse, rec.refs) == 0 ==> r == rec
    ensures rec.tls && RecordMin(dial, parse, rec.refs) != 0 ==>
              r == rec.(tlsExpiration := RecordMin(dial, parse, rec.refs))
  {
    var m := RecordMin(dial, parse, rec.refs);
    if rec.tls && m != 0 then rec.(tlsExpiration := m) else rec
  }

  /** A host whose probe is not remembered: it failed, or reported the zero time. */
  predicate Unremembered(dial: Dialer, host: string) {
    var p := ExpirationOf(dial, host);
    p.failed || p.at == 0
  }

  // ---- the passes, entry by entry ----

  /** The entries in `done` have taken the icon pass, the others are as in `c0`. */
  ghost predicate LogoStepped(detect: string -> string, c0: map<string, Ingress>, cache: map<string, Ingress>, done: set<string>) {
    && cache.Keys == c0.Keys
    && (forall u :: u in c0 ==> cache[u] == (if u in done then LogoStep(detect, c0[u]) else c0[u]))
  }

  /** A URL the icon pass may probe: the first reference of a candidate. */
  ghost predicate CandidateURL(c0: map<string, Ingress>, url: string) {
    exists u :: u in c0 && Candidate(c0[u]) && url == c0[u].refs[0].url
  }

  /** What the icon pass keeps true after the records in `done`: entries stepped, probes accounted for. */
  ghost predicate LogoProgress(detect: string -> string, c0: map<string, Ingress>, cache: map<string, Ingress>,
                               done: set<string>, probes: seq<string>) {
    && done <= c0.Keys
    && LogoStepped(detect, c0, cache, done)
    && (forall k :: 0 <= k < |probes| ==> CandidateURL(c0, probes[k]))
    && (forall u :: u in done && Candidate(c0[u]) ==> c0[u].refs[0].url in probes)
  }

  /**
   * One record of the icon pass: a candidate's first URL is probed, and updateLogo's guarded write
   * turns the entry into its icon-pass result.
   */
  lemma LogoAdvance(detect: string -> string, c0: map<string, Ingress>, before: map<string, Ingress>,
                    after: map<string, Ingress>, done: set<string>, probes: seq<string>, probes': seq<string>, ing: Ingress)
    requires ing.uid in c0 && c0[ing.uid] == ing
    requires LogoProgress(detect, c0, before, done, probes)
    requires probes' == if Candidate(ing) then probes + [ing.refs[0].url] else probes
    requires Candidate(ing) && detect(ing.refs[0].url) != "" && before[ing.uid].logoURL == "" ==>
               after == before[ing.uid := before[ing.uid].(logoURL := detect(ing.refs[0].url))]
    requires !(Candidate(ing) && detect(ing.refs[0].url) != "" && before[ing.uid].logoURL == "") ==> after == before
    ensures LogoProgress(detect, c0, after, done + {ing.uid}, probes')
  {
    assert LogoStepped(detect, c0, after, done + {ing.uid});
    forall k | 0 <= k < |probes'| ensures CandidateURL(c0, probes'[k]) {
      if k == |probes| {
        assert Candidate(c0[ing.uid]);
      } else {
        assert probes'[k] == probes[k];
      }
    }
  }

  /** The entries in `done` have taken the expiry pass, the others are as in `c0`. */
  ghost predicate TlsStepped(dial: Dialer, parse: ParseURL, c0: map<string, Ingress>, cache: map<string, Ingress>, done: set<string>) {
    && cache.Keys == c0.Keys
    && (forall u :: u in c0 ==> cache[u] == (if u in done then TlsStep(dial, parse, c0[u]) else c0[u]))
  }

  /** One record of the expiry pass, with its computed minimum, extends the stepped entries by its UID. */
  lemma TlsAdvance(dial: Dialer, parse: ParseURL, c0: map<string, Ingress>, before: map<string, Ingress>,
                   after: map<string, Ingress>, done: set<string>, ing: Ingress, min: Time)
    requires ing.uid in c0 && c0[ing.uid] == ing && done <= c0.Keys
    requires TlsStepped(dial, parse, c0, before, done)
    requires ing.tls ==> min == RecordMin(dial, parse, ing.refs)
    requires ing.tls && min != 0 ==> after == before[ing.uid := before[ing.uid].(tlsExpiration := min)]
    requires !(ing.tls && min != 0) ==> after == before
    ensures done + {ing.uid} <= c0.Keys && TlsStepped(dial, parse, c0, after, done + {ing.uid})
  {
  }

  /**
   * Once every entry has taken the expiry pass, each holds its pass result, no good probe was
   * repeated, only hosts of TLS records were probed, and every parsable host of a TLS record was.
   */
  lemma TlsFinished(dial: Dialer, parse: ParseURL, c0: map<string, Ingress>, cache: map<string, Ingress>,
                    done: set<string>, visited: map<string, Time>, probes: seq<string>)
    requires TlsStepped(dial, parse, c0, cache, done) && c0.Keys <= done && ProbedOnce(dial, visited, probes)
    requires TlsHostsOnly(parse, c0, probes) && HostsProbed(parse, c0, done, probes)
    ensures cache.Keys == c0.Keys
    ensures forall u :: u in c0 ==> cache[u] == TlsStep(dial, parse, c0[u])
    ensures forall i, j :: 0 <= i < j < |probes| && probes[i] == probes[j] ==> Unremembered(dial, probes[i])
    ensures forall k :: 0 <= k < |probes| ==> TlsHost(parse, c0, probes[k])
    ensures forall u, j :: u in c0 && c0[u].tls && 0 <= j < |c0[u].refs| && parse(c0[u].refs[j].url).Some?
              ==> parse(c0[u].refs[j].url).value.hostname in probes
  {
    assert forall u :: u in c0 && c0[u].tls ==> RefsProbed(parse, c0[u].refs, |c0[u].refs|, probes);
  }

  /** Once every entry has taken the icon pass, each holds its pass result and every candidate was probed. */
  lemma LogoFinished(detect: string -> string, c0: map<string, Ingress>, cache: map<string, Ingress>,
                     done: set<string>, probes: seq<string>)
    requires LogoProgress(detect, c0, cache, done, probes) && c0.Keys <= done
    ensures cache.Keys == c0.Keys
    ensures forall u :: u in c0 ==> cache[u] == LogoStep(detect, c0[u])
    ensures forall k :: 0 <= k < |probes| ==> CandidateURL(c0, probes[k])
    ensures forall u :: u in c0 && Candidate(c0[u]) ==> c0[u].refs[0].url in probes
  {
  }

  /** The memo of the expiry pass holds only non-zero, successful probe results. */
  ghost predicate Memo(dial: Dialer, visited: map<string, Time>) {
    forall h :: h in visited ==> visited[h] == ExpirationOf(dial, h).at && !Unremembered(dial, h)
  }

  /** No host with a remembered result was probed twice, and each such host is in the memo. */
  ghost predicate ProbedOnce(dial: Dialer, visited: map<string, Time>, probes: seq<string>) {
    && (forall k :: 0 <= k < |probes| && !Unremembered(dial, probes[k]) ==> probes[k] in visited)
    && (forall a, b :: 0 <= a < b < |probes| && probes[a] == probes[b] ==> Unremembered(dial, probes[a]))
  }

  /** Probing a host missing from the memo, and remembering a good result, keeps both facts. */
  lemma ProbeAdvance(dial: Dialer, visited: map<string, Time>, probes: seq<string>, host: string)
    requires Memo(dial, visited) && ProbedOnce(dial, visited, probes) && host !in visited
    ensures var v := if Unremembered(dial, host) then visited else visited[host := ExpirationOf(dial, host).at];
      Memo(dial, v) && ProbedOnce(dial, v, probes + [host])
  {
  }

  /** A reference whose host is in the memo contributes the remembered expiry. */
  lemma MemoHit(dial: Dialer, parse: ParseURL, visited: map<string, Time>, url: string)
    requires Memo(dial, visited) && parse(url).Some? && parse(url).value.hostname in visited
    ensures HostExpiry(dial, parse, url) == visited[parse(url).value.hostname] != 0
  {
  }

  /** The host is the host name of one of the references. */
  ghost predicate RefHost(parse: ParseURL, refs: seq<Ref>, host: string) {
    exists j :: 0 <= j < |refs| && parse(refs[j].url).Some? && parse(refs[j].url).value.hostname == host
  }

  /** The host belongs to a reference of a TLS record of the cache. */
  ghost predicate TlsHost(parse: ParseURL, c0: map<string, Ingress>, host: string) {
    exists u :: u in c0 && c0[u].tls && RefHost(parse, c0[u].refs, host)
  }

  /** Every probed host belongs to a reference of a TLS record. */
  ghost predicate TlsHostsOnly(parse: ParseURL, c0: map<string, Ingress>, probes: seq<string>) {
    forall k :: 0 <= k < |probes| ==> TlsHost(parse, c0, probes[k])
  }

  /** Hosts probed for a TLS record of the cache keep the probe log within TLS hosts. */
  lemma TlsHostsGrow(parse: ParseURL, c0: map<string, Ingress>, item: Ingress, probes0: seq<string>, probes: seq<string>)
    requires item.uid in c0 && c0[item.uid] == item && item.tls
    requires TlsHostsOnly(parse, c0, probes0)
    requires |probes0| <= |probes| && probes[..|probes0|] == probes0
    requires forall k :: |probes0| <= k < |probes| ==> RefHost(parse, item.refs, probes[k])
    ensures TlsHostsOnly(parse, c0, probes)
  {
    forall k | 0 <= k < |probes| ensures TlsHost(parse, c0, probes[k]) {
      if k < |probes0| {
        assert probes[k] == probes0[k];
      } else {
        assert RefHost(parse, c0[item.uid].refs, probes[k]);
      }
    }
  }

  /** Every host in the memo was probed in this pass: the memo starts empty and only probes fill it. */
  ghost predicate VisitedProbed(visited: map<string, Time>, probes: seq<string>) {
    forall h :: h in visited ==> h in probes
  }

  /** Every parsable reference host of the given references is in the probe log. */
  ghost predicate RefsProbed(parse: ParseURL, refs: seq<Ref>, n: int, probes: seq<string>)
    requires 0 <= n <= |refs|
  {
    forall j :: 0 <= j < n && parse(refs[j].url).Some? ==> parse(refs[j].url).value.hostname in probes
  }

  /** Every parsable reference host of every finished TLS record is in the probe log. */
  ghost predicate HostsProbed(parse: ParseURL, c0: map<string, Ingress>, done: set<string>, probes: seq<string>) {
    forall u :: u in done && u in c0 && c0[u].tls ==> RefsProbed(parse, c0[u].refs, |c0[u].refs|, probes)
  }

  /** A host already in the log stays there when the log grows at its end. */
  lemma LogGrows(probes0: seq<string>, probes: seq<string>, h: string)
    requires |probes0| <= |probes| && probes[..|probes0|] == probes0 && h in probes0
    ensures h in probes
  {
    var k :| 0 <= k < |probes0| && probes0[k] == h;
    assert probes[k] == h;
  }

  /** Appending to the log keeps every reference host already probed. */
  lemma RefsProbedGrows(parse: ParseURL, refs: seq<Ref>, n: int, probes0: seq<string>, probes: seq<string>)
    requires 0 <= n <= |refs| && RefsProbed(parse, refs, n, probes0)
    requires |probes0| <= |probes| && probes[..|probes0|] == probes0
    ensures RefsProbed(parse, refs, n, probes)
  {
    forall j | 0 <= j < n && parse(refs[j].url).Some? ensures parse(refs[j].url).value.hostname in probes {
      LogGrows(probes0, probes, parse(refs[j].url).value.hostname);
    }
  }

  /** After scanning one more record, its hosts join those of the records already finished. */
  lemma HostsProbedStep(parse: ParseURL, c0: map<string, Ingress>, done: set<string>, item: Ingress,
                        probes0: seq<string>, probes: seq<string>)
    requires item.uid in c0 && c0[item.uid] == item
    requires HostsProbed(parse, c0, done, probes0)
    requires |probes0| <= |probes| && probes[..|probes0|] == probes0
    requires item.tls ==> RefsProbed(parse, item.refs, |item.refs|, probes)
    ensures HostsProbed(parse, c0, done + {item.uid}, probes)
  {
    forall u | u in done + {item.uid} && u in c0 && c0[u].tls
      ensures RefsProbed(parse, c0[u].refs, |c0[u].refs|, probes)
    {
      if u != item.uid {
        RefsProbedGrows(parse, c0[u].refs, |c0[u].refs|, probes0, probes);
      }
    }
  }

  /**
   * The loop over the references of one TLS record in scanTLSCerts: each host is looked up in the
   * memo first and probed only when missing; a good probe is remembered. The result is the
   * record's minimum, whatever the memo held.
   */
  method ScanRefs(dial: Dialer, parse: ParseURL, refs: seq<Ref>, visited0: map<string, Time>, probes0: seq<string>)
    returns (min: Time, visited: map<string, Time>, probes: seq<string>)
    requires Memo(dial, visited0) && ProbedOnce(dial, visited0, probes0) && VisitedProbed(visited0, probes0)
    ensures min == RecordMin(dial, parse, refs)
    ensures Memo(dial, visited) && ProbedOnce(dial, visited, probes) && VisitedProbed(visited, probes)
    ensures visited0.Keys <= visited.Keys && |probes0| <= |probes| && probes[..|probes0|] == probes0
    ensures forall k :: |probes0| <= k < |probes| ==> RefHost(parse, refs, probes[k])
    ensures forall j :: 0 <= j < |refs| && parse(refs[j].url).Some? ==> parse(refs[j].url).value.hostname in probes
  {
    min, visited, probes := 0, visited0, probes0;
    for j := 0 to |refs|
      invariant min == RecordMin(dial, parse, refs[..j])
      invariant Memo(dial, visited) && ProbedOnce(dial, visited, probes) && VisitedProbed(visited, probes)
      invariant visited0.Keys <= visited.Keys && |probes0| <= |probes| && probes[..|probes0|] == probes0
      invariant forall k :: |probes0| <= k < |probes| ==> RefHost(parse, refs, probes[k])
      invariant RefsProbed(parse, refs, j, probes)
    {
      RecordMinStep(dial, parse, refs, j);
      var parsed := parse(refs[j].url);
      if parsed.Some? {
        var host := parsed.value.hostname;
        if host in visited {
          MemoHit(dial, parse, visited, refs[j].url);
          min := TimeMin(min, visited[host]);
          continue;
        }
        ProbeAdvance(dial, visited, probes, host);
        var expiredAt, failed := Expiration(dial, host);
        assert RefHost(parse, refs, host);
        RefsProbedGrows(parse, refs, j, probes, probes + [host]);
        probes := probes + [host];
        if failed {
          continue;
        }
        if expiredAt == 0 {
          continue;
        }
        min := TimeMin(min, expiredAt);
        visited := visited[host := expiredAt];
      }
    }
    assert refs[..|refs|] == refs;
    assert RefsProbed(parse, refs, |refs|, probes);
  }

  // ---- the coalescing wake-up channels ----

  /** What reaches a capacity-1 channel: notify's non-blocking send, or the loop's receive. */
  datatype SlotEvent = Send | Receive

  /**
   * A channel slot after some events: whether a signal is pending, and how many receives got one.
   * KubeWatcher.Notify is one Send on each slot; TakeLogoSignal and TakeCertSignal are one Receive.
   */
  function Deliver(pending: bool, events: seq<SlotEvent>): (bool, nat)
  {
    if events == [] then (pending, 0)
    else
      var (p, w) := Deliver(pending, events[..|events| - 1]);
      match events[|events| - 1]
      case Send => (true, w)
      case Receive => if p then (false, w + 1) else (p, w)
  }

  function Sends(events: seq<SlotEvent>): nat
  {
    if events == [] then 0 else Sends(events[..|events| - 1]) + (if events[|events| - 1] == Send then 1 else 0)
  }

  /** Sends coalesce: a loop never wakes more often than it was signalled, plus a signal already pending. */
  lemma {:induction false} WakeupsBounded(pending: bool, events: seq<SlotEvent>)
    ensures Deliver(pending, events).1 + (if Deliver(pending, events).0 then 1 else 0) <= Sends(events) + (if pending then 1 else 0)
  {
    if events != [] {
      WakeupsBounded(pending, events[..|events| - 1]);
    }
  }

  /** Any burst of sends leaves exactly one pending signal. */
  lemma {:induction false} BurstCoalesces(pending: bool, k: nat)
    requires k > 0
    ensures Deliver(pending, seq(k, _ => Send)) == (true, 0)
  {
    var burst := seq(k, _ => Send);
    if k > 1 {
      assert burst[..k - 1] == seq(k - 1, _ => Send);
      BurstCoalesces(pending, k - 1);
    } else {
      assert burst[..0] == [];
    }
  }

  /**
   * kubeWatcher: the cache of enriched records keyed by UID, the pending flags of the two
   * capacity-1 channels, and the snapshots handed to the receiver so far, in order.
   */
  class KubeWatcher {
    var cache: map<string, Ingress>
    var checkLogos: bool
    var checkCerts: bool
    var published: seq<seq<Ingress>>

    ghost predicate Valid()
      reads this
    {
      KeyedByUID(cache)
    }

    /** The receiver got exactly one more snapshot, of the current cache. */
    ghost predicate PublishedOnce(before: seq<seq<Ingress>>)
      reads this
    {
      && |published| == |before| + 1
      && published[..|before|] == before
      && IsSnapshot(cache, published[|before|])
    }

    /** newWatcher: an empty cache and empty channels. */
    constructor ()
      ensures Valid()
      ensures cache == map[] && !checkLogos && !checkCerts && published == []
    {
      cache := map[];
      checkLogos := false;
      checkCerts := false;
      published := [];
    }

    /** items: a snapshot of the cache; nothing changes. */
    method Items() returns (cp: seq<Ingress>)
      ensures IsSnapshot(cache, cp)
    {
      cp := ToList(cache);
    }

    /** receiver.Set(items()). */
    method Publish()
      modifies this
      ensures cache == old(cache) && checkLogos == old(checkLogos) && checkCerts == old(checkCerts)
      ensures PublishedOnce(old(published))
    {
      var cp := Items();
      published := published + [cp];
    }

    /** notify: publish a snapshot, then a non-blocking send into each channel. */
    method Notify()
      modifies this
      ensures cache == old(cache)
      ensures PublishedOnce(old(published))
      ensures checkLogos && checkCerts
      ensures checkLogos == Deliver(old(checkLogos), [Send]).0 && checkCerts == Deliver(old(checkCerts), [Send]).0
    {
      assert [Send][..0] == [];
      Publish();
      if !checkLogos {
        checkLogos := true;
      }
      if !checkCerts {
        checkCerts := true;
      }
    }

    /** The icon loop's receive on checkLogos, taken when a signal is pending. */
    method TakeLogoSignal() returns (woke: bool)
      modifies this
      ensures woke == old(checkLogos) && !checkLogos
      ensures (checkLogos, if woke then 1 else 0) == Deliver(old(checkLogos), [Receive])
      ensures cache == old(cache) && checkCerts == old(checkCerts) && published == old(published)
    {
      assert [Receive][..0] == [];
      woke := checkLogos;
      checkLogos := false;
    }

    /** The expiry loop's receive on checkCerts, taken when a signal is pending. */
    method TakeCertSignal() returns (woke: bool)
      modifies this
      ensures woke == old(checkCerts) && !checkCerts
      ensures (checkCerts, if woke then 1 else 0) == Deliver(old(checkCerts), [Receive])
      ensures cache == old(cache) && checkLogos == old(checkLogos) && published == old(published)
    {
      assert [Receive][..0] == [];
      woke := checkCerts;
      checkCerts := false;
    }

    /**
     * upsertIngress: derive the record of an ingress and store it under its UID, keeping a
     * discovered logo; any other object changes nothing. The deferred notify runs either way.
     */
    method UpsertIngress(lookup: ServiceLookup, obj: KubeObject)
      requires Valid()
      modifies this
      ensures Valid()
      ensures Upserted(old(cache), lookup, obj, cache)
      ensures PublishedOnce(old(published)) && checkLogos && checkCerts
    {
      if obj.IngressObject? {
        var ingress := InspectIngress(lookup, obj.ingress);
        ghost var inspected := ingress;
        var oldLogoURL := if ingress.uid in cache then cache[ingress.uid].logoURL else "";
        if oldLogoURL != "" && ingress.logoURL == "" {
          ingress := ingress.(logoURL := oldLogoURL);
        }
        assert ingress == Sticky(cache, inspected);
        UpsertStored(cache, lookup, obj.ingress, inspected);
        cache := cache[ingress.uid := ingress];
      }
      Notify();
    }

    /** OnAdd: an upsert of the added object. */
    method OnAdd(lookup: ServiceLookup, obj: KubeObject)
      requires Valid()
      modifies this
      ensures Valid()
      ensures Upserted(old(cache), lookup, obj, cache)
      ensures PublishedOnce(old(published)) && checkLogos && checkCerts
    {
      UpsertIngress(lookup, obj);
    }

    /** OnUpdate: an upsert of the new object; the old one is ignored. */
    method OnUpdate(lookup: ServiceLookup, oldObj: KubeObject, newObj: KubeObject)
      requires Valid()
      modifies this
      ensures Valid()
      ensures Upserted(old(cache), lookup, newObj, cache)
      ensures PublishedOnce(old(published)) && checkLogos && checkCerts
    {
      UpsertIngress(lookup, newObj);
    }

    /**
     * OnDelete: only an ingress-class object removes an entry, the one under its UID; a deleted
     * ingress leaves the cache as it is. The deferred notify runs either way.
     */
    method OnDelete(obj: KubeObject)
      requires Valid()
      modifies this
      ensures Valid()
      ensures obj.IngressClassObject? ==> cache == old(cache) - {obj.classUID}
      ensures !obj.IngressClassObject? ==> cache == old(cache)
      ensures PublishedOnce(old(published)) && checkLogos && checkCerts
    {
      if obj.IngressClassObject? {
        cache := cache - {obj.classUID};
      }
      Notify();
    }

    /** updateLogo: set the logo of a stored entry whose logo is still empty; otherwise nothing. */
    method UpdateLogo(ingress: Ingress)
      requires Valid()
      modifies this
      ensures Valid()
      ensures ingress.uid in old(cache) && old(cache)[ingress.uid].logoURL == "" ==>
                cache == old(cache)[ingress.uid := old(cache)[ingress.uid].(logoURL := ingress.logoURL)]
      ensures !(ingress.uid in old(cache) && old(cache)[ingress.uid].logoURL == "") ==> cache == old(cache)
      ensures checkLogos == old(checkLogos) && checkCerts == old(checkCerts) && published == old(published)
    {
      if ingress.uid !in cache || cache[ingress.uid].logoURL != "" {
        return;
      }
      var stored := cache[ingress.uid];
      cache := cache[ingress.uid := stored.(logoURL := ingress.logoURL)];
    }

    /** updateTLSExpiration: overwrite the expiry of a stored entry; an absent UID changes nothing. */
    method UpdateTLSExpiration(ingress: Ingress)
      requires Valid()
      modifies this
      ensures Valid()
      ensures ingress.uid in old(cache) ==>
                cache == old(cache)[ingress.uid := old(cache)[ingress.uid].(tlsExpiration := ingress.tlsExpiration)]
      ensures ingress.uid !in old(cache) ==> cache == old(cache)
      ensures checkLogos == old(checkLogos) && checkCerts == old(checkCerts) && published == old(published)
    {
      if ingress.uid !in cache {
        return;
      }
      var stored := cache[ingress.uid];
      cache := cache[ingress.uid := stored.(tlsExpiration := ingress.tlsExpiration)];
    }

    /** The body of the icon pass for one record of the snapshot. */
    method LogoVisit(detect: string -> string, ing: Ingress, ghost c0: map<string, Ingress>, ghost done: set<string>,
                     probes0: seq<string>) returns (probes: seq<string>)
      requires Valid() && ing.uid in c0 && c0[ing.uid] == ing && LogoProgress(detect, c0, cache, done, probes0)
      modifies this
      ensures Valid() && LogoProgress(detect, c0, cache, done + {ing.uid}, probes)
      ensures published == old(published) && checkLogos == old(checkLogos) && checkCerts == old(checkCerts)
    {
      ghost var before := cache;
      probes := probes0;
      if !ing.hide && ing.logoURL == "" && |ing.refs| > 0 {
        var logo := detect(ing.refs[0].url);
        probes := probes + [ing.refs[0].url];
        if logo != "" {
          UpdateLogo(ing.(logoURL := logo));
        }
      }
      LogoAdvance(detect, c0, before, cache, done, probes0, probes, ing);
    }

    /** The body of the expiry pass for one record of the snapshot. */
    method TlsVisit(dial: Dialer, parse: ParseURL, item: Ingress, ghost c0: map<string, Ingress>, ghost done: set<string>,
                    visited0: map<string, Time>, probes0: seq<string>) returns (visited: map<string, Time>, probes: seq<string>)
      requires Valid() && item.uid in c0 && c0[item.uid] == item && done <= c0.Keys
      requires TlsStepped(dial, parse, c0, cache, done)
      requires Memo(dial, visited0) && ProbedOnce(dial, visited0, probes0) && TlsHostsOnly(parse, c0, probes0)
      requires VisitedProbed(visited0, probes0) && HostsProbed(parse, c0, done, probes0)
      modifies this
      ensures Valid() && done + {item.uid} <= c0.Keys && TlsStepped(dial, parse, c0, cache, done + {item.uid})
      ensures Memo(dial, visited) && ProbedOnce(dial, visited, probes) && TlsHostsOnly(parse, c0, probes)
      ensures VisitedProbed(visited, probes) && HostsProbed(parse, c0, done + {item.uid}, probes)
      ensures published == old(published) && checkLogos == old(checkLogos) && checkCerts == old(checkCerts)
    {
      ghost var before := cache;
      visited, probes := visited0, probes0;
      var min := 0;
      if item.tls {
        min, visited, probes := ScanRefs(dial, parse, item.refs, visited, probes);
        TlsHostsGrow(parse, c0, item, probes0, probes);
        if min != 0 {
          UpdateTLSExpiration(item.(tlsExpiration := min));
        }
      }
      HostsProbedStep(parse, c0, done, item, probes0, probes);
      TlsAdvance(dial, parse, c0, before, cache, done, item, min);
    }

    /**
     * One pass of runLogoFetcher: every candidate of a snapshot is probed with its first reference,
     * a non-empty icon is written back, and a snapshot is published. `probes` lists the URLs
     * handed to detectIconURL.
     */
    method LogoPass(detect: string -> string) returns (probes: seq<string>)
      requires Valid()
      modifies this
      ensures Valid()
      ensures cache.Keys == old(cache).Keys && forall u :: u in old(cache) ==> cache[u] == LogoStep(detect, old(cache)[u])
      ensures forall k :: 0 <= k < |probes| ==> CandidateURL(old(cache), probes[k])
      ensures forall u :: u in old(cache) && Candidate(old(cache)[u]) ==> old(cache)[u].refs[0].url in probes
      ensures PublishedOnce(old(published)) && checkLogos == old(checkLogos) && checkCerts == old(checkCerts)
    {
      ghost var c0 := cache;
      var items := Items();
      ghost var done: set<string> := {};
      probes := [];
      for i := 0 to |items|
        invariant Valid() && LogoProgress(detect, c0, cache, done, probes)
        invariant published == old(published) && checkLogos == old(checkLogos) && checkCerts == old(checkCerts)
        invariant Covered(items[..i], done)
      {
        var ing := items[i];
        SnapshotItem(c0, items, i);
        probes := LogoVisit(detect, ing, c0, done, probes);
        CoveredStep(items, i, done);
        done := done + {ing.uid};
      }
      CoveredAll(c0, items, done);
      Publish();
      LogoFinished(detect, c0, cache, done, probes);
    }

    /**
     * One pass of scanTLSCerts: for each TLS record of a snapshot, the minimum non-zero expiry
     * over the hosts of its references, each host probed only until it yields a non-zero expiry;
     * a non-zero minimum is written back, and a snapshot is published. `probes` lists the hosts
     * handed to Expiration.
     */
    method TLSPass(dial: Dialer, parse: ParseURL) returns (probes: seq<string>)
      requires Valid()
      modifies this
      ensures Valid()
      ensures cache.Keys == old(cache).Keys && forall u :: u in old(cache) ==> cache[u] == TlsStep(dial, parse, old(cache)[u])
      ensures forall i, j :: 0 <= i < j < |probes| && probes[i] == probes[j] ==> Unremembered(dial, probes[i])
      ensures forall k :: 0 <= k < |probes| ==> TlsHost(parse, old(cache), probes[k])
      ensures forall u, j :: u in old(cache) && old(cache)[u].tls && 0 <= j < |old(cache)[u].refs| && parse(old(cache)[u].refs[j].url).Some?
                ==> parse(old(cache)[u].refs[j].url).value.hostname in probes
      ensures PublishedOnce(old(published)) && checkLogos == old(checkLogos) && checkCerts == old(checkCerts)
    {
      ghost var c0 := cache;
      var visited: map<string, Time> := map[];
      var items := Items();
      ghost var done: set<string> := {};
      probes := [];
      for i := 0 to |items|
        invariant Valid() && done <= c0.Keys && TlsStepped(dial, parse, c0, cache, done)
        invariant published == old(published) && checkLogos == old(checkLogos) && checkCerts == old(checkCerts)
        invariant Covered(items[..i], done)
        invariant Memo(dial, visited) && ProbedOnce(dial, visited, probes) && TlsHostsOnly(parse, c0, probes)
        invariant VisitedProbed(visited, probes) && HostsProbed(parse, c0, done, probes)
      {
        var item := items[i];
        SnapshotItem(c0, items, i);
        visited, probes := TlsVisit(dial, parse, item, c0, done, visited, probes);
        CoveredStep(items, i, done);
        done := done + {item.uid};
      }
      CoveredAll(c0, items, done);
      Publish();
      TlsFinished(dial, parse, c0, cache, done, visited, probes);
    }
  }

  /** Upserting the same ingress twice stores the same record as upserting it once. */
  lemma UpsertIdempotent(before: map<string, Ingress>, mid: map<string, Ingress>, after: map<string, Ingress>,
                         lookup: ServiceLookup, obj: KubeObject)
    requires Upserted(before, lookup, obj, mid) && Upserted(mid, lookup, obj, after)
    ensures after == mid
  {
    if obj.IngressObject? {
      var ing := obj.ingress;
      assert after[ing.uid].refs == mid[ing.uid].refs by {
        IsRefsUnique(lookup, ing, after[ing.uid].refs, mid[ing.uid].refs);
      }
    }
  }

  lemma IsRefsUnique(lookup: ServiceLookup, ing: KubeIngress, a: seq<Ref>, b: seq<Ref>)
    requires IsRefsOf(lookup, ing, a) && IsRefsOf(lookup, ing, b)
    ensures a == b
  {
  }
}
