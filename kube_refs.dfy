/**
 * Derived-record computation of internal/kube_watch.go: the endpoint count of a backend
 * (getPodsNum), the aggregate count (getTotalPodsNum), the reference list (getRefs) and the
 * record built from an ingress (inspectIngress). The cluster query is an oracle.
 */
module KubeRefs {
  import opened Wrappers
  import opened KubeModel

  /** Go's `(int, error)` result of the endpoint counting functions; the error text is left out. */
  datatype PodCount = PodCount(pods: nat, failed: bool)

  /**
   * Reachable endpoints of a service: its cluster IPs plus its external IPs, where a service
   * with no external IP but an external DNS name counts one external host.
   */
  function Reachable(spec: ServiceSpec): (n: nat)
    ensures n >= |spec.clusterIPs| + |spec.externalIPs|
    ensures |spec.externalIPs| > 0 || spec.externalName == "" ==> n == |spec.clusterIPs| + |spec.externalIPs|
    ensures |spec.externalIPs| == 0 && spec.externalName != "" ==> n == |spec.clusterIPs| + 1
    ensures spec.externalName != "" ==> n > 0
  {
    var extHosts := if |spec.externalIPs| == 0 && spec.externalName != "" then 1 else |spec.externalIPs|;
    |spec.clusterIPs| + extHosts
  }

  /** getPodsNum: no service gives 0 without error, a failed lookup gives 0 with an error. */
  function PodsNum(lookup: ServiceLookup, namespace: string, svc: Option<ServiceBackend>): (r: PodCount)
    ensures svc.None? ==> r == PodCount(0, false)
    ensures r.failed <==> svc.Some? && lookup(namespace, svc.value.name).LookupFailed?
    ensures r.failed ==> r.pods == 0
    ensures !r.failed && svc.Some? ==> r.pods == Reachable(lookup(namespace, svc.value.name).spec)
  {
    match svc
    case None => PodCount(0, false)
    case Some(backend) =>
      match lookup(namespace, backend.name)
      case LookupFailed => PodCount(0, true)
      case Found(spec) => PodCount(Reachable(spec), false)
  }

  /** A backend path together with the host of the rule it belongs to. */
  datatype Target = Target(host: string, path: HTTPPath)

  /** The paths of a rule with the given host, in order. */
  function HostTargets(host: string, paths: seq<HTTPPath>): (ts: seq<Target>)
    ensures |ts| == |paths|
  {
    if paths == [] then [] else HostTargets(host, paths[..|paths| - 1]) + [Target(host, paths[|paths| - 1])]
  }

  /** Target k of a rule is path k of that rule, under the rule's host. */
  lemma {:induction false} HostTargetsAt(host: string, paths: seq<HTTPPath>, k: nat)
    requires k < |paths|
    ensures HostTargets(host, paths)[k] == Target(host, paths[k])
  {
    var n := |paths| - 1;
    if k < n {
      HostTargetsAt(host, paths[..n], k);
    }
  }

  /** The paths of one rule, in order; a rule whose HTTP part is nil has none. */
  function RuleTargets(rule: Rule): (ts: seq<Target>)
  {
    match rule.http
    case None => []
    case Some(paths) => HostTargets(rule.host, paths)
  }

  /** All backend paths of an ingress, rule by rule and path by path. */
  function Targets(rules: seq<Rule>): seq<Target>
  {
    if rules == [] then [] else Targets(rules[..|rules| - 1]) + RuleTargets(rules[|rules| - 1])
  }

  /** Appending one rule appends its paths. */
  lemma TargetsSnoc(rules: seq<Rule>, r: Rule)
    ensures Targets(rules + [r]) == Targets(rules) + RuleTargets(r)
  {
    assert (rules + [r])[..|rules|] == rules;
  }

  lemma {:induction false} TargetsAppend(a: seq<Rule>, b: seq<Rule>)
    ensures Targets(a + b) == Targets(a) + Targets(b)
    decreases |b|
  {
    if b == [] {
      assert a + b == a;
    } else {
      var n := |b| - 1;
      var init, last := b[..n], b[n];
      assert b == init + [last];
      assert a + b == (a + init) + [last];
      TargetsSnoc(a + init, last);
      TargetsSnoc(init, last);
      TargetsAppend(a, init);
      Assoc(Targets(a), Targets(init), RuleTargets(last));
    }
  }

  lemma TargetsPrefix(rules: seq<Rule>, i: nat)
    requires i < |rules|
    ensures Targets(rules[..i + 1]) == Targets(rules[..i]) + RuleTargets(rules[i])
  {
    assert rules[..i + 1][..i] == rules[..i];
  }

  /** The paths of rule i come after those of every earlier rule and before those of every later one. */
  lemma TargetsOrder(rules: seq<Rule>, i: nat)
    requires i < |rules|
    ensures Targets(rules) == Targets(rules[..i]) + RuleTargets(rules[i]) + Targets(rules[i + 1..])
  {
    assert rules == rules[..i + 1] + rules[i + 1..];
    TargetsAppend(rules[..i + 1], rules[i + 1..]);
    TargetsPrefix(rules, i);
  }

  /** A rule without an HTTP part contributes no path, wherever it stands. */
  lemma NoHTTPRuleContributesNothing(a: seq<Rule>, r: Rule, b: seq<Rule>)
    requires r.http.None?
    ensures Targets(a + [r] + b) == Targets(a + b)
  {
    TargetsAppend(a + [r], b);
    assert (a + [r])[..|a|] == a;
    assert Targets(a + [r]) == Targets(a);
    TargetsAppend(a, b);
  }

  /** One step of getTotalPodsNum: nothing more after an error, else add the count or record the error. */
  function Step(prev: PodCount, c: PodCount): PodCount
  {
    if prev.failed then prev
    else if c.failed then PodCount(prev.pods, true)
    else PodCount(prev.pods + c.pods, false)
  }

  /** getTotalPodsNum as a fold over the paths: it sums, and stops at the first failing path. */
  function TotalPods(lookup: ServiceLookup, namespace: string, ts: seq<Target>): PodCount
  {
    if ts == [] then PodCount(0, false)
    else Step(TotalPods(lookup, namespace, ts[..|ts| - 1]), PodsNum(lookup, namespace, ts[|ts| - 1].path.service))
  }

  /** The plain sum of the endpoint counts, errors counted as 0. */
  function SumPods(lookup: ServiceLookup, namespace: string, ts: seq<Target>): nat
  {
    if ts == [] then 0
    else SumPods(lookup, namespace, ts[..|ts| - 1]) + PodsNum(lookup, namespace, ts[|ts| - 1].path.service).pods
  }

  predicate NoFailure(lookup: ServiceLookup, namespace: string, ts: seq<Target>) {
    forall k :: 0 <= k < |ts| ==> !PodsNum(lookup, namespace, ts[k].path.service).failed
  }

  /** With no failing lookup the total is the full sum, without error. */
  lemma {:induction false} TotalPodsWithoutFailure(lookup: ServiceLookup, namespace: string, ts: seq<Target>)
    requires NoFailure(lookup, namespace, ts)
    ensures TotalPods(lookup, namespace, ts) == PodCount(SumPods(lookup, namespace, ts), false)
  {
    if ts != [] {
      var n := |ts| - 1;
      assert NoFailure(lookup, namespace, ts[..n]) by {
        forall k | 0 <= k < n ensures !PodsNum(lookup, namespace, ts[..n][k].path.service).failed {
          assert ts[..n][k] == ts[k];
        }
      }
      TotalPodsWithoutFailure(lookup, namespace, ts[..n]);
      assert !PodsNum(lookup, namespace, ts[n].path.service).failed;
    }
  }

  /** With a first failing path k, the total is the partial sum of the paths before k, with an error. */
  lemma {:induction false} TotalPodsFirstFailure(lookup: ServiceLookup, namespace: string, ts: seq<Target>, k: nat)
    requires k < |ts| && PodsNum(lookup, namespace, ts[k].path.service).failed
    requires NoFailure(lookup, namespace, ts[..k])
    ensures TotalPods(lookup, namespace, ts) == PodCount(SumPods(lookup, namespace, ts[..k]), true)
  {
    var n := |ts| - 1;
    var last := PodsNum(lookup, namespace, ts[n].path.service);
    assert TotalPods(lookup, namespace, ts) == Step(TotalPods(lookup, namespace, ts[..n]), last);
    if n == k {
      assert ts[..n] == ts[..k];
      TotalPodsWithoutFailure(lookup, namespace, ts[..k]);
    } else {
      assert ts[..n][k] == ts[k];
      assert ts[..n][..k] == ts[..k];
      TotalPodsFirstFailure(lookup, namespace, ts[..n], k);
    }
  }

  /** Once the fold has failed, later paths change nothing. */
  lemma {:induction false} TotalPodsFailedStays(lookup: ServiceLookup, namespace: string, ts: seq<Target>, more: seq<Target>)
    requires TotalPods(lookup, namespace, ts).failed
    ensures TotalPods(lookup, namespace, ts + more) == TotalPods(lookup, namespace, ts)
    decreases |more|
  {
    if more == [] {
      assert ts + more == ts;
    } else {
      var n := |more| - 1;
      assert (ts + more)[..|ts + more| - 1] == ts + more[..n];
      TotalPodsFailedStays(lookup, namespace, ts, more[..n]);
    }
  }

  /** Visiting path j of a rule after the paths before it is one fold step. */
  lemma TotalPodsStep(lookup: ServiceLookup, namespace: string, prefix: seq<Target>, host: string, paths: seq<HTTPPath>, j: nat)
    requires j < |paths|
    ensures TotalPods(lookup, namespace, prefix + HostTargets(host, paths[..j + 1])) ==
            Step(TotalPods(lookup, namespace, prefix + HostTargets(host, paths[..j])), PodsNum(lookup, namespace, paths[j].service))
  {
    assert paths[..j + 1][..j] == paths[..j];
    assert HostTargets(host, paths[..j + 1]) == HostTargets(host, paths[..j]) + [Target(host, paths[j])];
    var ts := prefix + HostTargets(host, paths[..j + 1]);
    assert ts == (prefix + HostTargets(host, paths[..j])) + [Target(host, paths[j])];
    assert ts[..|ts| - 1] == prefix + HostTargets(host, paths[..j]);
  }

  lemma HostTargetsSplit(host: string, paths: seq<HTTPPath>, j: nat)
    requires j <= |paths|
    ensures HostTargets(host, paths) == HostTargets(host, paths[..j]) + HostTargets(host, paths[j..])
  {
    var l, a, b := HostTargets(host, paths), HostTargets(host, paths[..j]), HostTargets(host, paths[j..]);
    forall k | 0 <= k < |l| ensures l[k] == (a + b)[k] {
      HostTargetsAt(host, paths, k);
      if k < j {
        HostTargetsAt(host, paths[..j], k);
      } else {
        HostTargetsAt(host, paths[j..], k - j);
      }
    }
  }

  /** The paths of rule i, split after path j, sit between the earlier and the later rules. */
  lemma TargetsSplit(rules: seq<Rule>, i: nat, j: nat)
    requires i < |rules| && rules[i].http.Some? && j <= |rules[i].http.value|
    ensures Targets(rules) ==
            (Targets(rules[..i]) + HostTargets(rules[i].host, rules[i].http.value[..j])) +
            (HostTargets(rules[i].host, rules[i].http.value[j..]) + Targets(rules[i + 1..]))
  {
    var host, paths := rules[i].host, rules[i].http.value;
    TargetsOrder(rules, i);
    HostTargetsSplit(host, paths, j);
    Regroup(Targets(rules[..i]), HostTargets(host, paths[..j]), HostTargets(host, paths[j..]), Targets(rules[i + 1..]));
  }

  lemma Assoc<T>(x: seq<T>, y: seq<T>, z: seq<T>)
    ensures (x + y) + z == x + (y + z)
  {
  }

  lemma Regroup<T>(a: seq<T>, b1: seq<T>, b2: seq<T>, c: seq<T>)
    ensures a + (b1 + b2) + c == (a + b1) + (b2 + c)
  {
  }

  /** Once the paths up to path j of rule i have failed, the total over all rules is that failure. */
  lemma TotalPodsStopsAt(lookup: ServiceLookup, namespace: string, rules: seq<Rule>, i: nat,
                         prefix: seq<Target>, host: string, paths: seq<HTTPPath>, j: nat)
    requires i < |rules| && rules[i].http == Some(paths) && rules[i].host == host && j <= |paths|
    requires prefix == Targets(rules[..i])
    requires TotalPods(lookup, namespace, prefix + HostTargets(host, paths[..j])).failed
    ensures TotalPods(lookup, namespace, Targets(rules)) == TotalPods(lookup, namespace, prefix + HostTargets(host, paths[..j]))
  {
    TargetsSplit(rules, i, j);
    TotalPodsFailedStays(lookup, namespace, prefix + HostTargets(host, paths[..j]), HostTargets(host, paths[j..]) + Targets(rules[i + 1..]));
  }

  /** How the paths of the first i + 1 rules extend those of the first i. */
  lemma TargetsNext(rules: seq<Rule>, i: nat)
    requires i < |rules|
    ensures rules[i].http.None? ==> Targets(rules[..i + 1]) == Targets(rules[..i])
    ensures rules[i].http.Some? ==> Targets(rules[..i + 1]) == Targets(rules[..i]) + HostTargets(rules[i].host, rules[i].http.value)
  {
    TargetsPrefix(rules, i);
  }

  /** getTotalPodsNum: the nested loop over rules and paths, returning at the first error. */
  method GetTotalPodsNum(lookup: ServiceLookup, ing: KubeIngress) returns (sum: nat, failed: bool)
    ensures PodCount(sum, failed) == TotalPods(lookup, ing.namespace, Targets(ing.rules))
  {
    sum := 0;
    failed := false;
    for i := 0 to |ing.rules|
      invariant PodCount(sum, false) == TotalPods(lookup, ing.namespace, Targets(ing.rules[..i]))
    {
      TargetsNext(ing.rules, i);
      var rule := ing.rules[i];
      if rule.http.None? {
        continue;
      }
      var paths := rule.http.value;
      ghost var prefix := Targets(ing.rules[..i]);
      assert prefix + HostTargets(rule.host, paths[..0]) == prefix;
      for j := 0 to |paths|
        invariant PodCount(sum, false) == TotalPods(lookup, ing.namespace, prefix + HostTargets(rule.host, paths[..j]))
      {
        var c := PodsNum(lookup, ing.namespace, paths[j].service);
        TotalPodsStep(lookup, ing.namespace, prefix, rule.host, paths, j);
        if c.failed {
          TotalPodsStopsAt(lookup, ing.namespace, ing.rules, i, prefix, rule.host, paths, j + 1);
          return sum, true;
        }
        sum := sum + c.pods;
      }
      assert paths[..|paths|] == paths;
    }
    assert ing.rules[..|ing.rules|] == ing.rules;
  }

  /** "https://" when the ingress declares TLS material, else "http://". */
  function Proto(ing: KubeIngress): string
  {
    if |ing.tls| > 0 then "https://" else "http://"
  }

  /** The reference for one path: its URL, and its endpoint count, which is 0 when the lookup failed. */
  function PathRef(lookup: ServiceLookup, namespace: string, proto: string, t: Target): Ref
  {
    var c := PodsNum(lookup, namespace, t.path.service);
    Ref((proto + t.host) + t.path.path, if c.failed then 0 else c.pods)
  }

  /** One reference per path, in the order of the paths. */
  function PathRefs(lookup: ServiceLookup, namespace: string, proto: string, ts: seq<Target>): (refs: seq<Ref>)
    ensures |refs| == |ts|
    ensures forall k :: 0 <= k < |ts| ==> refs[k] == PathRef(lookup, namespace, proto, ts[k])
  {
    if ts == [] then []
    else PathRefs(lookup, namespace, proto, ts[..|ts| - 1]) + [PathRef(lookup, namespace, proto, ts[|ts| - 1])]
  }

  /** Visiting path j of a rule appends the reference of that path. */
  lemma PathRefsStep(lookup: ServiceLookup, namespace: string, proto: string, prefix: seq<Target>, host: string, paths: seq<HTTPPath>, j: nat)
    requires j < |paths|
    ensures PathRefs(lookup, namespace, proto, prefix + HostTargets(host, paths[..j + 1])) ==
            PathRefs(lookup, namespace, proto, prefix + HostTargets(host, paths[..j])) + [PathRef(lookup, namespace, proto, Target(host, paths[j]))]
  {
    assert paths[..j + 1][..j] == paths[..j];
    assert HostTargets(host, paths[..j + 1]) == HostTargets(host, paths[..j]) + [Target(host, paths[j])];
    var ts := prefix + HostTargets(host, paths[..j + 1]);
    assert ts == (prefix + HostTargets(host, paths[..j])) + [Target(host, paths[j])];
    assert ts[..|ts| - 1] == prefix + HostTargets(host, paths[..j]);
  }

  /** The references getRefs computes, stated as a property of the ingress. */
  ghost predicate IsRefsOf(lookup: ServiceLookup, ing: KubeIngress, refs: seq<Ref>) {
    if AnnoURL in ing.annotations then
      refs == [Ref(ing.annotations[AnnoURL], TotalPods(lookup, ing.namespace, Targets(ing.rules)).pods)]
    else
      refs == PathRefs(lookup, ing.namespace, Proto(ing), Targets(ing.rules))
  }

  /**
   * getRefs: with the URL annotation present (even empty) one reference carrying the total count;
   * otherwise one reference per path, rule by rule, each URL being the scheme, the rule's host and the path.
   */
  method GetRefs(lookup: ServiceLookup, ing: KubeIngress) returns (refs: seq<Ref>)
    ensures IsRefsOf(lookup, ing, refs)
    ensures AnnoURL in ing.annotations ==> |refs| == 1 && refs[0].url == ing.annotations[AnnoURL]
    ensures AnnoURL !in ing.annotations ==> |refs| == |Targets(ing.rules)|
  {
    if AnnoURL in ing.annotations {
      var staticURL := ing.annotations[AnnoURL];
      var podsNum, failed := GetTotalPodsNum(lookup, ing);
      return [Ref(staticURL, podsNum)];
    }
    var proto := Proto(ing);
    refs := [];
    for i := 0 to |ing.rules|
      invariant refs == PathRefs(lookup, ing.namespace, proto, Targets(ing.rules[..i]))
    {
      TargetsNext(ing.rules, i);
      var rule := ing.rules[i];
      var baseURL := proto + rule.host;
      if rule.http.Some? {
        var paths := rule.http.value;
        ghost var prefix := Targets(ing.rules[..i]);
        assert prefix + HostTargets(rule.host, paths[..0]) == prefix;
        for j := 0 to |paths|
          invariant refs == PathRefs(lookup, ing.namespace, proto, prefix + HostTargets(rule.host, paths[..j]))
        {
          var ref := Ref(baseURL + paths[j].path, 0);
          var c := PodsNum(lookup, ing.namespace, paths[j].service);
          if !c.failed {
            ref := ref.(pods := c.pods);
          }
          PathRefsStep(lookup, ing.namespace, proto, prefix, rule.host, paths, j);
          refs := refs + [ref];
        }
        assert paths[..|paths|] == paths;
      }
    }
    assert ing.rules[..|ing.rules|] == ing.rules;
  }

  /**
   * Without the URL annotation, reference k belongs to path k: its URL joins the scheme, the rule's
   * host and the path, and a path whose lookup failed still appears, with no endpoints.
   */
  lemma PathRefShape(lookup: ServiceLookup, ing: KubeIngress, refs: seq<Ref>, k: nat)
    requires AnnoURL !in ing.annotations && IsRefsOf(lookup, ing, refs)
    requires k < |Targets(ing.rules)|
    ensures k < |refs|
    ensures refs[k].url == (if |ing.tls| > 0 then "https://" else "http://") + Targets(ing.rules)[k].host + Targets(ing.rules)[k].path.path
    ensures PodsNum(lookup, ing.namespace, Targets(ing.rules)[k].path.service).failed ==> refs[k].pods == 0
  {
  }

  /** The record inspectIngress derives from an ingress, given its references. */
  function Inspected(ing: KubeIngress, refs: seq<Ref>): Ingress
  {
    Ingress(ClassName(ing), ing.name, ing.namespace, Anno(ing, AnnoTitle), ing.namespace + "." + ing.name,
            ing.uid, Anno(ing, AnnoDescription), Anno(ing, AnnoLogoURL), ToBool(Anno(ing, AnnoHide), false),
            refs, |ing.tls| > 0, 0)
  }

  /** inspectIngress: the record derived from an ingress, with the references getRefs computes. */
  method InspectIngress(lookup: ServiceLookup, ing: KubeIngress) returns (r: Ingress)
    ensures IsRefsOf(lookup, ing, r.refs)
    ensures r == Inspected(ing, r.refs)
    ensures r.uid == ing.uid && r.id == ing.namespace + "." + ing.name
    ensures r.tls <==> |ing.tls| > 0
    ensures r.tlsExpiration == 0
  {
    var refs := GetRefs(lookup, ing);
    r := Inspected(ing, refs);
  }

}
