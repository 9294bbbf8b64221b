/**
 * The records of the ingress cache and the Kubernetes objects they are derived from
 * (internal/kube_watch.go), with the small pure helpers used to derive them.
 *
 * Times are natural numbers; 0 stands for Go's zero `time.Time`, every real instant is positive.
 */
module KubeModel {
  import opened Wrappers

  type Time = nat

  const AnnoDescription := "ingress-dashboard/description"
  const AnnoLogoURL := "ingress-dashboard/logo-url"
  const AnnoTitle := "ingress-dashboard/title"
  const AnnoHide := "ingress-dashboard/hide"
  const AnnoURL := "ingress-dashboard/url"
  /** The legacy annotation consulted when the spec carries no class name. */
  const AnnoIngressClass := "kubernetes.io/ingress.class"

  /** One externally reachable URL of an ingress and the number of endpoints behind it. */
  datatype Ref = Ref(url: string, pods: nat)

  /** The enriched record kept in the cache, keyed by `uid`. */
  datatype Ingress = Ingress(
    className: string,
    name: string,
    namespace: string,
    title: string,
    id: string,
    uid: string,
    description: string,
    logoURL: string,
    hide: bool,
    refs: seq<Ref>,
    tls: bool,
    tlsExpiration: Time)

  // ---- the Kubernetes objects delivered by the informer ----

  datatype ServiceBackend = ServiceBackend(name: string)

  /** One HTTP path of a rule; `service` is nil when the backend is not a service. */
  datatype HTTPPath = HTTPPath(path: string, service: Option<ServiceBackend>)

  /** One rule of an ingress; `http` is nil for a rule without HTTP paths. */
  datatype Rule = Rule(host: string, http: Option<seq<HTTPPath>>)

  datatype IngressTLS = IngressTLS(hosts: seq<string>, secretName: string)

  datatype KubeIngress = KubeIngress(
    name: string,
    namespace: string,
    uid: string,
    annotations: map<string, string>,
    ingressClassName: Option<string>,
    tls: seq<IngressTLS>,
    rules: seq<Rule>)

  /** The untyped object handed to an informer callback: an ingress, an ingress class, or something else. */
  datatype KubeObject =
    | IngressObject(ingress: KubeIngress)
    | IngressClassObject(classUID: string)
    | OtherObject

  /** What the cluster reports for a service. */
  datatype ServiceSpec = ServiceSpec(clusterIPs: seq<string>, externalIPs: seq<string>, externalName: string)

  datatype Lookup = Found(spec: ServiceSpec) | LookupFailed

  /** The cluster query `Services(namespace).Get(name)`, given as an oracle. */
  type ServiceLookup = (string, string) -> Lookup

  /** A Go map read: the stored annotation, or "" when it is absent. */
  function Anno(ing: KubeIngress, key: string): string
  {
    if key in ing.annotations then ing.annotations[key] else ""
  }

  /** The spellings strconv.ParseBool accepts, and the value each one means. */
  function ParseBool(s: string): Option<bool>
  {
    if s in {"1", "t", "T", "TRUE", "true", "True"} then Some(true)
    else if s in {"0", "f", "F", "FALSE", "false", "False"} then Some(false)
    else None
  }

  /** toBool: the parsed value, or the default when the text is not a boolean. */
  function ToBool(value: string, defaultValue: bool): (r: bool)
    ensures ParseBool(value).None? ==> r == defaultValue
    ensures value in {"1", "t", "T", "TRUE", "true", "True"} ==> r
    ensures value in {"0", "f", "F", "FALSE", "false", "False"} ==> !r
  {
    match ParseBool(value)
    case Some(v) => v
    case None => defaultValue
  }

  /** getClassName: the spec's class name wins over the legacy annotation. */
  function ClassName(ing: KubeIngress): (r: string)
    ensures ing.ingressClassName.Some? ==> r == ing.ingressClassName.value
    ensures ing.ingressClassName.None? ==> r == Anno(ing, AnnoIngressClass)
  {
    match ing.ingressClassName
    case Some(name) => name
    case None => Anno(ing, AnnoIngressClass)
  }

  /**
   * timeMin: the earlier of two instants, where a zero first argument yields the second.
   * A zero SECOND argument is not skipped: it is "not after" anything, so it is returned.
   */
  function TimeMin(a: Time, b: Time): (r: Time)
    ensures r == a || r == b
    ensures a == 0 ==> r == b
    ensures a != 0 && b != 0 ==> r <= a && r <= b
    ensures a != 0 && b == 0 ==> r == 0
  {
    if a == 0 then b
    else if b > a then a
    else b
  }
}
