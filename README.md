# ingress-dashboard core, modelled in Dafny

ingress-dashboard lists the ingresses of a Kubernetes cluster on one web page. This project models
the engine behind that page and proves properties of the model:

- **Record store.** The cache of enriched ingress records, keyed by UID.
- **Derived records.** How a record is derived from an ingress: its references, endpoint counts,
  class name and flags.
- **Coalescing notifier.** It publishes a snapshot and wakes the two background loops.
- **Background passes.** One pass each of icon discovery and certificate-expiry scanning.
- **Chain minimum.** The expiry probe over a TLS chain.
- **Icon heuristic.** Two divergent copies of the heuristic that finds a page's icon.
- **Auth.** The basic-auth gate and the OpenID Connect middleware.

Modules, one per file:

| module | file | models |
|---|---|---|
| `Wrappers` | `wrappers.dfy` | `Option` / `Result` |
| `Text` | `text.dfy` | `strings.HasPrefix` / `HasSuffix` / `TrimRight(s, "/")`; Go string order |
| `Net` | `net.dfy` | the parsed URL (scheme, host name); `url.Parse` as an oracle |
| `Html` | `html.dfy` | the HTML node tree; `findChild`; the attribute loop |
| `IconCommon` | `icon_common.dfy` | what both icon copies share: fetch oracle, error kinds, priority list, href normalisation, the heuristic as functions |
| `ServiceIcons` | `service_icons.dfy` | `internal/service.go`: `Label`, `Logo`, `findIcons`, `mainSrcPageIcon`, `detectIconURL` |
| `LogoFetcher` | `logo_fetcher.dfy` | `internal/logo_fetcher.go`: the same functions, with the inverted child test |
| `KubeModel` | `kube_model.dfy` | records and Kubernetes objects; `toBool`, `getClassName`, `timeMin` |
| `KubeRefs` | `kube_refs.dfy` | `getPodsNum`, `getTotalPodsNum`, `getRefs`, `inspectIngress` |
| `Snapshot` | `snapshot.dfy` | `toList`: copy the map, sort by ID |
| `TlsChecker` | `tls_checker.dfy` | `Expiration`: dial, then the NotAfter minimum |
| `KubeWatch` | `kube_watch.dfy` | class `KubeWatcher` (cache, two channel slots, published snapshots), the upsert/delete/patch operations, `notify`, one pass of each loop |
| `Requests` | `requests.dfy` | the request fields the middlewares read |
| `AuthBasic` | `auth_basic.dfy` | `basicAuth.ServeHTTP` |
| `AuthOidc` | `auth_oidc.dfy` | `oauthMiddleware`: `ServeHTTP`, `handlerCallback`, `logout`, `getServerURL`, `getConfig`, `requestEndSession`, `isSecure`, `getUserName` |

**Time and oracles.**
- Times are natural numbers. 0 is Go's zero `time.Time`, so no instant is before it.
- Everything outside the process becomes a function parameter (an oracle):
  - the service lookup;
  - the TLS dial, which yields the chain's NotAfter values, leaf first;
  - `url.Parse`;
  - the HTTP GET together with `html.Parse`;
  - `detectIconURL`, as the logo pass sees it;
  - token verification and the code exchange.

**KubeWatcher state.**
- The lock, goroutines, ticker and `select` become sequential method calls.
- Each capacity-1 channel is a boolean "pending" slot.
- The receiver is the list of snapshots it has been handed.

**The two icon copies.**
- Both copies are specified by one function family, `IconCommon.IconOf(doc, wantLink)`.
- `ServiceIcons` collects from `<link>` children (`wantLink` = true).
- `LogoFetcher` keeps its inverted test at internal/logo_fetcher.go:79 and collects only from
  children that are *not* `<link>` elements (`wantLink` = false).
- `ServiceIcons.LinkIconFound` shows that a page declaring its icon in a single
  `<link rel="icon">` gets that icon from the first copy.
- `LogoFetcher.LinkIconMissed` shows that the same page gets no icon from the second copy.

**Where the code does something a reader might not expect, the model follows the code:**
- **Chain minimum.** The minimum is the earliest non-zero NotAfter only when the leaf's NotAfter
  is non-zero. With a zero leaf it stays zero, because nothing is before the zero time
  (`TlsChecker.LeafZero`).
- **`timeMin`.** `timeMin(a, 0)` with `a` non-zero returns 0, not `a`. The expiry pass never
  passes a zero second argument.
- **`OnDelete`.** It type-asserts `*IngressClass`. Deleting an ingress therefore leaves the cache
  unchanged, and only an ingress-class object removes the entry under its UID.
- **`getTotalPodsNum`.** It stops at the first failing path and returns the partial sum, with an
  error. It does not count failures as 0 (`KubeRefs.TotalPodsFirstFailure`).
- **Icon copy in `internal/logo_fetcher.go`.** It ignores `<link>` elements, as described above.

## Model

| member | source | states |
|---|---|---|
| Text.TrimRightSlash | internal/service.go:43 | `strings.TrimRight(u, "/")`: the result is a prefix of the input, everything cut off is '/', and the result does not end in '/' |
| Text.LessEqTotal | internal/kube_watch.go:215-217 | the ID order `sort.Slice` uses is total |
| Text.LessEqTransitive | internal/kube_watch.go:215-217 | the ID order is transitive |
| Html.ChildIndex | internal/service.go:188-195 | the position findChild stops at: the first direct child that is an element with the tag, or past the end when there is none; no earlier child matches |
| Html.FindChild | internal/service.go:188-195 | the sibling loop returns exactly the first matching direct child, or nothing |
| Html.LastValueAbsent | internal/service.go:152-158 | a key with no attribute leaves "" after the attribute loop |
| Html.LastValueWins | internal/service.go:152-158 | the last attribute with a key gives the value the attribute loop leaves |
| IconCommon.PickFrom | internal/service.go:164-169 | the href of the first listed rel present in the map; "" when none is present |
| IconCommon.PickPriority | internal/service.go:135 | the fixed priority apple-touch-icon, shortcut icon, icon, alternate icon decides, whatever the document order; other rels never matter |
| IconCommon.NormalizeHref | internal/service.go:128-130 | exactly a parsable, non-absolute href without a leading '/' gets '/' in front; every other href is unchanged |
| IconCommon.NormalizeIdempotent | internal/service.go:128-130 | normalising an already normalised href changes nothing |
| IconCommon.FaviconURL | internal/service.go:99 | the fallback is exactly the service URL immediately followed by "/favicon.ico", nothing in between |
| IconCommon.Links | internal/service.go:147-163 | every rel and href in the collected map is non-empty |
| IconCommon.LinksAbsent | internal/service.go:159-161 | a rel that no contributing child carries is not in the map |
| IconCommon.LinksLastWins | internal/service.go:159-161 | among contributing children with the same rel, the last one's href is kept |
| IconCommon.SkippedChild | internal/service.go:149 | a child that fails the child test adds nothing, wherever it stands |
| IconCommon.IconOfNeedsHead | internal/service.go:137-145 | no icon without an `<html>` child of the document, or without a `<head>` child of the first `<html>` |
| IconCommon.PageIcon | internal/service.go:106-132 | request error, non-200, parse error and "no logo" in that order, each exactly in its case; a found icon is the normalised href findIcons found, non-empty and ending with that href |
| IconCommon.Ping | internal/service.go:172-186 | no error exactly on status 200; a request error or a non-200 error otherwise |
| IconCommon.Detected | internal/service.go:92-104 | the page icon when there is one; otherwise the favicon URL only when it answers 200; "" exactly when both fail |
| ServiceIcons.Label | internal/service.go:29-34 | the title when non-empty, else the name |
| ServiceIcons.Logo | internal/service.go:36-48 | "" for no logo; a '/'-prefixed logo with URLs is joined to the first URL with its trailing slashes trimmed; otherwise the logo unchanged |
| ServiceIcons.FindIcons | internal/service.go:134-170 | the loops compute IconOf(doc, true): `<link>` children of the first `<head>`, last rel/href wins, priority pick |
| ServiceIcons.MainSrcPageIcon | internal/service.go:106-132 | the fetch, status, parse, find and normalise steps give PageIcon's result |
| ServiceIcons.DetectIconURL | internal/service.go:92-104 | the page icon, else the favicon on a 200 ping, else "" (Detected) |
| ServiceIcons.LinkIconFound | internal/service.go:149-168 | a head with one `<link>` whose rel is in the priority list yields that link's href |
| LogoFetcher.FindIcons | internal/logo_fetcher.go:64-101 | the loops compute IconOf(doc, false): only children of `<head>` that are NOT `<link>` elements are scanned |
| LogoFetcher.MainSrcPageIcon | internal/logo_fetcher.go:35-62 | as the other copy, with errNot200 as Non200 and errNoLogo as NoLogo |
| LogoFetcher.DetectIconURL | internal/logo_fetcher.go:20-33 | the page icon, else the favicon on a 200 ping, else "" |
| LogoFetcher.LinkIconMissed | internal/logo_fetcher.go:79 | the inverted test ignores a `<link>` declaration: a head with one `<link rel=icon>` yields no icon |
| KubeModel.ToBool | internal/kube_watch.go:355-361 | a true or false spelling decides; anything else gives the default |
| KubeModel.ClassName | internal/kube_watch.go:363-370 | the spec's class name when set, else the legacy annotation |
| KubeModel.TimeMin | internal/kube_watch.go:372-381 | one of the two arguments; a zero first yields the second; of two non-zero times the earlier; a zero second argument is returned |
| KubeRefs.Reachable | internal/kube_watch.go:288-294 | cluster IPs plus external IPs, where an external name without external IPs counts as one |
| KubeRefs.PodsNum | internal/kube_watch.go:279-295 | no service gives 0 without error; an error exactly on a failed lookup, then with 0; otherwise Reachable |
| KubeRefs.HostTargetsAt | internal/kube_watch.go:243 | path k of a rule is backend k, under the rule's host |
| KubeRefs.TargetsSnoc | internal/kube_watch.go:240 | one more rule appends exactly that rule's paths |
| KubeRefs.TargetsAppend | internal/kube_watch.go:240-256 | the paths of two rule lists are the concatenation of their paths |
| KubeRefs.TargetsOrder | internal/kube_watch.go:240-256 | the paths of rule i sit after those of earlier rules and before those of later rules |
| KubeRefs.NoHTTPRuleContributesNothing | internal/kube_watch.go:242 | a rule with nil HTTP contributes no path, wherever it stands |
| KubeRefs.TotalPodsWithoutFailure | internal/kube_watch.go:261-277 | with no failing lookup, the total is the full sum, without error |
| KubeRefs.TotalPodsFirstFailure | internal/kube_watch.go:268-271 | at the first failing path, the total is the partial sum of the earlier paths, with an error |
| KubeRefs.TotalPodsFailedStays | internal/kube_watch.go:269-271 | after a failure, later paths change nothing |
| KubeRefs.GetTotalPodsNum | internal/kube_watch.go:261-277 | the nested loop with its early return computes the TotalPods fold |
| KubeRefs.PathRefs | internal/kube_watch.go:239-256 | one reference per path, reference k for path k |
| KubeRefs.GetRefs | internal/kube_watch.go:222-259 | with the URL annotation (even empty), exactly one reference with that URL and the total count; otherwise one reference per path, in rule-then-path order |
| KubeRefs.PathRefShape | internal/kube_watch.go:234-253 | reference k's URL is "https://" when the ingress declares TLS entries, else "http://", then host and path; a failing path still appears, with 0 endpoints |
| KubeRefs.InspectIngress | internal/kube_watch.go:194-208 | the record carries getRefs' references, the UID, ID "namespace.name", TLS iff TLS entries exist, and no expiry yet |
| Snapshot.Insert | internal/kube_watch.go:215-217 | inserting into an ID-ordered list keeps it ordered and adds exactly that record |
| Snapshot.SortByID | internal/kube_watch.go:215-217 | the sort is an ID-ordered permutation of its input |
| Snapshot.SortedPairwise | internal/kube_watch.go:215-217 | adjacent order extends to every pair |
| Snapshot.ToList | internal/kube_watch.go:210-220 | each record occurs exactly as often as entries hold it (so every entry is copied once), ordered by ascending ID |
| Snapshot.CopyValues | internal/kube_watch.go:211-214 | the range loop copies each entry's record once: each record occurs as often as entries hold it |
| Snapshot.SnapshotsAgree | internal/kube_watch.go:210-220 | two snapshots of the same cache are permutations of each other |
| TlsChecker.ChainMinIsEntry | internal/tls_checker.go:23-33 | the minimum is zero or one of the chain's NotAfter values |
| TlsChecker.LeafZero | internal/tls_checker.go:26-30 | with a zero leaf the minimum stays zero, whatever follows |
| TlsChecker.LeafNonZero | internal/tls_checker.go:23-32 | with a non-zero leaf the minimum is non-zero and not after any non-zero entry |
| TlsChecker.ZeroEntryIgnored | internal/tls_checker.go:25 | a zero NotAfter after the leaf changes nothing |
| TlsChecker.ExpirationOf | internal/tls_checker.go:12-34 | an error exactly when the dial fails, then with the zero time; otherwise the chain minimum; an empty chain gives zero |
| TlsChecker.Expiration | internal/tls_checker.go:12-34 | the dial on host:443 and the loop over the chain compute ExpirationOf |
| KubeWatch.SnapshotItem | internal/kube_watch.go:210-220 | every record of a snapshot is the entry stored under its UID |
| KubeWatch.SnapshotCovers | internal/kube_watch.go:210-220 | every cached entry appears in a snapshot |
| KubeWatch.CoveredAll | internal/kube_watch.go:109 | a loop over a whole snapshot visits every key of the cache |
| KubeWatch.Sticky | internal/kube_watch.go:144-149 | the new record, except that a stored non-empty logo survives an empty new one |
| KubeWatch.StickyKeepsLogo | internal/kube_watch.go:144-149 | only the logo can differ from the new record; a stored logo is never lost; a non-empty new logo is kept |
| KubeWatch.UpsertStored | internal/kube_watch.go:134-150 | storing the sticky inspected record under its UID is an upsert and keeps every entry under its own UID |
| KubeWatch.LogoStep | internal/kube_watch.go:110-114 | only a shown record with an empty logo and a reference is probed, with its first reference; only a non-empty result is written |
| KubeWatch.RecordMinIsLeast | internal/kube_watch.go:319-345 | a record's minimum is the least non-zero host expiry; zero exactly when no host yields one |
| KubeWatch.RecordMinStep | internal/kube_watch.go:320-345 | one more reference takes the minimum with its expiry, skipping zero |
| KubeWatch.TlsStep | internal/kube_watch.go:315-350 | a non-TLS record, or one with a zero minimum, is unchanged; otherwise only its expiry becomes the minimum |
| KubeWatch.LogoAdvance | internal/kube_watch.go:109-116 | one record of the icon pass moves its entry to the pass result and records its probe |
| KubeWatch.TlsAdvance | internal/kube_watch.go:315-350 | one record of the expiry pass moves its entry to the pass result |
| KubeWatch.TlsFinished | internal/kube_watch.go:312-353 | at the end of the expiry pass every entry holds its result and no good probe was repeated; the probe log holds only hosts of TLS records, and every parsable reference host of every TLS record is in it |
| KubeWatch.TlsHostsGrow | internal/kube_watch.go:316-330 | hosts probed for a TLS record keep the probe log within hosts of TLS records |
| KubeWatch.LogoFinished | internal/kube_watch.go:107-117 | at the end of the icon pass every entry holds its result and every candidate was probed |
| KubeWatch.ProbeAdvance | internal/kube_watch.go:330-343 | probing a host missing from the memo, and remembering a non-zero success, keeps the memo exact and probes unique |
| KubeWatch.MemoHit | internal/kube_watch.go:324-328 | a memoised host contributes its remembered, non-zero expiry |
| KubeWatch.ScanRefs | internal/kube_watch.go:320-345 | the reference loop computes the record minimum whatever the memo held, grows memo and probe log consistently, probes only hosts of the record's references, and leaves every parsable reference host in the probe log (probed now or earlier in the pass, as the memo holds only probed hosts) |
| KubeWatch.WakeupsBounded | internal/kube_watch.go:152-163 | a loop wakes no more often than it was signalled, plus a signal already pending |
| KubeWatch.BurstCoalesces | internal/kube_watch.go:154-162 | any burst of sends leaves exactly one pending signal and no wake-up |
| KubeWatch.KubeWatcher.constructor | internal/kube_watch.go:66-75 | an empty cache and empty channels |
| KubeWatch.KubeWatcher.Items | internal/kube_watch.go:165-170 | a snapshot of the cache |
| KubeWatch.KubeWatcher.Publish | internal/kube_watch.go:153 | the receiver gets one more snapshot, of the current cache; nothing else changes |
| KubeWatch.KubeWatcher.Notify | internal/kube_watch.go:152-163 | one snapshot published, then one Send on each slot (Deliver): both pending whether or not they were before |
| KubeWatch.KubeWatcher.TakeLogoSignal | internal/kube_watch.go:121 | one Receive on the slot (Deliver): the icon loop wakes exactly when a signal is pending, and empties the slot |
| KubeWatch.KubeWatcher.TakeCertSignal | internal/kube_watch.go:304 | one Receive on the slot (Deliver): the expiry loop wakes exactly when a signal is pending, and empties the slot |
| KubeWatch.KubeWatcher.UpsertIngress | internal/kube_watch.go:134-150 | an ingress is inspected and stored stickily under its UID, every other entry unchanged; any other object changes nothing; notify runs either way |
| KubeWatch.KubeWatcher.OnAdd | internal/kube_watch.go:87-89 | an upsert of the added object |
| KubeWatch.KubeWatcher.OnUpdate | internal/kube_watch.go:91-93 | an upsert of the new object |
| KubeWatch.KubeWatcher.OnDelete | internal/kube_watch.go:95-105 | only an ingress-class object removes the entry under its UID; anything else leaves the cache; notify runs either way |
| KubeWatch.KubeWatcher.UpdateLogo | internal/kube_watch.go:172-181 | an absent UID or a set logo changes nothing; otherwise only the logo of that entry changes |
| KubeWatch.KubeWatcher.UpdateTLSExpiration | internal/kube_watch.go:183-192 | an absent UID changes nothing; otherwise only the expiry of that entry changes |
| KubeWatch.KubeWatcher.LogoVisit | internal/kube_watch.go:110-115 | one record of the icon pass, with its guarded write-back |
| KubeWatch.KubeWatcher.TlsVisit | internal/kube_watch.go:316-350 | one record of the expiry pass, with its guarded write-back |
| KubeWatch.KubeWatcher.LogoPass | internal/kube_watch.go:107-117 | every entry becomes its LogoStep result; only candidates' first URLs are probed, and every candidate is; one snapshot is published |
| KubeWatch.KubeWatcher.TLSPass | internal/kube_watch.go:312-353 | every entry becomes its TlsStep result; only hosts of references of TLS records are probed, and every parsable reference host of every TLS record is probed at least once; no host with a remembered result is probed twice; one snapshot is published |
| KubeWatch.UpsertIdempotent | internal/kube_watch.go:134-150 | upserting the same ingress twice leaves the cache of a single upsert |
| AuthBasic.Serve | internal/auth/basic.go:22-37 | a "/logout" path is always 401 with the challenge; otherwise a pass exactly when both credentials match, with the supplied username; every refusal is 401 with the challenge |
| AuthOidc.IsSecure | internal/auth/oidc.go:243-249 | a non-empty X-Forwarded-Proto decides (secure iff "https"); otherwise whether the request came over TLS |
| AuthOidc.ExternalHost | internal/auth/oidc.go:187-191 | X-Forwarded-Host when non-empty, else Host |
| AuthOidc.ServerURL | internal/auth/oidc.go:183-197 | a configured URL verbatim; else "https://" or "http://" by IsSecure, then the external host |
| AuthOidc.ConfigFor | internal/auth/oidc.go:199-204 | the redirect URL is the server URL with "/oauth2/callback"; every other field is the stored one |
| AuthOidc.UserName | internal/auth/oidc.go:251-265 | preferred_username, else email, else subject |
| AuthOidc.EndSession | internal/auth/oidc.go:206-210 | no request exactly when no logout URL is configured; otherwise exactly the logout URL, then "?id_token_hint=", then the raw token |
| AuthOidc.Callback | internal/auth/oidc.go:115-167 | signed in exactly when state cookie and query state agree, the exchange yields an id_token that verifies, and the nonce cookie equals the token's nonce; the cookie carries the raw token and its expiry; a bad state, or a missing or mismatched nonce, is 400; a failed exchange, a missing id_token or a failed verification is 500 |
| AuthOidc.CallbackStateFirst | internal/auth/oidc.go:116-126 | a missing or mismatched state gives 400 before the exchange or the verifier is consulted |
| AuthOidc.Serve | internal/auth/oidc.go:64-93 | the callback path first, whatever the cookies; no verifying token starts the login towards the callback path; "/logout" signs out exactly when the token verifies; otherwise the request passes on with the token's user name |

## Left out

- Goroutines, the `RWMutex`, `WaitGroup`, the ticker and the blocking `select` waits
  (`WatchKubernetes`, `runCertsInfoCheck`, the loop around `runLogoFetcher`) are not modelled.
  Single passes run as sequential method calls, and the channel receive is `TakeLogoSignal` /
  `TakeCertSignal`.
- `runWatcher` and the informer wiring are Kubernetes client plumbing. They are not modelled.
- The network is oracles only:
  - the TLS dial;
  - the HTTP client;
  - the service lookup;
  - the OIDC provider's verification, code exchange and claims.
- These oracles are deterministic functions, so a host dialled twice gives the same answer.
  A real certificate, service or page can change between two calls. The model does not capture
  the expiry pass's memo, or a repeated upsert, going stale. ScanRefs' "whatever the memo held"
  and UpsertIdempotent rely on this determinism.
- A failing `http.NewRequestWithContext` is one of the oracle's `RequestFailed` cases.
- `requestEndSession` building or sending its request can fail, and its response is ignored.
  `EndSession` returns only the URL it requests.
- Library parsers are not modelled. `html.Parse` is part of the fetch oracle. `url.Parse`,
  `Hostname` and `IsAbs` are the `Net` oracle and predicate. `strconv.ParseBool` is its table of
  accepted spellings.
- `sort.Slice` is represented by an insertion sort with an ordered-permutation contract. Which
  permutation Go's unstable sort picks among equal IDs is not modelled.
- Error texts, logging, the page template, the router, the `atomic.Value` cache of `Service`,
  `internal/static/static.go`, `internal/auth/context.go` and `cmd/ingress-dashboard/main.go` are
  not part of this model.
- AuthOidc.Serve: `randString` and its 500 answer are not modelled. The state and nonce values,
  the `AuthCodeURL` parameters and the cookie attributes other than `Secure` and the token's expiry
  are left out as well, so `StartLogin` carries only the redirect URL the provider will send back
  to.
- AuthBasic.Serve: the `Content-Type` header and the body of the logout page are reduced to a flag.
- Header names are taken as already canonical, so `Header.Get`'s canonicalisation is not modelled.
- Html.FindChild: one definition stands for the identical `findChild` in both files
  (internal/service.go:188-195 and internal/logo_fetcher.go:120-128).
- IconCommon.Ping: one definition stands for both `pingURL` copies.
- KubeWatch.ScanRefs, KubeWatcher.LogoVisit and KubeWatcher.TlsVisit are the loop bodies of
  `scanTLSCerts` and `runLogoFetcher`, pulled out as methods. The statements and their order are
  those of the source.
- KubeWatcher.LogoPass takes `detectIconURL` as an oracle from URL to icon. The two icon modules
  model what that oracle computes.
- Integer widths are not modelled: counts are unbounded naturals, and Go's `int` cannot overflow
  at these sizes.
