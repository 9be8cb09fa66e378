/** The two checks of a Compose configuration: the server stops at the first error,
    the packer on the author's machine collects them all. */
module Compose {
  import opened Wrappers
  import opened Text
  import opened PosixPath

  /** Parsed configuration; an absent or empty text is "". */
  datatype Network = Network(name: string, driver: string, external: bool)
  datatype Attachment = Attachment(ipv4: string, ipv6: string)
  datatype Service = Service(name: string, networks: seq<Attachment>, image: string, ports: seq<string>)
  datatype Project = Project(networks: seq<Network>, services: seq<Service>)

  datatype ComposeError =
    BadDriver(name: string) | ExternalNetwork(name: string) | FixedAddress(name: string) | NoImage(name: string) |
      NotLoaded(name: string)

  datatype Summary = Summary(services: seq<(string, string, seq<string>)>, published: seq<string>)

  predicate HasTag(image: string) { '@' in image || ':' in Basename(image) }

  /** An image reference without tag means `:latest`. */
  function Tagged(image: string): string { if HasTag(image) then image else image + ":latest" }

  predicate Fixed(a: Attachment) { a.ipv4 != "" || a.ipv6 != "" }

  // ---- every error of a configuration, in order ----

  function NetworkErrors(n: Network): seq<ComposeError> {
    (if n.driver == "macvlan" || n.driver == "ipvlan" then [BadDriver(n.name)] else [])
    + (if n.external then [ExternalNetwork(n.name)] else [])
  }

  function AllNetworkErrors(ns: seq<Network>): seq<ComposeError> {
    if ns == [] then [] else AllNetworkErrors(ns[..|ns| - 1]) + NetworkErrors(ns[|ns| - 1])
  }

  function AttachmentErrors(name: string, nets: seq<Attachment>): seq<ComposeError> {
    if nets == [] then []
    else AttachmentErrors(name, nets[..|nets| - 1]) + (if Fixed(nets[|nets| - 1]) then [FixedAddress(name)] else [])
  }

  function ImageErrors(s: Service, loaded: set<string>): seq<ComposeError> {
    if s.image == "" then [NoImage(s.name)]
    else if loaded != {} && Tagged(s.image) !in loaded then [NotLoaded(s.name)]
    else []
  }

  function ServiceErrors(s: Service, loaded: set<string>): seq<ComposeError> {
    AttachmentErrors(s.name, s.networks) + ImageErrors(s, loaded)
  }

  function AllServiceErrors(ss: seq<Service>, loaded: set<string>): seq<ComposeError> {
    if ss == [] then [] else AllServiceErrors(ss[..|ss| - 1], loaded) + ServiceErrors(ss[|ss| - 1], loaded)
  }

  function AllErrors(p: Project, loaded: set<string>): seq<ComposeError> {
    AllNetworkErrors(p.networks) + AllServiceErrors(p.services, loaded)
  }

  // ---- published ports ----

  function Published(ports: seq<string>): seq<string> {
    if ports == [] then []
    else Published(ports[..|ports| - 1]) + (if ports[|ports| - 1] != "" then [ports[|ports| - 1]] else [])
  }

  function AllPublished(ss: seq<Service>): seq<string> {
    if ss == [] then [] else AllPublished(ss[..|ss| - 1]) + Published(ss[|ss| - 1].ports)
  }

  /** Order of code points. */
  predicate LexLess(a: string, b: string) {
    if b == "" then false
    else if a == "" then true
    else if a[0] != b[0] then a[0] < b[0]
    else LexLess(a[1..], b[1..])
  }

  /** The sort key `(len(x), x)`. */
  predicate Less(a: string, b: string) { |a| < |b| || (|a| == |b| && LexLess(a, b)) }

  ghost predicate Increasing(ports: seq<string>) {
    forall i, j :: 0 <= i < j < |ports| ==> Less(ports[i], ports[j])
  }

  function Insert(port: string, ports: seq<string>): (r: seq<string>)
    ensures forall x :: x in r <==> x == port || x in ports
  {
    if ports == [] then [port]
    else if port == ports[0] then ports
    else if Less(port, ports[0]) then [port] + ports
    else [ports[0]] + Insert(port, ports[1..])
  }

  /** `sorted(set(ports), key=lambda x: (len(x), x))`. */
  function SortedSet(ports: seq<string>): (r: seq<string>)
    ensures forall x :: x in r <==> x in ports
  {
    if ports == [] then [] else Insert(ports[|ports| - 1], SortedSet(ports[..|ports| - 1]))
  }

  function Summaries(ss: seq<Service>): seq<(string, string, seq<string>)> {
    if ss == [] then []
    else Summaries(ss[..|ss| - 1]) + [(ss[|ss| - 1].name, ss[|ss| - 1].image, Published(ss[|ss| - 1].ports))]
  }

  // ---- the server's check ----

  /** Whether no network gives the service a fixed address. */
  method NoneFixed(nets: seq<Attachment>, name: string) returns (ok: bool)
    ensures ok <==> AttachmentErrors(name, nets) == []
    ensures !ok ==> AttachmentErrors(name, nets)[0] == FixedAddress(name)
  {
    var i := 0;
    while i < |nets|
      invariant 0 <= i <= |nets|
      invariant AttachmentErrors(name, nets[..i]) == []
    {
      assert nets[..i + 1][..i] == nets[..i];
      if Fixed(nets[i]) {
        AttachmentsGrow(name, nets, i + 1);
        return false;
      }
      i := i + 1;
    }
    assert nets[..i] == nets;
    ok := true;
  }

  method PortsOf(all: seq<string>) returns (ports: seq<string>)
    ensures ports == Published(all)
  {
    ports := [];
    for j := 0 to |all|
      invariant ports == Published(all[..j])
    {
      assert all[..j + 1][..j] == all[..j];
      if all[j] != "" { ports := ports + [all[j]]; }
    }
    assert all[..|all|] == all;
  }

  /** The first error of one service, and its ports. */
  method CheckService(s: Service, loaded: set<string>) returns (result: Result<seq<string>, ComposeError>)
    ensures result.Ok? <==> ServiceErrors(s, loaded) == []
    ensures result.Ok? ==> result.value == Published(s.ports)
    ensures result.Err? ==> result.error == ServiceErrors(s, loaded)[0]
  {
    hide AttachmentErrors, Published, Tagged;
    var ok := NoneFixed(s.networks, s.name);
    if !ok { return Err(FixedAddress(s.name)); }
    if s.image == "" { return Err(NoImage(s.name)); }
    if loaded != {} && Tagged(s.image) !in loaded { return Err(NotLoaded(s.name)); }
    var ports := PortsOf(s.ports);
    result := Ok(ports);
  }

  /** The first error of the networks. */
  method CheckNetworks(ns: seq<Network>) returns (result: Option<ComposeError>)
    ensures result.None? <==> AllNetworkErrors(ns) == []
    ensures result.Some? ==> result.value == AllNetworkErrors(ns)[0]
  {
    var i := 0;
    while i < |ns|
      invariant 0 <= i <= |ns|
      invariant AllNetworkErrors(ns[..i]) == []
    {
      assert ns[..i + 1][..i] == ns[..i];
      NetworksGrow(ns, i + 1);
      if ns[i].driver == "macvlan" || ns[i].driver == "ipvlan" { return Some(BadDriver(ns[i].name)); }
      if ns[i].external { return Some(ExternalNetwork(ns[i].name)); }
      i := i + 1;
    }
    assert ns[..i] == ns;
    result := None;
  }

  /** `_validate_compose`: it stops at the first error there is. */
  method ValidateCompose(p: Project, loaded: set<string>) returns (result: Result<Summary, ComposeError>)
    ensures result.Ok? <==> AllErrors(p, loaded) == []
    ensures result.Err? ==> result.error == AllErrors(p, loaded)[0]
    ensures Judged(p, loaded, if result.Ok? then None else Some(result.error))
    ensures result.Ok? ==> result.value == Summary(Summaries(p.services), SortedSet(AllPublished(p.services)))
  {
    hide ServiceErrors, Published, AllNetworkErrors, SortedSet, Judged;
    ErrorsJudged(p, loaded);
    var bad := CheckNetworks(p.networks);
    if bad.Some? { return Err(bad.value); }
    var services, published, j := [], [], 0;
    while j < |p.services|
      invariant 0 <= j <= |p.services|
      invariant AllServiceErrors(p.services[..j], loaded) == []
      invariant services == Summaries(p.services[..j])
      invariant published == AllPublished(p.services[..j])
    {
      var s := p.services[j];
      assert p.services[..j + 1][..j] == p.services[..j];
      ServicesGrow(p.services, loaded, j + 1);
      var ports :- CheckService(s, loaded);
      published := published + ports;
      services := services + [(s.name, s.image, ports)];
      j := j + 1;
    }
    assert p.services[..j] == p.services;
    result := Ok(Summary(services, SortedSet(published)));
  }

  method CollectNetworkErrors(ns: seq<Network>) returns (errs: seq<ComposeError>)
    ensures errs == AllNetworkErrors(ns)
  {
    errs := [];
    for i := 0 to |ns|
      invariant errs == AllNetworkErrors(ns[..i])
    {
      assert ns[..i + 1][..i] == ns[..i];
      if ns[i].driver == "macvlan" || ns[i].driver == "ipvlan" { errs := errs + [BadDriver(ns[i].name)]; }
      if ns[i].external { errs := errs + [ExternalNetwork(ns[i].name)]; }
    }
    assert ns[..|ns|] == ns;
  }

  method CollectAttachmentErrors(name: string, nets: seq<Attachment>) returns (errs: seq<ComposeError>)
    ensures errs == AttachmentErrors(name, nets)
  {
    errs := [];
    for k := 0 to |nets|
      invariant errs == AttachmentErrors(name, nets[..k])
    {
      assert nets[..k + 1][..k] == nets[..k];
      if Fixed(nets[k]) { errs := errs + [FixedAddress(name)]; }
    }
    assert nets[..|nets|] == nets;
  }

  lemma UnloadedErrors(s: Service)
    ensures ServiceErrors(s, {}) == AttachmentErrors(s.name,
            s.networks) + (if s.image == "" then [NoImage(s.name)] else [])
  {
    hide Tagged, AttachmentErrors;
  }

  /** The packer's check: every error, and it knows of no images yet. */
  method CollectErrors(p: Project) returns (errs: seq<ComposeError>)
    ensures errs == AllErrors(p, {})
  {
    hide ServiceErrors, AllNetworkErrors;
    var before := CollectNetworkErrors(p.networks);
    errs := before;
    for j := 0 to |p.services|
      invariant errs == before + AllServiceErrors(p.services[..j], {})
    {
      var s := p.services[j];
      assert p.services[..j + 1][..j] == p.services[..j];
      var attached := CollectAttachmentErrors(s.name, s.networks);
      UnloadedErrors(s);
      errs := errs + attached;
      if s.image == "" { errs := errs + [NoImage(s.name)]; }
    }
    assert p.services[..|p.services|] == p.services;
  }

  lemma {:induction false} AttachmentsGrow(name: string, nets: seq<Attachment>, k: nat)
    requires k <= |nets|
    ensures AttachmentErrors(name, nets[..k]) <= AttachmentErrors(name, nets)
  {
    if k == |nets| {
      assert nets[..k] == nets;
    } else {
      AttachmentsGrow(name, nets[..|nets| - 1], k);
      assert nets[..|nets| - 1][..k] == nets[..k];
    }
  }

  lemma {:induction false} NetworksGrow(ns: seq<Network>, k: nat)
    requires k <= |ns|
    ensures AllNetworkErrors(ns[..k]) <= AllNetworkErrors(ns)
  {
    if k == |ns| {
      assert ns[..k] == ns;
    } else {
      NetworksGrow(ns[..|ns| - 1], k);
      assert ns[..|ns| - 1][..k] == ns[..k];
    }
  }

  lemma {:induction false} ServicesGrow(ss: seq<Service>, loaded: set<string>, k: nat)
    requires k <= |ss|
    ensures AllServiceErrors(ss[..k], loaded) <= AllServiceErrors(ss, loaded)
  {
    if k == |ss| {
      assert ss[..k] == ss;
    } else {
      ServicesGrow(ss[..|ss| - 1], loaded, k);
      assert ss[..|ss| - 1][..k] == ss[..k];
    }
  }

  // ---- the two checks agree ----

  lemma ServiceAgrees(s: Service, loaded: set<string>)
    ensures ServiceErrors(s, loaded) == [] <==>
            ServiceErrors(s, {}) == [] && (loaded != {} ==> Tagged(s.image) in loaded)
  {
    hide Tagged, AttachmentErrors;
    assert Tagged(s.image) !in {};
  }

  ghost predicate AllLoaded(ss: seq<Service>, loaded: set<string>) {
    forall k :: 0 <= k < |ss| ==> Tagged(ss[k].image) in loaded
  }

  lemma OneMoreLoaded(ss: seq<Service>, loaded: set<string>)
    requires ss != []
    ensures AllLoaded(ss, loaded) <==> AllLoaded(ss[..|ss| - 1], loaded) && Tagged(ss[|ss| - 1].image) in loaded
  {
    hide Tagged;
    var init := ss[..|ss| - 1];
    assert forall k :: 0 <= k < |init| ==> init[k] == ss[k];
  }

  lemma {:induction false} ServicesAgree(ss: seq<Service>, loaded: set<string>)
    ensures AllServiceErrors(ss, loaded) == [] <==>
            AllServiceErrors(ss, {}) == [] && (loaded != {} ==> AllLoaded(ss, loaded))
  {
    if ss != [] {
      hide Tagged, ServiceErrors, AllLoaded;
      ServicesAgree(ss[..|ss| - 1], loaded);
      ServiceAgrees(ss[|ss| - 1], loaded);
      OneMoreLoaded(ss, loaded);
    }
  }

  /** The server accepts exactly what the packer finds no error in and, if anything
      was loaded, whose tagged images were all loaded. */
  lemma ServerAgreesWithPacker(p: Project, loaded: set<string>)
    ensures AllErrors(p, loaded) == [] <==>
            AllErrors(p, {}) == [] && (loaded != {} ==> AllLoaded(p.services, loaded))
  {
    hide AllLoaded, AllServiceErrors;
    ServicesAgree(p.services, loaded);
  }

  /** A tagged reference has a tag, so tagging again changes nothing. */
  lemma TaggedHasTag(image: string)
    ensures HasTag(Tagged(image)) && Tagged(Tagged(image)) == Tagged(image)
  {
    if !HasTag(image) {
      var i, t := LastSlash(image), image + ":latest";
      NoneAfter(image, i);
      assert t[i..] == image[i..] + ":latest";
      LastSlashUnique(t, i);
      assert t[|image|] == ':' && t[i..][|image| - i] == ':';
    }
  }

  /** In a reference with a registry only what stands behind the last slash can be a tag,
      unless there is a digest; the port of the registry is none. */
  lemma TagBehindSlash(registry: string, last: string)
    requires '/' !in last
    ensures HasTag(registry + "/" + last) <==> '@' in registry || '@' in last || ':' in last
    ensures HasTag(last) <==> '@' in last || ':' in last
  {
    var image, i := registry + "/" + last, |registry| + 1;
    assert image[i..] == last && image[i - 1] == '/';
    LastSlashUnique(image, i);
    LastSlashUnique(last, 0);
    assert last[0..] == last;
    assert '@' in image <==> '@' in registry || '@' in "/" || '@' in last;
  }

  lemma RegistryWithPort()
    ensures Tagged("registry:5000/web") == "registry:5000/web:latest"
    ensures Tagged("registry:5000/web:2") == "registry:5000/web:2"
  {
    hide HasTag;
    TagBehindSlash("registry:5000", "web");
    TagBehindSlash("registry:5000", "web:2");
    assert "registry:5000" + "/" + "web" == "registry:5000/web";
    assert "registry:5000" + "/" + "web:2" == "registry:5000/web:2";
    assert "registry:5000/web" + ":latest" == "registry:5000/web:latest";
    assert "web:2"[3] == ':';
  }

  // ---- acceptance and the first error, in the fields of the configuration ----

  predicate BadNetwork(n: Network) { n.driver == "macvlan" || n.driver == "ipvlan" || n.external }

  ghost predicate AnyFixed(s: Service) {
    exists k :: 0 <= k < |s.networks| && (s.networks[k].ipv4 != "" || s.networks[k].ipv6 != "")
  }

  ghost predicate BadService(s: Service, loaded: set<string>) {
    AnyFixed(s) || s.image == "" || (loaded != {} && Tagged(s.image) !in loaded)
  }

  /** No network and no service is bad, or this is the error of the first bad network
      or, without one, of the first bad service. */
  ghost predicate Judged(p: Project, loaded: set<string>, why: Option<ComposeError>) {
    if exists k :: 0 <= k < |p.networks| && BadNetwork(p.networks[k]) then
      exists k :: 0 <= k < |p.networks| && BadNetwork(p.networks[k]) && NetworkError(p.networks[k], why) &&
                  forall j :: 0 <= j < k ==> !BadNetwork(p.networks[j])
    else if exists k :: 0 <= k < |p.services| && BadService(p.services[k], loaded) then
      exists k :: 0 <= k < |p.services| && BadService(p.services[k], loaded) && ServiceError(p.services[k], why) &&
                  forall j :: 0 <= j < k ==> !BadService(p.services[j], loaded)
    else why.None?
  }

  predicate NetworkError(n: Network, why: Option<ComposeError>) {
    why == Some(if n.driver == "macvlan" || n.driver == "ipvlan" then BadDriver(n.name) else ExternalNetwork(n.name))
  }

  ghost predicate ServiceError(s: Service, why: Option<ComposeError>) {
    why == Some(if AnyFixed(s) then FixedAddress(s.name) else if s.image == "" then NoImage(s.name)
                else NotLoaded(s.name))
  }

  function First(errs: seq<ComposeError>): Option<ComposeError> {
    if errs == [] then None else Some(errs[0])
  }

  lemma {:induction false} FirstNetworkError(ns: seq<Network>)
    ensures First(AllNetworkErrors(ns)).None? ==> forall k :: 0 <= k < |ns| ==> !BadNetwork(ns[k])
    ensures First(AllNetworkErrors(ns)).Some? ==>
              exists k :: 0 <= k < |ns| && BadNetwork(ns[k]) && NetworkError(ns[k], First(AllNetworkErrors(ns))) &&
                          forall j :: 0 <= j < k ==> !BadNetwork(ns[j])
  {
    if ns != [] {
      var init, last := ns[..|ns| - 1], |ns| - 1;
      FirstNetworkError(init);
      assert forall k :: 0 <= k < last ==> init[k] == ns[k];
      if AllNetworkErrors(init) == [] && BadNetwork(ns[last]) {
        assert NetworkError(ns[last], First(AllNetworkErrors(ns)));
      }
    }
  }

  lemma {:induction false} AttachedErrors(name: string, nets: seq<Attachment>)
    ensures AttachmentErrors(name, nets) != [] <==>
            exists k :: 0 <= k < |nets| && (nets[k].ipv4 != "" || nets[k].ipv6 != "")
    ensures forall k :: 0 <= k < |AttachmentErrors(name, nets)| ==>
              AttachmentErrors(name, nets)[k] == FixedAddress(name)
  {
    if nets != [] {
      var init, last := nets[..|nets| - 1], |nets| - 1;
      AttachedErrors(name, init);
      assert forall k :: 0 <= k < last ==> init[k] == nets[k];
      assert Fixed(nets[last]) <==> nets[last].ipv4 != "" || nets[last].ipv6 != "";
    }
  }

  lemma ErrorOfService(s: Service, loaded: set<string>)
    ensures ServiceErrors(s, loaded) != [] <==> BadService(s, loaded)
    ensures BadService(s, loaded) ==> ServiceError(s, First(ServiceErrors(s, loaded)))
  {
    hide Tagged, AttachmentErrors;
    AttachedErrors(s.name, s.networks);
  }

  lemma {:induction false} FirstServiceError(ss: seq<Service>, loaded: set<string>) returns (k: nat)
    ensures k <= |ss| && forall j :: 0 <= j < k ==> !BadService(ss[j], loaded)
    ensures AllServiceErrors(ss, loaded) == [] <==> k == |ss|
    ensures k < |ss| ==> BadService(ss[k], loaded) && ServiceError(ss[k], First(AllServiceErrors(ss, loaded)))
  {
    hide AllServiceErrors, BadService, ServiceErrors, ServiceError;
    if ss == [] {
      k := 0;
      NoErrors(loaded);
    } else {
      var init, last := ss[..|ss| - 1], ss[|ss| - 1];
      k := FirstServiceError(init, loaded);
      assert ss == init + [last];
      ServiceBehind(init, last, loaded);
      ErrorOfService(last, loaded);
      if k == |init| && !BadService(last, loaded) { k := |ss|; }
    }
  }

  /** The first error found is that of the first bad network or, without one, of the
      first bad service. */
  lemma ErrorsJudged(p: Project, loaded: set<string>)
    ensures Judged(p, loaded, First(AllErrors(p, loaded)))
  {
    hide BadNetwork, BadService, NetworkError, ServiceError, AllNetworkErrors, AllServiceErrors;
    FirstNetworkError(p.networks);
    var k := FirstServiceError(p.services, loaded);
  }

  /** The packer reports the errors of each network and each service separately, in
      the order of the configuration. */
  lemma {:induction false} ErrorsAdd(ns: seq<Network>, more: seq<Network>)
    ensures AllNetworkErrors(ns + more) == AllNetworkErrors(ns) + AllNetworkErrors(more)
  {
    hide AllNetworkErrors;
    if more == [] {
      assert ns + more == ns;
      NoErrors({});
    } else {
      var init, last := more[..|more| - 1], more[|more| - 1];
      ErrorsAdd(ns, init);
      NetworkBehind(ns + init, last);
      NetworkBehind(init, last);
      assert ns + more == ns + init + [last] && more == init + [last];
    }
  }

  lemma NoErrors(loaded: set<string>)
    ensures AllNetworkErrors([]) == [] && AllServiceErrors([], loaded) == []
  {
  }

  lemma NetworkBehind(ns: seq<Network>, n: Network)
    ensures AllNetworkErrors(ns + [n]) == AllNetworkErrors(ns) + NetworkErrors(n)
  {
    assert (ns + [n])[..|ns|] == ns;
  }

  lemma ServiceBehind(ss: seq<Service>, s: Service, loaded: set<string>)
    ensures AllServiceErrors(ss + [s], loaded) == AllServiceErrors(ss, loaded) + ServiceErrors(s, loaded)
  {
    hide ServiceErrors;
    assert (ss + [s])[..|ss|] == ss;
  }

  lemma {:induction false} ServiceErrorsAdd(ss: seq<Service>, more: seq<Service>, loaded: set<string>)
    ensures AllServiceErrors(ss + more, loaded) == AllServiceErrors(ss, loaded) + AllServiceErrors(more, loaded)
  {
    hide AllServiceErrors, ServiceErrors;
    if more == [] {
      assert ss + more == ss;
      NoErrors(loaded);
    } else {
      var init, last := more[..|more| - 1], more[|more| - 1];
      ServiceErrorsAdd(ss, init, loaded);
      ServiceBehind(ss + init, last, loaded);
      ServiceBehind(init, last, loaded);
      assert ss + more == ss + init + [last] && more == init + [last];
    }
  }

  /** The summary names each service in its place, with its image and its ports. */
  lemma {:induction false} SummaryAt(ss: seq<Service>, k: nat)
    requires k < |ss|
    ensures |Summaries(ss)| == |ss| && Summaries(ss)[k] == (ss[k].name, ss[k].image, Published(ss[k].ports))
  {
    var init := ss[..|ss| - 1];
    SummariesLength(ss);
    if k < |init| { SummaryAt(init, k); }
    SummariesLength(init);
  }

  lemma {:induction false} SummariesLength(ss: seq<Service>)
    ensures |Summaries(ss)| == |ss|
  {
    if ss != [] { SummariesLength(ss[..|ss| - 1]); }
  }

  /** The ports of a service stay in order; only empty ones are left out. */
  lemma {:induction false} PublishedAdds(a: seq<string>, b: seq<string>)
    ensures Published(a + b) == Published(a) + Published(b)
  {
    hide Published;
    if b == [] {
      assert a + b == a;
      NonePublished();
    } else {
      var init, last := b[..|b| - 1], b[|b| - 1];
      PublishedAdds(a, init);
      PublishedBehind(a + init, last);
      PublishedBehind(init, last);
      assert a + b == a + init + [last] && b == init + [last];
    }
  }

  lemma NonePublished()
    ensures Published([]) == []
  {
  }

  lemma PublishedBehind(ports: seq<string>, port: string)
    ensures Published(ports + [port]) == Published(ports) + (if port == "" then [] else [port])
  {
    assert (ports + [port])[..|ports|] == ports;
  }

  // ---- the order of the ports ----

  lemma {:induction false} LexTotal(a: string, b: string)
    ensures a == b || LexLess(a, b) || LexLess(b, a)
    ensures !(LexLess(a, b) && LexLess(b, a)) && !LexLess(a, a)
  {
    if a != "" {
      LexTotal(a[1..], if b == "" then "" else b[1..]);
      if b != "" && a[0] == b[0] {
        assert a == [a[0]] + a[1..] && b == [b[0]] + b[1..];
      }
    }
  }

  lemma {:induction false} LexTransitive(a: string, b: string, c: string)
    requires LexLess(a, b) && LexLess(b, c)
    ensures LexLess(a, c)
  {
    if a != "" && a[0] == b[0] == c[0] { LexTransitive(a[1..], b[1..], c[1..]); }
  }

  lemma LessTransitive(a: string, b: string, c: string)
    requires Less(a, b) && Less(b, c)
    ensures Less(a, c)
  {
    if |a| == |c| { LexTransitive(a, b, c); }
  }

  lemma {:induction false} InsertIncreasing(port: string, ports: seq<string>)
    requires Increasing(ports)
    ensures Increasing(Insert(port, ports))
  {
    if ports != [] && port != ports[0] {
      var r := Insert(port, ports);
      LexTotal(port, ports[0]);
      if Less(port, ports[0]) {
        forall i, j | 0 <= i < j < |r| ensures Less(r[i], r[j]) {
          if i == 0 && j > 1 { LessTransitive(port, ports[0], ports[j - 1]); }
        }
      } else {
        var tail := Insert(port, ports[1..]);
        InsertIncreasing(port, ports[1..]);
        forall i, j | 0 <= i < j < |r| ensures Less(r[i], r[j]) {
          assert r[j] == tail[j - 1] && tail[j - 1] in tail;
          if i > 0 { assert r[i] == tail[i - 1]; }
        }
      }
    }
  }

  /** The list has no duplicate and is in order of length, then of text. */
  lemma {:induction false} SortedSetIncreasing(ports: seq<string>)
    ensures Increasing(SortedSet(ports))
  {
    if ports != [] {
      SortedSetIncreasing(ports[..|ports| - 1]);
      InsertIncreasing(ports[|ports| - 1], SortedSet(ports[..|ports| - 1]));
    }
  }

  lemma {:induction false} SmallestFirst(a: seq<string>, b: seq<string>)
    requires Increasing(a) && Increasing(b) && a != [] && b != []
    requires forall x :: x in a <==> x in b
    ensures a[0] == b[0]
  {
    assert a[0] in b && b[0] in a;
    var i :| 0 <= i < |b| && b[i] == a[0];
    var j :| 0 <= j < |a| && a[j] == b[0];
    if i > 0 && j > 0 {
      LessTransitive(a[0], b[0], a[0]);
      LexTotal(a[0], a[0]);
    }
  }

  /** Order and contents determine the list, whatever the order of the input. */
  lemma {:induction false} IncreasingUnique(a: seq<string>, b: seq<string>)
    requires Increasing(a) && Increasing(b)
    requires forall x :: x in a <==> x in b
    ensures a == b
  {
    if a == [] {
      HasFirst(b);
    } else {
      assert a[0] in b;
      SmallestFirst(a, b);
      forall x ensures x in a[1..] <==> x in b[1..] {
        InTail(a, x);
        InTail(b, x);
      }
      IncreasingUnique(a[1..], b[1..]);
      assert a == [a[0]] + a[1..] && b == [b[0]] + b[1..];
    }
  }

  lemma HasFirst(a: seq<string>)
    ensures a != [] ==> a[0] in a
  {
  }

  lemma InTail(a: seq<string>, x: string)
    requires Increasing(a) && a != []
    ensures x in a[1..] <==> x in a && x != a[0]
  {
    LexTotal(a[0], a[0]);
    assert a == [a[0]] + a[1..];
    if x in a[1..] {
      var k :| 0 <= k < |a| - 1 && a[1..][k] == x;
      assert Less(a[0], a[k + 1]);
    }
  }

  // ---- numeric order ----

  function Pow10(n: nat): (p: nat)
    ensures p >= 1
  {
    if n == 0 then 1 else 10 * Pow10(n - 1)
  }

  lemma {:induction false} Pow10Grows(m: nat, n: nat)
    requires m <= n
    ensures Pow10(m) <= Pow10(n)
  {
    if m < n { Pow10Grows(m, n - 1); }
  }

  lemma {:induction false} ValBound(s: string)
    requires AllDigits(s)
    ensures Val(s) < Pow10(|s|)
  {
    if s != "" { ValBound(s[..|s| - 1]); }
  }

  lemma {:induction false} ValHead(s: string)
    requires AllDigits(s) && s != ""
    ensures Val(s) == (s[0] as int - '0' as int) * Pow10(|s| - 1) + Val(s[1..])
  {
    if |s| == 1 {
      assert s[..0] == "" && s[1..] == "";
    } else {
      var init, n, d := s[..|s| - 1], |s| - 2, s[0] as int - '0' as int;
      ValHead(init);
      assert s[1..][..n] == init[1..];
      assert Pow10(n + 1) == 10 * Pow10(n);
      assert d * (10 * Pow10(n)) == 10 * (d * Pow10(n));
    }
  }

  /** A numeral as printed: no leading zero. */
  predicate Canonical(s: string) { s != "" && AllDigits(s) && (s[0] == '0' ==> s == "0") }

  lemma {:induction false} LexIsNumeric(a: string, b: string)
    requires AllDigits(a) && AllDigits(b) && |a| == |b|
    ensures LexLess(a, b) <==> Val(a) < Val(b)
  {
    if a != "" {
      ValHead(a);
      ValHead(b);
      ValBound(a[1..]);
      ValBound(b[1..]);
      LexIsNumeric(a[1..], b[1..]);
      var x, y, p := a[0] as int - '0' as int, b[0] as int - '0' as int, Pow10(|a| - 1);
      if x < y { Gap(x, y, p); }
      if y < x { Gap(y, x, p); }
    }
  }

  lemma {:induction false} Gap(x: nat, y: nat, p: nat)
    requires x < y
    ensures x * p + p <= y * p
    decreases y
  {
    if x + 1 == y { assert y * p == x * p + p; } else { Gap(x, y - 1, p); assert y * p == (y - 1) * p + p; }
  }

  lemma ShorterIsSmaller(a: string, b: string)
    requires Canonical(a) && Canonical(b) && |a| < |b|
    ensures Val(a) < Val(b)
  {
    ValBound(a);
    ValHead(b);
    Pow10Grows(|a|, |b| - 1);
    Gap(0, b[0] as int - '0' as int, Pow10(|b| - 1));
  }

  /** For printed numbers the key order is the numeric order. */
  lemma LessIsNumeric(a: string, b: string)
    requires Canonical(a) && Canonical(b)
    ensures Less(a, b) <==> Val(a) < Val(b)
  {
    if |a| < |b| {
      ShorterIsSmaller(a, b);
    } else if |b| < |a| {
      ShorterIsSmaller(b, a);
    } else {
      LexIsNumeric(a, b);
    }
  }

  lemma {:induction false} PublishedExactly(ports: seq<string>, port: string)
    ensures port in Published(ports) <==> port in ports && port != ""
  {
    if ports != [] {
      PublishedExactly(ports[..|ports| - 1], port);
      assert ports == ports[..|ports| - 1] + [ports[|ports| - 1]];
    }
  }

  ghost predicate Publishes(ss: seq<Service>, port: string) {
    port != "" && exists k :: 0 <= k < |ss| && port in ss[k].ports
  }

  lemma PublishesOneMore(ss: seq<Service>, port: string)
    requires ss != []
    ensures Publishes(ss, port) <==>
            Publishes(ss[..|ss| - 1], port) || (port != "" && port in ss[|ss| - 1].ports)
  {
    var init := ss[..|ss| - 1];
    if Publishes(init, port) {
      var k :| 0 <= k < |init| && port in init[k].ports;
      assert port in ss[k].ports;
    }
    if Publishes(ss, port) {
      var k :| 0 <= k < |ss| && port in ss[k].ports;
      assert k < |ss| - 1 ==> port in init[k].ports;
    }
  }

  lemma {:induction false} AllPublishedExactly(ss: seq<Service>, port: string)
    ensures port in AllPublished(ss) <==> Publishes(ss, port)
  {
    if ss != [] {
      hide Publishes, Published;
      AllPublishedExactly(ss[..|ss| - 1], port);
      PublishedExactly(ss[|ss| - 1].ports, port);
      PublishesOneMore(ss, port);
    } else {
      assert !Publishes([], port);
    }
  }

  /** The published ports of an accepted configuration are exactly those of its
      services. */
  lemma PublishedPortsExact(p: Project, port: string)
    ensures port in SortedSet(AllPublished(p.services)) <==> Publishes(p.services, port)
  {
    AllPublishedExactly(p.services, port);
  }

  /** Printed port numbers stand in strictly increasing numeric order. */
  lemma PublishedPortsIncrease(p: Project, i: nat, j: nat)
    requires var ports := SortedSet(AllPublished(p.services));
             i < j < |ports| && Canonical(ports[i]) && Canonical(ports[j])
    ensures var ports := SortedSet(AllPublished(p.services)); Val(ports[i]) < Val(ports[j])
  {
    SortedSetIncreasing(AllPublished(p.services));
    var ports := SortedSet(AllPublished(p.services));
    assert Less(ports[i], ports[j]);
    LessIsNumeric(ports[i], ports[j]);
  }
}
