/** The restart gate of restart_gate.py: which unit tables are accepted, and which evidence clears. */
module RestartGate {
  import opened Wrappers
  import opened PyStrings
  import opened JsonValues

  const TTL_MARGIN_S := 10
  const MAX_TTL_S := 900

  /** The four evidence classes. */
  datatype Class = Requests | Jobs | GpuQueue | Drain

  function NameOf(c: Class): string {
    match c case Requests => "inflight" case Jobs => "jobs" case GpuQueue => "gpu_queue" case Drain => "drain"
  }

  datatype Kind = Inflight | Comfyui | Health

  datatype Probe = Probe(kind: Kind, url: string)

  datatype UnitGate = UnitGate(probes: seq<Probe>, drainUrl: Json, releaseUrl: Json, waived: set<Class>,
                               leaseTtl: int, drainWait: int, verifyTimeout: int, restartTimeout: int)

  datatype ConfigError =
    | NotATable | UnknownKey | BadScope | NoProbes | BadTimeout | BadProbe | BadKind | BadUrl | DrainPair
    | BadLink | BadWaiver | MissingEvidence | BadNumber | BadBootstrap | ShortTtl

  // ---------------------------------------------------------------- the config

  const UNIT_KEYS: set<string> := {"scope", "health_url", "drain_url", "release_url", "drain_token_file",
                                   "lease_ttl_s", "drain_wait_s", "verify_timeout_s", "restart_timeout_s",
                                   "probe_timeout_s", "probes", "waive", "bootstrap"}
  const PROBE_KEYS: set<string> := {"name", "kind", "url", "timeout_s"}

  /** What the parser asks of its libraries: URL and path syntax, and the bootstrap table's own rules. */
  datatype Checks = Checks(httpUrl: string -> bool, absolute: string -> bool, bootstrapOk: (Json, set<Class>) -> bool)

  predicate UrlOk(j: Json, checks: Checks) {
    j.Str? && checks.httpUrl(j.s)
  }

  /** `_timeout`: a number, no boolean, within (0, 30]. */
  predicate TimeoutOk(j: Json) {
    match j
    case Int(i) => 0 < i <= 30
    case Float(r) => 0.0 < r <= 30.0
    case _ => false
  }

  /** `_positive_int` under MAX_TTL_S */
  predicate SecondsOk(j: Json) {
    j.Int? && 0 < j.i <= MAX_TTL_S
  }

  function KindOf(j: Json): Option<Kind> {
    if j == Str("inflight") then Some(Inflight)
    else if j == Str("comfyui") then Some(Comfyui)
    else if j == Str("health") then Some(Health) else None
  }

  function ParseProbe(raw: Json, defaultTimeout: Json, checks: Checks): Result<Probe, ConfigError> {
    if !raw.Obj? then Err(BadProbe)
    else if !(raw.fields.Keys <= PROBE_KEYS) then Err(UnknownKey)
    else
      var kind := KindOf(GetOr(raw, "kind", Str("inflight")));
      if kind.None? then Err(BadKind)
      else if !TimeoutOk(GetOr(raw, "timeout_s", defaultTimeout)) then Err(BadTimeout)
      else if !UrlOk(Get(raw, "url"), checks) then Err(BadUrl)
      else Ok(Probe(kind.value, Get(raw, "url").s))
  }

  predicate WaiversOk(j: Json) {
    j == Null || (j.Obj? && forall name :: name in j.fields ==>
                    && (exists c: Class :: NameOf(c) == name)
                    && j.fields[name].Str? && |Strip(j.fields[name].s)| >= 10)
  }

  function WaivedBy(j: Json): set<Class> {
    if j.Obj? then set c: Class | NameOf(c) in j.fields else {}
  }

  predicate OptionalUrlOk(j: Json, checks: Checks) {
    Truthy(j) ==> UrlOk(j, checks)
  }

  predicate HasKind(probes: seq<Probe>, kind: Kind) {
    exists k :: 0 <= k < |probes| && probes[k].kind == kind
  }

  /** The classes of evidence a unit's probes and drain URLs supply. */
  function Provided(probes: seq<Probe>, drains: bool): set<Class> {
    (if HasKind(probes, Inflight) then {Requests, Jobs} else {})
    + (if HasKind(probes, Comfyui) then {GpuQueue} else {})
    + (if drains then {Drain} else {})
  }

  function MinTtl(g: UnitGate): int {
    g.drainWait + g.restartTimeout + g.verifyTimeout + TTL_MARGIN_S
  }

  function DrainUrl(t: Json): Json requires t.Obj? { GetOr(t, "drain_url", Str("")) }

  function ReleaseUrl(t: Json): Json requires t.Obj? { GetOr(t, "release_url", Str("")) }

  function ProbeTimeout(t: Json): Json requires t.Obj? { GetOr(t, "probe_timeout_s", Int(3)) }

  // ---------------------------------------------------------------- what a unit table says

  /** A timeout within (0, 30], and no boolean. */
  predicate IsTimeout(j: Json) {
    (j.Int? && 1 <= j.i <= 30) || (j.Float? && 0.0 < j.r <= 30.0)
  }

  /** `p` is what the entry of a probe list says; `timeout` is the unit's own. */
  predicate SaysProbe(raw: Json, p: Probe, timeout: Json, checks: Checks) {
    && raw.Obj? && (forall key :: key in raw.fields ==> key in ["name", "kind", "url", "timeout_s"])
    && (match p.kind
        case Inflight => "kind" in raw.fields ==> raw.fields["kind"] == Str("inflight")
        case Comfyui => "kind" in raw.fields && raw.fields["kind"] == Str("comfyui")
        case Health => "kind" in raw.fields && raw.fields["kind"] == Str("health"))
    && "url" in raw.fields && raw.fields["url"] == Str(p.url) && checks.httpUrl(p.url)
    && IsTimeout(if "timeout_s" in raw.fields then raw.fields["timeout_s"] else timeout)
  }

  /** A number of seconds under `key`, or the default when there is none. */
  predicate SaysSeconds(t: Json, key: string, default: int, seconds: int)
    requires t.Obj?
  {
    (if key in t.fields then t.fields[key] == Int(seconds) else seconds == default) && 1 <= seconds <= 900
  }

  /** A URL under `key`, or none: an absent or empty one. */
  predicate SaysUrl(t: Json, key: string, checks: Checks)
    requires t.Obj?
  {
    key in t.fields && Truthy(t.fields[key]) ==> t.fields[key].Str? && checks.httpUrl(t.fields[key].s)
  }

  /** The class of evidence called `name` is waived, with a written reason. */
  predicate Waives(t: Json, name: string)
    requires t.Obj?
  {
    "waive" in t.fields && t.fields["waive"].Obj? && name in t.fields["waive"].fields
  }

  predicate SaysWaivers(t: Json, waived: set<Class>)
    requires t.Obj?
  {
    && ("waive" in t.fields && t.fields["waive"] != Null ==>
          && t.fields["waive"].Obj?
          && forall name :: name in t.fields["waive"].fields ==>
               var reason := t.fields["waive"].fields[name];
               && name in ["inflight", "jobs", "gpu_queue", "drain"]
               && reason.Str? && |Strip(reason.s)| >= 10)
    && (Requests in waived <==> Waives(t, "inflight")) && (Jobs in waived <==> Waives(t, "jobs"))
    && (GpuQueue in waived <==> Waives(t, "gpu_queue")) && (Drain in waived <==> Waives(t, "drain"))
  }

  /** Each class of evidence is supplied, or waived. */
  predicate HasEvidence(g: UnitGate) {
    && (Requests in g.waived || HasKind(g.probes, Inflight)) && (Jobs in g.waived || HasKind(g.probes, Inflight))
    && (GpuQueue in g.waived || HasKind(g.probes, Comfyui))
    && (Drain in g.waived || (Truthy(g.drainUrl) && Truthy(g.releaseUrl)))
  }

  /** No unknown key, and a scope systemd knows. */
  predicate SaysShape(t: Json)
    requires t.Obj?
  {
    && (forall key :: key in t.fields ==>
          key in ["scope", "health_url", "drain_url", "release_url", "drain_token_file", "lease_ttl_s", "drain_wait_s",
                  "verify_timeout_s", "restart_timeout_s", "probe_timeout_s", "probes", "waive", "bootstrap"])
    && ("scope" in t.fields ==> t.fields["scope"] == Str("system") || t.fields["scope"] == Str("user"))
  }

  predicate SaysNumbers(t: Json, g: UnitGate)
    requires t.Obj?
  {
    && SaysSeconds(t, "lease_ttl_s", 360, g.leaseTtl) && SaysSeconds(t, "drain_wait_s", 60, g.drainWait)
    && SaysSeconds(t, "verify_timeout_s", 90, g.verifyTimeout)
    && SaysSeconds(t, "restart_timeout_s", 150, g.restartTimeout)
  }

  predicate BootstrapFits(t: Json, waived: set<Class>, checks: Checks)
    requires t.Obj?
  {
    checks.bootstrapOk(if "bootstrap" in t.fields then t.fields["bootstrap"] else Null, waived)
  }

  /** `g` is the gate the table describes, and the table meets every rule. */
  predicate Describes(t: Json, g: UnitGate, checks: Checks) {
    && t.Obj? && SaysShape(t)
    && SaysProbes(t, g.probes, checks)
    && SaysLinks(t, g.drainUrl, g.releaseUrl, checks)
    && SaysWaivers(t, g.waived) && HasEvidence(g)
    && SaysNumbers(t, g) && BootstrapFits(t, g.waived, checks)
    && g.leaseTtl > g.drainWait + g.restartTimeout + g.verifyTimeout + 10
  }

  predicate SaysProbes(t: Json, probes: seq<Probe>, checks: Checks)
    requires t.Obj?
  {
    var timeout := if "probe_timeout_s" in t.fields then t.fields["probe_timeout_s"] else Int(3);
    && IsTimeout(timeout)
    && "probes" in t.fields && t.fields["probes"].Arr? && |t.fields["probes"].items| == |probes| > 0
    && forall k :: 0 <= k < |probes| ==> SaysProbe(t.fields["probes"].items[k], probes[k], timeout, checks)
  }

  predicate SaysLinks(t: Json, drainUrl: Json, releaseUrl: Json, checks: Checks)
    requires t.Obj?
  {
    && drainUrl == (if "drain_url" in t.fields then t.fields["drain_url"] else Str(""))
    && releaseUrl == (if "release_url" in t.fields then t.fields["release_url"] else Str(""))
    && (Truthy(drainUrl) <==> Truthy(releaseUrl))
    && SaysUrl(t, "drain_url", checks) && SaysUrl(t, "release_url", checks) && SaysUrl(t, "health_url", checks)
    && ("drain_token_file" in t.fields && Truthy(t.fields["drain_token_file"]) ==>
          t.fields["drain_token_file"].Str? && checks.absolute(t.fields["drain_token_file"].s))
  }

  // ---------------------------------------------------------------- the parser

  predicate LinksOk(t: Json, checks: Checks)
    requires t.Obj?
  {
    && OptionalUrlOk(DrainUrl(t), checks) && OptionalUrlOk(ReleaseUrl(t), checks)
    && OptionalUrlOk(GetOr(t, "health_url", Str("")), checks)
    && var token := GetOr(t, "drain_token_file", Str("")); (Truthy(token) ==> token.Str? && checks.absolute(token.s))
  }

  function Seconds(t: Json, key: string, default: int): Json
    requires t.Obj?
  {
    GetOr(t, key, Int(default))
  }

  lemma ProbeIsSaid(raw: Json, timeout: Json, checks: Checks)
    ensures var r := ParseProbe(raw, timeout, checks);
            forall p :: SaysProbe(raw, p, timeout, checks) <==> r == Ok(p)
  {
    if raw.Obj? {
      assert raw.fields.Keys <= PROBE_KEYS <==>
          forall key :: key in raw.fields ==> key in ["name", "kind", "url", "timeout_s"];
    }
  }

  ghost predicate Speaks(raw: Json, timeout: Json, checks: Checks) {
    exists p :: SaysProbe(raw, p, timeout, checks)
  }

  /** The first entry that says no probe. */
  ghost predicate FirstBad(raw: seq<Json>, k: int, timeout: Json, checks: Checks) {
    && 0 <= k < |raw| && !Speaks(raw[k], timeout, checks)
    && forall j :: 0 <= j < k ==> Speaks(raw[j], timeout, checks)
  }

  /** Every probe in order, or the error of the first entry that says none. */
  method LoopProbes(raw: seq<Json>, timeout: Json, checks: Checks) returns (r: Result<seq<Probe>, ConfigError>)
    ensures r.Ok? ==>
              |r.value| == |raw| && forall k :: 0 <= k < |raw| ==> SaysProbe(raw[k], r.value[k], timeout, checks)
    ensures r.Err? ==>
              exists k :: FirstBad(raw, k, timeout, checks) && Err(r.error) == ParseProbe(raw[k], timeout, checks)
  {
    var probes: seq<Probe> := [];
    for i := 0 to |raw|
      invariant |probes| == i && forall k :: 0 <= k < i ==> SaysProbe(raw[k], probes[k], timeout, checks)
      invariant forall k :: 0 <= k < i ==> Speaks(raw[k], timeout, checks)
    {
      var p := ParseProbe(raw[i], timeout, checks);
      ProbeIsSaid(raw[i], timeout, checks);
      if p.Err? {
        assert FirstBad(raw, i, timeout, checks);
        return Err(p.error);
      }
      probes := probes + [p.value];
    }
    return Ok(probes);
  }

  lemma ShapeIs(t: Json)
    requires t.Obj?
    ensures var scope := GetOr(t, "scope", Str("system"));
            SaysShape(t) <==> t.fields.Keys <= UNIT_KEYS && (scope == Str("system") || scope == Str("user"))
  {
  }

  lemma LinksAre(t: Json, checks: Checks)
    requires t.Obj?
    ensures SaysLinks(t, DrainUrl(t), ReleaseUrl(t), checks)
       <==> (Truthy(DrainUrl(t)) <==> Truthy(ReleaseUrl(t))) && LinksOk(t, checks)
    ensures forall d, r :: SaysLinks(t, d, r, checks) ==> d == DrainUrl(t) && r == ReleaseUrl(t)
  {
  }

  lemma WaiversAre(t: Json)
    requires t.Obj?
    ensures WaiversOk(Get(t, "waive")) <==> SaysWaivers(t, WaivedBy(Get(t, "waive")))
    ensures forall waived :: SaysWaivers(t, waived) ==>
        WaiversOk(Get(t, "waive")) && waived == WaivedBy(Get(t, "waive"))
  {
    if WaiversOk(Get(t, "waive")) { WaiversSaid(t); }
    forall waived | SaysWaivers(t, waived)
      ensures WaiversOk(Get(t, "waive")) && waived == WaivedBy(Get(t, "waive"))
    {
      WaiversAreOnly(t, waived);
    }
  }

  lemma WaiversSaid(t: Json)
    requires t.Obj? && WaiversOk(Get(t, "waive"))
    ensures SaysWaivers(t, WaivedBy(Get(t, "waive")))
  {
  }

  lemma WaiversAreOnly(t: Json, waived: set<Class>)
    requires t.Obj? && SaysWaivers(t, waived)
    ensures WaiversOk(Get(t, "waive")) && waived == WaivedBy(Get(t, "waive"))
  {
    forall c: Class ensures c in waived <==> c in WaivedBy(Get(t, "waive")) {
      match c case Requests => case Jobs => case GpuQueue => case Drain =>
    }
  }

  /** A table describes at most one list of probes. */
  lemma OneList(t: Json, a: seq<Probe>, b: seq<Probe>, checks: Checks)
    requires t.Obj? && SaysProbes(t, a, checks) && SaysProbes(t, b, checks)
    ensures a == b
  {
    var timeout := if "probe_timeout_s" in t.fields then t.fields["probe_timeout_s"] else Int(3);
    forall k | 0 <= k < |a| ensures a[k] == b[k] {
      ProbeIsSaid(t.fields["probes"].items[k], timeout, checks);
    }
  }

  lemma AllSpeak(t: Json, probes: seq<Probe>, checks: Checks)
    requires t.Obj? && SaysProbes(t, probes, checks)
    ensures forall k :: 0 <= k < |t.fields["probes"].items| ==>
              Speaks(t.fields["probes"].items[k], ProbeTimeout(t), checks)
  {
    forall k | 0 <= k < |probes| ensures Speaks(t.fields["probes"].items[k], ProbeTimeout(t), checks) {
      assert SaysProbe(t.fields["probes"].items[k], probes[k], ProbeTimeout(t), checks);
    }
  }

  /** The probes a table lists, or the error that no list of probes is said by it. */
  method ParseProbes(t: Json, checks: Checks) returns (r: Result<seq<Probe>, ConfigError>)
    requires t.Obj?
    ensures r.Ok? ==> SaysProbes(t, r.value, checks)
    ensures r.Err? ==> forall probes :: !SaysProbes(t, probes, checks)
  {
    var raw := Get(t, "probes");
    if !raw.Arr? || raw.items == [] { return Err(NoProbes); }
    if !TimeoutOk(ProbeTimeout(t)) { return Err(BadTimeout); }
    r := LoopProbes(raw.items, ProbeTimeout(t), checks);
    if r.Err? {
      ghost var k :| FirstBad(raw.items, k, ProbeTimeout(t), checks)
        && Err(r.error) == ParseProbe(raw.items[k], ProbeTimeout(t), checks);
      forall probes ensures !SaysProbes(t, probes, checks) {
        if SaysProbes(t, probes, checks) { AllSpeak(t, probes, checks); }
      }
    }
  }

  lemma EvidenceIs(g: UnitGate)
    requires Truthy(g.drainUrl) <==> Truthy(g.releaseUrl)
    ensures HasEvidence(g) <==> forall c: Class :: c in Provided(g.probes, Truthy(g.drainUrl)) || c in g.waived
  {
    var provided := Provided(g.probes, Truthy(g.drainUrl));
    if forall c: Class :: c in provided || c in g.waived {
      assert (Requests in provided || Requests in g.waived) && (Jobs in provided || Jobs in g.waived);
      assert (GpuQueue in provided || GpuQueue in g.waived) && (Drain in provided || Drain in g.waived);
    }
    if HasEvidence(g) {
      forall c: Class ensures c in provided || c in g.waived {
        match c case Requests => case Jobs => case GpuQueue => case Drain =>
      }
    }
  }

  /** Whatever gate the table describes has these parts. */
  lemma OneGate(t: Json, checks: Checks, probes: seq<Probe>, g: UnitGate)
    requires t.Obj? && SaysProbes(t, probes, checks) && Describes(t, g, checks)
    ensures g.probes == probes && g.waived == WaivedBy(Get(t, "waive"))
    ensures g.drainUrl == DrainUrl(t) && g.releaseUrl == ReleaseUrl(t)
    ensures Seconds(t, "lease_ttl_s", 360) == Int(g.leaseTtl) && Seconds(t, "drain_wait_s", 60) == Int(g.drainWait)
    ensures Seconds(t, "verify_timeout_s", 90) == Int(g.verifyTimeout)
    ensures Seconds(t, "restart_timeout_s", 150) == Int(g.restartTimeout)
  {
    OneList(t, probes, g.probes, checks);
    WaiversAre(t);
    LinksAre(t, checks);
  }

  /** `_parse_unit` */
  method ParseUnit(t: Json, checks: Checks) returns (r: Result<UnitGate, ConfigError>)
    ensures r.Ok? ==> Describes(t, r.value, checks)
    ensures r.Err? ==> forall g :: !Describes(t, g, checks)
  {
    if !t.Obj? { return Err(NotATable); }
    ShapeIs(t);
    if !(t.fields.Keys <= UNIT_KEYS) { return Err(UnknownKey); }
    var scope := GetOr(t, "scope", Str("system"));
    if scope != Str("system") && scope != Str("user") { return Err(BadScope); }
    var probes := ParseProbes(t, checks);
    if probes.Err? { return Err(probes.error); }
    LinksAre(t, checks);
    if Truthy(DrainUrl(t)) != Truthy(ReleaseUrl(t)) { return Err(DrainPair); }
    if !LinksOk(t, checks) { return Err(BadLink); }
    WaiversAre(t);
    if !WaiversOk(Get(t, "waive")) { return Err(BadWaiver); }
    r := ParseRest(t, checks, probes.value);
  }

  /** The rest of it: the evidence, the numbers, and what depends on them. */
  method ParseRest(t: Json, checks: Checks, probes: seq<Probe>) returns (r: Result<UnitGate, ConfigError>)
    requires t.Obj? && SaysShape(t) && SaysProbes(t, probes, checks)
    requires SaysLinks(t, DrainUrl(t), ReleaseUrl(t), checks) && SaysWaivers(t, WaivedBy(Get(t, "waive")))
    ensures r.Ok? ==> Describes(t, r.value, checks)
    ensures r.Err? ==> forall g :: !Describes(t, g, checks)
  {
    forall g | Describes(t, g, checks)
      ensures EvidenceHere(t, probes) && NumbersHere(t) && BootstrapFits(t, WaivedBy(Get(t, "waive")), checks)
      ensures MinTtl(g) < g.leaseTtl && g == GateOf(t, probes)
    {
      DescribedRest(t, checks, probes, g);
    }
    if !EvidenceHere(t, probes) { return Err(MissingEvidence); }
    if !NumbersHere(t) { return Err(BadNumber); }
    if !checks.bootstrapOk(Get(t, "bootstrap"), WaivedBy(Get(t, "waive"))) { return Err(BadBootstrap); }
    var gate := GateOf(t, probes);
    if gate.leaseTtl <= MinTtl(gate) { return Err(ShortTtl); }
    DescribesHere(t, checks, probes);
    return Ok(gate);
  }

  lemma DescribedRest(t: Json, checks: Checks, probes: seq<Probe>, g: UnitGate)
    requires t.Obj? && SaysProbes(t, probes, checks) && Describes(t, g, checks)
    ensures EvidenceHere(t, probes) && NumbersHere(t) && BootstrapFits(t, WaivedBy(Get(t, "waive")), checks)
    ensures MinTtl(g) < g.leaseTtl && g == GateOf(t, probes)
  {
    OneGate(t, checks, probes, g);
    EvidenceIs(g);
  }

  lemma DescribesHere(t: Json, checks: Checks, probes: seq<Probe>)
    requires t.Obj? && SaysShape(t) && SaysProbes(t, probes, checks)
    requires SaysLinks(t, DrainUrl(t), ReleaseUrl(t), checks) && SaysWaivers(t, WaivedBy(Get(t, "waive")))
    requires EvidenceHere(t, probes) && NumbersHere(t) && BootstrapFits(t, WaivedBy(Get(t, "waive")), checks)
    requires MinTtl(GateOf(t, probes)) < GateOf(t, probes).leaseTtl
    ensures Describes(t, GateOf(t, probes), checks)
  {
    EvidenceIs(GateOf(t, probes));
  }

  predicate EvidenceHere(t: Json, probes: seq<Probe>)
    requires t.Obj?
  {
    forall c: Class :: c in Provided(probes, Truthy(DrainUrl(t))) || c in WaivedBy(Get(t, "waive"))
  }

  predicate NumbersHere(t: Json)
    requires t.Obj?
  {
    && SecondsOk(Seconds(t, "lease_ttl_s", 360)) && SecondsOk(Seconds(t, "drain_wait_s", 60))
    && SecondsOk(Seconds(t, "verify_timeout_s", 90)) && SecondsOk(Seconds(t, "restart_timeout_s", 150))
  }

  function GateOf(t: Json, probes: seq<Probe>): UnitGate
    requires t.Obj?
  {
    var waived := WaivedBy(Get(t, "waive"));
    if !NumbersHere(t) then UnitGate(probes, DrainUrl(t), ReleaseUrl(t), waived, 0, 0, 0, 0)
    else
      UnitGate(probes, DrainUrl(t), ReleaseUrl(t), waived,
               Seconds(t, "lease_ttl_s", 360).i, Seconds(t, "drain_wait_s", 60).i,
               Seconds(t, "verify_timeout_s", 90).i, Seconds(t, "restart_timeout_s", 150).i)
  }

  // ---------------------------------------------------------------- the probes

  datatype Status = Clear | Busy | Unavailable

  /** What one probe request comes back with; `body` is None when it is not JSON. */
  datatype Answer = TimedOut | Unreachable | Reply(code: int, body: Option<Json>)

  function Holder(data: Json): Json
    requires data.Obj?
  {
    if Get(data, "drain").Obj? then Get(Get(data, "drain"), "lease_id") else Null
  }

  /** `str(holder or "") == lease`, with the text Python makes of a value left to `text`. */
  predicate HeldFor(data: Json, lease: string, text: Json -> string)
    requires data.Obj?
  {
    var h := Holder(data);
    (if !Truthy(h) then "" else if h.Str? then h.s else text(h)) == lease
  }

  /** The service proves what it must: it is one worker, and every number in its answer can be read. */
  predicate Provable(data: Json, requireJobs: bool) {
    && data.Obj?
    && IsCount(Get(data, "in_flight")) && Get(data, "draining").Bool?
    && Get(data, "active_jobs").Obj? && Get(data, "active_jobs_ok") == Bool(true)
    && Get(data, "process").Obj?
    && EqualsInt(Get(Get(data, "process"), "workers"), 1) && !Get(Get(data, "process"), "workers").Bool?
    && "error" !in Get(data, "active_jobs").fields
    && (forall k :: k in Get(data, "active_jobs").fields ==> IsCount(Get(data, "active_jobs").fields[k]))
    && (requireJobs ==> Get(data, "active_jobs").fields != map[])
  }

  /** Nothing is running, and no other lease is draining the service. */
  predicate IdleService(data: Json, lease: string, expectDrain: bool, text: Json -> string)
    requires Provable(data, false)
  {
    && Get(data, "in_flight") == Int(0)
    && (forall k :: k in Get(data, "active_jobs").fields ==> Get(data, "active_jobs").fields[k] == Int(0))
    && (Get(data, "draining").b ==> HeldFor(data, lease, text))
    && (expectDrain ==> Get(data, "draining").b)
  }

  datatype Reason = ForeignDrain | RequestsInFlight | ActiveJobs

  /** `_interpret_inflight` */
  method InterpretInflight(data: Json, lease: string, expectDrain: bool, requireJobs: bool, text: Json -> string)
    returns (status: Status)
    ensures status == Clear <==> Provable(data, requireJobs) && IdleService(data, lease, expectDrain, text)
    ensures status == Busy ==> Provable(data, requireJobs)
    ensures status == Unavailable <==>
              !(Provable(data, requireJobs) && (expectDrain ==> Get(data, "draining").b && HeldFor(data, lease, text)))
  {
    if !data.Obj? { return Unavailable; }
    var inFlight, draining, jobs, jobsOk :=
      Get(data, "in_flight"), Get(data, "draining"), Get(data, "active_jobs"), Get(data, "active_jobs_ok");
    if !IsCount(inFlight) || !draining.Bool? || !jobs.Obj? || !jobsOk.Bool? { return Unavailable; }
    var process := Get(data, "process");
    if !process.Obj? || !EqualsInt(Get(process, "workers"), 1) || Get(process, "workers").Bool? { return Unavailable; }
    if !jobsOk.b || "error" in jobs.fields { return Unavailable; }
    if exists k :: k in jobs.fields && !IsCount(jobs.fields[k]) { return Unavailable; }
    if requireJobs && jobs.fields == map[] { return Unavailable; }
    var held := HeldFor(data, lease, text);
    if expectDrain && (!draining.b || !held) { return Unavailable; }
    var busy: seq<Reason> := [];
    if draining.b && !held { busy := busy + [ForeignDrain]; }
    if Truthy(inFlight) { busy := busy + [RequestsInFlight]; }
    if exists k :: k in jobs.fields && Truthy(jobs.fields[k]) { busy := busy + [ActiveJobs]; }
    return if busy != [] then Busy else Clear;
  }

  predicate EmptyQueue(data: Json) {
    data.Obj? && Get(data, "queue_running") == Arr([]) && Get(data, "queue_pending") == Arr([])
  }

  /** `_interpret_comfyui` */
  function InterpretComfyui(data: Json): (r: Status)
    ensures r == Clear <==> EmptyQueue(data)
  {
    if !data.Obj? then Unavailable
    else
      var running, pending := Get(data, "queue_running"), Get(data, "queue_pending");
      if !running.Arr? || !pending.Arr? then Unavailable
      else if running.items != [] || pending.items != [] then Busy
      else Clear
  }

  /** The evidence a clear verdict on one probe stands for. */
  predicate Evidence(p: Probe, a: Answer, lease: string, expectDrain: bool, requireJobs: bool, text: Json -> string) {
    && a.Reply?
    && match p.kind
       case Health => 200 <= a.code < 300
       case Comfyui => a.code == 200 && a.body.Some? && EmptyQueue(a.body.value)
       case Inflight =>
         && a.code == 200 && a.body.Some?
         && Provable(a.body.value, requireJobs) && IdleService(a.body.value, lease, expectDrain, text)
  }

  /** `run_probe` */
  method RunProbe(p: Probe, a: Answer, lease: string, expectDrain: bool, requireJobs: bool, text: Json -> string)
    returns (status: Status)
    ensures status == Clear <==> Evidence(p, a, lease, expectDrain, requireJobs, text)
  {
    if !a.Reply? { return Unavailable; }
    if p.kind == Health {
      return if 200 <= a.code < 300 then Clear else Unavailable;
    }
    if a.code != 200 || a.body.None? { return Unavailable; }
    if p.kind == Inflight {
      status := InterpretInflight(a.body.value, lease, expectDrain, requireJobs, text);
    } else {
      status := InterpretComfyui(a.body.value);
    }
  }

  function Overall(results: seq<Status>): (r: Status)
    ensures r == Clear <==> results != [] && forall k :: 0 <= k < |results| ==> results[k] == Clear
    ensures results == [] || Unavailable in results <==> r == Unavailable
  {
    if results == [] || Unavailable in results then Unavailable
    else if Busy in results then Busy
    else
      assert forall k :: 0 <= k < |results| ==>
          results[k] in results && results[k] != Unavailable && results[k] != Busy;
      Clear
  }

  /** One probe round, `run_probes` and `overall`. */
  method ProbeRound(g: UnitGate, answers: seq<Answer>, lease: string, expectDrain: bool, text: Json -> string)
    returns (verdict: Status)
    requires |answers| == |g.probes|
    ensures verdict == Clear <==>
              && |g.probes| > 0
              && forall k :: 0 <= k < |g.probes| ==>
                   Evidence(g.probes[k], answers[k], lease, expectDrain, Jobs !in g.waived, text)
  {
    var results: seq<Status> := [];
    for i := 0 to |g.probes|
      invariant |results| == i
      invariant forall k :: 0 <= k < i ==>
                  (results[k] == Clear <==>
                    Evidence(g.probes[k], answers[k], lease, expectDrain, Jobs !in g.waived, text))
    {
      var status := RunProbe(g.probes[i], answers[i], lease, expectDrain, Jobs !in g.waived, text);
      results := results + [status];
    }
    verdict := Overall(results);
  }

  /** A service that proved itself quiet: one worker, nothing in flight, all its jobs readable and zero
      (and some listed, if jobs evidence is asked for), draining for nobody else, and for this lease
      when a drain is expected. */
  predicate QuietService(data: Json, lease: string, expectDrain: bool, jobs: bool, text: Json -> string) {
    && data.Obj? && Get(data, "process").Obj?
    && (Get(Get(data, "process"), "workers") == Int(1) || Get(Get(data, "process"), "workers") == Float(1.0))
    && Get(data, "in_flight") == Int(0)
    && Get(data, "active_jobs_ok") == Bool(true) && Get(data, "active_jobs").Obj?
    && "error" !in Get(data, "active_jobs").fields && (jobs ==> Get(data, "active_jobs").fields != map[])
    && (forall k :: k in Get(data, "active_jobs").fields ==> Get(data, "active_jobs").fields[k] == Int(0))
    && Get(data, "draining").Bool? && (expectDrain ==> Get(data, "draining").b)
    && (Get(data, "draining").b ==> DrainsFor(data, lease, text))
  }

  /** The service's drain names this lease. */
  predicate DrainsFor(data: Json, lease: string, text: Json -> string)
    requires data.Obj?
  {
    match Get(data, "drain")
    case Obj(drain) =>
      if "lease_id" !in drain || !Truthy(drain["lease_id"]) then lease == ""
      else (match drain["lease_id"] case Str(s) => s == lease case other => text(other) == lease)
    case _ => lease == ""
  }

  /** What one clear answer proves. */
  predicate Proves(p: Probe, a: Answer, lease: string, expectDrain: bool, jobs: bool, text: Json -> string) {
    && a.Reply?
    && match p.kind
       case Health => 200 <= a.code <= 299
       case Comfyui =>
         && a.code == 200 && a.body.Some? && a.body.value.Obj?
         && Get(a.body.value, "queue_running") == Arr([]) && Get(a.body.value, "queue_pending") == Arr([])
       case Inflight => a.code == 200 && a.body.Some? && QuietService(a.body.value, lease, expectDrain, jobs, text)
  }

  /** Fail closed. A unit whose table is accepted is cleared exactly when every probe it lists proves its
      own part quiet; and unless a class of evidence is waived in its table, some probe of that kind is
      among them. */
  method ClearedOnEvidence(t: Json, checks: Checks, answers: Probe -> Answer, lease: string, expectDrain: bool,
                           text: Json -> string)
    returns (gate: Option<UnitGate>, verdict: Status)
    ensures gate.Some? ==> Describes(t, gate.value, checks)
    ensures gate.None? ==> verdict == Unavailable && forall g :: !Describes(t, g, checks)
    ensures gate.Some? ==>
              (verdict == Clear <==>
                forall p :: p in gate.value.probes ==>
                  Proves(p, answers(p), lease, expectDrain, !Waives(t, "jobs"), text))
    ensures gate.Some? && (!Waives(t, "inflight") || !Waives(t, "jobs")) ==>
              exists p :: p in gate.value.probes && p.kind == Inflight
    ensures gate.Some? && !Waives(t, "gpu_queue") ==> exists p :: p in gate.value.probes && p.kind == Comfyui
    ensures gate.Some? && !Waives(t, "drain") ==> Truthy(gate.value.drainUrl) && Truthy(gate.value.releaseUrl)
  {
    var parsed := ParseUnit(t, checks);
    if parsed.Err? {
      return None, Unavailable;
    }
    var g := parsed.value;
    gate := Some(g);
    verdict := ClearRound(g, answers, lease, expectDrain, text);
  }

  /** A round over the probes of an accepted unit. */
  method ClearRound(g: UnitGate, answers: Probe -> Answer, lease: string, expectDrain: bool, text: Json -> string)
    returns (verdict: Status)
    requires |g.probes| > 0
    ensures verdict == Clear <==>
              forall p :: p in g.probes ==> Proves(p, answers(p), lease, expectDrain, Jobs !in g.waived, text)
  {
    var given := seq(|g.probes|, k requires 0 <= k < |g.probes| => answers(g.probes[k]));
    verdict := ProbeRound(g, given, lease, expectDrain, text);
    forall k | 0 <= k < |g.probes|
      ensures g.probes[k] in g.probes
      ensures Evidence(g.probes[k], given[k], lease, expectDrain, Jobs !in g.waived, text)
         <==> Proves(g.probes[k], answers(g.probes[k]), lease, expectDrain, Jobs !in g.waived, text)
    {
      EvidenceProves(g.probes[k], given[k], lease, expectDrain, Jobs !in g.waived, text);
    }
  }

  lemma EvidenceProves(p: Probe, a: Answer, lease: string, expectDrain: bool, jobs: bool, text: Json -> string)
    ensures Evidence(p, a, lease, expectDrain, jobs, text) <==> Proves(p, a, lease, expectDrain, jobs, text)
  {
  }
}
