/** The node's Xray configuration (node/internal/xray/manager.go): injection of the stats API into a
    configuration, and the file it ends up in. */
module XrayManager {
  import opened Prelude
  import opened Json
  import Decimal

  // ---------- the injected pieces ----------

  const ApiSection: Json := Obj(map["tag" := Str("api"), "services" := Arr([Str("StatsService")])])

  const SystemStats: Json := Obj(map["statsInboundUplink" := Bool(true), "statsInboundDownlink" := Bool(true),
                                     "statsOutboundUplink" := Bool(true), "statsOutboundDownlink" := Bool(true)])

  const ApiRule: Json := Obj(map["inboundTag" := Arr([Str("api")]),
                                 "outboundTag" := Str("api"), "type" := Str("field")])

  function ApiInbound(host: string, port: int): Json {
    Obj(map["tag" := Str("api"), "listen" := Str(host), "port" := Num(port as real),
            "protocol" := Str("dokodemo-door"), "settings" := Obj(map["address" := Str(host)])])
  }

  /** The items that do not carry the string "api" under the key, in order. */
  function NotApi(items: seq<Json>, key: string): seq<Json> {
    if items == [] then []
    else NotApi(items[..|items| - 1], key) +
         (if HasString(items[|items| - 1], key, "api") then [] else [items[|items| - 1]])
  }

  function InboundsOf(cfg: Fields): seq<Json> {
    ArrayAt(cfg, "inbounds")
  }

  function RulesOf(cfg: Fields): seq<Json> {
    ArrayAt(ObjectAt(cfg, "routing"), "rules")
  }

  function InjectedPolicy(cfg: Fields): Json {
    Obj(ObjectAt(cfg, "policy")["system" := SystemStats])
  }

  function InjectedInbounds(cfg: Fields, host: string, port: int): Json {
    Arr([ApiInbound(host, port)] + NotApi(InboundsOf(cfg), "tag"))
  }

  function InjectedRouting(cfg: Fields): Json {
    Obj(ObjectAt(cfg, "routing")["rules" := Arr([ApiRule] + NotApi(RulesOf(cfg), "outboundTag"))])
  }

  function WithSections(cfg: Fields, policy: Json, inbounds: Json, routing: Json): Fields {
    cfg["api" := ApiSection]["stats" := Obj(map[])]["policy" := policy]["inbounds" := inbounds]["routing" := routing]
  }

  /** What `injectStatsAPI` turns a configuration into. */
  function Injected(cfg: Fields, host: string, port: int): Fields {
    WithSections(cfg, InjectedPolicy(cfg), InjectedInbounds(cfg, host, port), InjectedRouting(cfg))
  }

  function InjectedAt(cfg: Fields, apiAddr: string): Fields {
    var (host, port) := SplitAddr(apiAddr);
    Injected(cfg, host, port)
  }

  function DefaultConfig(host: string, port: int): Fields {
    map["api" := ApiSection,
        "stats" := Obj(map[]),
        "policy" := Obj(map["system" := SystemStats]),
        "inbounds" := Arr([ApiInbound(host, port)]),
        "routing" := Obj(map["rules" := Arr([ApiRule])]),
        "outbounds" := Arr([Obj(map["tag" := Str("direct"), "protocol" := Str("freedom"), "settings" := Obj(map[])])])]
  }

  // ---------- the API address ----------

  const DEFAULT_HOST := "127.0.0.1"
  const DEFAULT_PORT := 10085

  /** Index of the last colon, -1 without one. */
  function LastColon(addr: string): (i: int)
    ensures -1 <= i < |addr|
  {
    if addr == "" then -1
    else if addr[|addr| - 1] == ':' then |addr| - 1
    else LastColon(addr[..|addr| - 1])
  }

  /** host:port split at the last colon; an address without colon is ignored altogether, and a port
      that does not scan is replaced by the default one. */
  function SplitAddr(addr: string): (string, int) {
    var i := LastColon(addr);
    if i < 0 then (DEFAULT_HOST, DEFAULT_PORT)
    else
      var port := Decimal.Scan(addr[i + 1..]);
      (addr[..i], if port.Some? then port.value else DEFAULT_PORT)
  }

  datatype ApplyOutcome = Unavailable | InvalidJson | Panic | WriteFailed | Written

  class Manager {
    const apiAddr: string
    var available: bool
    var configFile: Option<Fields>

    constructor (apiAddr: string, available: bool, configFile: Option<Fields>)
      ensures this.apiAddr == apiAddr && this.available == available && this.configFile == configFile
    {
      this.apiAddr, this.available, this.configFile := apiAddr, available, configFile;
    }

    method ParseAPIAddr() returns (host: string, port: int)
      ensures (host, port) == SplitAddr(apiAddr)
    {
      host, port := DEFAULT_HOST, DEFAULT_PORT;
      if apiAddr != "" {
        var i := |apiAddr| - 1;
        assert apiAddr[..i + 1] == apiAddr;
        while i >= 0
          invariant -1 <= i < |apiAddr|
          invariant host == DEFAULT_HOST && port == DEFAULT_PORT
          invariant LastColon(apiAddr[..i + 1]) == LastColon(apiAddr)
        {
          assert apiAddr[..i + 1][..i] == apiAddr[..i];
          if apiAddr[i] == ':' {
            host := apiAddr[..i];
            var scanned := Decimal.Scan(apiAddr[i + 1..]);
            if scanned.Some? {
              port := scanned.value;
            }
            break;
          }
          i := i - 1;
        }
      }
    }

    method InjectStatsAPI(config: Fields) returns (cfg: Fields)
      ensures cfg == InjectedAt(config, apiAddr)
    {
      var host, port := ParseAPIAddr();
      cfg := config;
      cfg := cfg["api" := ApiSection];
      cfg := cfg["stats" := Obj(map[])];
      var policy := ObjectAt(cfg, "policy");
      policy := policy["system" := SystemStats];
      cfg := cfg["policy" := Obj(policy)];
      var filtered := DropApi(ArrayAt(cfg, "inbounds"), "tag");
      cfg := cfg["inbounds" := Arr([ApiInbound(host, port)] + filtered)];
      var routing := ObjectAt(cfg, "routing");
      var filteredRules := DropApi(ArrayAt(routing, "rules"), "outboundTag");
      routing := routing["rules" := Arr([ApiRule] + filteredRules)];
      cfg := cfg["routing" := Obj(routing)];
    }

    method DropApi(items: seq<Json>, key: string) returns (filtered: seq<Json>)
      ensures filtered == NotApi(items, key)
    {
      filtered := [];
      for i := 0 to |items|
        invariant filtered == NotApi(items[..i], key)
      {
        assert items[..i + 1][..i] == items[..i];
        if HasString(items[i], key, "api") {
          continue;
        }
        filtered := filtered + [items[i]];
      }
      assert items[..|items|] == items;
    }

    /** `ApplyConfig` up to the file write. `pushed` is the decoded text, None when it is not JSON; the
        text "null" decodes into a nil map, and writing to that panics. */
    method ApplyConfig(pushed: Option<Json>, writable: bool) returns (outcome: ApplyOutcome)
      modifies `configFile
      ensures outcome == OutcomeOf(available, pushed, writable)
      ensures outcome.Written? <==> available && pushed.Some? && pushed.value.Obj? && writable
      ensures outcome.Unavailable? <==> !available
      ensures outcome.Panic? <==> available && pushed == Some(Null)
      ensures outcome.InvalidJson? <==> available && (pushed.None? || (!pushed.value.Null? && !pushed.value.Obj?))
      ensures outcome.Written? ==> configFile == Some(InjectedAt(pushed.value.fields, apiAddr))
      ensures !outcome.Written? ==> configFile == old(configFile)
    {
      if !available {
        return Unavailable;
      }
      if pushed.None? {
        return InvalidJson;
      }
      if pushed.value.Null? {
        return Panic;
      }
      if !pushed.value.Obj? {
        return InvalidJson;
      }
      var cfg := InjectStatsAPI(pushed.value.fields);
      if !writable {
        return WriteFailed;
      }
      configFile := Some(cfg);
      return Written;
    }
  }

  function OutcomeOf(available: bool, pushed: Option<Json>, writable: bool): ApplyOutcome {
    if !available then Unavailable
    else if pushed.None? then InvalidJson
    else if pushed.value.Null? then Panic
    else if !pushed.value.Obj? then InvalidJson
    else if writable then Written else WriteFailed
  }

  // ---------- the address ----------

  lemma {:induction false} LastColonBeforeDigits(s: string, digits: string)
    requires forall i | 0 <= i < |digits| :: Decimal.IsDigit(digits[i])
    ensures LastColon(s + digits) == LastColon(s)
  {
    if digits == "" {
      assert s + digits == s;
    } else {
      var n := |digits| - 1;
      LastColonBeforeDigits(s, digits[..n]);
      assert (s + digits)[..|s + digits| - 1] == s + digits[..n];
      assert Decimal.IsDigit(digits[n]);
    }
  }

  /** Any host, colons included, and any port survive being joined and split again. */
  lemma SplitJoined(host: string, port: nat)
    ensures SplitAddr(host + ":" + Decimal.Print(port)) == (host, port)
  {
    var digits := Decimal.Print(port);
    var addr := host + ":" + digits;
    LastColonBeforeDigits(host + ":", digits);
    assert addr[|host| + 1..] == digits && addr[..|host|] == host;
    Decimal.ScanPrint(port);
  }

  // ---------- filtering ----------

  ghost predicate NoneApi(items: seq<Json>, key: string) {
    forall v | v in items :: !HasString(v, key, "api")
  }

  lemma {:induction false} NotApiKeeps(items: seq<Json>, key: string)
    requires NoneApi(items, key)
    ensures NotApi(items, key) == items
  {
    if items != [] {
      var n := |items| - 1;
      assert NoneApi(items[..n], key) && items[n] in items;
      NotApiKeeps(items[..n], key);
      assert items == items[..n] + [items[n]];
    }
  }

  lemma {:induction false} NotApiFacts(items: seq<Json>, key: string)
    ensures forall v :: v in NotApi(items, key) <==> v in items && !HasString(v, key, "api")
  {
    if items != [] {
      NotApiFacts(items[..|items| - 1], key);
      assert items == items[..|items| - 1] + [items[|items| - 1]];
    }
  }

  lemma {:induction false} NotApiConcat(a: seq<Json>, b: seq<Json>, key: string)
    ensures NotApi(a + b, key) == NotApi(a, key) + NotApi(b, key)
  {
    if b == [] {
      assert a + b == a;
    } else {
      var n := |b| - 1;
      NotApiConcat(a, b[..n], key);
      assert (a + b)[..|a + b| - 1] == a + b[..n];
    }
  }

  lemma NotApiOfInjected(first: Json, items: seq<Json>, key: string)
    requires HasString(first, key, "api")
    ensures NotApi([first] + NotApi(items, key), key) == NotApi(items, key)
  {
    NotApiFacts(items, key);
    NotApiConcat([first], NotApi(items, key), key);
    NotApiKeeps(NotApi(items, key), key);
    assert [first][..0] == [];
  }

  // ---------- what injection does ----------

  lemma PolicyAgain(cfg: Fields, host: string, port: int)
    ensures InjectedPolicy(Injected(cfg, host, port)) == InjectedPolicy(cfg)
  {
    assert ObjectAt(Injected(cfg, host, port), "policy") == ObjectAt(cfg, "policy")["system" := SystemStats];
  }

  lemma InboundsAgain(cfg: Fields, host: string, port: int, host': string, port': int)
    ensures InjectedInbounds(Injected(cfg, host, port), host', port') == InjectedInbounds(cfg, host', port')
  {
    assert InboundsOf(Injected(cfg, host, port)) == [ApiInbound(host, port)] + NotApi(InboundsOf(cfg), "tag");
    NotApiOfInjected(ApiInbound(host, port), InboundsOf(cfg), "tag");
  }

  lemma RoutingAgain(cfg: Fields, host: string, port: int)
    ensures InjectedRouting(Injected(cfg, host, port)) == InjectedRouting(cfg)
  {
    var rules := Arr([ApiRule] + NotApi(RulesOf(cfg), "outboundTag"));
    assert ObjectAt(Injected(cfg, host, port), "routing") == ObjectAt(cfg, "routing")["rules" := rules];
    assert RulesOf(Injected(cfg, host, port)) == [ApiRule] + NotApi(RulesOf(cfg), "outboundTag");
    NotApiOfInjected(ApiRule, RulesOf(cfg), "outboundTag");
    assert ObjectAt(cfg, "routing")["rules" := rules]["rules" := rules] == ObjectAt(cfg, "routing")["rules" := rules];
  }

  lemma SectionsOverwrite(cfg: Fields, p: Json, i: Json, r: Json, p': Json, i': Json, r': Json)
    ensures WithSections(WithSections(cfg, p, i, r), p', i', r') == WithSections(cfg, p', i', r')
  {
  }

  lemma SectionsPresent(cfg: Fields, p: Json, i: Json, r: Json)
    ensures WithSections(cfg, p, i, r) == cfg
       <==> && "api" in cfg && cfg["api"] == ApiSection && "stats" in cfg && cfg["stats"] == Obj(map[])
            && "policy" in cfg && cfg["policy"] == p && "inbounds" in cfg && cfg["inbounds"] == i
            && "routing" in cfg && cfg["routing"] == r
  {
    var out := WithSections(cfg, p, i, r);
    assert out["api"] == ApiSection && out["stats"] == Obj(map[]);
    assert out["policy"] == p && out["inbounds"] == i && out["routing"] == r;
  }

  /** The last injection wins: injecting again, even with another API address, gives what injecting only
      the second time gives. With the same address this is idempotence, for every JSON object. */
  lemma InjectionOverwrites(cfg: Fields, host: string, port: int, host': string, port': int)
    ensures Injected(Injected(cfg, host, port), host', port') == Injected(cfg, host', port')
  {
    PolicyAgain(cfg, host, port);
    InboundsAgain(cfg, host, port, host', port');
    RoutingAgain(cfg, host, port);
    SectionsOverwrite(cfg, InjectedPolicy(cfg), InjectedInbounds(cfg, host, port), InjectedRouting(cfg),
                      InjectedPolicy(cfg), InjectedInbounds(cfg, host', port'), InjectedRouting(cfg));
  }

  lemma InjectedInboundList(cfg: Fields, host: string, port: int)
    ensures InboundsOf(Injected(cfg, host, port)) == [ApiInbound(host, port)] + NotApi(InboundsOf(cfg), "tag")
  {
  }

  /** Exactly one "api" inbound and one "api" rule remain, both first; every other inbound and rule is
      kept in its order, and every other setting is untouched. */
  lemma InjectionKeepsTheRest(cfg: Fields, host: string, port: int)
    ensures var out := Injected(cfg, host, port);
            && InboundsOf(out) == [ApiInbound(host, port)] + NotApi(InboundsOf(cfg), "tag")
            && NoneApi(InboundsOf(out)[1..], "tag")
            && RulesOf(out) == [ApiRule] + NotApi(RulesOf(cfg), "outboundTag")
            && NoneApi(RulesOf(out)[1..], "outboundTag")
            && (forall k | k !in {"api", "stats", "policy", "inbounds", "routing"} ::
                  (k in out <==> k in cfg) && (k in cfg ==> out[k] == cfg[k]))
            && ObjectAt(out, "policy") - {"system"} == ObjectAt(cfg, "policy") - {"system"}
            && ObjectAt(out, "routing") - {"rules"} == ObjectAt(cfg, "routing") - {"rules"}
  {
    NotApiFacts(InboundsOf(cfg), "tag");
    NotApiFacts(RulesOf(cfg), "outboundTag");
  }

  /** The configuration has every injected piece, its only "api" inbound and rule being the injected
      ones, in front. */
  ghost predicate HasStatsAPI(cfg: Fields, host: string, port: int) {
    && "api" in cfg && cfg["api"] == ApiSection
    && "stats" in cfg && cfg["stats"] == Obj(map[])
    && "policy" in cfg && cfg["policy"].Obj?
    && "system" in cfg["policy"].fields && cfg["policy"].fields["system"] == SystemStats
    && "inbounds" in cfg && cfg["inbounds"].Arr? && HeadsApiFree(InboundsOf(cfg), ApiInbound(host, port), "tag")
    && "routing" in cfg && cfg["routing"].Obj?
    && "rules" in cfg["routing"].fields && cfg["routing"].fields["rules"].Arr?
    && HeadsApiFree(RulesOf(cfg), ApiRule, "outboundTag")
  }

  ghost predicate HeadsApiFree(items: seq<Json>, first: Json, key: string) {
    items != [] && items[0] == first && NoneApi(items[1..], key)
  }

  lemma PolicyPresent(cfg: Fields)
    ensures "policy" in cfg && cfg["policy"] == InjectedPolicy(cfg)
       <==> && "policy" in cfg && cfg["policy"].Obj?
            && "system" in cfg["policy"].fields && cfg["policy"].fields["system"] == SystemStats
  {
    if "policy" in cfg && cfg["policy"].Obj? {
      var policy := cfg["policy"].fields;
      if "system" in policy && policy["system"] == SystemStats {
        assert policy["system" := SystemStats] == policy;
      }
    }
  }

  lemma InboundsPresent(cfg: Fields, host: string, port: int)
    ensures "inbounds" in cfg && cfg["inbounds"] == InjectedInbounds(cfg, host, port)
       <==> "inbounds" in cfg && cfg["inbounds"].Arr? && HeadsApiFree(InboundsOf(cfg), ApiInbound(host, port), "tag")
  {
    HeadThenRest(InboundsOf(cfg), ApiInbound(host, port), "tag");
  }

  lemma RoutingPresent(cfg: Fields)
    ensures "routing" in cfg && cfg["routing"] == InjectedRouting(cfg)
       <==> "routing" in cfg && cfg["routing"].Obj? && "rules" in cfg["routing"].fields
            && cfg["routing"].fields["rules"].Arr? && HeadsApiFree(RulesOf(cfg), ApiRule, "outboundTag")
  {
    HeadThenRest(RulesOf(cfg), ApiRule, "outboundTag");
    if "routing" in cfg && cfg["routing"].Obj? {
      var routing := cfg["routing"].fields;
      if "rules" in routing && routing["rules"].Arr? {
        assert routing["rules" := Arr(RulesOf(cfg))] == routing;
      }
    }
  }

  /** A configuration is left as it is exactly when it already has the stats API. */
  lemma FixpointIff(cfg: Fields, host: string, port: int)
    ensures Injected(cfg, host, port) == cfg <==> HasStatsAPI(cfg, host, port)
  {
    SectionsPresent(cfg, InjectedPolicy(cfg), InjectedInbounds(cfg, host, port), InjectedRouting(cfg));
    PolicyPresent(cfg);
    InboundsPresent(cfg, host, port);
    RoutingPresent(cfg);
  }

  /** Every JSON object has the stats API after injection, whatever was in those places before. */
  lemma InjectionInstalls(cfg: Fields, host: string, port: int)
    ensures HasStatsAPI(Injected(cfg, host, port), host, port)
  {
    InjectionOverwrites(cfg, host, port, host, port);
    FixpointIff(Injected(cfg, host, port), host, port);
  }

  lemma HeadThenRest(items: seq<Json>, first: Json, key: string)
    requires HasString(first, key, "api")
    ensures [first] + NotApi(items, key) == items <==> HeadsApiFree(items, first, key)
  {
    if HeadsApiFree(items, first, key) {
      HeadKept(items, first, key);
    }
    if [first] + NotApi(items, key) == items {
      NotApiFacts(items, key);
      assert items[1..] == NotApi(items, key);
    }
  }

  lemma HeadKept(items: seq<Json>, first: Json, key: string)
    requires HasString(first, key, "api") && HeadsApiFree(items, first, key)
    ensures [first] + NotApi(items, key) == items
  {
    assert items == [first] + items[1..];
    NotApiConcat([first], items[1..], key);
    NotApiKeeps(items[1..], key);
    assert [first][..0] == [];
  }

  lemma DefaultLists(host: string, port: int)
    ensures InboundsOf(DefaultConfig(host, port)) == [ApiInbound(host, port)]
    ensures RulesOf(DefaultConfig(host, port)) == [ApiRule]
  {
  }

  lemma SingletonHeads(first: Json, key: string)
    ensures HeadsApiFree([first], first, key)
  {
    assert [first][1..] == [];
  }

  lemma DefaultHasStatsAPI(host: string, port: int)
    ensures HasStatsAPI(DefaultConfig(host, port), host, port)
  {
    DefaultLists(host, port);
    SingletonHeads(ApiInbound(host, port), "tag");
    SingletonHeads(ApiRule, "outboundTag");
  }

  /** The default configuration is a fixpoint. */
  lemma DefaultIsFixpoint(host: string, port: int)
    ensures Injected(DefaultConfig(host, port), host, port) == DefaultConfig(host, port)
  {
    DefaultHasStatsAPI(host, port);
    FixpointIff(DefaultConfig(host, port), host, port);
  }

  // ---------- the injected pieces, literally ----------

  /** The address without a colon is ignored; a port that is no number leaves the default one. */
  lemma SplitDefaults(host: string, rest: string)
    requires ':' !in rest && Decimal.Scan(rest).None?
    ensures SplitAddr(rest) == ("127.0.0.1", 10085) && SplitAddr(host + ":" + rest) == (host, 10085)
  {
    NoColon(rest);
    ColonThen(host, rest);
    var addr := host + ":" + rest;
    assert addr[|host| + 1..] == rest && addr[..|host|] == host;
  }

  lemma {:induction false} NoColon(s: string)
    requires ':' !in s
    ensures LastColon(s) == -1
  {
    if s != "" {
      assert s[|s| - 1] in s;
      NoColon(s[..|s| - 1]);
    }
  }

  lemma {:induction false} ColonThen(host: string, rest: string)
    requires ':' !in rest
    ensures LastColon(host + ":" + rest) == |host|
  {
    var addr := host + ":" + rest;
    if rest == "" {
      assert addr[|addr| - 1] == ':';
    } else {
      var n := |rest| - 1;
      assert rest[n] in rest && addr[|addr| - 1] == rest[n];
      assert addr[..|addr| - 1] == host + ":" + rest[..n];
      ColonThen(host, rest[..n]);
    }
  }

  /** The value is an object with exactly these fields. */
  ghost predicate IsObject(v: Json, fields: Fields) {
    v == Obj(fields)
  }

  /** The sections every injected configuration has. */
  lemma InjectedSections(cfg: Fields, host: string, port: int)
    ensures var out := Injected(cfg, host, port);
            && {"api", "stats", "policy", "inbounds", "routing"} <= out.Keys
            && IsObject(out["api"], map["tag" := Str("api"), "services" := Arr([Str("StatsService")])])
            && IsObject(out["stats"], map[])
  {
  }

  /** The policy keeps its other settings, if it is an object at all, and has the four system statistics on. */
  lemma InjectedPolicyPlainly(cfg: Fields, host: string, port: int)
    ensures var out := Injected(cfg, host, port);
            && "policy" in out && out["policy"].Obj? && "system" in out["policy"].fields
            && IsObject(out["policy"].fields["system"],
                        map["statsInboundUplink" := Bool(true), "statsInboundDownlink" := Bool(true),
                            "statsOutboundUplink" := Bool(true), "statsOutboundDownlink" := Bool(true)])
            && out["policy"].fields - {"system"}
               == if "policy" in cfg && cfg["policy"].Obj? then cfg["policy"].fields - {"system"} else map[]
  {
  }

  /** The API inbound, and behind it every inbound of the configuration that is not an object tagged "api". */
  lemma InjectedInboundsPlainly(cfg: Fields, host: string, port: int)
    ensures var out := Injected(cfg, host, port);
            && "inbounds" in out && out["inbounds"].Arr? && out["inbounds"].items != []
            && IsObject(out["inbounds"].items[0],
                        map["tag" := Str("api"), "listen" := Str(host), "port" := Num(port as real),
                            "protocol" := Str("dokodemo-door"), "settings" := Obj(map["address" := Str(host)])])
            && forall v :: v in out["inbounds"].items[1..]
                      <==> && "inbounds" in cfg && cfg["inbounds"].Arr? && v in cfg["inbounds"].items
                           && !(v.Obj? && "tag" in v.fields && v.fields["tag"] == Str("api"))
  {
    NotApiFacts(InboundsOf(cfg), "tag");
    InjectedInboundList(cfg, host, port);
    assert ([ApiInbound(host, port)] + NotApi(InboundsOf(cfg), "tag"))[1..] == NotApi(InboundsOf(cfg), "tag");
  }

  /** The API rule, and behind it every rule that does not lead to "api"; the other routing settings stay. */
  lemma InjectedRoutingPlainly(cfg: Fields, host: string, port: int)
    ensures var out := Injected(cfg, host, port);
            && "routing" in out && out["routing"].Obj? && "rules" in out["routing"].fields
            && var rules := out["routing"].fields["rules"];
            && rules.Arr? && rules.items != []
            && IsObject(rules.items[0], map["inboundTag" := Arr([Str("api")]),
                                            "outboundTag" := Str("api"), "type" := Str("field")])
            && (forall v :: v in rules.items[1..] <==> v in RulesOf(cfg) && !HasString(v, "outboundTag", "api"))
            && out["routing"].fields - {"rules"}
               == if "routing" in cfg && cfg["routing"].Obj? then cfg["routing"].fields - {"rules"} else map[]
  {
    NotApiFacts(RulesOf(cfg), "outboundTag");
    assert ([ApiRule] + NotApi(RulesOf(cfg), "outboundTag"))[1..] == NotApi(RulesOf(cfg), "outboundTag");
  }

  /** The rules of a configuration, where it has any. */
  lemma RulesPlainly(cfg: Fields, v: Json)
    ensures v in RulesOf(cfg)
       <==> && "routing" in cfg && cfg["routing"].Obj? && "rules" in cfg["routing"].fields
            && cfg["routing"].fields["rules"].Arr? && v in cfg["routing"].fields["rules"].items
    ensures HasString(v, "outboundTag", "api")
       <==> v.Obj? && "outboundTag" in v.fields && v.fields["outboundTag"] == Str("api")
  {
  }

  /** Traffic of the default configuration leaves directly. */
  lemma DefaultOutbounds(host: string, port: int)
    ensures "outbounds" in DefaultConfig(host, port)
    ensures DefaultConfig(host, port)["outbounds"]
         == Arr([Obj(map["tag" := Str("direct"), "protocol" := Str("freedom"), "settings" := Obj(map[])])])
  {
  }
}
