/** The cache specification: its chart values, updated in place, and the endpoint read off them. */
module CacheSpec {
  import opened Collections
  import opened HelmValues

  const DEFAULT_PORT := Number(6379)

  const SENTINEL_ENABLED: Path := ["sentinel", "enabled"]
  const SENTINEL_PORT: Path := ["sentinel", "service", "ports", "valkey"]
  const PRIMARY_PORT: Path := ["primary", "service", "ports", "valkey"]
  const FULLNAME_OVERRIDE: Path := ["fullnameOverride"]
  const NAME_OVERRIDE: Path := ["nameOverride"]

  /** The paths on which service name and port depend. */
  const ENDPOINT_PATHS: set<Path> := {SENTINEL_ENABLED, SENTINEL_PORT, PRIMARY_PORT, FULLNAME_OVERRIDE, NAME_OVERRIDE}

  function Truthy(v: Value): (r: bool) {
    match v
    case Null => false
    case Flag(b) => b
    case Number(n) => n != 0
    case Text(s) => s != ""
    case Many(items) => items != []
    case Dict(at) => at != map[]
  }

  predicate OccursAt(text: string, part: string, i: nat) {
    i + |part| <= |text| && text[i..i + |part|] == part
  }

  predicate Contains(text: string, part: string) {
    exists i :: 0 <= i <= |text| && OccursAt(text, part, i)
  }

  function StripSlashes(s: string): (r: string) {
    if s != "" && s[|s| - 1] == '/' then StripSlashes(s[..|s| - 1]) else s
  }

  function AfterLastSlash(s: string): (r: string) {
    if s == "" || s[|s| - 1] == '/' then "" else AfterLastSlash(s[..|s| - 1]) + [s[|s| - 1]]
  }

  datatype Name = Named(s: string) | TypeError

  /** `str` is how the language renders a value that is not a string. */
  function FullName(values: Value, release: string, chart: string, str: Value -> string): (r: Name) {
    var override := ReadOr(values, FULLNAME_OVERRIDE, Text(""));
    var named := ReadOr(values, NAME_OVERRIDE, Text(""));
    if Truthy(override) then Named(if override.Text? then override.s else str(override))
    else
      var name := if Truthy(named) then named else Text(AfterLastSlash(StripSlashes(chart)));
      if !name.Text? then TypeError
      else if Contains(release, name.s) then Named(release)
      else Named(release + "-" + name.s)
  }

  predicate SentinelOn(values: Value) {
    Truthy(ReadOr(values, SENTINEL_ENABLED, Flag(false)))
  }

  function ServiceName(values: Value, release: string, chart: string, str: Value -> string): (r: Name) {
    var full := FullName(values, release, chart, str);
    if full.TypeError? || SentinelOn(values) then full else Named(full.s + "-primary")
  }

  /** The value the port is converted from. */
  function PortValue(values: Value): (r: Value) {
    ReadOr(values, if SentinelOn(values) then SENTINEL_PORT else PRIMARY_PORT, DEFAULT_PORT)
  }

  class Cache {
    const name: string
    const chart: string
    var values: Value

    constructor (name: string, chart: string, values: Value)
      ensures this.name == name && this.chart == chart && this.values == values
    {
      this.name, this.chart, this.values := name, chart, values;
    }

    /** Merge by default, so a partial update preserves what it does not mention. */
    method UpdateValues(overrides: Value, replace: bool)
      requires values.Dict? && overrides.Dict?
      modifies this
      ensures values == if replace then overrides else Merge(old(values), overrides)
      ensures values.Dict?
    {
      if replace {
        values := overrides;
        return;
      }
      values := DeepMerge(values, overrides);
    }

    method Service(str: Value -> string) returns (r: Name)
      ensures r == ServiceName(values, name, chart, str)
    {
      var override := Read(values, FULLNAME_OVERRIDE, Text(""));
      var named := Read(values, NAME_OVERRIDE, Text(""));
      var full;
      if Truthy(override) {
        full := Named(if override.Text? then override.s else str(override));
      } else {
        if !Truthy(named) { named := Text(AfterLastSlash(StripSlashes(chart))); }
        if !named.Text? { return TypeError; }
        full := Named(if Contains(name, named.s) then name else name + "-" + named.s);
      }
      var sentinel := Read(values, SENTINEL_ENABLED, Flag(false));
      return if Truthy(sentinel) then full else Named(full.s + "-primary");
    }

    method Port() returns (r: Value)
      ensures r == PortValue(values)
    {
      var sentinel := Read(values, SENTINEL_ENABLED, Flag(false));
      if Truthy(sentinel) {
        r := Read(values, SENTINEL_PORT, DEFAULT_PORT);
      } else {
        r := Read(values, PRIMARY_PORT, DEFAULT_PORT);
      }
    }
  }

  /**
   * An update that neither mentions nor cuts off any of the sentinel, primary-port and name-override
   * paths leaves service name and port unchanged.
   */
  lemma EndpointSurvivesUpdate(values: Value, over: Value, release: string, chart: string, str: Value -> string)
    requires values.Dict? && forall p | p in ENDPOINT_PATHS :: Untouched(over, p)
    ensures ServiceName(Merge(values, over), release, chart, str) == ServiceName(values, release, chart, str)
    ensures PortValue(Merge(values, over)) == PortValue(values)
  {
    forall p, default | p in ENDPOINT_PATHS
      ensures ReadOr(Merge(values, over), p, default) == ReadOr(values, p, default)
    {
      UntouchedSurvives(values, over, p, default);
    }
    assert SENTINEL_ENABLED in ENDPOINT_PATHS && SENTINEL_PORT in ENDPOINT_PATHS && PRIMARY_PORT in ENDPOINT_PATHS;
    assert FULLNAME_OVERRIDE in ENDPOINT_PATHS && NAME_OVERRIDE in ENDPOINT_PATHS;
  }

  /** The chart name as the last segment of a reference, whatever slashes end it. */
  lemma {:induction false} ChartNameIsLastSegment(prefix: string, segment: string, slashes: nat)
    requires segment != "" && forall i | 0 <= i < |segment| :: segment[i] != '/'
    ensures AfterLastSlash(StripSlashes(prefix + "/" + segment + seq(slashes, i => '/'))) == segment
  {
    var tail := seq(slashes, i => '/');
    TrailingSlashes(prefix + "/" + segment, slashes);
    assert prefix + "/" + segment + tail == (prefix + "/" + segment) + tail;
    SegmentAfterSlash(prefix + "/", segment);
    assert prefix + "/" + segment == (prefix + "/") + segment;
  }

  lemma {:induction false} TrailingSlashes(s: string, slashes: nat)
    requires s != "" && s[|s| - 1] != '/'
    ensures StripSlashes(s + seq(slashes, i => '/')) == s
  {
    var full := s + seq(slashes, i => '/');
    if slashes == 0 {
      assert full == s;
    } else {
      assert full[..|full| - 1] == s + seq(slashes - 1, i => '/');
      TrailingSlashes(s, slashes - 1);
    }
  }

  lemma {:induction false} SegmentAfterSlash(prefix: string, segment: string)
    requires prefix != "" && prefix[|prefix| - 1] == '/'
    requires forall i | 0 <= i < |segment| :: segment[i] != '/'
    ensures AfterLastSlash(prefix + segment) == segment
    decreases |segment|
  {
    var full := prefix + segment;
    if segment == "" {
      assert full == prefix;
    } else {
      var init := segment[..|segment| - 1];
      assert full[..|full| - 1] == prefix + init;
      SegmentAfterSlash(prefix, init);
      assert segment == init + [segment[|segment| - 1]];
    }
  }
}
