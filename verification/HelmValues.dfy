/**
 * Nested Helm values: deep merge (multistack/cache/spec.py), redaction (multistack/helm/__init__.py)
 * and checking against a chart's defaults (multistack/helm/values.py), with the laws that tie them.
 */
module HelmValues {
  import opened Collections

  /** A parsed YAML value. Mappings compare as Python's do, without regard to order. */
  datatype Value =
    | Null
    | Flag(b: bool)
    | Number(n: int)
    | Text(s: string)
    | Many(items: seq<Value>)
    | Dict(at: map<string, Value>)

  type Path = seq<string>

  /*** deep merge ***/

  /** `over` laid upon `base`: mappings merge, everything else is replaced. */
  function Merge(base: Value, over: Value): (r: Value)
    ensures base.Dict? && over.Dict? ==> r.Dict? && r.at.Keys == base.at.Keys + over.at.Keys
    decreases over
  {
    if base.Dict? && over.Dict? then
      Dict(map k | k in base.at.Keys + over.at.Keys ::
             if k !in over.at then base.at[k]
             else if k in base.at then Merge(base.at[k], over.at[k])
             else over.at[k])
    else over
  }

  /** The loop over the overrides, in any order of their keys. */
  method DeepMerge(base: Value, overrides: Value) returns (merged: Value)
    requires base.Dict? && overrides.Dict?
    ensures merged == Merge(base, overrides)
    decreases overrides
  {
    merged := base;
    var todo := overrides.at.Keys;
    while todo != {}
      invariant todo <= overrides.at.Keys
      invariant merged.Dict? && merged.at.Keys == base.at.Keys + (overrides.at.Keys - todo)
      invariant forall k | k in merged.at ::
                  merged.at[k] == if k in overrides.at && k !in todo then Merge(base, overrides).at[k] else base.at[k]
      decreases todo
    {
      var key :| key in todo;
      var value := overrides.at[key];
      if key in merged.at && merged.at[key].Dict? && value.Dict? {
        var inner := DeepMerge(merged.at[key], value);
        merged := Dict(merged.at[key := inner]);
      } else {
        merged := Dict(merged.at[key := value]);
      }
      todo := todo - {key};
    }
    assert merged.at == Merge(base, overrides).at;
  }

  lemma {:induction false} MergeIdempotent(a: Value)
    ensures Merge(a, a) == a
  {
    if a.Dict? {
      forall k | k in a.at ensures Merge(a, a).at[k] == a.at[k] { MergeIdempotent(a.at[k]); }
      assert Merge(a, a).at == a.at;
    }
  }

  /** Applying the same overrides twice changes nothing more. */
  lemma {:induction false} MergeAbsorbs(a: Value, over: Value)
    ensures Merge(Merge(a, over), over) == Merge(a, over)
    decreases over
  {
    if a.Dict? && over.Dict? {
      var m := Merge(a, over);
      forall k | k in m.at ensures Merge(m, over).at[k] == m.at[k] {
        if k in over.at {
          if k in a.at { MergeAbsorbs(a.at[k], over.at[k]); } else { MergeIdempotent(over.at[k]); }
        }
      }
      assert Merge(m, over).at == m.at;
    } else {
      MergeIdempotent(over);
    }
  }

  /** Every leaf position of mapping `v` is also taken in `over`. */
  predicate Covers(over: Value, v: Value)
    decreases over
  {
    over.Dict? && v.Dict? ==> forall k | k in v.at :: k in over.at && Covers(over.at[k], v.at[k])
  }

  lemma {:induction false} CoversIffMergeIsOver(over: Value, v: Value)
    ensures Merge(v, over) == over <==> Covers(over, v)
    decreases over
  {
    if over.Dict? && v.Dict? {
      var m := Merge(v, over);
      forall k | k in v.at && k in over.at ensures m.at[k] == over.at[k] <==> Covers(over.at[k], v.at[k]) {
        CoversIffMergeIsOver(over.at[k], v.at[k]);
      }
      if Covers(over, v) { assert m.at == over.at; }
      if m == over {
        forall k | k in v.at ensures k in over.at && Covers(over.at[k], v.at[k]) { assert k in m.at; }
      }
    }
  }

  /**
   * Somewhere the current value is a mapping, the first overrides hold something else, and the second
   * hold a mapping again that does not cover what the first had cut off.
   */
  predicate Clash(v: Value, o1: Value, o2: Value)
    decreases o2
  {
    && v.Dict? && o2.Dict?
    && if o1.Dict? then exists k :: k in v.at && k in o1.at && k in o2.at && Clash(v.at[k], o1.at[k], o2.at[k])
       else !Covers(o2, v)
  }

  /** Two updates in a row equal one update with their merge, exactly when there is no such clash. */
  lemma {:induction false} MergeComposesIff(v: Value, o1: Value, o2: Value)
    ensures Merge(Merge(v, o1), o2) == Merge(v, Merge(o1, o2)) <==> !Clash(v, o1, o2)
    decreases o2
  {
    if v.Dict? && o2.Dict? {
      if o1.Dict? {
        var left, right := Merge(Merge(v, o1), o2), Merge(v, Merge(o1, o2));
        assert left.at.Keys == right.at.Keys;
        forall k | k in left.at
          ensures left.at[k] == right.at[k]
                  <==> !(k in v.at && k in o1.at && k in o2.at && Clash(v.at[k], o1.at[k], o2.at[k]))
        {
          if k in v.at && k in o1.at && k in o2.at { MergeComposesIff(v.at[k], o1.at[k], o2.at[k]); }
        }
        if !Clash(v, o1, o2) { assert left.at == right.at; }
      } else {
        CoversIffMergeIsOver(o2, v);
      }
    }
  }

  /*** reading ***/

  function Lookup(v: Value, path: Path): (r: Option<Value>)
    decreases |path|
  {
    if path == [] then Some(v)
    else if !v.Dict? || path[0] !in v.at then None
    else Lookup(v.at[path[0]], path[1..])
  }

  /** The value at `path`, or `default` when it is not set or null. */
  method Read(v: Value, path: Path, default: Value) returns (r: Value)
    ensures r == ReadOr(v, path, default)
  {
    var current := v;
    for i := 0 to |path|
      invariant Lookup(v, path) == Lookup(current, path[i..])
    {
      if !current.Dict? || path[i] !in current.at { return default; }
      current := current.at[path[i]];
      assert path[i..][1..] == path[i + 1..];
    }
    return if current.Null? then default else current;
  }

  function ReadOr(v: Value, path: Path, default: Value): (r: Value) {
    var found := Lookup(v, path);
    if found.None? || found.value.Null? then default else found.value
  }

  /** The overrides neither mention the path nor put something else than a mapping on the way to it. */
  predicate Untouched(over: Value, path: Path)
    decreases |path|
  {
    && path != [] && over.Dict?
    && (path[0] in over.at ==> Untouched(over.at[path[0]], path[1..]))
  }

  lemma {:induction false} UntouchedSurvives(v: Value, over: Value, path: Path, default: Value)
    requires v.Dict? && Untouched(over, path)
    ensures ReadOr(Merge(v, over), path, default) == ReadOr(v, path, default)
    decreases |path|
  {
    var k, rest := path[0], path[1..];
    if k in over.at {
      UntouchedIsUnset(over.at[k], rest);
      assert rest != [];
      if k in v.at && v.at[k].Dict? {
        UntouchedSurvives(v.at[k], over.at[k], rest, default);
      } else {
        assert Merge(v, over).at[k] == over.at[k];
        assert Lookup(v, path) == None by { if k in v.at { assert Lookup(v.at[k], rest) == None; } }
      }
    }
  }

  lemma {:induction false} UntouchedIsUnset(over: Value, path: Path)
    requires Untouched(over, path)
    ensures Lookup(over, path) == None
    decreases |path|
  {
    if path[0] in over.at { UntouchedIsUnset(over.at[path[0]], path[1..]); }
  }

  /** And an update does set what it mentions: a value that is no mapping reads back as given. */
  lemma {:induction false} MentionedReadsBack(v: Value, over: Value, path: Path)
    requires Lookup(over, path).Some? && !Lookup(over, path).value.Dict?
    ensures Lookup(Merge(v, over), path) == Lookup(over, path)
    decreases |path|
  {
    if v.Dict? && over.Dict? && path[0] in v.at { MentionedReadsBack(v.at[path[0]], over.at[path[0]], path[1..]); }
  }

  /*** redaction ***/

  const SENSITIVE_KEYS: set<string> :=
    {"password", "passwd", "secret", "secretkey", "secret_key", "token", "apikey", "api_key", "private_key",
     "privatekey", "accesskey", "access_key", "rootpassword", "root_password"}

  const MASK := Text("***REDACTED***")

  function Lower(s: string): (r: string) {
    seq(|s|, i requires 0 <= i < |s| => if 'A' <= s[i] <= 'Z' then s[i] - 'A' + 'a' else s[i])
  }

  predicate Sensitive(key: string) {
    Lower(key) in SENSITIVE_KEYS
  }

  function Redact(v: Value): (r: Value)
    ensures v.Dict? ==> r.Dict? && r.at.Keys == v.at.Keys
    ensures !v.Dict? ==> !r.Dict?
  {
    match v
    case Dict(at) => Dict(map k | k in at :: if Sensitive(k) then MASK else Redact(at[k]))
    case Many(items) => Many(seq(|items|, i requires 0 <= i < |items| => Redact(items[i])))
    case _ => v
  }

  lemma {:induction false} RedactIdempotent(v: Value)
    ensures Redact(Redact(v)) == Redact(v)
  {
    match v
    case Dict(at) =>
      var r := Redact(v);
      forall k | k in at ensures Redact(r).at[k] == r.at[k] { if !Sensitive(k) { RedactIdempotent(at[k]); } }
      assert Redact(r).at == r.at;
    case Many(items) =>
      var r := Redact(v);
      forall i | 0 <= i < |items| ensures Redact(r).items[i] == r.items[i] { RedactIdempotent(items[i]); }
      assert Redact(r).items == r.items;
    case _ =>
  }

  /** Redacting the merged values is merging the redacted ones. */
  lemma {:induction false} RedactCommutesWithMerge(a: Value, b: Value)
    ensures Redact(Merge(a, b)) == Merge(Redact(a), Redact(b))
    decreases b
  {
    if a.Dict? && b.Dict? {
      var left, right := Redact(Merge(a, b)), Merge(Redact(a), Redact(b));
      forall k | k in left.at ensures left.at[k] == right.at[k] {
        if k in a.at && k in b.at {
          if Sensitive(k) {
            assert Merge(MASK, MASK) == MASK;
          } else {
            RedactCommutesWithMerge(a.at[k], b.at[k]);
            assert left.at[k] == Redact(Merge(a.at[k], b.at[k]));
            assert right.at[k] == Merge(Redact(a).at[k], Redact(b).at[k]);
          }
        }
      }
      assert left.at == right.at;
    }
  }

  /*** checking against defaults ***/

  /**
   * The user sets a path the chart does not declare: mappings on both sides along the way, no empty
   * default below the root, and the last key in the user's mapping but not in the default's.
   */
  predicate Undeclared(user: Value, default: Value, path: Path)
    decreases |path|
  {
    && path != [] && user.Dict? && default.Dict? && path[0] in user.at
    && if |path| == 1 then path[0] !in default.at
       else path[0] in default.at && Opens(user.at[path[0]], default.at[path[0]])
            && Undeclared(user.at[path[0]], default.at[path[0]], path[1..])
  }

  /** Whether the check descends: an empty default mapping accepts any child keys. */
  predicate Opens(user: Value, default: Value) {
    user.Dict? && default.Dict? && default.at != map[]
  }

  /** For each path to a mapping of the user's values, its keys in the order Python iterates them. */
  type Layout = Path -> seq<string>

  predicate NoRepeats(keys: seq<string>) {
    forall i, j | 0 <= i < j < |keys| :: keys[i] != keys[j]
  }

  ghost predicate Lists(layout: Layout, prefix: Path, v: Value)
    decreases v
  {
    v.Dict? ==>
      && NoRepeats(layout(prefix))
      && (forall k :: k in layout(prefix) <==> k in v.at)
      && (forall k | k in v.at :: Lists(layout, prefix + [k], v.at[k]))
  }

  /** The values of this mapping, laid out below `prefix`, and some of its keys. */
  ghost predicate LaidOut(keys: seq<string>, user: Value, default: Value, layout: Layout, prefix: Path) {
    user.Dict? && default.Dict? && Lists(layout, prefix, user) && forall k | k in keys :: k in user.at
  }

  /** What one key contributes. */
  ghost function Found(k: string, user: Value, default: Value, layout: Layout, prefix: Path): (r: seq<Path>)
    requires LaidOut([k], user, default, layout, prefix)
    decreases user, 0
  {
    assert k in [k];
    var here := prefix + [k];
    if k !in default.at then [here]
    else if Opens(user.at[k], default.at[k]) then Unknown(layout(here), user.at[k], default.at[k], layout, here)
    else []
  }

  /** The undeclared paths found through `keys`, in the order the check meets them. */
  ghost function Unknown(keys: seq<string>, user: Value, default: Value, layout: Layout, prefix: Path): (r: seq<Path>)
    requires LaidOut(keys, user, default, layout, prefix)
    decreases user, 1 + |keys|
  {
    if keys == [] then []
    else Found(keys[0], user, default, layout, prefix) + Unknown(keys[1..], user, default, layout, prefix)
  }

  /** The recursive check: `unknown` grows in place; in strict mode the first finding raises. */
  method ValidateMapping(user: Value, default: Value, layout: Layout, path: Path, unknown: seq<Path>, strict: bool)
    returns (grown: seq<Path>, raised: Option<Path>)
    requires LaidOut(layout(path), user, default, layout, path)
    ensures
      var found := Unknown(layout(path), user, default, layout, path);
      if strict && found != [] then raised == Some(found[0]) else raised == None && grown == unknown + found
    decreases user
  {
    grown, raised := unknown, None;
    var keys := layout(path);
    ghost var all := Unknown(keys, user, default, layout, path);
    ghost var done: seq<Path> := [];
    while keys != []
      invariant LaidOut(keys, user, default, layout, path)
      invariant done + Unknown(keys, user, default, layout, path) == all
      invariant raised == None && grown == unknown + done && (strict ==> done == [])
      decreases |keys|
    {
      var key := keys[0];
      assert key in keys;
      ghost var part := Found(key, user, default, layout, path);
      ghost var rest := Unknown(keys[1..], user, default, layout, path);
      Associates(done, part, rest);
      var here := path + [key];
      if key !in default.at {
        if strict { return unknown, Some(here); }
        Associates(unknown, done, [here]);
        grown := grown + [here];
      } else if Opens(user.at[key], default.at[key]) {
        grown, raised := ValidateMapping(user.at[key], default.at[key], layout, here, grown, strict);
        if raised.Some? { return unknown, raised; }
        Associates(unknown, done, part);
      }
      done := done + part;
      keys := keys[1..];
    }
    assert done == all;
  }

  lemma Associates(a: seq<Path>, b: seq<Path>, c: seq<Path>)
    ensures a + (b + c) == (a + b) + c
    ensures a + [] == a
  {
  }

  datatype Verdict = Malformed | Refused(path: Path) | Accepted(unknown: seq<Path>)

  /** Malformed arguments raise in either mode; an unknown path raises only in strict mode. */
  method Validate(user: Value, default: Value, layout: Layout, strict: bool) returns (r: Verdict)
    requires Lists(layout, [], user)
    ensures !user.Dict? || !default.Dict? ==> r == Malformed
    ensures user.Dict? && default.Dict? ==>
              var found := Unknown(layout([]), user, default, layout, []);
              r == if strict && found != [] then Refused(found[0]) else Accepted(found)
  {
    if !user.Dict? || !default.Dict? { return Malformed; }
    var unknown, raised := ValidateMapping(user, default, layout, [], [], strict);
    assert [] + Unknown(layout([]), user, default, layout, []) == Unknown(layout([]), user, default, layout, []);
    return if raised.Some? then Refused(raised.value) else Accepted(unknown);
  }

  /**
   * `check` never raises. It reports at most one complaint, the first unknown path, although its list
   * type suggests them all; and a malformed argument is reported as one, too.
   */
  method CheckValues(user: Value, default: Value, layout: Layout) returns (complaints: seq<Verdict>)
    requires Lists(layout, [], user)
    ensures !user.Dict? || !default.Dict? ==> complaints == [Malformed]
    ensures user.Dict? && default.Dict? ==>
              var found := Unknown(layout([]), user, default, layout, []);
              complaints == if found == [] then [] else [Refused(found[0])]
  {
    var verdict := Validate(user, default, layout, true);
    return if verdict.Accepted? then [] else [verdict];
  }

  /** Every path found lies strictly below the prefix, through one of the keys. */
  predicate Below(q: Path, prefix: Path, keys: seq<string>) {
    |q| > |prefix| && q[..|prefix|] == prefix && q[|prefix|] in keys
  }

  lemma {:induction false} FoundBelow(k: string, user: Value, default: Value, layout: Layout, prefix: Path)
    requires LaidOut([k], user, default, layout, prefix)
    ensures forall q | q in Found(k, user, default, layout, prefix) :: Below(q, prefix, [k])
    decreases user, 0
  {
    var here := prefix + [k];
    assert k in [k];
    if k in default.at && Opens(user.at[k], default.at[k]) {
      UnknownBelow(layout(here), user.at[k], default.at[k], layout, here);
      forall q | q in Found(k, user, default, layout, prefix) ensures Below(q, prefix, [k]) {
        assert Below(q, here, layout(here));
        assert q[..|prefix|] == here[..|prefix|] && q[|prefix|] == here[|prefix|];
      }
    }
  }

  lemma {:induction false} UnknownBelow(keys: seq<string>, user: Value, default: Value, layout: Layout, prefix: Path)
    requires LaidOut(keys, user, default, layout, prefix)
    ensures forall q | q in Unknown(keys, user, default, layout, prefix) :: Below(q, prefix, keys)
    decreases user, 1 + |keys|
  {
    if keys != [] {
      FoundBelow(keys[0], user, default, layout, prefix);
      UnknownBelow(keys[1..], user, default, layout, prefix);
    }
  }

  lemma {:induction false} FoundIsExact(k: string, user: Value, default: Value, layout: Layout, prefix: Path, p: Path)
    requires LaidOut([k], user, default, layout, prefix)
    ensures
      prefix + p in Found(k, user, default, layout, prefix)
      <==> p != [] && p[0] == k && Undeclared(user, default, p)
    decreases user, 0
  {
    var here := prefix + [k];
    assert k in [k];
    FoundBelow(k, user, default, layout, prefix);
    if p != [] && p[0] == k {
      assert prefix + p == here + p[1..];
      if k !in default.at {
        assert prefix + p == here ==> |p| == 1;
        assert |p| == 1 ==> p == [k];
      } else if Opens(user.at[k], default.at[k]) {
        UnknownIsExact(layout(here), user.at[k], default.at[k], layout, here, p[1..]);
      }
    } else {
      assert !Below(prefix + p, prefix, [k]);
    }
  }

  lemma {:induction false} UnknownIsExact(keys: seq<string>, user: Value, default: Value, layout: Layout,
                                          prefix: Path, p: Path)
    requires LaidOut(keys, user, default, layout, prefix)
    ensures prefix + p in Unknown(keys, user, default, layout, prefix)
            <==> p != [] && p[0] in keys && Undeclared(user, default, p)
    decreases user, 1 + |keys|
  {
    if keys != [] {
      FoundIsExact(keys[0], user, default, layout, prefix, p);
      UnknownIsExact(keys[1..], user, default, layout, prefix, p);
      assert p != [] ==> (p[0] in keys <==> p[0] == keys[0] || p[0] in keys[1..]);
    }
  }

  predicate Once(paths: seq<Path>) {
    forall i, j | 0 <= i < j < |paths| :: paths[i] != paths[j]
  }

  lemma OnceAppend(a: seq<Path>, b: seq<Path>)
    requires Once(a) && Once(b) && forall x, y | x in a && y in b :: x != y
    ensures Once(a + b)
  {
    forall i, j | 0 <= i < j < |a + b| ensures (a + b)[i] != (a + b)[j] {
      if i < |a| <= j {
        assert (a + b)[i] in a && (a + b)[j] in b;
      }
    }
  }

  lemma {:induction false} FoundOnce(k: string, user: Value, default: Value, layout: Layout, prefix: Path)
    requires LaidOut([k], user, default, layout, prefix)
    ensures Once(Found(k, user, default, layout, prefix))
    decreases user, 0
  {
    assert k in [k];
    if k in default.at && Opens(user.at[k], default.at[k]) {
      var here := prefix + [k];
      UnknownOnce(layout(here), user.at[k], default.at[k], layout, here);
    }
  }

  /** No path is reported twice. */
  lemma {:induction false} UnknownOnce(keys: seq<string>, user: Value, default: Value, layout: Layout, prefix: Path)
    requires LaidOut(keys, user, default, layout, prefix) && NoRepeats(keys)
    ensures Once(Unknown(keys, user, default, layout, prefix))
    decreases user, 1 + |keys|
  {
    if keys != [] {
      var part := Found(keys[0], user, default, layout, prefix);
      var rest := Unknown(keys[1..], user, default, layout, prefix);
      FoundOnce(keys[0], user, default, layout, prefix);
      UnknownOnce(keys[1..], user, default, layout, prefix);
      FoundBelow(keys[0], user, default, layout, prefix);
      UnknownBelow(keys[1..], user, default, layout, prefix);
      forall x, y | x in part && y in rest ensures x != y {
        assert Below(x, prefix, [keys[0]]) && Below(y, prefix, keys[1..]);
        var j :| 0 <= j < |keys[1..]| && keys[1..][j] == y[|prefix|];
        assert keys[j + 1] == y[|prefix|];
      }
      OnceAppend(part, rest);
    }
  }

  /** The lenient list as a whole: exactly the undeclared paths, each once. */
  lemma LenientListIsExact(user: Value, default: Value, layout: Layout)
    requires user.Dict? && default.Dict? && Lists(layout, [], user)
    ensures forall p :: p in Unknown(layout([]), user, default, layout, []) <==> Undeclared(user, default, p)
    ensures Once(Unknown(layout([]), user, default, layout, []))
  {
    forall p ensures p in Unknown(layout([]), user, default, layout, []) <==> Undeclared(user, default, p) {
      assert [] + p == p;
      UnknownIsExact(layout([]), user, default, layout, [], p);
    }
    UnknownOnce(layout([]), user, default, layout, []);
  }

  /*** validity under merge and redaction ***/

  /** The user sets nothing the chart does not declare. */
  ghost predicate Declared(user: Value, default: Value) {
    forall p: Path :: !Undeclared(user, default, p)
  }

  lemma UndeclaredStep(user: Value, default: Value, k: string, p: Path)
    requires user.Dict? && default.Dict? && k in user.at && k in default.at && p != []
    ensures Undeclared(user, default, [k] + p)
            <==> Opens(user.at[k], default.at[k]) && Undeclared(user.at[k], default.at[k], p)
  {
    assert ([k] + p)[1..] == p;
  }

  lemma UndeclaredKey(user: Value, default: Value, k: string)
    requires user.Dict? && default.Dict? && k in user.at
    ensures Undeclared(user, default, [k]) <==> k !in default.at
  {
  }

  lemma DeclaredBelow(user: Value, default: Value, k: string)
    requires Declared(user, default) && user.Dict? && default.Dict? && k in user.at
    ensures k in default.at
    ensures Opens(user.at[k], default.at[k]) ==> Declared(user.at[k], default.at[k])
  {
    UndeclaredKey(user, default, k);
    if Opens(user.at[k], default.at[k]) {
      forall p: Path ensures !Undeclared(user.at[k], default.at[k], p) {
        if p != [] { UndeclaredStep(user, default, k, p); }
      }
    }
  }

  /** Declared values stay declared when merged. */
  lemma {:induction false} MergeStaysDeclared(a: Value, b: Value, default: Value)
    requires Declared(a, default) && Declared(b, default)
    ensures Declared(Merge(a, b), default)
    decreases b
  {
    if a.Dict? && b.Dict? && default.Dict? {
      forall p: Path ensures !Undeclared(Merge(a, b), default, p) {
        if p != [] && p[0] in Merge(a, b).at {
          var k := p[0];
          if k in a.at { DeclaredBelow(a, default, k); }
          if k in b.at { DeclaredBelow(b, default, k); }
          if k in a.at && k in b.at && default.at[k].Dict? && default.at[k].at != map[] {
            BelowOrLeaf(a.at[k], default.at[k]);
            BelowOrLeaf(b.at[k], default.at[k]);
            MergeStaysDeclared(a.at[k], b.at[k], default.at[k]);
          }
        }
      }
    }
  }

  lemma BelowOrLeaf(v: Value, default: Value)
    requires Opens(v, default) ==> Declared(v, default)
    requires default.Dict? && default.at != map[]
    ensures Declared(v, default)
  {
    if !v.Dict? {
      forall p: Path ensures !Undeclared(v, default, p) {}
    }
  }

  /**
   * Redaction hides exactly the undeclared paths below a sensitive key and adds none, so declared
   * values stay declared.
   */
  lemma {:induction false} RedactHidesOnlyBelowSensitive(user: Value, default: Value, p: Path)
    ensures Undeclared(Redact(user), default, p)
            <==> Undeclared(user, default, p) && forall i | 0 <= i < |p| - 1 :: !Sensitive(p[i])
    decreases |p|
  {
    if p != [] && user.Dict? && default.Dict? && p[0] in user.at && |p| > 1 && p[0] in default.at {
      if Sensitive(p[0]) {
        assert !Redact(user).at[p[0]].Dict?;
      } else {
        RedactHidesOnlyBelowSensitive(user.at[p[0]], default.at[p[0]], p[1..]);
        assert forall i | 1 <= i < |p| - 1 :: p[i] == p[1..][i - 1];
        assert forall i | 0 <= i < |p[1..]| - 1 :: p[1..][i] == p[i + 1];
      }
    }
  }
}
