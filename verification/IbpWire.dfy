/** What the messages of the Incremental Bazel Protocol carry, and how both ends read it. */
module IbpWire {
  import opened Wrappers

  datatype Json = JNull | JBool(b: bool) | JNum(n: real) | JStr(s: string) | JArr(items: seq<Json>) | JObj(fields: map<string, Json>)

  /** Conversion of a float64 to an int: towards zero. */
  function Truncate(r: real): int {
    if r >= 0.0 then r.Floor else -((-r).Floor)
  }

  lemma TruncateOfInteger(i: int)
    ensures Truncate(i as real) == i
  {
    assert (-(i as real)) == (-i) as real;
  }

  /******* Versions *******/

  predicate Accepts(supported: seq<int>, v: Json) {
    v.JNum? && Truncate(v.n) in supported
  }

  /** The first offered version that is supported; what is not a number is skipped. */
  method NegotiateVersion(offered: seq<Json>, supported: seq<int>) returns (r: Option<int>)
    ensures r == FirstAccepted(offered, supported)
    ensures r.None? <==> forall i :: 0 <= i < |offered| ==> !Accepts(supported, offered[i])
    ensures r.Some? ==> exists i :: (0 <= i < |offered| && Accepts(supported, offered[i])
      && r.value == Truncate(offered[i].n) && forall j :: 0 <= j < i ==> !Accepts(supported, offered[j]))
  {
    for i := 0 to |offered|
      invariant forall j :: 0 <= j < i ==> !Accepts(supported, offered[j])
      invariant FirstAccepted(offered, supported) == FirstAccepted(offered[i..], supported)
    {
      if !offered[i].JNum? {
        continue;
      }
      if Truncate(offered[i].n) in supported {
        return Some(Truncate(offered[i].n));
      }
    }
    return None;
  }

  function FirstAccepted(offered: seq<Json>, supported: seq<int>): Option<int> {
    if offered == [] then None
    else if Accepts(supported, offered[0]) then Some(Truncate(offered[0].n))
    else FirstAccepted(offered[1..], supported)
  }

  function VersionsToJson(versions: seq<int>): (r: seq<Json>)
    ensures |r| == |versions| && forall i :: 0 <= i < |r| ==> r[i] == JNum(versions[i] as real)
  {
    seq(|versions|, i requires 0 <= i < |versions| => JNum(versions[i] as real))
  }

  /** The first version of one list that is in the other. */
  function FirstCommon(offered: seq<int>, supported: seq<int>): (r: Option<int>)
    ensures r.Some? ==> r.value in offered && r.value in supported
    ensures r.None? ==> forall v :: v in offered ==> v !in supported
  {
    if offered == [] then None
    else if offered[0] in supported then Some(offered[0])
    else FirstCommon(offered[1..], supported)
  }

  lemma {:induction false} NegotiatesFirstCommon(offered: seq<int>, supported: seq<int>)
    ensures FirstAccepted(VersionsToJson(offered), supported) == FirstCommon(offered, supported)
  {
    if offered != [] {
      TruncateOfInteger(offered[0]);
      assert VersionsToJson(offered)[1..] == VersionsToJson(offered[1..]);
      NegotiatesFirstCommon(offered[1..], supported);
    }
  }

  /******* Capabilities *******/

  type Caps = map<string, Json>

  const SCOPE := "scope"
  const OTEL := "otel"
  const SOURCES := "sources"
  const RUNFILES := "runfiles"

  predicate IsScopeName(v: Json) {
    v == JStr(SOURCES) || v == JStr(RUNFILES)
  }

  predicate IsScopeList(v: Json) {
    v.JArr? && v.items != [] && forall i :: 0 <= i < |v.items| ==> IsScopeName(v.items[i])
  }

  /** readScopeCapList: copies the list out, unless it is not a non-empty list of scope names. */
  method ReadScopeCapList(v: Json) returns (r: Result<seq<Json>>)
    ensures r == if IsScopeList(v) then Ok(v.items) else Err
  {
    if !v.JArr? {
      return Err;
    }
    var scopes: seq<Json> := [];
    for i := 0 to |v.items|
      invariant scopes == v.items[..i] && forall j :: 0 <= j < i ==> IsScopeName(v.items[j])
    {
      if !v.items[i].JStr? {
        return Err;
      }
      if v.items[i].s == SOURCES || v.items[i].s == RUNFILES {
        scopes := scopes + [v.items[i]];
      } else {
        return Err;
      }
    }
    assert scopes == v.items;
    if |scopes| == 0 {
      return Err;
    }
    return Ok(scopes);
  }

  const DEFAULT_CAPS: Caps := map[SCOPE := JArr([JStr(RUNFILES)])]

  /** What a requested capability is read as. */
  function ReadCap(name: string, v: Json): Json {
    if name == OTEL then JBool(v == JBool(true)) else v
  }

  function CapsOf(requested: Caps): (r: Caps) {
    DEFAULT_CAPS + map name | name in requested :: ReadCap(name, requested[name])
  }

  function ReadCaps(raw: Json): Result<Caps> {
    match raw
    case JNull => Ok(DEFAULT_CAPS)
    case JObj(requested) =>
      if SCOPE in requested && !IsScopeList(requested[SCOPE]) then Err else Ok(CapsOf(requested))
    case _ => Err
  }

  /** readCapsRequestMap, also used for the response; the entries come in any order. */
  method ReadCapsMap(raw: Json) returns (r: Result<Caps>)
    ensures r == ReadCaps(raw)
  {
    var caps := DEFAULT_CAPS;
    assert SCOPE != OTEL;
    if raw == JNull {
      return Ok(caps);
    }
    if !raw.JObj? {
      return Err;
    }
    var rest := raw.fields.Keys;
    while rest != {}
      invariant rest <= raw.fields.Keys
      invariant SCOPE in raw.fields && SCOPE !in rest ==> IsScopeList(raw.fields[SCOPE])
      invariant caps == CapsOf(raw.fields - rest)
      decreases rest
    {
      var name :| name in rest;
      var v := raw.fields[name];
      CapsOfOneMore(raw.fields, rest, name);
      rest := rest - {name};
      if name == SCOPE {
        var scopes := ReadScopeCapList(v);
        if scopes.Err? {
          return Err;
        }
        caps := caps[SCOPE := JArr(scopes.value)];
      } else if name == OTEL {
        caps := caps[OTEL := JBool(v.JBool? && v.b)];
      } else {
        caps := caps[name := v];
      }
    }
    assert raw.fields - rest == raw.fields;
    return Ok(caps);
  }

  lemma CapsOfOneMore(requested: Caps, rest: set<string>, name: string)
    requires name in requested && name in rest
    ensures CapsOf(requested - (rest - {name})) == CapsOf(requested - rest)[name := ReadCap(name, requested[name])]
  {
  }

  predicate GoodScope(v: Json) {
    v.JArr? && v.items != [] && forall i :: 0 <= i < |v.items| ==> v.items[i] == JStr("sources") || v.items[i] == JStr("runfiles")
  }

  /**
   Requested capabilities are read as they are, "otel" as a bool; without a request for it the scope is
   runfiles; nothing else is added.  A bad scope, or what is neither an object nor null, is an error.
   */
  lemma CapsAreAsRequested(raw: Json)
    ensures ReadCaps(raw).Ok? <==> raw.JNull? || (raw.JObj? && ("scope" in raw.fields ==> GoodScope(raw.fields["scope"])))
    ensures ReadCaps(raw).Ok? ==> var caps, asked := ReadCaps(raw).value, if raw.JObj? then raw.fields else map[];
      && caps.Keys == asked.Keys + {"scope"}
      && (forall name :: name in asked && name != "otel" ==> caps[name] == asked[name])
      && ("otel" in asked ==> caps["otel"] == JBool(asked["otel"] == JBool(true)))
      && ("scope" !in asked ==> caps["scope"] == JArr([JStr("runfiles")]))
  {
    assert SCOPE != OTEL && SCOPE == "scope" && OTEL == "otel";
    if raw.JObj? && SCOPE in raw.fields {
      assert IsScopeList(raw.fields[SCOPE]) <==> GoodScope(raw.fields[SCOPE]);
    }
  }

  /** Reading capabilities that have been read already changes nothing. */
  lemma ReadingCapsIsIdempotent(raw: Json)
    requires ReadCaps(raw).Ok?
    ensures ReadCaps(JObj(ReadCaps(raw).value)) == ReadCaps(raw)
  {
    var caps := ReadCaps(raw).value;
    assert SCOPE != OTEL;
    assert IsScopeList(caps[SCOPE]);
    forall name | name in caps ensures ReadCap(name, caps[name]) == caps[name] {
      if raw.JObj? && name in raw.fields {
        assert caps[name] == ReadCap(name, raw.fields[name]);
      }
    }
    assert CapsOf(caps) == caps;
  }

  /** With read capabilities, some scope is always watched; without a request only runfiles are. */
  lemma ReadCapsHaveScope(raw: Json)
    requires ReadCaps(raw).Ok?
    ensures SCOPE in ReadCaps(raw).value && IsScopeList(ReadCaps(raw).value[SCOPE])
    ensures (raw.JObj? && SCOPE in raw.fields) || ReadCaps(raw).value[SCOPE] == JArr([JStr(RUNFILES)])
  {
    assert SCOPE != OTEL;
  }

  /******* Cycle events *******/

  datatype SourceInfo = SourceInfo(isSymlink: Option<bool>, isSource: Option<bool>)

  /** A nil map of sources differs from an empty one, and a source may have a nil info. */
  type Sources = Option<map<string, Option<SourceInfo>>>

  datatype CycleEvent = SourcesEvent(id: int, scope: string, sources: Sources) | ResetEvent(id: int)

  function OptionalField(name: string, v: Option<bool>): Caps {
    if v.None? then map[] else map[name := JBool(v.value)]
  }

  function InfoToJson(info: Option<SourceInfo>): Json {
    if info.None? then JNull
    else JObj(OptionalField("is_symlink", info.value.isSymlink) + OptionalField("is_source", info.value.isSource))
  }

  function SourcesToJson(sources: Sources): Json {
    if sources.None? then JNull
    else JObj(map name | name in sources.value :: InfoToJson(sources.value[name]))
  }

  /** The message on the wire; an empty scope is left out. */
  function ToWire(e: CycleEvent): map<string, Json> {
    var base := map["cycle_id" := JNum(e.id as real)];
    match e
    case ResetEvent(_) => base["kind" := JStr("CYCLE_RESET")]
    case SourcesEvent(_, scope, sources) =>
      var m := base["kind" := JStr("CYCLE")]["sources" := SourcesToJson(sources)];
      if scope == "" then m else m["scope" := JStr(scope)]
  }

  datatype Read<T> = Got(value: T) | Invalid | Panics

  function ReadOptionalBool(fields: map<string, Json>, name: string): Option<bool> {
    if name in fields && fields[name].JBool? then Some(fields[name].b) else None
  }

  function ReadInfo(v: Json): Option<SourceInfo> {
    if v.JObj? then Some(SourceInfo(ReadOptionalBool(v.fields, "is_symlink"), ReadOptionalBool(v.fields, "is_source")))
    else None
  }

  /** convertWireCycle; an info that is neither null nor an object makes the type assertion panic. */
  function ConvertWireCycle(msg: map<string, Json>): Read<CycleEvent> {
    if !("kind" in msg && (msg["kind"] == JStr("CYCLE") || msg["kind"] == JStr("CYCLE_RESET"))) then Invalid
    else if !("cycle_id" in msg && msg["cycle_id"].JNum?) then Invalid
    else
      var id := Truncate(msg["cycle_id"].n);
      if msg["kind"] == JStr("CYCLE_RESET") then Got(ResetEvent(id))
      else
        var scope := if "scope" in msg && msg["scope"].JStr? then msg["scope"].s else "";
        if !("sources" in msg && msg["sources"].JObj?) then Got(SourcesEvent(id, scope, None))
        else
          var raw := msg["sources"].fields;
          if exists name :: name in raw && raw[name] != JNull && !raw[name].JObj? then Panics
          else Got(SourcesEvent(id, scope, Some(map name | name in raw :: ReadInfo(raw[name]))))
  }

  lemma InfoRoundTrip(info: Option<SourceInfo>)
    ensures ReadInfo(InfoToJson(info)) == info
    ensures InfoToJson(info) == JNull || InfoToJson(info).JObj?
  {
    assert "is_symlink" != "is_source";
  }

  lemma SourcesRoundTrip(sources: Sources)
    requires sources.Some?
    ensures var raw := SourcesToJson(sources).fields;
      && (forall name :: name in raw ==> raw[name] == JNull || raw[name].JObj?)
      && (map name | name in raw :: ReadInfo(raw[name])) == sources.value
  {
    forall name | name in sources.value
      ensures ReadInfo(InfoToJson(sources.value[name])) == sources.value[name]
      ensures InfoToJson(sources.value[name]) == JNull || InfoToJson(sources.value[name]).JObj?
    {
      InfoRoundTrip(sources.value[name]);
    }
  }

  /** The client sees exactly the event the server sent. */
  lemma WireKeepsEvent(e: CycleEvent)
    ensures ConvertWireCycle(ToWire(e)) == Got(e)
  {
    TruncateOfInteger(e.id);
    assert |"kind"| == 4 && |"cycle_id"| == 8 && |"sources"| == 7 && |"scope"| == 5;
    assert |"CYCLE"| == 5 && |"CYCLE_RESET"| == 11;
    if e.SourcesEvent? && e.sources.Some? {
      SourcesRoundTrip(e.sources);
    }
  }
}
