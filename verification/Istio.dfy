/** pkg/disruptors/istio.go: the mutations of Istio resources, and applying one for a while against a store that many
    write to. */
module Istio {
  import opened Json
  import Decimal
  import opened Common

  // ---- Mutations

  /** httpRouteAt: the object at spec.http[index], and all of spec.http. */
  function HttpRouteAt(obj: Json, index: int): Option<(Json, seq<Json>)> {
    match NestedSlice(obj, ["spec", "http"])
    case Found(List(routes)) =>
      if index < 0 || index >= |routes| || !routes[index].Obj? then None else Some((routes[index], routes))
    case _ => None
  }

  datatype MisrouteFault = MisrouteFault(httpRouteIndex: int, routeIndex: int, host: string, subset: string)

  /** The mutation of InjectMisroute; None for an error. */
  function Misroute(obj: Json, f: MisrouteFault): Option<Json> {
    match HttpRouteAt(obj, f.httpRouteIndex)
    case None => None
    case Some((route, routes)) =>
      match NestedSlice(route, ["route"])
      case Found(List(destinations)) =>
        if f.routeIndex < 0 || f.routeIndex >= |destinations| || !destinations[f.routeIndex].Obj? then None
        else
          var dest := destinations[f.routeIndex];
          var destination := NestedMap(dest, ["destination"]);
          if destination.WrongShape? then None
          else
            var fields := if destination.Found? then destination.value.fields else map[];
            var fields := fields["host" := Str(f.host)];
            var fields := if f.subset != "" then fields["subset" := Str(f.subset)] else fields;
            var dest := Obj(dest.fields["destination" := Obj(fields)]);
            var route := Obj(route.fields["route" := List(destinations[f.routeIndex := dest])]);
            SetNested(obj, List(routes[f.httpRouteIndex := route]), ["spec", "http"])
      case _ => None
  }

  function HttpPath(index: nat): Path { [Field("spec"), Field("http"), Item(index)] }

  function DestinationPath(f: MisrouteFault): Path
    requires f.httpRouteIndex >= 0 && f.routeIndex >= 0
  {
    HttpPath(f.httpRouteIndex) + [Field("route"), Item(f.routeIndex), Field("destination")]
  }

  /** There is a route entry at the two indices, whose destination, if given, is an object. */
  predicate Routable(obj: Json, f: MisrouteFault) {
    && f.httpRouteIndex >= 0 && f.routeIndex >= 0
    && (var dest := At(obj, HttpPath(f.httpRouteIndex) + [Field("route"), Item(f.routeIndex)]);
        dest.Some? && dest.value.Obj? && Child(dest.value.fields, "destination").Obj?)
  }

  lemma HttpRouteIs(obj: Json, index: int)
    ensures HttpRouteAt(obj, index).Some? <==>
            index >= 0 && At(obj, HttpPath(index)).Some? && At(obj, HttpPath(index)).value.Obj?
    ensures HttpRouteAt(obj, index).Some? ==>
              var (route, routes) := HttpRouteAt(obj, index).value;
              At(obj, HttpPath(index)) == Some(route) && At(obj, [Field("spec"), Field("http")]) == Some(List(routes))
              && index < |routes| && route == routes[index]
  {
    var path := [Field("spec"), Field("http")];
    assert Fields(["spec", "http"]) == path;
    NestedIsAt(obj, ["spec", "http"]);
    if index >= 0 {
      assert HttpPath(index) == path + [Item(index)];
      AtBelow(obj, path, [Item(index)]);
      if At(obj, path).Some? {
        AtOne(At(obj, path).value, Item(index));
      }
    }
  }

  lemma AtOne(j: Json, key: Key)
    ensures At(j, [key]) == match (j, key)
            case (Obj(fields), Field(name)) => if name in fields then Some(fields[name]) else None
            case (List(items), Item(index)) => if index < |items| then Some(items[index]) else None
            case _ => None
  {
    assert [key][1..] == [];
  }

  /** Writing spec.http back with entry `index` replaced is a write at that entry. */
  lemma WriteBack(obj: Json, routes: seq<Json>, index: nat, route: Json)
    requires At(obj, [Field("spec"), Field("http")]) == Some(List(routes)) && index < |routes|
    ensures CanPut(obj, HttpPath(index))
    ensures SetNested(obj, List(routes[index := route]), ["spec", "http"]) == Some(Put(obj, HttpPath(index), route))
  {
    var path := [Field("spec"), Field("http")];
    assert Fields(["spec", "http"]) == path;
    assert HttpPath(index) == path + [Item(index)];
    assert [Item(index)][1..] == [];
    PutBelow(obj, path, [Item(index)], route);
    SetNestedIsPut(obj, List(routes[index := route]), ["spec", "http"]);
  }

  function WithDestination(f: MisrouteFault, fields: map<string, Json>): Json {
    var fields := fields["host" := Str(f.host)];
    Obj(if f.subset != "" then fields["subset" := Str(f.subset)] else fields)
  }

  /** The route object with its addressed destination rewritten is a write below the route. */
  lemma RouteRewritten(route: Json, k: nat, destination: Json)
    requires At(route, [Field("route"), Item(k)]).Some? && At(route, [Field("route"), Item(k)]).value.Obj?
    ensures var path := [Field("route"), Item(k), Field("destination")];
            && route.Obj? && "route" in route.fields && route.fields["route"].List? && k < |route.fields["route"].items|
            && route.fields["route"].items[k].Obj?
            && CanPut(route, path)
            && var items := route.fields["route"].items;
               Put(route, path, destination) ==
               Obj(route.fields["route" := List(items[k := Obj(items[k].fields["destination" := destination])])])
  {
    var path := [Field("route"), Item(k), Field("destination")];
    assert [Field("route"), Item(k)][1..] == [Item(k)];
    AtOne(route.fields["route"], Item(k));
    assert path[1..] == [Item(k), Field("destination")];
    assert path[1..][1..] == [Field("destination")];
    assert path[1..][1..][1..] == [];
    var item := route.fields["route"].items[k];
    assert Put(item, [Field("destination")], destination) == Obj(item.fields["destination" := destination]);
  }

  lemma NestedOne(j: Json, name: string)
    ensures Nested(j, [name]) == if j.Null? then NotFound else if !j.Obj? then WrongShape
                                 else if name in j.fields then Found(j.fields[name]) else NotFound
  {
    assert [name][1..] == [];
  }

  /** InjectMisroute's mutation succeeds exactly on routable objects, and then is one write at the destination. */
  lemma MisrouteWritesDestination(obj: Json, f: MisrouteFault)
    ensures Misroute(obj, f).Some? <==> Routable(obj, f)
    ensures Routable(obj, f) ==>
              var dest := At(obj, HttpPath(f.httpRouteIndex) + [Field("route"), Item(f.routeIndex)]).value;
              var destination := WithDestination(f, Child(dest.fields, "destination").fields);
              && CanPut(obj, DestinationPath(f))
              && Misroute(obj, f) == Some(Put(obj, DestinationPath(f), destination))
  {
    HttpRouteIs(obj, f.httpRouteIndex);
    if f.httpRouteIndex >= 0 && f.routeIndex >= 0 {
      var below := [Field("route"), Item(f.routeIndex)];
      AtBelow(obj, HttpPath(f.httpRouteIndex), below);
      if HttpRouteAt(obj, f.httpRouteIndex).Some? {
        var (route, routes) := HttpRouteAt(obj, f.httpRouteIndex).value;
        NestedOne(route, "route");
        assert below[1..] == [Item(f.routeIndex)];
        if "route" in route.fields {
          AtOne(route.fields["route"], Item(f.routeIndex));
        }
        if Routable(obj, f) {
          MisrouteRoutable(obj, f);
        } else if At(route, below).Some? && At(route, below).value.Obj? {
          NestedOne(At(route, below).value, "destination");
        }
      } else if At(obj, HttpPath(f.httpRouteIndex)).Some? {
        assert At(At(obj, HttpPath(f.httpRouteIndex)).value, below).None?;
      }
    }
  }

  lemma MisrouteRoutable(obj: Json, f: MisrouteFault)
    requires Routable(obj, f) && HttpRouteAt(obj, f.httpRouteIndex).Some?
    ensures var dest := At(obj, HttpPath(f.httpRouteIndex) + [Field("route"), Item(f.routeIndex)]).value;
            var destination := WithDestination(f, Child(dest.fields, "destination").fields);
            && CanPut(obj, DestinationPath(f))
            && Misroute(obj, f) == Some(Put(obj, DestinationPath(f), destination))
  {
    var i, k := f.httpRouteIndex, f.routeIndex;
    HttpRouteIs(obj, i);
    AtBelow(obj, HttpPath(i), [Field("route"), Item(k)]);
    var (route, routes) := HttpRouteAt(obj, i).value;
    var dest := At(route, [Field("route"), Item(k)]).value;
    var destination := WithDestination(f, Child(dest.fields, "destination").fields);
    RouteRewritten(route, k, destination);
    AtOne(route.fields["route"], Item(k));
    assert [Field("route"), Item(k)][1..] == [Item(k)];
    NestedOne(route, "route");
    NestedOne(dest, "destination");
    PutBelow(obj, HttpPath(i), [Field("route"), Item(k), Field("destination")], destination);
    WriteBack(obj, routes, i, Put(route, [Field("route"), Item(k), Field("destination")], destination));
  }

  lemma MisrouteSets(obj: Json, f: MisrouteFault, key: Key)
    requires Misroute(obj, f).Some?
    ensures Routable(obj, f)
    ensures var dest := At(obj, HttpPath(f.httpRouteIndex) + [Field("route"), Item(f.routeIndex)]).value;
            At(Misroute(obj, f).value, DestinationPath(f) + [key])
            == At(WithDestination(f, Child(dest.fields, "destination").fields), [key])
  {
    MisrouteWritesDestination(obj, f);
    var path := DestinationPath(f);
    var dest := At(obj, HttpPath(f.httpRouteIndex) + [Field("route"), Item(f.routeIndex)]).value;
    AtPut(obj, path, WithDestination(f, Child(dest.fields, "destination").fields));
    AtBelow(Misroute(obj, f).value, path, [key]);
  }

  /** A path below the destination that begins neither with the host nor with a subset that is set. */
  lemma MisrouteKeepsBelow(obj: Json, f: MisrouteFault, rest: Path)
    requires Misroute(obj, f).Some? && Routable(obj, f)
    requires rest != [] && rest[0] != Field("host") && (f.subset != "" ==> rest[0] != Field("subset"))
    ensures At(Misroute(obj, f).value, DestinationPath(f) + rest) == At(obj, DestinationPath(f) + rest)
  {
    MisrouteWritesDestination(obj, f);
    var path := DestinationPath(f);
    var destPath := HttpPath(f.httpRouteIndex) + [Field("route"), Item(f.routeIndex)];
    var dest := At(obj, destPath).value;
    AtPut(obj, path, WithDestination(f, Child(dest.fields, "destination").fields));
    AtBelow(Misroute(obj, f).value, path, rest);
    assert path == destPath + [Field("destination")];
    AtBelow(obj, destPath, [Field("destination")]);
    AtOne(dest, Field("destination"));
    AtBelow(obj, path, rest);
  }

  /** InjectMisroute changes the host and, if one is given, the subset of the addressed destination, and nothing else:
      every path that does not lead to or through one of these has the value it had. */
  lemma MisrouteChangesOnlyHostAndSubset(obj: Json, f: MisrouteFault, other: Path)
    requires Misroute(obj, f).Some?
    ensures Routable(obj, f)
    ensures At(Misroute(obj, f).value, DestinationPath(f) + [Field("host")]) == Some(Str(f.host))
    ensures f.subset != "" ==> At(Misroute(obj, f).value, DestinationPath(f) + [Field("subset")]) == Some(Str(f.subset))
    ensures Apart(DestinationPath(f) + [Field("host")], other)
            && (f.subset != "" ==> Apart(DestinationPath(f) + [Field("subset")], other)) ==>
              At(Misroute(obj, f).value, other) == At(obj, other)
  {
    MisrouteSets(obj, f, Field("host"));
    MisrouteSets(obj, f, Field("subset"));
    var dest := At(obj, HttpPath(f.httpRouteIndex) + [Field("route"), Item(f.routeIndex)]).value;
    var destination := WithDestination(f, Child(dest.fields, "destination").fields);
    AtOne(destination, Field("host"));
    AtOne(destination, Field("subset"));
    var path := DestinationPath(f);
    if Apart(path + [Field("host")], other) && (f.subset != "" ==> Apart(path + [Field("subset")], other)) {
      if path <= other {
        var rest := other[|path|..];
        assert other == path + rest;
        RestApart(path, rest, Field("host"));
        if f.subset != "" {
          RestApart(path, rest, Field("subset"));
        }
        MisrouteKeepsBelow(obj, f, rest);
      } else {
        assert other <= path ==> other <= path + [Field("host")];
        MisrouteWritesDestination(obj, f);
        PutElsewhere(obj, path, destination, other);
      }
    }
  }

  lemma RestApart(path: Path, rest: Path, key: Key)
    requires Apart(path + [key], path + rest)
    ensures rest != [] && rest[0] != key
  {
    assert rest == [] ==> path + rest <= path + [key];
    assert rest != [] && rest[0] == key ==> path + [key] <= path + rest;
  }

  datatype InjectionFault = InjectionFault(
    httpRouteIndex: int, delayMillis: int, delayPercent: real, abortHTTPStatus: int, abortPercent: real)

  function Percentage(percent: real): Json { Obj(map["value" := Num(if percent <= 0.0 then 100.0 else percent)]) }

  function FaultSpec(f: InjectionFault): map<string, Json> {
    (if f.delayMillis > 0 then
       map["delay" := Obj(map[
         "fixedDelay" := Str(Decimal.Text(f.delayMillis) + "ms"),
         "percentage" := Percentage(f.delayPercent)])]
     else map[])
    + (if f.abortHTTPStatus > 0 then
         map["abort" := Obj(map[
           "httpStatus" := Num(f.abortHTTPStatus as real),
           "percentage" := Percentage(f.abortPercent)])]
       else map[])
  }

  /** The mutation of InjectFaultInjection. */
  function Inject(obj: Json, f: InjectionFault): Option<Json> {
    match HttpRouteAt(obj, f.httpRouteIndex)
    case None => None
    case Some((route, routes)) =>
      var route := Obj(route.fields["fault" := Obj(FaultSpec(f))]);
      SetNested(obj, List(routes[f.httpRouteIndex := route]), ["spec", "http"])
  }

  /** Fault injection succeeds exactly if the http route is there, sets its fault and changes nothing else. */
  lemma InjectChangesOnlyFault(obj: Json, f: InjectionFault, other: Path)
    ensures Inject(obj, f).Some? <==>
              && f.httpRouteIndex >= 0 && At(obj, HttpPath(f.httpRouteIndex)).Some?
              && At(obj, HttpPath(f.httpRouteIndex)).value.Obj?
    ensures Inject(obj, f).Some? ==>
              var path := HttpPath(f.httpRouteIndex) + [Field("fault")];
              && At(Inject(obj, f).value, path) == Some(Obj(FaultSpec(f)))
              && (Apart(path, other) ==> At(Inject(obj, f).value, other) == At(obj, other))
  {
    HttpRouteIs(obj, f.httpRouteIndex);
    if HttpRouteAt(obj, f.httpRouteIndex).Some? {
      var (route, routes) := HttpRouteAt(obj, f.httpRouteIndex).value;
      var spec := Obj(FaultSpec(f));
      var path := HttpPath(f.httpRouteIndex) + [Field("fault")];
      assert [Field("fault")][1..] == [];
      assert Put(route, [Field("fault")], spec) == Obj(route.fields["fault" := spec]);
      PutBelow(obj, HttpPath(f.httpRouteIndex), [Field("fault")], spec);
      WriteBack(obj, routes, f.httpRouteIndex, Obj(route.fields["fault" := spec]));
      AtPut(obj, path, spec);
      if Apart(path, other) {
        PutElsewhere(obj, path, spec, other);
      }
    }
  }

  /** The fault's paths below the http route. */
  function FaultPath(f: InjectionFault): Path
    requires f.httpRouteIndex >= 0
  {
    HttpPath(f.httpRouteIndex) + [Field("fault")]
  }

  lemma AtTwo(j: Json, a: Key, b: Key)
    ensures At(j, [a, b]) == if At(j, [a]).None? then None else At(At(j, [a]).value, [b])
  {
    assert [a, b] == [a] + [b];
    AtBelow(j, [a], [b]);
  }

  lemma AtThree(j: Json, a: Key, b: Key, c: Key)
    ensures At(j, [a, b, c]) == if At(j, [a, b]).None? then None else At(At(j, [a, b]).value, [c])
  {
    assert [a, b, c] == [a, b] + [c];
    AtBelow(j, [a, b], [c]);
  }

  lemma BelowFault(obj: Json, f: InjectionFault, rest: Path)
    requires Inject(obj, f).Some?
    ensures f.httpRouteIndex >= 0 && At(Inject(obj, f).value, FaultPath(f) + rest) == At(Obj(FaultSpec(f)), rest)
  {
    InjectChangesOnlyFault(obj, f, []);
    AtBelow(Inject(obj, f).value, FaultPath(f), rest);
  }

  /** The delay is set in milliseconds if one is asked for, for the given share of the requests, or for all of them if
      no positive share is given; beside delay and abort the fault holds nothing. */
  lemma InjectSetsDelay(obj: Json, f: InjectionFault, other: string)
    requires Inject(obj, f).Some?
    ensures f.httpRouteIndex >= 0
    ensures At(Inject(obj, f).value, FaultPath(f) + [Field("delay"), Field("fixedDelay")])
            == if f.delayMillis > 0 then Some(Str(Decimal.Text(f.delayMillis) + "ms")) else None
    ensures At(Inject(obj, f).value, FaultPath(f) + [Field("delay"), Field("percentage"), Field("value")])
            == if f.delayMillis <= 0 then None
               else if f.delayPercent > 0.0 then Some(Num(f.delayPercent)) else Some(Num(100.0))
    ensures other !in {"delay", "abort"} ==> At(Inject(obj, f).value, FaultPath(f) + [Field(other)]) == None
  {
    BelowFault(obj, f, [Field("delay"), Field("fixedDelay")]);
    BelowFault(obj, f, [Field("delay"), Field("percentage"), Field("value")]);
    BelowFault(obj, f, [Field(other)]);
    SpecHolds(f, "delay", "fixedDelay");
    AtOne(Obj(FaultSpec(f)), Field(other));
  }

  lemma InjectSetsAbort(obj: Json, f: InjectionFault)
    requires Inject(obj, f).Some?
    ensures f.httpRouteIndex >= 0
    ensures At(Inject(obj, f).value, FaultPath(f) + [Field("abort"), Field("httpStatus")])
            == if f.abortHTTPStatus > 0 then Some(Num(f.abortHTTPStatus as real)) else None
    ensures At(Inject(obj, f).value, FaultPath(f) + [Field("abort"), Field("percentage"), Field("value")])
            == if f.abortHTTPStatus <= 0 then None
               else if f.abortPercent > 0.0 then Some(Num(f.abortPercent)) else Some(Num(100.0))
  {
    BelowFault(obj, f, [Field("abort"), Field("httpStatus")]);
    BelowFault(obj, f, [Field("abort"), Field("percentage"), Field("value")]);
    SpecHolds(f, "abort", "httpStatus");
  }

  lemma SpecHolds(f: InjectionFault, part: string, value: string)
    requires (part, value) in {("delay", "fixedDelay"), ("abort", "httpStatus")}
    ensures var spec, asked := Obj(FaultSpec(f)), if part == "delay" then f.delayMillis > 0 else f.abortHTTPStatus > 0;
            var percent := if part == "delay" then f.delayPercent else f.abortPercent;
            && At(spec, [Field(part), Field(value)])
               == (if !asked then None
                   else if part == "delay" then Some(Str(Decimal.Text(f.delayMillis) + "ms"))
                   else Some(Num(f.abortHTTPStatus as real)))
            && At(spec, [Field(part), Field("percentage"), Field("value")])
               == if !asked then None else if percent > 0.0 then Some(Num(percent)) else Some(Num(100.0))
  {
    var spec := Obj(FaultSpec(f));
    AtTwo(spec, Field(part), Field(value));
    AtTwo(spec, Field(part), Field("percentage"));
    AtThree(spec, Field(part), Field("percentage"), Field("value"));
    AtOne(spec, Field(part));
    if part in spec.fields {
      AtOne(spec.fields[part], Field(value));
      AtOne(spec.fields[part], Field("percentage"));
      AtOne(spec.fields[part].fields["percentage"], Field("value"));
    }
  }

  /** The mutations of the TLS, mTLS and authorization faults each set one field through SetNested. */
  lemma SetNestedChangesOnlyField(obj: Json, v: Json, names: seq<string>, other: Path)
    requires names != [] && SetNested(obj, v, names).Some?
    ensures At(SetNested(obj, v, names).value, Fields(names)) == Some(v)
    ensures Apart(Fields(names), other) ==> At(SetNested(obj, v, names).value, other) == At(obj, other)
  {
    SetNestedIsPut(obj, v, names);
    AtPut(obj, Fields(names), v);
    if Apart(Fields(names), other) {
      PutElsewhere(obj, Fields(names), v, other);
    }
  }

  // ---- Applying a mutation for a while

  /** The stored resource; `writes` are the accepted writes of this client. */
  datatype Stored = Stored(content: Json, version: nat, writes: seq<Json>)

  /** What the outside does during one call: which of its four requests the API takes, and what other clients write
      before each of them. */
  datatype Script = Script(
    before: seq<Json>, get: bool,
    patching: seq<Json>, patch: bool,
    meanwhile: seq<Json>, reread: bool,
    late: seq<Json>, restore: bool)

  /** Writes of other clients; one that changes nothing keeps the version. */
  function Written(s: Stored, others: seq<Json>): Stored
    decreases |others|
  {
    if others == [] then s
    else Written(if others[0] == s.content then s else s.(content := others[0], version := s.version + 1), others[1..])
  }

  /** A write of this client, which is rejected if its version is not current. */
  function Updated(s: Stored, content: Json, version: nat, taken: bool): Option<Stored> {
    if !taken || version != s.version then None
    else Some(Stored(content, if content == s.content then s.version else s.version + 1, s.writes + [content]))
  }

  datatype Outcome = Nil | GetFailed | MutateFailed | PatchFailed | RestoreFailed

  /** The call's outcome and what it leaves in the store. */
  function Patch(s: Stored, mutate: Json -> Option<Json>, script: Script): (Outcome, Stored) {
    var read := Written(s, script.before);
    if !script.get then (GetFailed, read)
    else match mutate(read.content)
      case None => (MutateFailed, read)
      case Some(mutated) =>
        var found := Written(read, script.patching);
        match Updated(found, mutated, read.version, script.patch)
        case None => (PatchFailed, found)
        case Some(patched) =>
          var reread := Written(patched, script.meanwhile);
          var left := Written(reread, script.late);
          match Updated(left, read.content, if script.reread then reread.version else read.version, script.restore)
          case None => (RestoreFailed, left)
          case Some(restored) => (Nil, restored)
  }

  /** An object in the client's memory. */
  class Unstructured {
    var content: Json
    var resourceVersion: nat

    constructor (content: Json, resourceVersion: nat)
      ensures this.content == content && this.resourceVersion == resourceVersion
    {
      this.content := content;
      this.resourceVersion := resourceVersion;
    }

    method DeepCopy() returns (copy: Unstructured)
      ensures fresh(copy) && copy.content == content && copy.resourceVersion == resourceVersion
    {
      copy := new Unstructured(content, resourceVersion);
    }
  }

  class Store {
    var content: Json
    var version: nat
    var writes: seq<Json>

    function Value(): Stored
      reads this
    {
      Stored(content, version, writes)
    }

    constructor (content: Json)
      ensures Value() == Stored(content, 1, [])
    {
      this.content := content;
      version := 1;
      writes := [];
    }

    method Get(taken: bool) returns (obj: Unstructured?)
      ensures (obj != null) == taken
      ensures obj != null ==> fresh(obj) && obj.content == content && obj.resourceVersion == version
    {
      if !taken {
        return null;
      }
      obj := new Unstructured(content, version);
    }

    method Update(obj: Unstructured, taken: bool) returns (ok: bool)
      modifies this
      ensures var updated := Updated(old(Value()), obj.content, obj.resourceVersion, taken);
              ok == updated.Some? && Value() == if ok then updated.value else old(Value())
    {
      ok := taken && obj.resourceVersion == version;
      if ok {
        if content != obj.content {
          version := version + 1;
        }
        content := obj.content;
        writes := writes + [obj.content];
      }
    }

    /** Writes of other clients. */
    method Others(others: seq<Json>)
      modifies this
      ensures Value() == Written(old(Value()), others)
    {
      for i := 0 to |others|
        invariant Written(Value(), others[i..]) == Written(old(Value()), others)
      {
        assert others[i..][1..] == others[i + 1..];
        if others[i] != content {
          content := others[i];
          version := version + 1;
        }
      }
    }
  }

  method ApplyPatchForDuration(store: Store, mutate: Json -> Option<Json>, script: Script) returns (outcome: Outcome)
    modifies store
    ensures (outcome, store.Value()) == Patch(old(store.Value()), mutate, script)
  {
    store.Others(script.before);
    var current := store.Get(script.get);
    if current == null {
      return GetFailed;
    }
    var restore := current.DeepCopy();
    var patched := current.DeepCopy();
    var mutated := mutate(patched.content);
    if mutated.None? {
      return MutateFailed;
    }
    patched.content := mutated.value;
    store.Others(script.patching);
    var ok := store.Update(patched, script.patch);
    if !ok {
      return PatchFailed;
    }
    // the wait for the duration
    store.Others(script.meanwhile);
    var latest := store.Get(script.reread);
    if latest != null {
      restore.resourceVersion := latest.resourceVersion;
    }
    store.Others(script.late);
    ok := store.Update(restore, script.restore);
    return if ok then Nil else RestoreFailed;
  }

  // ---- What the outcomes mean

  /** None of the writes changes the content. */
  predicate Quiet(content: Json, others: seq<Json>) {
    forall i :: 0 <= i < |others| ==> others[i] == content
  }

  function Last(content: Json, others: seq<Json>): Json {
    if others == [] then content else others[|others| - 1]
  }

  lemma {:induction false} WrittenIs(s: Stored, others: seq<Json>)
    ensures var t := Written(s, others);
            && t.content == Last(s.content, others) && t.writes == s.writes
            && t.version >= s.version && (t.version == s.version <==> Quiet(s.content, others))
    decreases |others|
  {
    if others != [] {
      var next := if others[0] == s.content then s else s.(content := others[0], version := s.version + 1);
      WrittenIs(next, others[1..]);
      assert Last(next.content, others[1..]) == Last(s.content, others);
      if others[0] == s.content && Quiet(s.content, others[1..]) {
        assert forall i :: 1 <= i < |others| ==> others[i] == others[1..][i - 1];
      }
    }
  }

  /** The content the call reads, and restores. */
  function Snapshot(s: Stored, script: Script): Json { Last(s.content, script.before) }

  /** The patch is put in place: it is well-formed and taken, and nobody changes the resource between read and patch. */
  predicate Applied(s: Stored, mutate: Json -> Option<Json>, script: Script) {
    && script.get && script.patch && mutate(Snapshot(s, script)).Some?
    && Quiet(Snapshot(s, script), script.patching)
  }

  /** Nil means that the snapshot was the call's last write and the store held it at that moment; without a patch
      nothing was written; a failed restore leaves the patch as the call's last write. */
  lemma OutcomeMeans(s: Stored, mutate: Json -> Option<Json>, script: Script)
    ensures var (outcome, t) := Patch(s, mutate, script);
            var snapshot := Snapshot(s, script);
            && (Applied(s, mutate, script) <==> outcome in {Nil, RestoreFailed})
            && (outcome == Nil ==> t.content == snapshot && t.writes == s.writes + [mutate(snapshot).value, snapshot])
            && (outcome == RestoreFailed ==> t.writes == s.writes + [mutate(snapshot).value])
            && (outcome !in {Nil, RestoreFailed} ==> t.writes == s.writes)
            && (outcome == GetFailed <==> !script.get)
            && (outcome == MutateFailed <==> script.get && mutate(snapshot) == None)
  {
    var read := Written(s, script.before);
    WrittenIs(s, script.before);
    var found := Written(read, script.patching);
    WrittenIs(read, script.patching);
    if Applied(s, mutate, script) {
      var patched := Updated(found, mutate(read.content).value, read.version, script.patch).value;
      WrittenIs(patched, script.meanwhile);
      WrittenIs(Written(patched, script.meanwhile), script.late);
      assert patched.writes == s.writes + [mutate(read.content).value];
    }
  }

  /** When the restore of an applied patch is accepted: exactly if the API takes it and either the read before it worked
      and nobody changes the resource after that read, or that read failed and nothing at all has changed since the
      first one, the patch included. */
  lemma RestoredIff(s: Stored, mutate: Json -> Option<Json>, script: Script)
    requires Applied(s, mutate, script)
    ensures var snapshot := Snapshot(s, script);
            var mutated := mutate(snapshot).value;
            Patch(s, mutate, script).0 == Nil <==>
              && script.restore
              && if script.reread then Quiet(Last(mutated, script.meanwhile), script.late)
                 else mutated == snapshot && Quiet(snapshot, script.meanwhile) && Quiet(snapshot, script.late)
  {
    var read := Written(s, script.before);
    WrittenIs(s, script.before);
    var found := Written(read, script.patching);
    WrittenIs(read, script.patching);
    var patched := Updated(found, mutate(read.content).value, read.version, script.patch).value;
    assert found.content == read.content;
    WrittenIs(patched, script.meanwhile);
    WrittenIs(Written(patched, script.meanwhile), script.late);
    if mutate(read.content).value == read.content && Quiet(read.content, script.meanwhile) {
      assert Last(patched.content, script.meanwhile) == read.content;
    }
  }

  /** A failed read before the restore, which is what a cancelled context makes of it, keeps the call from taking back
      any effective patch: whoever writes, the restore is refused. */
  lemma FailedRereadLeavesPatch(s: Stored, mutate: Json -> Option<Json>, script: Script)
    requires Applied(s, mutate, script) && !script.reread
    requires mutate(Snapshot(s, script)).value != Snapshot(s, script)
    ensures Patch(s, mutate, script).0 == RestoreFailed
    ensures script.meanwhile == script.late == [] ==>
            Patch(s, mutate, script).1.content == mutate(Snapshot(s, script)).value
  {
    RestoredIff(s, mutate, script);
    OutcomeMeans(s, mutate, script);
    WrittenIs(s, script.before);
  }

  /** Such a call, for any effective mutation: nobody else writes and only that read fails. */
  lemma RestoreCanFail(content: Json, mutate: Json -> Option<Json>) returns (script: Script)
    requires mutate(content).Some? && mutate(content).value != content
    ensures Patch(Stored(content, 1, []), mutate, script)
         == (RestoreFailed, Stored(mutate(content).value, 2, [mutate(content).value]))
  {
    script := Script([], true, [], true, [], false, [], true);
    assert [] + [mutate(content).value] == [mutate(content).value];
  }
}
