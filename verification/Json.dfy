/** JSON trees as the dynamic Kubernetes client hands them out, and the accessors of its `unstructured` package. */
module Json {
  import opened Common

  datatype Json =
    | Null
    | Bool(b: bool)
    | Num(n: real)
    | Str(s: string)
    | List(items: seq<Json>)
    | Obj(fields: map<string, Json>)

  datatype Key = Field(name: string) | Item(index: nat)

  type Path = seq<Key>

  function At(j: Json, path: Path): Option<Json>
    decreases |path|
  {
    if path == [] then Some(j)
    else match (j, path[0])
      case (Obj(fields), Field(name)) => if name in fields then At(fields[name], path[1..]) else None
      case (List(items), Item(index)) => if index < |items| then At(items[index], path[1..]) else None
      case _ => None
  }

  /** The child a write through the field goes on with: a missing one is made an empty object. */
  function Child(fields: map<string, Json>, name: string): Json {
    if name in fields then fields[name] else Obj(map[])
  }

  predicate CanPut(j: Json, path: Path)
    decreases |path|
  {
    path == [] ||
    match (j, path[0])
    case (Obj(fields), Field(name)) => CanPut(Child(fields, name), path[1..])
    case (List(items), Item(index)) => index < |items| && CanPut(items[index], path[1..])
    case _ => false
  }

  /** The tree with the value at the path replaced. */
  function Put(j: Json, path: Path, v: Json): Json
    requires CanPut(j, path)
    decreases |path|
  {
    if path == [] then v
    else match (j, path[0])
      case (Obj(fields), Field(name)) => Obj(fields[name := Put(Child(fields, name), path[1..], v)])
      case (List(items), Item(index)) => List(items[index := Put(items[index], path[1..], v)])
  }

  lemma {:induction false} AtPut(j: Json, path: Path, v: Json)
    requires CanPut(j, path)
    ensures At(Put(j, path, v), path) == Some(v)
    decreases |path|
  {
    if path != [] {
      match j
      case Obj(fields) => AtPut(Child(fields, path[0].name), path[1..], v);
      case List(items) => AtPut(items[path[0].index], path[1..], v);
    }
  }

  /** Neither path leads through the other. */
  predicate Apart(p: Path, q: Path) { !(p <= q) && !(q <= p) }

  lemma {:induction false} PutElsewhere(j: Json, path: Path, v: Json, other: Path)
    requires CanPut(j, path) && Apart(path, other)
    ensures At(Put(j, path, v), other) == At(j, other)
    decreases |path|
  {
    if path[0] == other[0] {
      assert Apart(path[1..], other[1..]) by {
        assert path == [path[0]] + path[1..] && other == [other[0]] + other[1..];
      }
      match j
      case Obj(fields) =>
        var child := Child(fields, path[0].name);
        PutElsewhere(child, path[1..], v, other[1..]);
        if path[0].name !in fields {
          assert At(child, other[1..]) == None;
        }
      case List(items) => PutElsewhere(items[path[0].index], path[1..], v, other[1..]);
    }
  }

  /** Writing below an existing node replaces that node by its rewritten self. */
  lemma {:induction false} PutBelow(j: Json, p: Path, q: Path, v: Json)
    requires At(j, p).Some? && CanPut(At(j, p).value, q)
    ensures CanPut(j, p) && CanPut(j, p + q)
    ensures Put(j, p + q, v) == Put(j, p, Put(At(j, p).value, q, v))
    decreases |p|
  {
    if p == [] {
      assert p + q == q;
    } else {
      assert (p + q)[1..] == p[1..] + q;
      match j
      case Obj(fields) => PutBelow(fields[p[0].name], p[1..], q, v);
      case List(items) => PutBelow(items[p[0].index], p[1..], q, v);
    }
  }

  lemma {:induction false} AtBelow(j: Json, p: Path, q: Path)
    ensures At(j, p + q) == if At(j, p).None? then None else At(At(j, p).value, q)
    decreases |p|
  {
    if p == [] {
      assert p + q == q;
    } else {
      assert (p + q)[1..] == p[1..] + q;
      match (j, p[0])
      case (Obj(fields), Field(name)) => if name in fields { AtBelow(fields[name], p[1..], q); }
      case (List(items), Item(index)) => if index < |items| { AtBelow(items[index], p[1..], q); }
      case _ =>
    }
  }

  // ---- The accessors of k8s.io/apimachinery/pkg/apis/meta/v1/unstructured

  datatype Lookup = Found(value: Json) | NotFound | WrongShape

  function Fields(names: seq<string>): (path: Path)
    ensures |path| == |names|
  {
    seq(|names|, i requires 0 <= i < |names| => Field(names[i]))
  }

  /** NestedFieldNoCopy: a null on the way counts as missing, any other non-object is an error. */
  function Nested(j: Json, names: seq<string>): Lookup {
    if names == [] then Found(j)
    else match j
      case Null => NotFound
      case Obj(fields) => if names[0] in fields then Nested(fields[names[0]], names[1..]) else NotFound
      case _ => WrongShape
  }

  function NestedSlice(j: Json, names: seq<string>): Lookup {
    var r := Nested(j, names);
    if r.Found? && !r.value.List? then WrongShape else r
  }

  function NestedMap(j: Json, names: seq<string>): Lookup {
    var r := Nested(j, names);
    if r.Found? && !r.value.Obj? then WrongShape else r
  }

  /** SetNestedField: missing objects on the way are made, anything else on the way is an error. */
  function SetNested(j: Json, v: Json, names: seq<string>): Option<Json>
    requires names != []
    decreases |names|
  {
    match j
    case Obj(fields) =>
      if |names| == 1 then Some(Obj(fields[names[0] := v]))
      else
        (match SetNested(Child(fields, names[0]), v, names[1..])
         case Some(child) => Some(Obj(fields[names[0] := child]))
         case None => None)
    case _ => None
  }

  lemma {:induction false} NestedIsAt(j: Json, names: seq<string>)
    ensures Nested(j, names).Found? ==> At(j, Fields(names)) == Some(Nested(j, names).value)
    ensures At(j, Fields(names)).Some? ==> Nested(j, names) == Found(At(j, Fields(names)).value)
  {
    if names != [] {
      assert Fields(names)[1..] == Fields(names[1..]);
      if j.Obj? && names[0] in j.fields {
        NestedIsAt(j.fields[names[0]], names[1..]);
      }
    }
  }

  lemma {:induction false} SetNestedIsPut(j: Json, v: Json, names: seq<string>)
    requires names != []
    ensures SetNested(j, v, names).Some? ==>
            CanPut(j, Fields(names)) && SetNested(j, v, names).value == Put(j, Fields(names), v)
    ensures j.Obj? && |names| == 1 ==> SetNested(j, v, names).Some?
    ensures CanPut(j, Fields(names)) ==> SetNested(j, v, names).Some?
    decreases |names|
  {
    assert Fields(names)[1..] == Fields(names[1..]);
    if |names| == 1 {
      assert Fields(names[1..]) == [];
    } else if j.Obj? {
      SetNestedIsPut(Child(j.fields, names[0]), v, names[1..]);
    }
  }
}
