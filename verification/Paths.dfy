/** Nested configuration dictionaries, and reading and writing them by path. */
module Paths {
  import opened Common

  /** A JSON value other than null; a Python value is `Value`, with None for null. A number is its
      canonical text. */
  datatype Json =
    | Bool(on: bool)
    | Number(numeral: string)
    | Text(text: string)
    | Lines(items: seq<string>)
    | Obj(fields: map<string, Option<Json>>)

  type Value = Option<Json>

  /** The parts of a dotted path. */
  type Path = seq<string>

  /** `_get_path`: None where the path is not found. */
  function GetPath(v: Value, p: Path): Option<Value>
  {
    if p == [] then Some(v)
    else
      match v
      case Some(Obj(f)) => if p[0] in f then GetPath(f[p[0]], p[1..]) else None
      case _ => None
  }

  /** `_get_path` as it walks down, part by part. */
  method WalkPath(d: Value, path: Path) returns (r: Option<Value>)
    ensures r == GetPath(d, path)
  {
    var cur := d;
    for i := 0 to |path|
      invariant GetPath(d, path) == GetPath(cur, path[i..])
    {
      match cur {
        case Some(Obj(f)) =>
          if path[i] !in f {
            return None;
          }
          cur := f[path[i]];
        case _ =>
          return None;
      }
    }
    r := Some(cur);
  }

  function Fields(v: Value): map<string, Value>
  {
    match v
    case Some(Obj(f)) => f
    case _ => map[]
  }

  /** `_set_path`, and a node that takes a PATCH of one path: missing dictionaries are created. */
  function SetPath(v: Value, p: Path, x: Value): Value
    decreases |p|
  {
    if p == [] then x
    else
      var f := Fields(v);
      Some(Obj(f[p[0] := SetPath(if p[0] in f then f[p[0]] else None, p[1..], x)]))
  }

  /** Neither path leads through the other. */
  predicate Apart(p: Path, q: Path)
  {
    !(p <= q) && !(q <= p)
  }

  lemma {:induction false} GetSet(v: Value, p: Path, x: Value)
    ensures GetPath(SetPath(v, p, x), p) == Some(x)
    decreases |p|
  {
    if p != [] {
      var f := Fields(v);
      GetSet(if p[0] in f then f[p[0]] else None, p[1..], x);
    }
  }

  lemma {:induction false} GetSetApart(v: Value, p: Path, q: Path, x: Value)
    requires Apart(p, q)
    ensures GetPath(SetPath(v, p, x), q) == GetPath(v, q)
    decreases |p|
  {
    assert p != [] && q != [];
    if p[0] == q[0] {
      assert Apart(p[1..], q[1..]) by {
        assert p == [p[0]] + p[1..] && q == [q[0]] + q[1..];
      }
      var f := Fields(v);
      GetSetApart(if p[0] in f then f[p[0]] else None, p[1..], q[1..], x);
      if p[0] !in f {
        assert q[1..] != [];
      }
    }
  }

  lemma {:induction false} SetSet(v: Value, p: Path, x: Value, y: Value)
    ensures SetPath(SetPath(v, p, x), p, y) == SetPath(v, p, y)
    decreases |p|
  {
    if p != [] {
      var f := Fields(v);
      var c := if p[0] in f then f[p[0]] else None;
      SetSet(c, p[1..], x, y);
      assert f[p[0] := SetPath(c, p[1..], x)][p[0] := SetPath(c, p[1..], y)] == f[p[0] := SetPath(c, p[1..], y)];
    }
  }

  lemma {:induction false} SetGet(v: Value, p: Path)
    requires GetPath(v, p).Some?
    ensures SetPath(v, p, GetPath(v, p).value) == v
    decreases |p|
  {
    if p != [] {
      var f := Fields(v);
      SetGet(f[p[0]], p[1..]);
      assert f[p[0] := f[p[0]]] == f;
    }
  }

  /** What the node does with the nested body of a PATCH: dictionaries are merged key by key, any
      other value replaces what was there. */
  function Merge(v: Value, patch: Value): Value
    decreases patch
  {
    match (v, patch)
    case (Some(Obj(f)), Some(Obj(g))) =>
      Some(Obj(map k | k in f.Keys + g.Keys ::
        if k !in g then f[k] else if k in f then Merge(f[k], g[k]) else g[k]))
    case _ => patch
  }

  /** The body built by `_set_path` on an empty dictionary changes exactly its one path. */
  lemma {:induction false} PatchIsSetPath(v: Value, p: Path, x: Value)
    requires p != [] && !(x.Some? && x.value.Obj?)
    requires v.Some? && v.value.Obj?
    ensures Merge(v, SetPath(Some(Obj(map[])), p, x)) == SetPath(v, p, x)
  {
    var f := v.value.fields;
    var c := if p[0] in f then f[p[0]] else None;
    var sub := SetPath(None, p[1..], x);
    assert SetPath(Some(Obj(map[])), p, x) == Some(Obj(map[p[0] := sub]));
    assert p[0] in f ==> Merge(c, sub) == SetPath(c, p[1..], x) by {
      if p[0] in f && |p| > 1 {
        if c.Some? && c.value.Obj? {
          PatchIsSetPath(c, p[1..], x);
          assert sub == SetPath(Some(Obj(map[])), p[1..], x);
        }
      }
    }
    var m := Merge(v, Some(Obj(map[p[0] := sub])));
    assert m.value.fields == f[p[0] := SetPath(c, p[1..], x)];
  }
}
