/** The JSON values that Kubernetes objects, provider overrides and last-applied records are made of.
    Numbers and booleans are opaque: the code only ever compares them. */
module JsonValues {

  datatype Option<+T> = None | Some(value: T)

  datatype Result<+T, +E> = Success(value: T) | Failure(error: E)

  datatype Json =
    | Null
    | Scalar(id: int)
    | Str(text: string)
    | Arr(elems: seq<Json>)
    | Obj(fields: Fields)

  type Fields = map<string, Json>

  type Path = seq<string>

  /** The value that a chain of object keys leads to. */
  function Lookup(v: Json, path: Path): Option<Json>
    decreases |path|
  {
    if path == [] then Some(v)
    else if v.Obj? && path[0] in v.fields then Lookup(v.fields[path[0]], path[1..])
    else None
  }

  /** No object in v, at any depth reached through objects alone, has a null member. */
  predicate NullFree(v: Json) {
    v.Obj? ==> forall k <- v.fields :: v.fields[k] != Null && NullFree(v.fields[k])
  }

  /** src laid over dst: maps are merged recursively, anything else in src replaces what dst holds. */
  function Overlay(dst: Fields, src: Fields): Fields
    decreases Obj(src)
  {
    map k | k in dst.Keys + src.Keys ::
      if k !in src then dst[k]
      else if src[k].Obj? && k in dst && dst[k].Obj? then Obj(Overlay(dst[k].fields, src[k].fields))
      else src[k]
  }
}
