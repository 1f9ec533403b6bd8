/** Response documents, the paths into them, and replacing one leaf. */
module JsonTree {
  import opened Prelude

  /**
   * `Unencodable` is a leaf the canonical encoding rejects: a number that is not finite,
   * or a string that UTF-8 cannot carry.
   */
  datatype Json =
    | Null
    | Number(n: int)
    | Text(text: string)
    | Unencodable
    | Array(items: seq<Json>)
    | Object(fields: map<string, Json>)

  predicate Encodable(j: Json) {
    match j
    case Unencodable => false
    case Array(items) => forall i :: 0 <= i < |items| ==> Encodable(items[i])
    case Object(fields) => forall k :: k in fields ==> Encodable(fields[k])
    case _ => true
  }

  type Path = seq<string>

  function At(j: Json, path: Path): Option<Json> {
    if path == [] then
      Some(j)
    else if j.Object? && path[0] in j.fields then
      At(j.fields[path[0]], path[1..])
    else
      None
  }

  /** Writes along an existing path. */
  function Put(j: Json, path: Path, v: Json): (r: Json)
    requires At(j, path).Some?
  {
    if path == [] then
      v
    else
      Object(j.fields[path[0] := Put(j.fields[path[0]], path[1..], v)])
  }

  lemma {:induction false} PutThenAt(j: Json, path: Path, v: Json)
    requires At(j, path).Some?
    ensures At(Put(j, path, v), path) == Some(v)
  {
    if path != [] {
      PutThenAt(j.fields[path[0]], path[1..], v);
    }
  }

  /** Every path that neither passes through the written one nor lies below it reads as before. */
  lemma {:induction false} PutElsewhere(j: Json, path: Path, v: Json, other: Path)
    requires At(j, path).Some?
    requires !(path <= other) && !(other <= path)
    ensures At(Put(j, path, v), other) == At(j, other)
    decreases |path|
  {
    if path[0] == other[0] {
      assert path == [path[0]] + path[1..] && other == [path[0]] + other[1..];
      PutElsewhere(j.fields[path[0]], path[1..], v, other[1..]);
    }
  }

  /** Two objects with the same keys. */
  predicate SameKeys(a: Option<Json>, b: Option<Json>) {
    && a.Some? && a.value.Object?
    && b.Some? && b.value.Object?
    && b.value.fields.Keys == a.value.fields.Keys
  }

  /** Objects on the way keep their keys. */
  lemma {:induction false} PutKeepsKeys(j: Json, path: Path, v: Json, above: Path)
    requires At(j, path).Some? && above < path
    ensures SameKeys(At(j, above), At(Put(j, path, v), above))
    decreases |path|
  {
    if above != [] {
      PutKeepsKeys(j.fields[path[0]], path[1..], v, above[1..]);
    }
  }

  /** Writing the old leaf back restores the document, so nothing else was changed. */
  lemma {:induction false} PutBack(j: Json, path: Path, v: Json)
    requires At(j, path).Some?
    ensures At(Put(j, path, v), path).Some?
    ensures Put(Put(j, path, v), path, At(j, path).value) == j
  {
    PutThenAt(j, path, v);
    if path != [] {
      PutBack(j.fields[path[0]], path[1..], v);
      assert j.fields[path[0] := j.fields[path[0]]] == j.fields;
    }
  }
}
