/** The JavaScript values that the manifest builders assemble and `convertToYAML` walks. */
module JsonValues {

  /**
   * `undefined`, `null`, a string, an array or a plain object whose entries
   * keep their insertion order. Numbers and booleans never occur in the
   * manifests this core builds.
   */
  datatype Json = Undefined | Null | Str(s: string) | Arr(items: seq<Json>) | Obj(fields: seq<Field>)

  datatype Field = Field(key: string, value: Json)

  /** `value === undefined || value === null` */
  predicate IsNullish(v: Json) { v.Undefined? || v.Null? }

  /** The entry names of an object, in order. */
  function Keys(fields: seq<Field>): (r: seq<string>)
    ensures |r| == |fields| && forall i :: 0 <= i < |fields| ==> r[i] == fields[i].key
  {
    seq(|fields|, i requires 0 <= i < |fields| => fields[i].key)
  }

  /** `obj[key]` on a plain object: the first entry with that name, else `undefined`. */
  function Get(v: Json, key: string): Json {
    if v.Obj? then GetField(v.fields, key) else Undefined
  }

  function GetField(fields: seq<Field>, key: string): Json
    decreases |fields|
  {
    if fields == [] then Undefined
    else if fields[0].key == key then fields[0].value
    else GetField(fields[1..], key)
  }

  /** `obj[k1][k2]...` */
  function Path(v: Json, keys: seq<string>): Json
    decreases |keys|
  {
    if keys == [] then v else Path(Get(v, keys[0]), keys[1..])
  }

  /** The entry found under `key` is its first occurrence. */
  lemma {:induction false} GetFirst(fs: seq<Field>, key: string, i: nat)
    requires i < |fs| && fs[i].key == key && forall j :: 0 <= j < i ==> fs[j].key != key
    ensures GetField(fs, key) == fs[i].value
    decreases i
  {
    if i > 0 {
      GetFirst(fs[1..], key, i - 1);
    }
  }

  /** A path of one, two, three or four keys is that many lookups. */
  lemma PathOfTwo(v: Json, a: string, b: string)
    ensures Path(v, [a]) == Get(v, a)
    ensures Path(v, [a, b]) == Get(Get(v, a), b)
  {
    assert [b][1..] == [];
    assert Path(v, [a]) == Path(Get(v, a), []);
    assert [a, b][0] == a && [a, b][1..] == [b];
    assert Path(v, [a, b]) == Path(Get(v, a), [b]);
    assert Path(Get(v, a), [b]) == Path(Get(Get(v, a), b), []);
  }

  lemma PathOfFour(v: Json, a: string, b: string, c: string, d: string)
    ensures Path(v, [a, b, c]) == Get(Get(Get(v, a), b), c)
    ensures Path(v, [a, b, c, d]) == Get(Get(Get(Get(v, a), b), c), d)
  {
    assert [a, b, c][1..] == [b, c];
    assert [a, b, c, d][1..] == [b, c, d];
    PathOfTwo(Get(v, a), b, c);
    var w := Get(Get(v, a), b);
    assert [b, c, d][1..] == [c, d];
    PathOfTwo(w, c, d);
  }
}
