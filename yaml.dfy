/**
 * `convertToYAML`: the hand-written YAML emitter the manifest builders use.
 * An object's entries become `key: value` lines indented two spaces per
 * level; `undefined` and `null` entries are skipped; an array becomes one
 * `- item` line per element at the key's own indentation, an object element
 * being emitted one level deeper with its first line's indentation cut off
 * so that it continues the `- ` marker.
 */
module Yaml {
  import opened Js
  import opened JsonValues

  /** `'  '.repeat(n)` */
  function Indent(n: nat): (r: string)
    ensures |r| == 2 * n
    ensures forall i :: 0 <= i < |r| ==> r[i] == ' '
  {
    if n == 0 then "" else Indent(n - 1) + "  "
  }

  /** `s.substring(k)` for a non-negative start: the characters from `k` on, or nothing past the end. */
  function Substring(s: string, k: nat): (r: string)
    ensures k <= |s| ==> r == s[k..]
    ensures k > |s| ==> r == ""
  {
    if k <= |s| then s[k..] else ""
  }

  /** `typeof v === 'object'`, which holds for arrays, objects and `null`. */
  predicate IsObjectLike(v: Json) { v.Obj? || v.Arr? || v.Null? }

  /**
   * A value the emitter can walk: no array holds `null`, since
   * `Object.entries(null)` throws.
   */
  predicate Renderable(v: Json) {
    match v
    case Arr(xs) => forall i :: 0 <= i < |xs| ==> !xs[i].Null? && Renderable(xs[i])
    case Obj(fs) => forall i :: 0 <= i < |fs| ==> Renderable(fs[i].value)
    case _ => true
  }

  /** How many entries `Object.entries` lists for an object or an array. */
  function EntryCount(v: Json): nat {
    match v
    case Obj(fs) => |fs|
    case Arr(xs) => |xs|
    case _ => 0
  }

  /** `convertToYAML(v, n)`, for an object or an array: nothing at all for an empty one. */
  function Render(v: Json, n: nat): (r: string)
    requires v.Obj? || v.Arr?
    requires Renderable(v)
    ensures EntryCount(v) == 0 ==> r == ""
    decreases v, 2
  {
    Entries(v, EntryCount(v), n)
  }

  /**
   * The text of the first `k` entries of `v`: an object's entries in their
   * order, an array's under the keys `"0"`, `"1"`, ...
   */
  function Entries(v: Json, k: nat, n: nat): (r: string)
    requires v.Obj? || v.Arr?
    requires Renderable(v) && k <= EntryCount(v)
    ensures k == 0 ==> r == ""
    decreases v, 1, k
  {
    if k == 0 then ""
    else if v.Obj? then Entries(v, k - 1, n) + Entry(v.fields[k - 1].key, v.fields[k - 1].value, n)
    else Entries(v, k - 1, n) + Entry(NatToString(k - 1), v.items[k - 1], n)
  }

  /** One entry: nothing for `undefined` or `null`, otherwise `key:` and the value's text. */
  function Entry(key: string, value: Json, n: nat): (r: string)
    requires Renderable(value)
    ensures r == "" <==> IsNullish(value)
    decreases value, 4
  {
    if IsNullish(value) then "" else Indent(n) + key + ":" + Body(value, n)
  }

  /** What follows `key:` for a present value; never nothing, so a present entry always ends its `key:`. */
  function Body(value: Json, n: nat): (r: string)
    requires !IsNullish(value) && Renderable(value)
    ensures r != ""
    decreases value, 3
  {
    match value
    case Arr(xs) => if xs == [] then " []\n" else "\n" + Items(xs, n)
    case Obj(_) => "\n" + Render(value, n + 1)
    case Str(s) => " " + s + "\n"
  }

  /** The `- item` lines of an array's elements. */
  function Items(xs: seq<Json>, n: nat): string
    requires forall i :: 0 <= i < |xs| ==> !xs[i].Null? && Renderable(xs[i])
    decreases xs, 1
  {
    if xs == [] then "" else Items(xs[..|xs| - 1], n) + Item(xs[|xs| - 1], n)
  }

  /**
   * One element: an object or array one level deeper with its first
   * indentation cut, anything else as text. Unlike an entry, an element is
   * never skipped: it always leaves at least its `- ` marker.
   */
  function Item(x: Json, n: nat): (r: string)
    requires !x.Null? && Renderable(x)
    ensures r != ""
    decreases x, 3
  {
    if IsObjectLike(x) then Indent(n) + "- " + Substring(Render(x, n + 1), 2 * n + 2)
    else Indent(n) + "- " + Scalar(x) + "\n"
  }

  /** `${item}` of a value that is not object-like. */
  function Scalar(x: Json): string {
    match x
    case Str(s) => s
    case _ => "undefined"
  }

  // ---- the emitter ----

  /** `convertToYAML(obj, indent)`, built by appending to a string as the source does. */
  method ConvertToYaml(obj: Json, indent: nat) returns (yaml: string)
    requires obj.Obj? || obj.Arr?
    requires Renderable(obj)
    ensures yaml == Render(obj, indent)
    decreases obj, 2
  {
    yaml := "";
    var count := EntryCount(obj);
    var i := 0;
    while i < count
      invariant i <= count
      invariant yaml == Entries(obj, i, indent)
    {
      if obj.Obj? {
        yaml := AppendEntry(yaml, obj.fields[i].key, obj.fields[i].value, indent);
      } else {
        yaml := AppendEntry(yaml, NatToString(i), obj.items[i], indent);
      }
      i := i + 1;
    }
  }

  /** One pass of the loop over `Object.entries(obj)`: the `continue` on a nullish value, or `key:` and the value. */
  method AppendEntry(yaml: string, key: string, value: Json, indent: nat) returns (out: string)
    requires Renderable(value)
    ensures out == yaml + Entry(key, value, indent)
    decreases value, 4
  {
    if IsNullish(value) {
      return yaml;
    }
    var indentStr := Indent(indent);
    out := yaml + indentStr + key + ":";
    ghost var head := out;
    if value.Arr? {
      if |value.items| == 0 {
        out := out + " []\n";
      } else {
        out := out + "\n";
        out := AppendItems(out, value.items, indent);
        Assoc(head, "\n", Items(value.items, indent));
      }
    } else if value.Obj? {
      var inner := ConvertToYaml(value, indent + 1);
      out := out + "\n" + inner;
      Assoc(head, "\n", inner);
    } else {
      out := out + " " + value.s + "\n";
      Assoc(head, " " + value.s, "\n");
      Assoc(head, " ", value.s);
    }
    Assoc(yaml, indentStr, key);
    Assoc(yaml, indentStr + key, ":");
    Assoc(yaml, indentStr + key + ":", Body(value, indent));
  }

  /** `value.forEach(...)`: one `- ` line, or block, per element. */
  method AppendItems(yaml: string, items: seq<Json>, indent: nat) returns (out: string)
    requires forall i :: 0 <= i < |items| ==> !items[i].Null? && Renderable(items[i])
    ensures out == yaml + Items(items, indent)
    decreases items, 1
  {
    out := yaml;
    var j := 0;
    while j < |items|
      invariant j <= |items|
      invariant out == yaml + Items(items[..j], indent)
    {
      assert items[..j + 1][..j] == items[..j];
      out := AppendItem(out, items[j], indent);
      Assoc(yaml, Items(items[..j], indent), Item(items[j], indent));
      j := j + 1;
    }
    assert items[..j] == items;
  }

  /** The body of the `forEach` callback. */
  method AppendItem(yaml: string, item: Json, indent: nat) returns (out: string)
    requires !item.Null? && Renderable(item)
    ensures out == yaml + Item(item, indent)
    decreases item, 3
  {
    var indentStr := Indent(indent);
    if IsObjectLike(item) {
      out := yaml + indentStr + "- ";
      var itemYaml := ConvertToYaml(item, indent + 1);
      out := out + Substring(itemYaml, |indentStr| + 2);
      Assoc(yaml, indentStr + "- ", Substring(itemYaml, |indentStr| + 2));
      Assoc(yaml, indentStr, "- ");
    } else {
      out := yaml + indentStr + "- " + Scalar(item) + "\n";
      Assoc(yaml, indentStr, "- " + Scalar(item));
      Assoc(yaml, indentStr + ("- " + Scalar(item)), "\n");
    }
  }

  // ---- what the emitted text is made of ----

  /** The entries of an object are emitted one after the other. */
  lemma RenderableConcat(fs: seq<Field>, gs: seq<Field>)
    requires Renderable(Obj(fs)) && Renderable(Obj(gs))
    ensures Renderable(Obj(fs + gs))
  {
    forall i | 0 <= i < |fs + gs| ensures Renderable((fs + gs)[i].value) {
      if i < |fs| {
        assert (fs + gs)[i] == fs[i];
      } else {
        assert (fs + gs)[i] == gs[i - |fs|];
      }
    }
  }

  lemma {:induction false} EntriesOfPrefix(fs: seq<Field>, gs: seq<Field>, k: nat, n: nat)
    requires Renderable(Obj(fs)) && Renderable(Obj(fs + gs)) && k <= |fs|
    ensures Entries(Obj(fs + gs), k, n) == Entries(Obj(fs), k, n)
  {
    if k > 0 {
      EntriesOfPrefix(fs, gs, k - 1, n);
      assert (fs + gs)[k - 1] == fs[k - 1];
    }
  }

  lemma {:induction false} EntriesAppend(fs: seq<Field>, gs: seq<Field>, k: nat, n: nat)
    requires Renderable(Obj(fs)) && Renderable(Obj(gs)) && Renderable(Obj(fs + gs)) && k <= |gs|
    ensures Entries(Obj(fs + gs), |fs| + k, n) == Render(Obj(fs), n) + Entries(Obj(gs), k, n)
  {
    if k == 0 {
      EntriesOfPrefix(fs, gs, |fs|, n);
    } else {
      EntriesAppend(fs, gs, k - 1, n);
      assert (fs + gs)[|fs| + k - 1] == gs[k - 1];
      Assoc(Render(Obj(fs), n), Entries(Obj(gs), k - 1, n), Entry(gs[k - 1].key, gs[k - 1].value, n));
    }
  }

  /** The text of an object is the text of its first entries followed by that of the rest. */
  lemma ObjectAppend(fs: seq<Field>, gs: seq<Field>, n: nat)
    requires Renderable(Obj(fs)) && Renderable(Obj(gs))
    ensures Renderable(Obj(fs + gs))
    ensures Render(Obj(fs + gs), n) == Render(Obj(fs), n) + Render(Obj(gs), n)
  {
    RenderableConcat(fs, gs);
    EntriesAppend(fs, gs, |gs|, n);
  }

  /** An object with one entry is that entry's text. */
  lemma SingleEntry(key: string, v: Json, n: nat)
    requires Renderable(v)
    ensures Renderable(Obj([Field(key, v)]))
    ensures Render(Obj([Field(key, v)]), n) == Entry(key, v, n)
  {
    assert Entries(Obj([Field(key, v)]), 0, n) == "";
  }

  /** An `undefined` or `null` entry leaves no trace in the text. */
  lemma NullishEntrySkipped(fs: seq<Field>, key: string, v: Json, gs: seq<Field>, n: nat)
    requires IsNullish(v) && Renderable(Obj(fs)) && Renderable(Obj(gs))
    ensures Renderable(Obj(fs + [Field(key, v)] + gs))
    ensures Render(Obj(fs + [Field(key, v)] + gs), n) == Render(Obj(fs + gs), n)
  {
    SingleEntry(key, v, n);
    ObjectAppend(fs, [Field(key, v)], n);
    ObjectAppend(fs + [Field(key, v)], gs, n);
    ObjectAppend(fs, gs, n);
    assert Render(Obj(fs), n) + "" == Render(Obj(fs), n);
  }

  /** The line `key: value` at level `n`. */
  function Line(n: nat, key: string, value: string): string {
    Indent(n) + key + ": " + value + "\n"
  }

  /** The line `key:` at level `n` that opens a nested block. */
  function Open(n: nat, key: string): string {
    Indent(n) + key + ":\n"
  }

  /** A string entry is one `key: value` line. */
  lemma StringEntry(key: string, s: string, n: nat)
    ensures Entry(key, Str(s), n) == Line(n, key, s)
  {
    assert Indent(n) + key + ":" + " " == Indent(n) + key + ": ";
    Assoc(Indent(n) + key + ":", " " + s, "\n");
    Assoc(Indent(n) + key + ":", " ", s);
  }

  /** An empty array is written inline as `[]`. */
  lemma EmptyArrayEntry(key: string, n: nat)
    ensures Entry(key, Arr([]), n) == Indent(n) + key + ": []\n"
  {
    assert Indent(n) + key + ":" + " []\n" == Indent(n) + key + ": []\n";
  }

  /** An object entry is a `key:` line followed by the object one level deeper. */
  lemma ObjectEntry(key: string, fs: seq<Field>, n: nat)
    requires Renderable(Obj(fs))
    ensures Entry(key, Obj(fs), n) == Open(n, key) + Render(Obj(fs), n + 1)
  {
    Assoc(Indent(n) + key + ":", "\n", Render(Obj(fs), n + 1));
    assert Indent(n) + key + ":" + "\n" == Indent(n) + key + ":\n";
  }

  /** A non-empty array entry is a `key:` line followed by one `- ` item per element, at the same indentation. */
  lemma ArrayEntry(key: string, xs: seq<Json>, n: nat)
    requires xs != [] && forall i :: 0 <= i < |xs| ==> !xs[i].Null? && Renderable(xs[i])
    ensures Entry(key, Arr(xs), n) == Open(n, key) + Items(xs, n)
  {
    Assoc(Indent(n) + key + ":", "\n", Items(xs, n));
    assert Indent(n) + key + ":" + "\n" == Indent(n) + key + ":\n";
  }

  /** An object of two, three or four entries is their texts in order. */
  lemma TwoEntries(a: Field, b: Field, n: nat)
    requires Renderable(a.value) && Renderable(b.value)
    ensures Renderable(Obj([a, b]))
    ensures Render(Obj([a, b]), n) == Entry(a.key, a.value, n) + Entry(b.key, b.value, n)
  {
    var v := Obj([a, b]);
    assert Entries(v, 0, n) == "";
    assert Entries(v, 1, n) == Entry(a.key, a.value, n);
  }

  lemma ThreeEntries(a: Field, b: Field, c: Field, n: nat)
    requires Renderable(a.value) && Renderable(b.value) && Renderable(c.value)
    ensures Renderable(Obj([a, b, c]))
    ensures Render(Obj([a, b, c]), n) == Entry(a.key, a.value, n) + Entry(b.key, b.value, n) + Entry(c.key, c.value, n)
  {
    var v := Obj([a, b, c]);
    assert Entries(v, 0, n) == "";
    assert Entries(v, 1, n) == Entry(a.key, a.value, n);
    assert Entries(v, 2, n) == Entry(a.key, a.value, n) + Entry(b.key, b.value, n);
  }

  lemma FourEntries(a: Field, b: Field, c: Field, d: Field, n: nat)
    requires Renderable(a.value) && Renderable(b.value) && Renderable(c.value) && Renderable(d.value)
    ensures Renderable(Obj([a, b, c, d]))
    ensures Render(Obj([a, b, c, d]), n)
         == Entry(a.key, a.value, n) + Entry(b.key, b.value, n) + Entry(c.key, c.value, n) + Entry(d.key, d.value, n)
  {
    var v := Obj([a, b, c, d]);
    assert Entries(v, 0, n) == "";
    assert Entries(v, 1, n) == Entry(a.key, a.value, n);
    assert Entries(v, 2, n) == Entry(a.key, a.value, n) + Entry(b.key, b.value, n);
    assert Entries(v, 3, n) == Entry(a.key, a.value, n) + Entry(b.key, b.value, n) + Entry(c.key, c.value, n);
  }

  /** An entry holding an object of one, two or three entries opens a block of their texts one level deeper. */
  lemma NestedOne(key: string, a: Field, n: nat)
    requires Renderable(a.value)
    ensures Renderable(Obj([a]))
    ensures Entry(key, Obj([a]), n) == Open(n, key) + Entry(a.key, a.value, n + 1)
  {
    SingleEntry(a.key, a.value, n + 1);
    ObjectEntry(key, [a], n);
  }

  lemma NestedTwo(key: string, a: Field, b: Field, n: nat)
    requires Renderable(a.value) && Renderable(b.value)
    ensures Renderable(Obj([a, b]))
    ensures Entry(key, Obj([a, b]), n) == Open(n, key) + Entry(a.key, a.value, n + 1) + Entry(b.key, b.value, n + 1)
  {
    TwoEntries(a, b, n + 1);
    ObjectEntry(key, [a, b], n);
    Assoc(Open(n, key), Entry(a.key, a.value, n + 1), Entry(b.key, b.value, n + 1));
  }

  lemma NestedThree(key: string, a: Field, b: Field, c: Field, n: nat)
    requires Renderable(a.value) && Renderable(b.value) && Renderable(c.value)
    ensures Renderable(Obj([a, b, c]))
    ensures Entry(key, Obj([a, b, c]), n)
         == Open(n, key) + Entry(a.key, a.value, n + 1) + Entry(b.key, b.value, n + 1) + Entry(c.key, c.value, n + 1)
  {
    var ea, eb, ec := Entry(a.key, a.value, n + 1), Entry(b.key, b.value, n + 1), Entry(c.key, c.value, n + 1);
    ThreeEntries(a, b, c, n + 1);
    ObjectEntry(key, [a, b, c], n);
    Assoc(Open(n, key), ea + eb, ec);
    Assoc(Open(n, key), ea, eb);
  }

  lemma {:induction false} ItemsAppend(xs: seq<Json>, ys: seq<Json>, n: nat)
    requires forall i :: 0 <= i < |xs| ==> !xs[i].Null? && Renderable(xs[i])
    requires forall i :: 0 <= i < |ys| ==> !ys[i].Null? && Renderable(ys[i])
    ensures forall i :: 0 <= i < |xs + ys| ==> !(xs + ys)[i].Null? && Renderable((xs + ys)[i])
    ensures Items(xs + ys, n) == Items(xs, n) + Items(ys, n)
    decreases |ys|
  {
    if ys == [] {
      assert xs + ys == xs;
    } else {
      var ys' := ys[..|ys| - 1];
      ItemsAppend(xs, ys', n);
      assert (xs + ys)[..|xs + ys| - 1] == xs + ys';
      assert (xs + ys)[|xs + ys| - 1] == ys[|ys| - 1];
      Assoc(Items(xs, n), Items(ys', n), Item(ys[|ys| - 1], n));
    }
  }

  /** A string element is one `- value` line. */
  lemma StringItem(s: string, n: nat)
    ensures Items([Str(s)], n) == Indent(n) + "- " + s + "\n"
  {
    assert [Str(s)][..0] == [];
  }

  /** A present entry emitted at level `n` starts with the indentation of that level. */
  lemma EntryIndented(key: string, value: Json, n: nat)
    requires Renderable(value)
    ensures Entry(key, value, n) == "" || (|Entry(key, value, n)| >= 2 * n && Entry(key, value, n)[..2 * n] == Indent(n))
  {
    if !IsNullish(value) {
      assert Entry(key, value, n) == Indent(n) + (key + ":" + Body(value, n));
    }
  }

  /** A non-empty object emitted at level `n` starts with the indentation of that level. */
  lemma {:induction false} EntriesIndented(v: Json, k: nat, n: nat)
    requires v.Obj? || v.Arr?
    requires Renderable(v) && k <= EntryCount(v)
    ensures Entries(v, k, n) == "" || (|Entries(v, k, n)| >= 2 * n && Entries(v, k, n)[..2 * n] == Indent(n))
  {
    if k > 0 {
      EntriesIndented(v, k - 1, n);
      var e := Entries(v, k - 1, n);
      var key := if v.Obj? then v.fields[k - 1].key else NatToString(k - 1);
      var value := if v.Obj? then v.fields[k - 1].value else v.items[k - 1];
      var t := Entry(key, value, n);
      assert Entries(v, k, n) == e + t;
      if e != "" {
        assert (e + t)[..2 * n] == e[..2 * n];
      } else {
        assert e + t == t;
        EntryIndented(key, value, n);
      }
    }
  }

  /**
   * Cutting `2n + 2` characters from an element emitted at level `n + 1`
   * removes exactly its first line's indentation, so the element continues
   * the `- ` marker.
   */
  lemma ItemCutIsIndent(x: Json, n: nat)
    requires (x.Obj? || x.Arr?) && Renderable(x)
    ensures Render(x, n + 1) == "" || Indent(n + 1) + Substring(Render(x, n + 1), 2 * n + 2) == Render(x, n + 1)
    ensures Item(x, n) == Indent(n) + "- " + Substring(Render(x, n + 1), 2 * n + 2)
  {
    var r := Render(x, n + 1);
    EntriesIndented(x, EntryCount(x), n + 1);
    if r != "" {
      PrefixSplit(r, Indent(n + 1), 2 * n + 2);
    }
  }

  lemma PrefixSplit<T>(r: seq<T>, p: seq<T>, k: nat)
    requires k <= |r| && r[..k] == p
    ensures p + r[k..] == r
  {
    assert r == r[..k] + r[k..];
  }

  /**
   * An element whose entries are all `undefined` or `null` leaves a bare `- `
   * with no line break, so the next line is glued onto it.
   */
  lemma EmptyObjectItem(n: nat)
    ensures Items([Obj([])], n) == Indent(n) + "- "
  {
    assert [Obj([])][..0] == [];
    assert Render(Obj([]), n + 1) == "";
  }
}
