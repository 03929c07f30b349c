/** Dataset items as the grid sees them: dynamically typed JavaScript values,
    with plain objects as maps from property name to value. This module models
    the two dot-path helpers the editors and formatters share,
    `getDescendantProperty` (read along `a.b.c`) and `setDeepValue` (write
    along `a.b.c`), and JavaScript's truthiness and string conversion. */
module Records {
  import opened Text

  /** A JavaScript value. Numbers are integers here; arrays are not modelled. */
  datatype Value =
    | Undefined
    | Null
    | Bool(b: bool)
    | Num(n: int)
    | Str(s: string)
    | Obj(fields: map<string, Value>)

  type Record = map<string, Value>

  /** JavaScript truthiness: `undefined`, `null`, `false`, `0` and `''` are falsy; every object is truthy. */
  predicate Truthy(v: Value) {
    match v
    case Undefined => false
    case Null => false
    case Bool(b) => b
    case Num(n) => n != 0
    case Str(s) => s != ""
    case Obj(_) => true
  }

  /** `obj[key]` on a record: `undefined` for a missing property. */
  function Get(r: Record, key: string): Value {
    if key in r then r[key] else Undefined
  }

  /** One step of `o && o[prop]`: a falsy value is passed through unchanged. */
  function Step(v: Value, prop: string): Value {
    if !Truthy(v) then v
    else if v.Obj? then Get(v.fields, prop)
    else Undefined
  }

  /** `props.reduce((o, prop) => o && o[prop], v)`. */
  function Walk(v: Value, props: seq<string>): Value
    decreases |props|
  {
    if |props| == 0 then v else Walk(Step(v, props[0]), props[1..])
  }

  /** `getDescendantProperty(obj, path)`: the object itself when it is falsy or
      the path is empty, else the walk along `path.split('.')`. */
  function GetDescendantProperty(obj: Value, path: string): Value {
    if !Truthy(obj) || path == "" then obj else Walk(obj, Split(path, '.'))
  }

  /** `setDeepValue(obj, path, value)` on the part list of a path: every
      intermediate property that is not a plain object is replaced by `{}`;
      an empty last part writes nothing. */
  function SetPath(r: Record, path: seq<string>, value: Value): Record
    decreases |path|
  {
    if |path| > 1 then
      var key := path[0];
      var child := if key in r && r[key].Obj? then r[key].fields else map[];
      r[key := Obj(SetPath(child, path[1..], value))]
    else if |path| == 1 && path[0] != "" then
      r[path[0] := value]
    else
      r
  }

  function SetDeepValue(r: Record, path: string, value: Value): Record {
    SetPath(r, Split(path, '.'), value)
  }

  /** Reading back along the path that was just written yields the written
      value, provided the last part names a property. */
  lemma {:induction false} WalkSetPath(r: Record, path: seq<string>, value: Value)
    requires |path| >= 1 && path[|path| - 1] != ""
    ensures Walk(Obj(SetPath(r, path, value)), path) == value
    decreases |path|
  {
    if |path| > 1 {
      var key := path[0];
      var child := if key in r && r[key].Obj? then r[key].fields else map[];
      assert Step(Obj(SetPath(r, path, value)), key) == Obj(SetPath(child, path[1..], value));
      WalkSetPath(child, path[1..], value);
    } else {
      assert Step(Obj(SetPath(r, path, value)), path[0]) == value;
      assert Walk(value, path[1..]) == value;
    }
  }

  /** Writing along a path touches only the property the path starts with. */
  lemma SetPathFrame(r: Record, path: seq<string>, value: Value, other: string)
    requires |path| >= 1 && other != path[0]
    ensures other in SetPath(r, path, value) <==> other in r
    ensures other in r ==> SetPath(r, path, value)[other] == r[other]
  {
  }

  /** Writing along a path leaves every other property reachable from the
      record as it was: a key path `q` that leaves `path` at depth `i` (the
      first `i` keys shared, the next one different) reads the same value
      afterwards, provided the objects `path` passes through before depth `i`
      already existed (a missing or non-object one is replaced by `{}`). */
  lemma {:induction false} SetPathNestedFrame(r: Record, path: seq<string>, value: Value, q: seq<string>, i: nat)
    requires i < |path| && i < |q| && q[..i] == path[..i] && q[i] != path[i]
    requires forall j :: 0 < j <= i ==> Walk(Obj(r), path[..j]).Obj?
    ensures Walk(Obj(SetPath(r, path, value)), q) == Walk(Obj(r), q)
    decreases i
  {
    var key := path[0];
    if i == 0 {
      SetPathFrame(r, path, value, q[0]);
      assert Step(Obj(SetPath(r, path, value)), q[0]) == Step(Obj(r), q[0]);
    } else {
      assert q[0] == q[..i][0] == path[..i][0] == key;
      assert path[..1] == [key];
      assert Walk(Obj(r), path[..1]) == Walk(Get(r, key), []);
      var child := r[key].fields;
      forall j | 0 < j <= i - 1
        ensures Walk(Obj(child), path[1..][..j]).Obj?
      {
        assert path[..j + 1][1..] == path[1..][..j];
        assert Walk(Obj(r), path[..j + 1]) == Walk(Obj(child), path[1..][..j]);
      }
      assert q[1..][..i - 1] == path[1..][..i - 1] by {
        assert q[1..][..i - 1] == q[..i][1..];
        assert path[1..][..i - 1] == path[..i][1..];
      }
      SetPathNestedFrame(child, path[1..], value, q[1..], i - 1);
      assert Step(Obj(SetPath(r, path, value)), key) == Obj(SetPath(child, path[1..], value));
    }
  }

  /** `setDeepValue` followed by `getDescendantProperty` on the same path
      returns the value written, whenever the path does not end with a dot. */
  lemma GetAfterSetDeepValue(r: Record, path: string, value: Value)
    requires path != "" && path[|path| - 1] != '.'
    ensures GetDescendantProperty(Obj(SetDeepValue(r, path, value)), path) == value
  {
    var parts := Split(path, '.');
    LastPartNonEmpty(path);
    WalkSetPath(r, parts, value);
  }

  lemma {:induction false} LastPartNonEmpty(s: string)
    requires s != "" && s[|s| - 1] != '.'
    ensures Split(s, '.')[|Split(s, '.')| - 1] != ""
    decreases |s|
  {
    var rest := Split(s[1..], '.');
    if |s| == 1 {
      assert rest == [""];
    } else {
      assert s[1..][|s[1..]| - 1] == s[|s| - 1];
      LastPartNonEmpty(s[1..]);
      if s[0] != '.' && |rest| == 1 {
        assert Split(s, '.') == [[s[0]] + rest[0]];
      }
    }
  }

  /** What a template literal `${v}` produces: numbers their decimal text,
      objects `[object Object]`, `null` and `undefined` their names. */
  function TemplateText(v: Value): string {
    match v
    case Undefined => "undefined"
    case Null => "null"
    case Bool(b) => if b then "true" else "false"
    case Num(n) => IntToString(n)
    case Str(s) => s
    case Obj(_) => "[object Object]"
  }

  /** What an input shows after `input.value = v`: `null` becomes the empty
      string, every other value (`undefined` included) its string conversion. */
  function InputText(v: Value): string {
    if v == Null then "" else TemplateText(v)
  }
}
