/** Free-form values as tasks exchange them, and reads by dotted path. */
module Json {
  datatype Value =
    | Null
    | Bool(b: bool)
    | Num(n: real)
    | Str(s: string)
    | Arr(items: seq<Value>)
    | Obj(fields: Dict)

  type Dict = map<string, Value>

  /** What counts as true. */
  predicate Truthy(v: Value) {
    match v
    case Null => false
    case Bool(b) => b
    case Num(n) => n != 0.0
    case Str(s) => s != ""
    case Arr(items) => items != []
    case Obj(fields) => fields != map[]
  }

  /** Equality as Python has it: a boolean equals the number one or zero, at
      any depth. */
  predicate SameValue(a: Value, b: Value)
    decreases a
  {
    match (a, b)
    case (Bool(x), Num(n)) => n == if x then 1.0 else 0.0
    case (Num(n), Bool(x)) => n == if x then 1.0 else 0.0
    case (Arr(xs), Arr(ys)) =>
      |xs| == |ys| && forall i | 0 <= i < |xs| :: SameValue(xs[i], ys[i])
    case (Obj(m), Obj(n)) =>
      m.Keys == n.Keys && forall k | k in m.Keys :: SameValue(m[k], n[k])
    case _ => a == b
  }

  /** Six values count as false, and no others. */
  lemma FalseValues(v: Value)
    ensures !Truthy(v) <==>
      v == Null || v == Bool(false) || v == Num(0.0) || v == Str("") || v == Arr([]) || v == Obj(map[])
  {
  }

  /** Equality of values is an equivalence. */
  lemma {:induction false} SameAsItself(v: Value)
    ensures SameValue(v, v)
  {
    match v
    case Arr(items) =>
      forall i | 0 <= i < |items| {
        SameAsItself(items[i]);
      }
    case Obj(fields) =>
      forall k | k in fields {
        SameAsItself(fields[k]);
      }
    case _ =>
  }

  lemma {:induction false} SameBothWays(a: Value, b: Value)
    ensures SameValue(a, b) ==> SameValue(b, a)
    decreases a
  {
    match (a, b)
    case (Arr(xs), Arr(ys)) =>
      if SameValue(a, b) {
        forall i | 0 <= i < |xs|
          ensures SameValue(ys[i], xs[i])
        {
          SameBothWays(xs[i], ys[i]);
        }
      }
    case (Obj(m), Obj(n)) =>
      if SameValue(a, b) {
        forall k | k in m.Keys
          ensures SameValue(n[k], m[k])
        {
          SameBothWays(m[k], n[k]);
        }
      }
    case _ =>
  }

  lemma {:induction false} SameThroughout(a: Value, b: Value, c: Value)
    ensures SameValue(a, b) && SameValue(b, c) ==> SameValue(a, c)
    decreases a
  {
    if SameValue(a, b) && SameValue(b, c) {
      match (a, b)
      case (Arr(xs), Arr(ys)) =>
        forall i | 0 <= i < |xs|
          ensures SameValue(xs[i], c.items[i])
        {
          SameThroughout(xs[i], ys[i], c.items[i]);
        }
      case (Obj(m), Obj(n)) =>
        forall k | k in m.Keys
          ensures SameValue(m[k], c.fields[k])
        {
          SameThroughout(m[k], n[k], c.fields[k]);
        }
      case _ =>
    }
  }

  /** Text and null equal themselves only; a boolean equals itself and the number it
      stands for; lists and objects agree piece by piece. */
  lemma SameKinds(a: Value, b: Value)
    ensures a.Null? || a.Str? || b.Null? || b.Str? ==> (SameValue(a, b) <==> a == b)
    ensures a.Bool? ==> (SameValue(a, b) <==> b == a || b == Num(if a.b then 1.0 else 0.0))
    ensures a.Num? && b.Num? ==> (SameValue(a, b) <==> a == b)
    ensures a.Arr? ==>
      (SameValue(a, b) <==>
         b.Arr? && |a.items| == |b.items| && forall i | 0 <= i < |a.items| :: SameValue(a.items[i], b.items[i]))
    ensures a.Obj? ==>
      (SameValue(a, b) <==>
         && b.Obj? && a.fields.Keys == b.fields.Keys
         && forall k | k in a.fields :: SameValue(a.fields[k], b.fields[k]))
  {
  }

  /** The parts between dots; the empty path has one empty part. */
  function Split(path: string): (parts: seq<string>)
    ensures |parts| >= 1
  {
    if path == "" then [""]
    else
      var rest := Split(path[1..]);
      if path[0] == '.' then [""] + rest
      else [[path[0]] + rest[0]] + rest[1..]
  }

  /** Walks down from `v`; a missing key, a null or a non-object on the way is a miss. */
  function Walk(v: Value, parts: seq<string>): Value {
    if parts == [] then v
    else if !v.Obj? || parts[0] !in v.fields || v.fields[parts[0]].Null? then Null
    else Walk(v.fields[parts[0]], parts[1..])
  }

  function ReadPath(data: Dict, path: string): Value {
    Walk(Obj(data), Split(path))
  }

  lemma {:induction false} SplitAtDot(name: string, path: string)
    requires '.' !in name
    ensures Split(name + "." + path) == [name] + Split(path)
    ensures Split(name) == [name]
  {
    var whole := name + "." + path;
    if name == "" {
      assert whole[1..] == path;
    } else {
      SplitAtDot(name[1..], path);
      assert whole[1..] == name[1..] + "." + path;
      assert [name[0]] + name[1..] == name;
    }
  }

  /** A path without a dot is looked up as a key. */
  lemma ReadKey(data: Dict, name: string)
    requires '.' !in name
    ensures ReadPath(data, name) == if name in data then data[name] else Null
  {
    SplitAtDot(name, "");
    assert [name][1..] == [];
    assert name in data ==> Walk(data[name], []) == data[name];
  }

  /** One with a dot goes on inside the object under its first part, and misses if there
      is none. */
  lemma ReadUnder(data: Dict, name: string, path: string)
    requires '.' !in name
    ensures ReadPath(data, name + "." + path) ==
      if name in data && data[name].Obj? then ReadPath(data[name].fields, path) else Null
  {
    var rest := Split(path);
    SplitAtDot(name, path);
    hide Split;
    var parts := [name] + rest;
    assert parts[0] == name && parts[1..] == rest;
    if name in data && !data[name].Null? {
      assert Walk(Obj(data), parts) == Walk(data[name], rest);
    } else {
      assert Walk(Obj(data), parts) == Null;
    }
  }

  method ReadDotPath(data: Dict, path: string) returns (value: Value)
    ensures value == ReadPath(data, path)
  {
    var parts := Split(path);
    var current := Obj(data);
    for i := 0 to |parts|
      invariant Walk(current, parts[i..]) == ReadPath(data, path)
    {
      assert parts[i..][0] == parts[i] && parts[i..][1..] == parts[i + 1..];
      if !current.Obj? {
        return Null;
      }
      if parts[i] !in current.fields {
        return Null;
      }
      current := current.fields[parts[i]];
      if current.Null? {
        return Null;
      }
    }
    value := current;
  }
}
