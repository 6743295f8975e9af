/** Runtime objects as the serializer sees them: scalars it prints, arrays
    and iterables it walks, and other objects it reads through getters. */
module Values {
  import opened Wrappers
  import opened Classes

  /** One object. `Num` carries its class and its `toString` text; `Obj`
      carries its class, its `toString` text and what each of its getters
      returns. A getter missing from `props` throws when invoked. */
  datatype Value =
    | Null
    | Str(s: string)
    | Num(numClass: ClassId, digits: string)
    | Bool(b: bool)
    | Arr(arrClass: ClassId, elems: seq<Value>)
    | Coll(collClass: ClassId, items: seq<Value>)
    | Obj(objClass: ClassId, text: string, props: seq<Prop>)

  /** The value a getter (by method name) returns. */
  datatype Prop = Prop(getter: string, result: Value)

  /** `obj.getClass()`; `None` for null, whose `getClass()` throws. */
  function ClassOf(u: Universe, v: Value): (r: Option<ClassId>)
    ensures r.None? <==> v.Null?
  {
    match v
    case Null => None
    case Str(_) => Some(u.stringClass)
    case Num(c, _) => Some(c)
    case Bool(_) => Some(u.booleanClass)
    case Arr(c, _) => Some(c)
    case Coll(c, _) => Some(c)
    case Obj(c, _, _) => Some(c)
  }

  /** `toString()` of a string, number or boolean. */
  function ScalarText(v: Value): string
    requires v.Str? || v.Num? || v.Bool?
  {
    match v
    case Str(s) => s
    case Num(_, d) => d
    case Bool(b) => if b then "true" else "false"
  }

  /** Array elements or iterable items, in iteration order. */
  function Elements(v: Value): seq<Value>
    requires v.Arr? || v.Coll?
  {
    if v.Arr? then v.elems else v.items
  }

  /** The position of the first entry for getter `name`; `None` when
      invoking it throws. */
  function PropIndex(props: seq<Prop>, name: string): (r: Option<nat>)
    ensures r.Some? ==> r.value < |props| && props[r.value].getter == name
    ensures r.Some? ==> forall k :: 0 <= k < r.value ==> props[k].getter != name
    ensures r.None? <==> forall k :: 0 <= k < |props| ==> props[k].getter != name
  {
    if props == [] then None
    else if props[0].getter == name then Some(0)
    else match PropIndex(props[1..], name)
      case None => None
      case Some(k) => Some(k + 1)
  }

  /** The entry at `k` answers its getter when no entry before it has that name. */
  lemma {:induction false} PropIndexAt(props: seq<Prop>, k: nat)
    requires k < |props|
    requires forall j :: 0 <= j < k ==> props[j].getter != props[k].getter
    ensures PropIndex(props, props[k].getter) == Some(k)
  {
    if k > 0 {
      PropIndexAt(props[1..], k - 1);
      assert props[1..][k - 1] == props[k];
    }
  }

  /** `new IterableArray(ar)` followed by a full iteration: `Array.get(ar,
      indx++)` while `indx < length`. The writer reads an array through
      `Elements`; this loop yields exactly that sequence. */
  method IterateArray(ar: Value) returns (items: seq<Value>)
    requires ar.Arr?
    ensures |items| == |ar.elems|
    ensures forall k :: 0 <= k < |ar.elems| ==> items[k] == ar.elems[k]
    ensures items == Elements(ar)
  {
    var len := |ar.elems|;
    var indx := 0;
    items := [];
    while indx < len
      invariant 0 <= indx <= len
      invariant items == ar.elems[..indx]
    {
      items := items + [ar.elems[indx]];
      indx := indx + 1;
    }
  }
}
