/** The mapping data model: `PojoCsvAttribute` (one column spec) and
    `PojoAttributeMapping` (the ordered column specs of one class). */
module Mappings {
  import opened Wrappers
  import opened Classes
  import opened Text

  /** One entry of a getter plan: a method to invoke, or a fixed literal
      written in place of a value when the class has no get/is method. */
  datatype Getter = Invoke(meth: MethodInfo) | Literal(text: string)

  /** A column spec. The two constructors are the two Java constructors:
      a nested group (one property and a child mapping, no header) and a
      leaf (a header and the properties composed into that column). The
      getter `plan` is the only mutable slot; it is `None` until prepared. */
  datatype Attribute =
    | Nested(name: string, child: Option<Mapping>, plan: Option<seq<Getter>>)
    | Leaf(header: Option<string>, names: seq<string>, plan: Option<seq<Getter>>)
  {
    /** `getCsvHeaderName()` */
    function Header(): Option<string>
    {
      if Leaf? then header else None
    }

    /** `getAttributeName()` */
    function Names(): seq<string>
    {
      if Leaf? then names else [name]
    }

    /** `getAttributeMapping()` */
    function Child(): Option<Mapping>
    {
      if Nested? then child else None
    }
  }

  /** The column specs of one class, in output order. */
  datatype Mapping = Mapping(attrs: seq<Attribute>)

  /** `new PojoCsvAttribute(attributeName, attributeMapping)` */
  function NestedAttribute(name: string, child: Option<Mapping>): (a: Attribute)
    ensures a.Names() == [name] && a.Header() == None && a.Child() == child
    ensures a.plan == None
  {
    Nested(name, child, None)
  }

  /** `new PojoCsvAttribute(csvHeaderName, attributeName...)` */
  function LeafAttribute(header: Option<string>, names: seq<string>): (a: Attribute)
    ensures a.Names() == names && a.Header() == header && a.Child() == None
    ensures a.plan == None
  {
    Leaf(header, names, None)
  }

  /** An attribute never carries both a header and a child mapping. */
  lemma HeaderOrChild(a: Attribute)
    ensures a.Header().None? || a.Child().None?
  {
  }

  /** `setGetter(plan)`: only the plan changes, and `getGetter()` then returns it. */
  function SetGetter(a: Attribute, plan: seq<Getter>): (r: Attribute)
    ensures r.plan == Some(plan)
    ensures r.Header() == a.Header() && r.Names() == a.Names() && r.Child() == a.Child()
    ensures r.Leaf? == a.Leaf?
  {
    a.(plan := Some(plan))
  }

  /** `new PojoAttributeMapping()` */
  function EmptyMapping(): (m: Mapping)
    ensures |m.attrs| == 0
  {
    Mapping([])
  }

  /** `add(attribute)`: appends at the end, leaving the earlier specs as they were. */
  function Add(m: Mapping, a: Attribute): (r: Mapping)
    ensures |r.attrs| == |m.attrs| + 1
    ensures r.attrs[..|m.attrs|] == m.attrs
    ensures r.attrs[|m.attrs|] == a
  {
    Mapping(m.attrs + [a])
  }

  /** `add(csvHeaderName, attributeName...)`: appends a leaf spec. */
  function AddLeaf(m: Mapping, header: Option<string>, names: seq<string>): (r: Mapping)
    ensures |r.attrs| == |m.attrs| + 1
    ensures r.attrs[..|m.attrs|] == m.attrs
    ensures var a := r.attrs[|m.attrs|];
            a.Header() == header && a.Names() == names && a.Child() == None && a.plan == None
  {
    Add(m, LeafAttribute(header, names))
  }

  /** `setPojoAttributes(list)`; `getPojoAttributes()` is the field `attrs`. */
  function SetAttributes(m: Mapping, attrs: seq<Attribute>): (r: Mapping)
    ensures r.attrs == attrs
  {
    m.(attrs := attrs)
  }

  /** The mapping obtained by adding `specs` one by one to `m`. */
  function AddAll(m: Mapping, specs: seq<Attribute>): Mapping
    decreases |specs|
  {
    if specs == [] then m else AddAll(Add(m, specs[0]), specs[1..])
  }

  /** Column order is insertion order: nothing sorts, drops or merges specs. */
  lemma {:induction false} AddAllKeepsOrder(m: Mapping, specs: seq<Attribute>)
    ensures AddAll(m, specs).attrs == m.attrs + specs
    decreases |specs|
  {
    if specs != [] {
      AddAllKeepsOrder(Add(m, specs[0]), specs[1..]);
      assert m.attrs + [specs[0]] + specs[1..] == m.attrs + specs;
    }
  }

  /** Java's `Arrays.toString` / `AbstractCollection.toString`: an opening
      bracket, the elements in order, a closing bracket. */
  function ListText(parts: seq<string>): (r: string)
    ensures |r| >= 2 && r[0] == '[' && r[|r| - 1] == ']'
  {
    "[" + ListItems(parts, 0) + "]"
  }

  /** The elements from `i` on as the string builder appends them: each one
      followed by `", "` while another one follows. */
  function ListItems(parts: seq<string>, i: nat): string
    decreases |parts| - i
  {
    if i >= |parts| then ""
    else parts[i] + (if i + 1 < |parts| then ", " else "") + ListItems(parts, i + 1)
  }

  /** A rendered list is its elements joined by `", "` between brackets. */
  lemma ListTextJoins(parts: seq<string>)
    ensures ListText(parts) == "[" + Join(parts, ", ") + "]"
  {
    ListItemsJoin(parts, 0);
    assert parts[0..] == parts;
  }

  lemma {:induction false} ListItemsJoin(parts: seq<string>, i: nat)
    requires i <= |parts|
    ensures ListItems(parts, i) == Join(parts[i..], ", ")
    decreases |parts| - i
  {
    if i < |parts| {
      ListItemsJoin(parts, i + 1);
      var t := parts[i..];
      assert t[0] == parts[i] && t[1..] == parts[i + 1..];
      if i + 1 < |parts| {
        assert Join(t, ", ") == t[0] + ", " + Join(t[1..], ", ");
      } else {
        assert |t| == 1 && ListItems(parts, i + 1) == "";
      }
    }
  }

  /** `PojoAttributeMapping.toString()`: the list of its specs' renderings in braces. */
  function MappingText(m: Mapping): (r: string)
    ensures |r| >= 4 && r[0] == '{' && r[1] == '[' && r[|r| - 2] == ']' && r[|r| - 1] == '}'
    decreases m, 1, 0
  {
    var t := ListText(AttrsText(m, 0));
    "{" + t + "}"
  }

  /** The renderings of the specs of `m` from index `i` on. */
  function AttrsText(m: Mapping, i: nat): (r: seq<string>)
    ensures |r| == |m.attrs| - i || (i > |m.attrs| && r == [])
    ensures forall k :: 0 <= k < |r| ==> i + k < |m.attrs| && r[k] == AttributeText(m.attrs[i + k])
    decreases m, 0, |m.attrs| - i
  {
    if i >= |m.attrs| then []
    else
      var rest := AttrsText(m, i + 1);
      assert forall k :: 1 <= k < 1 + |rest| ==> ([AttributeText(m.attrs[i])] + rest)[k] == rest[k - 1];
      [AttributeText(m.attrs[i])] + rest
  }

  /** `PojoCsvAttribute.toString()`: in braces, the property names as a list,
      a colon, the header (empty when null), then the child mapping (empty
      when null). */
  function AttributeText(a: Attribute): (r: string)
    ensures |r| >= 5 && r[0] == '{' && r[|r| - 1] == '}'
    decreases a, 2, 0
  {
    "{" + ListText(a.Names()) + ":"
      + (match a.Header() case Some(h) => h case None => "")
      + (match a.Child() case Some(c) => MappingText(c) case None => "")
      + "}"
  }

  /** A mapping prints as the renderings of its specs, in order, joined by
      `", "` inside `{[` and `]}`. */
  lemma MappingTextJoins(m: Mapping)
    ensures MappingText(m) == "{[" + Join(AttrsText(m, 0), ", ") + "]}"
    ensures |AttrsText(m, 0)| == |m.attrs|
    ensures forall k :: 0 <= k < |m.attrs| ==> AttrsText(m, 0)[k] == AttributeText(m.attrs[k])
  {
    var ts := AttrsText(m, 0);
    var j := Join(ts, ", ");
    assert MappingText(m) == "{" + ListText(ts) + "}";
    ListTextJoins(ts);
    Regroup(j, "", "");
  }

  /** A spec prints its names joined by `", "` in brackets, a colon, then its
      header or its child mapping, whichever it has. */
  lemma AttributeTextParts(a: Attribute)
    ensures AttributeText(a) == "{[" + Join(a.Names(), ", ") + "]:"
                 + (if a.Header().Some? then a.Header().value else "")
                 + (if a.Child().Some? then MappingText(a.Child().value) else "")
                 + "}"
  {
    var j := Join(a.Names(), ", ");
    var h := if a.Header().Some? then a.Header().value else "";
    var c := if a.Child().Some? then MappingText(a.Child().value) else "";
    assert AttributeText(a) == "{" + ListText(a.Names()) + ":" + h + c + "}";
    ListTextJoins(a.Names());
    Regroup(j, h, c);
  }

  /** The brackets of a list rendering next to the braces around it. */
  lemma Regroup(j: string, h: string, c: string)
    ensures "{" + ("[" + j + "]") + ":" + h + c + "}" == "{[" + j + "]:" + h + c + "}"
    ensures "{" + ("[" + j + "]") + "}" == "{[" + j + "]}"
  {
  }

  /** A leaf over two properties and an empty mapping, rendered. */
  lemma RenderedExamples()
    ensures AttributeText(LeafAttribute(Some("Name"), ["first", "last"])) == "{[first, last]:Name}"
    ensures MappingText(EmptyMapping()) == "{[]}"
  {
    AttributeTextParts(LeafAttribute(Some("Name"), ["first", "last"]));
    assert Join(["first", "last"], ", ") == "first" + ", " + Join(["last"], ", ");
    MappingTextJoins(EmptyMapping());
  }

  /** The rendering is not injective: a nested spec with a null child prints
      exactly like a leaf with an empty header over the same property. */
  lemma NullChildPrintsLikeEmptyHeader(name: string)
    ensures AttributeText(NestedAttribute(name, None)) == AttributeText(LeafAttribute(Some(""), [name]))
  {
  }
}
