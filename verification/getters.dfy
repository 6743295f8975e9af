/** `prepareGetters`: turning the property names of a mapping into getter
    plans against a concrete class. */
module Getters {
  import opened Wrappers
  import opened Classes
  import opened Text
  import opened Mappings
  import MapperConfig

  /** Line 98: arrays and collection classes keep their specs unprepared,
      since the specs are about their elements. */
  predicate SkipsPreparation(u: Universe, cls: ClassId)
  {
    ComponentType(u, cls).Some? || AssignableFrom(u, u.collectionClass, cls)
  }

  /** Lines 106-118: the getter for one property name: public `getX`, else
      public `isX`, else the capitalized name itself as a literal value. An
      empty name makes `substring(0,1)` throw. */
  function GetterFor(u: Universe, cls: ClassId, name: string): (r: Result<Getter>)
    ensures r.Err? <==> |name| == 0
    ensures r.Err? ==> r.error == IndexOutOfBounds
    ensures r.Ok? ==>
              var cap := [UpperChar(name[0])] + name[1..];
              match r.value
              case Invoke(m) =>
                && m in PublicMethods(u, cls) && m.arity == 0
                && (m.name == "get" + cap || (m.name == "is" + cap && GetMethod(u, cls, "get" + cap).None?))
              case Literal(t) =>
                && t == cap
                && GetMethod(u, cls, "get" + cap).None? && GetMethod(u, cls, "is" + cap).None?
  {
    var cap :- Capitalize(name);
    match GetMethod(u, cls, "get" + cap)
    case Some(m) => Ok(Invoke(m))
    case None =>
      match GetMethod(u, cls, "is" + cap)
      case Some(m) => Ok(Invoke(m))
      case None => Ok(Literal(cap))
  }

  /** Lines 102-105 and 120: one getter per property name, in name order. */
  function Plan(u: Universe, cls: ClassId, names: seq<string>): (r: Result<seq<Getter>>)
    ensures r.Ok? <==> forall j :: 0 <= j < |names| ==> |names[j]| > 0
    ensures r.Err? ==> r.error == IndexOutOfBounds
    ensures r.Ok? ==> |r.value| == |names|
    ensures r.Ok? ==> forall j :: 0 <= j < |names| ==> GetterFor(u, cls, names[j]) == Ok(r.value[j])
  {
    if names == [] then Ok([])
    else
      var g :- GetterFor(u, cls, names[0]);
      var rest :- Plan(u, cls, names[1..]);
      assert forall j :: 1 <= j < |names| ==> names[j] == names[1..][j - 1];
      Ok([g] + rest)
  }

  /** Every property name in `m`, and in the child mappings below it, is non-empty. */
  predicate WellNamed(m: Mapping)
    decreases m, 1
  {
    forall i :: 0 <= i < |m.attrs| ==> AttrWellNamed(m.attrs[i])
  }

  predicate AttrWellNamed(a: Attribute)
    decreases a, 0
  {
    && (forall j :: 0 <= j < |a.Names()| ==> |a.Names()[j]| > 0)
    && (a.Nested? && a.child.Some? ==> WellNamed(a.child.value))
  }

  /** The spec `b` is `a` with a getter plan for every one of its names; the
      kind, header, names and (unless re-prepared) child are unchanged. */
  predicate PreparedFrom(a: Attribute, b: Attribute)
  {
    && b.Leaf? == a.Leaf? && b.Header() == a.Header() && b.Names() == a.Names()
    && b.Child().Some? == a.Child().Some?
    && b.plan.Some? && |b.plan.value| == |a.Names()|
  }

  /** `prepareGetters(cls, m)`: every spec of `m` gets its plan; the child
      mapping of a nested spec whose getter is a method is prepared against
      the method's return type. */
  function Prepare(u: Universe, cls: ClassId, m: Mapping): (r: Result<Mapping>)
    ensures SkipsPreparation(u, cls) ==> r == Ok(m)
    ensures r.Ok? ==> |r.value.attrs| == |m.attrs|
    ensures r.Ok? && !SkipsPreparation(u, cls) ==>
              forall i :: 0 <= i < |m.attrs| ==> PreparedFrom(m.attrs[i], r.value.attrs[i])
    ensures WellNamed(m) ==> r.Ok?
    ensures r.Err? ==> r.error == IndexOutOfBounds
    decreases m, 1, 0
  {
    if SkipsPreparation(u, cls) then Ok(m)
    else
      var attrs :- PrepareAttrs(u, cls, m, 0);
      PreparedAttrs(u, cls, m, 0);
      Ok(Mapping(attrs))
  }

  /** The prepared specs `m.attrs[i..]`, in order; the first failure aborts. */
  function PrepareAttrs(u: Universe, cls: ClassId, m: Mapping, i: nat): (r: Result<seq<Attribute>>)
    requires i <= |m.attrs|
    ensures r.Ok? ==> |r.value| == |m.attrs| - i
    ensures WellNamed(m) ==> r.Ok?
    ensures r.Err? ==> r.error == IndexOutOfBounds
    decreases m, 0, |m.attrs| - i, 0
  {
    if i == |m.attrs| then Ok([])
    else
      var a :- PrepareAttr(u, cls, m.attrs[i]);
      var rest :- PrepareAttrs(u, cls, m, i + 1);
      Ok([a] + rest)
  }

  /** Every spec of the prepared list keeps the kind, header and names of its
      original and has one getter per name. */
  lemma PreparedAttrs(u: Universe, cls: ClassId, m: Mapping, i: nat)
    requires i <= |m.attrs| && PrepareAttrs(u, cls, m, i).Ok?
    ensures forall j :: i <= j < |m.attrs| ==> PreparedFrom(m.attrs[j], PrepareAttrs(u, cls, m, i).value[j - i])
    decreases m, 0, |m.attrs| - i, 2
  {
    var ps := PrepareAttrs(u, cls, m, i).value;
    PrepareAttrsElems(u, cls, m, i);
    forall j | i <= j < |m.attrs|
      ensures PreparedFrom(m.attrs[j], ps[j - i])
    {
      assert PrepareAttr(u, cls, m.attrs[j]) == Ok(ps[j - i]);
    }
  }

  /** Spec `j` of the prepared list is spec `j` of `m` prepared on its own. */
  lemma {:induction false} PrepareAttrsElems(u: Universe, cls: ClassId, m: Mapping, i: nat)
    requires i <= |m.attrs| && PrepareAttrs(u, cls, m, i).Ok?
    ensures forall j :: i <= j < |m.attrs| ==> PrepareAttr(u, cls, m.attrs[j]) == Ok(PrepareAttrs(u, cls, m, i).value[j - i])
    decreases m, 0, |m.attrs| - i, 1
  {
    if i < |m.attrs| {
      var a := PrepareAttr(u, cls, m.attrs[i]);
      var rest := PrepareAttrs(u, cls, m, i + 1);
      assert a.Ok? && rest.Ok?;
      var all := PrepareAttrs(u, cls, m, i).value;
      assert all == [a.value] + rest.value;
      PrepareAttrsElems(u, cls, m, i + 1);
      forall j | i < j < |m.attrs|
        ensures PrepareAttr(u, cls, m.attrs[j]) == Ok(all[j - i])
      {
        assert all[j - i] == rest.value[j - (i + 1)];
      }
    }
  }

  /** One spec: its plan, then (nested specs only) its child mapping. */
  function PrepareAttr(u: Universe, cls: ClassId, a: Attribute): (r: Result<Attribute>)
    ensures r.Ok? ==> PreparedFrom(a, r.value)
    ensures r.Ok? ==> forall j :: 0 <= j < |a.Names()| ==> GetterFor(u, cls, a.Names()[j]) == Ok(r.value.plan.value[j])
    ensures AttrWellNamed(a) ==> r.Ok?
    ensures r.Err? ==> r.error == IndexOutOfBounds
    decreases a, 2, 0
  {
    match a
    case Leaf(h, names, _) =>
      assert a.Names() == names;
      var plan :- Plan(u, cls, names);
      Ok(Leaf(h, names, Some(plan)))
    case Nested(n, child, _) =>
      assert a.Names()[0] == n;
      var g :- GetterFor(u, cls, n);
      var child' :- PrepareChild(u, g, child);
      Ok(Nested(n, child', Some([g])))
  }

  /** Lines 122-125 for a nested spec. */
  function PrepareChild(u: Universe, g: Getter, child: Option<Mapping>): (r: Result<Option<Mapping>>)
    ensures r.Ok? ==> r.value.Some? == child.Some?
    ensures g.Literal? || child.None? ==> r == Ok(child)
    ensures r.Ok? && child.Some? ==> |r.value.value.attrs| == |child.value.attrs|
    ensures r.Ok? && g.Invoke? && child.Some? && !SkipsPreparation(u, g.meth.returnType) ==>
              forall i :: 0 <= i < |child.value.attrs| ==> PreparedFrom(child.value.attrs[i], r.value.value.attrs[i])
    ensures child.Some? && WellNamed(child.value) ==> r.Ok?
    ensures r.Err? ==> r.error == IndexOutOfBounds
    decreases child, 0, 0
  {
    match child
    case None => Ok(None)
    case Some(c) =>
      if g.Literal? then Ok(child)
      else
        var p :- Prepare(u, g.meth.returnType, c);
        Ok(Some(p))
  }

  /** The property name a default mapping derives from a `getX` method leads
      back to that same method. */
  lemma GetterOfDefaultProperty(u: Universe, cls: ClassId, m: MethodInfo, c: char, rest: string)
    requires m.name == "get" + [c] + rest && 'A' <= c <= 'Z'
    requires GetMethod(u, cls, m.name) == Some(m)
    ensures MapperConfig.PropertyName(m.name).Some?
    ensures GetterFor(u, cls, MapperConfig.PropertyName(m.name).value) == Ok(Invoke(m))
  {
    MapperConfig.PropertyNameOfGetter(c, rest);
    var p := [LowerChar(c)] + rest;
    UpperLower(c);
    assert [UpperChar(p[0])] + p[1..] == [c] + rest;
    assert "get" + ([c] + rest) == m.name;
  }

  /** Preparing a prepared mapping again against the same class changes
      nothing: the plan depends only on the names and the class. */
  lemma {:induction false} PrepareTwice(u: Universe, cls: ClassId, m: Mapping)
    requires Prepare(u, cls, m).Ok?
    ensures Prepare(u, cls, Prepare(u, cls, m).value) == Prepare(u, cls, m)
    decreases m, 1, 0
  {
    if !SkipsPreparation(u, cls) {
      var ps := PrepareAttrs(u, cls, m, 0).value;
      var p := Mapping(ps);
      assert Prepare(u, cls, m) == Ok(p);
      assert PrepareAttrs(u, cls, p, 0) == Ok(ps) by {
        PrepareAttrsElems(u, cls, m, 0);
        forall j | 0 <= j < |ps|
          ensures PrepareAttr(u, cls, ps[j]) == Ok(ps[j])
        {
          PreparedSpecFixed(u, cls, m, j);
        }
        PrepareEach(u, cls, p, 0, ps);
      }
    }
  }

  /** Spec `j` of a prepared mapping is a fixed point of `PrepareAttr`. */
  lemma PreparedSpecFixed(u: Universe, cls: ClassId, m: Mapping, j: nat)
    requires Prepare(u, cls, m).Ok? && !SkipsPreparation(u, cls) && j < |m.attrs|
    requires forall k :: 0 <= k < |m.attrs| ==> PrepareAttr(u, cls, m.attrs[k]) == Ok(Prepare(u, cls, m).value.attrs[k])
    ensures PrepareAttr(u, cls, Prepare(u, cls, m).value.attrs[j]) == Ok(Prepare(u, cls, m).value.attrs[j])
    decreases m, 0, 0
  {
    assert PrepareAttr(u, cls, m.attrs[j]).Ok?;
    PrepareAttrTwice(u, cls, m.attrs[j]);
  }

  /** Specs `m.attrs[i..]` that each prepare on their own to the matching
      entry of `bs` prepare together to `bs`. */
  lemma {:induction false} PrepareEach(u: Universe, cls: ClassId, m: Mapping, i: nat, bs: seq<Attribute>)
    requires i + |bs| == |m.attrs|
    requires forall k :: 0 <= k < |bs| ==> PrepareAttr(u, cls, m.attrs[i + k]) == Ok(bs[k])
    ensures PrepareAttrs(u, cls, m, i) == Ok(bs)
    decreases |bs|
  {
    if bs != [] {
      var rest := bs[1..];
      PrepareEach(u, cls, m, i + 1, rest);
      assert PrepareAttr(u, cls, m.attrs[i + 0]) == Ok(bs[0]);
      PrepareAttrsCons(u, cls, m, i, bs[0], rest);
      assert [bs[0]] + rest == bs;
    }
  }

  lemma PrepareAttrsCons(u: Universe, cls: ClassId, m: Mapping, i: nat, a: Attribute, rest: seq<Attribute>)
    requires i < |m.attrs|
    requires PrepareAttr(u, cls, m.attrs[i]) == Ok(a) && PrepareAttrs(u, cls, m, i + 1) == Ok(rest)
    ensures PrepareAttrs(u, cls, m, i) == Ok([a] + rest)
  {
  }

  lemma {:induction false} PrepareAttrTwice(u: Universe, cls: ClassId, a: Attribute)
    requires PrepareAttr(u, cls, a).Ok?
    ensures PrepareAttr(u, cls, PrepareAttr(u, cls, a).value) == PrepareAttr(u, cls, a)
    decreases a, 2, 0
  {
    match a
    case Leaf(h, names, _) =>
    case Nested(n, child, _) =>
      var g := GetterFor(u, cls, n).value;
      match child
      case None =>
      case Some(c) =>
        if g.Invoke? {
          PrepareTwice(u, g.meth.returnType, c);
        }
  }
}
