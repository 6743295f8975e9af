/** `CsvMapperConfig`: the policy flags and the lazily filled class → mapping
    cache, with the resolution order of `getAttributeMapping`. */
module MapperConfig {
  import opened Wrappers
  import opened Classes
  import opened Mappings
  import opened Text

  /** The configuration surface: `_toStringClasses`, `_pojoClasses`,
      `pojoDefault` and `_writeHeaders` (the arrays may be unset, i.e. null). */
  datatype Config = Config(
    toStringClasses: Option<seq<ClassId>>,
    pojoClasses: Option<seq<ClassId>>,
    pojoDefault: bool,
    writeHeaders: bool)

  /** The cache `_pojoAttibutes`. A `None` value is a recorded "render with
      toString" decision. `order` is the iteration order of the key set; the
      source's hash order is unspecified, so the model fixes insertion order. */
  datatype Cache = Cache(entries: map<ClassId, Option<Mapping>>, order: seq<ClassId>)

  /** `order` lists exactly the keys. */
  predicate Valid(c: Cache)
  {
    && (forall k :: k in c.entries ==> k in c.order)
    && (forall k :: k in c.order ==> k in c.entries)
  }

  function EmptyCache(): (c: Cache)
    ensures Valid(c) && c.entries == map[]
  {
    Cache(map[], [])
  }

  /** Every entry of `a` is in `b` with the same value. */
  predicate Extends(a: Cache, b: Cache)
  {
    forall k :: k in a.entries ==> k in b.entries && b.entries[k] == a.entries[k]
  }

  /** `_pojoAttibutes.put(k, v)` */
  function Put(c: Cache, k: ClassId, v: Option<Mapping>): (r: Cache)
    requires Valid(c)
    ensures Valid(r)
    ensures r.entries == c.entries[k := v]
  {
    if k in c.entries then Cache(c.entries[k := v], c.order)
    else Cache(c.entries[k := v], c.order + [k])
  }

  /** `setAttributeMapping`: overwrites the entry of `cls`, keeps every other one. */
  function SetAttributeMapping(c: Cache, cls: ClassId, m: Option<Mapping>): (r: Cache)
    requires Valid(c)
    ensures Valid(r)
    ensures r.entries.Keys == c.entries.Keys + {cls}
    ensures cls in r.entries && r.entries[cls] == m
    ensures forall k :: k in c.entries && k != cls ==> r.entries[k] == c.entries[k]
  {
    Put(c, cls, m)
  }

  /** The first key, in iteration order from position `i`, that is assignable from `cls`. */
  function Lookup(u: Universe, c: Cache, cls: ClassId, i: nat): (r: Option<ClassId>)
    ensures r.Some? ==> r.value in c.order && AssignableFrom(u, r.value, cls)
    ensures r.None? ==> forall j :: i <= j < |c.order| ==> !AssignableFrom(u, c.order[j], cls)
    decreases |c.order| - i
  {
    if i >= |c.order| then None
    else if AssignableFrom(u, c.order[i], cls) then Some(c.order[i])
    else Lookup(u, c, cls, i + 1)
  }

  /** No cached class is a supertype of (or equal to) `cls`. */
  predicate NoEntryFor(u: Universe, c: Cache, cls: ClassId)
  {
    forall k :: k in c.entries ==> !AssignableFrom(u, k, cls)
  }

  lemma LookupMisses(u: Universe, c: Cache, cls: ClassId)
    requires Valid(c)
    ensures Lookup(u, c, cls, 0).None? <==> NoEntryFor(u, c, cls)
  {
    if Lookup(u, c, cls, 0).None? {
      forall k | k in c.entries
        ensures !AssignableFrom(u, k, cls)
      {
        assert k in c.order;
        var j :| 0 <= j < |c.order| && c.order[j] == k;
      }
    }
  }

  /** `cls` is one of the listed classes, by identity (`==`). */
  predicate Listed(list: Option<seq<ClassId>>, cls: ClassId)
  {
    list.Some? && cls in list.value
  }

  /** Some listed class is assignable from `cls`. */
  predicate ListedSupertype(u: Universe, list: Option<seq<ClassId>>, cls: ClassId)
  {
    list.Some? && exists k :: k in list.value && AssignableFrom(u, k, cls)
  }

  /** `needDefaultClass` after lines 56-76, as written: without POJO default
      only an identical `pojoClasses` entry admits the class; with it every
      class is admitted, since a `toStringClasses` match sets the flag to the
      `true` it already holds. */
  predicate PolicyAdmits(cfg: Config, cls: ClassId)
  {
    cfg.pojoDefault || Listed(cfg.pojoClasses, cls)
  }

  /** Line 83 as written: an array, or a class that `Collection` is assignable
      to (`aClass.isAssignableFrom(Collection.class)`, the reverse of a
      "is a collection" test). */
  predicate IsContainer(u: Universe, cls: ClassId)
  {
    ComponentType(u, cls).Some? || AssignableFrom(u, cls, u.collectionClass)
  }

  /** The class pre-resolved for a container's elements (lines 85-92): the
      component type, else the class of the first type parameter's
      reflective object, else the container class itself. */
  function ElementClass(u: Universe, cls: ClassId): ClassId
  {
    match ComponentType(u, cls)
    case Some(e) => e
    case None => if cls in u.typeVariableClass then u.typeVariableClass[cls] else cls
  }

  /** The property a method name stands for: the text after a `get` (else
      `is`) prefix with its first character lower-cased; `None` when the name
      has neither prefix or nothing after it. */
  function PropertyName(name: string): (r: Option<string>)
    ensures r.Some? ==> |r.value| > 0
    ensures r.Some? ==>
              || ("get" <= name && |r.value| == |name| - 3 && r.value[1..] == name[4..])
              || (!("get" <= name) && "is" <= name && |r.value| == |name| - 2 && r.value[1..] == name[3..])
    ensures r.None? <==> (!("get" <= name) || |name| <= 3) && (!("is" <= name) || "get" <= name || |name| <= 2)
    ensures r.Some? ==>
              var c := name[if "get" <= name then 3 else 2];
              && ('A' <= c <= 'Z' ==> r.value[0] as int == c as int + 32)
              && (!('A' <= c <= 'Z') ==> r.value[0] == c)
  {
    var prefix := if "get" <= name then 3 else if "is" <= name then 2 else 0;
    if prefix > 0 && |name| > prefix then Some([LowerChar(name[prefix])] + name[prefix + 1..])
    else None
  }

  /** A public method that becomes a default column. */
  predicate IsAccessor(m: MethodInfo)
  {
    m.isPublic && PropertyName(m.name).Some?
  }

  /** The accessors among `ms[i..]`, in enumeration order. */
  function Accessors(ms: seq<MethodInfo>, i: nat): (r: seq<MethodInfo>)
    ensures forall m :: m in r ==> IsAccessor(m)
    decreases |ms| - i
  {
    if i >= |ms| then []
    else (if IsAccessor(ms[i]) then [ms[i]] else []) + Accessors(ms, i + 1)
  }

  /** The column a default mapping builds for accessor `m`: a leaf headed by
      the property name for a primitive or `String` return type, a nested
      group over the property otherwise; no getter plan yet. */
  predicate Shaped(u: Universe, a: Attribute, m: MethodInfo)
  {
    && PropertyName(m.name).Some?
    && var p := PropertyName(m.name).value;
    && a.Names() == [p]
    && a.plan.None?
    && if IsSimple(u, m.returnType) then a == LeafAttribute(Some(p), [p]) else a.Nested?
  }

  /** `attrs` has one column per accessor of `ms[i..]`, in the same order. */
  predicate DefaultShaped(u: Universe, attrs: seq<Attribute>, ms: seq<MethodInfo>, i: nat)
  {
    var acc := Accessors(ms, i);
    |attrs| == |acc| && forall j :: 0 <= j < |attrs| ==> Shaped(u, attrs[j], acc[j])
  }

  /** `m` is what `getAttributeMapping(cls)` may answer against cache `c`: the
      entry of a supertype of `cls` held in `c`, or no mapping for a class the
      policy renders with `toString`. */
  predicate Answers(u: Universe, cfg: Config, c: Cache, cls: ClassId, m: Option<Mapping>)
  {
    || (exists k :: k in c.entries && AssignableFrom(u, k, cls) && m == c.entries[k])
    || (m.None? && !PolicyAdmits(cfg, cls))
  }

  /** An answer stays an answer once the cache has grown. */
  lemma AnswersExtend(u: Universe, cfg: Config, a: Cache, b: Cache, cls: ClassId, m: Option<Mapping>)
    requires Answers(u, cfg, a, cls, m) && Extends(a, b)
    ensures Answers(u, cfg, b, cls, m)
  {
    if m.Some? || PolicyAdmits(cfg, cls) {
      var k :| k in a.entries && AssignableFrom(u, k, cls) && m == a.entries[k];
      assert k in b.entries && b.entries[k] == m;
    }
  }

  /** Every nested column among `attrs`, built from accessor `acc[j]`, holds an
      answer for the accessor's return type. */
  predicate ChildrenAnswer(u: Universe, cfg: Config, c: Cache, attrs: seq<Attribute>, acc: seq<MethodInfo>)
  {
    forall j :: 0 <= j < |attrs| && j < |acc| && attrs[j].Nested? ==> Answers(u, cfg, c, acc[j].returnType, attrs[j].Child())
  }

  /** The answer of `getAttributeMapping`, and the cache after it. */
  datatype Resolved = Resolved(mapping: Option<Mapping>, cache: Cache)

  /** Partial result of `getDefaultPojoMapping`. */
  datatype Built = Built(attrs: seq<Attribute>, cache: Cache)

  /** `getAttributeMapping(cls)`. Each nested resolution spends one unit of
      `fuel`; running out stands for the stack overflow the source meets on
      a cyclic class graph. */
  function Resolve(u: Universe, cfg: Config, cache: Cache, cls: ClassId, fuel: nat): (r: Result<Resolved>)
    requires Valid(cache)
    ensures r.Ok? ==> Valid(r.value.cache) && Extends(cache, r.value.cache)
    ensures r.Ok? ==> Answers(u, cfg, r.value.cache, cls, r.value.mapping)
    decreases fuel, 0
  {
    LookupMisses(u, cache, cls);
    match Lookup(u, cache, cls, 0)
    case Some(k) =>
      assert k in cache.entries && AssignableFrom(u, k, cls);
      Ok(Resolved(cache.entries[k], cache))
    case None =>
      if !PolicyAdmits(cfg, cls) then Ok(Resolved(None, cache))
      else if fuel == 0 then Err(StackOverflow)
      else if IsContainer(u, cls) then
        var r :- Resolve(u, cfg, Put(cache, cls, None), ElementClass(u, cls), fuel - 1);
        assert cls in r.cache.entries && AssignableFrom(u, cls, cls) && r.cache.entries[cls] == None;
        Ok(Resolved(None, r.cache))
      else
        var d :- DefaultAttributes(u, cfg, cache, DeclaredMethods(u, cls), 0, fuel - 1);
        var m := Mapping(d.attrs);
        var c := Put(d.cache, cls, Some(m));
        assert cls in c.entries && AssignableFrom(u, cls, cls) && c.entries[cls] == Some(m);
        Ok(Resolved(Some(m), c))
  }

  /** What `getAttributeMapping` answers, by the order of lines 49-106. */
  lemma ResolveAnswers(u: Universe, cfg: Config, cache: Cache, cls: ClassId, fuel: nat)
    requires Valid(cache)
    // lines 50-54: a cached supertype entry answers first, policy unchecked
    ensures var r := Resolve(u, cfg, cache, cls, fuel);
            !NoEntryFor(u, cache, cls) ==>
              && r.Ok? && r.value.cache == cache
              && exists k :: k in cache.entries && AssignableFrom(u, k, cls) && r.value.mapping == cache.entries[k]
    // lines 57-66, 78-79: string by default, and not an identical POJO class
    ensures NoEntryFor(u, cache, cls) && !cfg.pojoDefault && !Listed(cfg.pojoClasses, cls) ==>
              Resolve(u, cfg, cache, cls, fuel) == Ok(Resolved(None, cache))
    // lines 82-99: a container is cached as null first, then its element
    // class is resolved against that cache, and the container answers null
    ensures var r := Resolve(u, cfg, cache, cls, fuel);
            NoEntryFor(u, cache, cls) && PolicyAdmits(cfg, cls) && IsContainer(u, cls) && r.Ok? ==>
              && r.value.mapping == None && cls in r.value.cache.entries && r.value.cache.entries[cls] == None
              && fuel > 0
              && var e := Resolve(u, cfg, Put(cache, cls, None), ElementClass(u, cls), fuel - 1);
                 && e.Ok? && r.value.cache == e.value.cache
                 && Answers(u, cfg, r.value.cache, ElementClass(u, cls), e.value.mapping)
    // lines 101-105: otherwise a default mapping is built and cached under cls
    ensures var r := Resolve(u, cfg, cache, cls, fuel);
            NoEntryFor(u, cache, cls) && PolicyAdmits(cfg, cls) && !IsContainer(u, cls) && r.Ok? ==>
              && r.value.mapping.Some?
              && cls in r.value.cache.entries && r.value.cache.entries[cls] == r.value.mapping
              && DefaultShaped(u, r.value.mapping.value.attrs, DeclaredMethods(u, cls), 0)
  {
    LookupMisses(u, cache, cls);
    if NoEntryFor(u, cache, cls) && PolicyAdmits(cfg, cls) && IsContainer(u, cls) && fuel > 0 {
      ContainerStep(u, cfg, cache, cls, fuel - 1);
    }
  }

  /** `getDefaultPojoMapping`, from method `ms[i]` on: one column per public
      `get`/`is` method, nested groups resolved through `Resolve`. */
  function DefaultAttributes(u: Universe, cfg: Config, cache: Cache, ms: seq<MethodInfo>, i: nat, fuel: nat): (r: Result<Built>)
    requires Valid(cache)
    requires i <= |ms|
    ensures r.Ok? ==> Valid(r.value.cache) && Extends(cache, r.value.cache)
    ensures r.Ok? ==> DefaultShaped(u, r.value.attrs, ms, i)
    ensures r.Ok? ==> ChildrenAnswer(u, cfg, r.value.cache, r.value.attrs, Accessors(ms, i))
    decreases fuel, |ms| - i + 1
  {
    if i == |ms| then Ok(Built([], cache))
    else if !IsAccessor(ms[i]) then DefaultAttributes(u, cfg, cache, ms, i + 1, fuel)
    else
      var p := PropertyName(ms[i].name).value;
      if IsSimple(u, ms[i].returnType) then
        var rest :- DefaultAttributes(u, cfg, cache, ms, i + 1, fuel);
        var a := LeafAttribute(Some(p), [p]);
        ShapedCons(u, a, rest.attrs, ms, i);
        ChildrenCons(u, cfg, rest.cache, a, rest.attrs, ms, i);
        Ok(Built([a] + rest.attrs, rest.cache))
      else
        var child :- Resolve(u, cfg, cache, ms[i].returnType, fuel);
        var rest :- DefaultAttributes(u, cfg, child.cache, ms, i + 1, fuel);
        var a := NestedAttribute(p, child.mapping);
        ShapedCons(u, a, rest.attrs, ms, i);
        AnswersExtend(u, cfg, child.cache, rest.cache, ms[i].returnType, child.mapping);
        ChildrenCons(u, cfg, rest.cache, a, rest.attrs, ms, i);
        Ok(Built([a] + rest.attrs, rest.cache))
  }

  /** Prepending the column of accessor `ms[i]`, whose child (if nested) is an
      answer for its return type. */
  lemma ChildrenCons(u: Universe, cfg: Config, c: Cache, a: Attribute, rest: seq<Attribute>, ms: seq<MethodInfo>, i: nat)
    requires i < |ms| && IsAccessor(ms[i])
    requires a.Nested? ==> Answers(u, cfg, c, ms[i].returnType, a.Child())
    requires ChildrenAnswer(u, cfg, c, rest, Accessors(ms, i + 1))
    ensures ChildrenAnswer(u, cfg, c, [a] + rest, Accessors(ms, i))
  {
    var acc := Accessors(ms, i);
    assert acc == [ms[i]] + Accessors(ms, i + 1);
    forall j | 0 <= j < |[a] + rest| && j < |acc| && ([a] + rest)[j].Nested?
      ensures Answers(u, cfg, c, acc[j].returnType, ([a] + rest)[j].Child())
    {
      if j > 0 {
        assert ([a] + rest)[j] == rest[j - 1];
        assert acc[j] == Accessors(ms, i + 1)[j - 1];
      }
    }
  }

  /** Prepending the column of accessor `ms[i]` to the columns of `ms[i+1..]`. */
  lemma ShapedCons(u: Universe, a: Attribute, rest: seq<Attribute>, ms: seq<MethodInfo>, i: nat)
    requires i < |ms| && IsAccessor(ms[i]) && Shaped(u, a, ms[i])
    requires DefaultShaped(u, rest, ms, i + 1)
    ensures DefaultShaped(u, [a] + rest, ms, i)
  {
    var acc := Accessors(ms, i);
    assert acc == [ms[i]] + Accessors(ms, i + 1);
    forall j | 0 <= j < |[a] + rest|
      ensures Shaped(u, ([a] + rest)[j], acc[j])
    {
      if j > 0 {
        assert ([a] + rest)[j] == rest[j - 1];
        assert acc[j] == Accessors(ms, i + 1)[j - 1];
      }
    }
  }

  /** The loop of lines 138-144 (and 149-153): does a listed class from
      position `i` on accept `cls`? */
  function AnySupertype(u: Universe, list: seq<ClassId>, cls: ClassId, i: nat): (r: bool)
    ensures r <==> exists j :: i <= j < |list| && AssignableFrom(u, list[j], cls)
    decreases |list| - i
  {
    if i >= |list| then false
    else AssignableFrom(u, list[i], cls) || AnySupertype(u, list, cls, i + 1)
  }

  /** `needsToString(cls)`: an explicit string supertype wins; without POJO
      default an explicit POJO supertype answers false; otherwise the
      default policy decides. */
  function NeedsToString(u: Universe, cfg: Config, cls: ClassId): (r: bool)
    ensures ListedSupertype(u, cfg.toStringClasses, cls) ==> r
    ensures !ListedSupertype(u, cfg.toStringClasses, cls) && !cfg.pojoDefault && ListedSupertype(u, cfg.pojoClasses, cls) ==> !r
    ensures !ListedSupertype(u, cfg.toStringClasses, cls) && (cfg.pojoDefault || !ListedSupertype(u, cfg.pojoClasses, cls)) ==>
              r == !cfg.pojoDefault
  {
    if cfg.toStringClasses.Some? && AnySupertype(u, cfg.toStringClasses.value, cls, 0) then true
    else if !cfg.pojoDefault && cfg.pojoClasses.Some? && AnySupertype(u, cfg.pojoClasses.value, cls, 0) then false
    else !cfg.pojoDefault
  }

  /** Lines 67-76 as written: with POJO default on, listing a class among the
      string classes does not keep a default mapping from being built and
      cached for it, although `needsToString` answers true for it. */
  lemma ToStringClassStillMapped(u: Universe, cfg: Config, cache: Cache, cls: ClassId, fuel: nat)
    requires Valid(cache) && cfg.pojoDefault && Listed(cfg.toStringClasses, cls)
    requires NoEntryFor(u, cache, cls) && !IsContainer(u, cls)
    requires Resolve(u, cfg, cache, cls, fuel).Ok?
    ensures NeedsToString(u, cfg, cls)
    ensures Resolve(u, cfg, cache, cls, fuel).value.mapping.Some?
  {
    assert AssignableFrom(u, cls, cls);
  }

  /** More fuel never changes a resolution that already succeeded: fuel only
      bounds the recursion depth, it does not steer the result. */
  lemma {:induction false} ResolveMoreFuel(u: Universe, cfg: Config, cache: Cache, cls: ClassId, fuel: nat, more: nat)
    requires Valid(cache) && fuel <= more
    requires Resolve(u, cfg, cache, cls, fuel).Ok?
    ensures Resolve(u, cfg, cache, cls, more) == Resolve(u, cfg, cache, cls, fuel)
    decreases fuel, 3
  {
    if Lookup(u, cache, cls, 0).Some? || !PolicyAdmits(cfg, cls) {
      ShortcutStep(u, cfg, cache, cls, fuel, more);
    } else {
      MissMoreFuel(u, cfg, cache, cls, fuel, more);
    }
  }

  /** `ResolveMoreFuel` for a class that misses the cache and is admitted. */
  lemma {:induction false} MissMoreFuel(u: Universe, cfg: Config, cache: Cache, cls: ClassId, fuel: nat, more: nat)
    requires Valid(cache) && fuel <= more
    requires Lookup(u, cache, cls, 0).None? && PolicyAdmits(cfg, cls)
    requires Resolve(u, cfg, cache, cls, fuel).Ok?
    ensures Resolve(u, cfg, cache, cls, more) == Resolve(u, cfg, cache, cls, fuel)
    decreases fuel, 2
  {
    NoFuelOverflows(u, cfg, cache, cls);
    var f, m := fuel - 1, more - 1;
    if IsContainer(u, cls) {
      ContainerSame(u, cfg, cache, cls, f, m);
    } else {
      PlainSame(u, cfg, cache, cls, f, m);
    }
  }

  /** A cache hit or a policy refusal answers without recursion, whatever the fuel. */
  lemma ShortcutStep(u: Universe, cfg: Config, cache: Cache, cls: ClassId, fuel: nat, more: nat)
    requires Valid(cache) && (Lookup(u, cache, cls, 0).Some? || !PolicyAdmits(cfg, cls))
    ensures Resolve(u, cfg, cache, cls, more) == Resolve(u, cfg, cache, cls, fuel)
  {
  }

  /** A class that misses the cache and is admitted needs fuel. */
  lemma NoFuelOverflows(u: Universe, cfg: Config, cache: Cache, cls: ClassId)
    requires Valid(cache) && Lookup(u, cache, cls, 0).None? && PolicyAdmits(cfg, cls)
    ensures Resolve(u, cfg, cache, cls, 0) == Err(StackOverflow)
  {
  }

  /** A container's resolution with `f + 1` and `m + 1` agree once its
      element class's, with `f` and `m`, do. */
  lemma {:induction false} ContainerSame(u: Universe, cfg: Config, cache: Cache, cls: ClassId, f: nat, m: nat)
    requires Valid(cache) && Lookup(u, cache, cls, 0).None? && PolicyAdmits(cfg, cls) && IsContainer(u, cls)
    requires f <= m && Resolve(u, cfg, cache, cls, f + 1).Ok?
    ensures Resolve(u, cfg, cache, cls, m + 1) == Resolve(u, cfg, cache, cls, f + 1)
    decreases f + 1, 1
  {
    ContainerStep(u, cfg, cache, cls, f);
    ResolveMoreFuel(u, cfg, Put(cache, cls, None), ElementClass(u, cls), f, m);
    ContainerStep(u, cfg, cache, cls, m);
  }

  /** One unfolding of `Resolve` on a container that misses the cache. */
  lemma ContainerStep(u: Universe, cfg: Config, cache: Cache, cls: ClassId, f: nat)
    requires Valid(cache) && Lookup(u, cache, cls, 0).None? && PolicyAdmits(cfg, cls) && IsContainer(u, cls)
    ensures Resolve(u, cfg, cache, cls, f + 1) == AsContainer(Resolve(u, cfg, Put(cache, cls, None), ElementClass(u, cls), f))
  {
  }

  /** A container answers null once its element class is resolved. */
  function AsContainer(r: Result<Resolved>): Result<Resolved>
  {
    match r
    case Ok(e) => Ok(Resolved(None, e.cache))
    case Err(x) => Err(x)
  }

  /** A plain class's resolution with `f + 1` and `m + 1` agree once its
      default columns, built with `f` and `m`, do. */
  lemma {:induction false} PlainSame(u: Universe, cfg: Config, cache: Cache, cls: ClassId, f: nat, m: nat)
    requires Valid(cache) && Lookup(u, cache, cls, 0).None? && PolicyAdmits(cfg, cls) && !IsContainer(u, cls)
    requires f <= m && Resolve(u, cfg, cache, cls, f + 1).Ok?
    ensures Resolve(u, cfg, cache, cls, m + 1) == Resolve(u, cfg, cache, cls, f + 1)
    decreases f + 1, 1
  {
    DefaultStep(u, cfg, cache, cls, f);
    DefaultMoreFuel(u, cfg, cache, DeclaredMethods(u, cls), 0, f, m);
    DefaultStep(u, cfg, cache, cls, m);
  }

  /** One unfolding of `Resolve` on a plain class that misses the cache. */
  lemma DefaultStep(u: Universe, cfg: Config, cache: Cache, cls: ClassId, f: nat)
    requires Valid(cache) && Lookup(u, cache, cls, 0).None? && PolicyAdmits(cfg, cls) && !IsContainer(u, cls)
    ensures Resolve(u, cfg, cache, cls, f + 1) == AsPlain(cls, DefaultAttributes(u, cfg, cache, DeclaredMethods(u, cls), 0, f))
  {
  }

  /** A plain class answers its default mapping, cached under its name. */
  function AsPlain(cls: ClassId, d: Result<Built>): Result<Resolved>
    requires d.Ok? ==> Valid(d.value.cache)
  {
    match d
    case Ok(b) => Ok(Resolved(Some(Mapping(b.attrs)), Put(b.cache, cls, Some(Mapping(b.attrs)))))
    case Err(x) => Err(x)
  }

  lemma {:induction false} DefaultMoreFuel(u: Universe, cfg: Config, cache: Cache, ms: seq<MethodInfo>, i: nat, fuel: nat, more: nat)
    requires Valid(cache) && i <= |ms| && fuel <= more
    requires DefaultAttributes(u, cfg, cache, ms, i, fuel).Ok?
    ensures DefaultAttributes(u, cfg, cache, ms, i, more) == DefaultAttributes(u, cfg, cache, ms, i, fuel)
    decreases fuel, |ms| - i + 3
  {
    if i < |ms| {
      if !IsAccessor(ms[i]) || IsSimple(u, ms[i].returnType) {
        DefaultMoreFuel(u, cfg, cache, ms, i + 1, fuel, more);
      } else {
        var child := Resolve(u, cfg, cache, ms[i].returnType, fuel);
        ResolveMoreFuel(u, cfg, cache, ms[i].returnType, fuel, more);
        DefaultMoreFuel(u, cfg, child.value.cache, ms, i + 1, fuel, more);
      }
    }
  }

  /** The property of `getX...` is `x...`. */
  lemma PropertyNameOfGetter(c: char, rest: string)
    requires 'A' <= c <= 'Z'
    ensures PropertyName("get" + [c] + rest) == Some([LowerChar(c)] + rest)
  {
    var name := "get" + [c] + rest;
    assert name[..3] == "get";
    assert name[3] == c && name[4..] == rest;
  }

  /** A class whose getter returns its own class: `getNext(): Node`. */
  const NodeUniverse: Universe := Universe(
    {}, map[], map[], {}, "java.lang.String", "java.lang.Boolean", "java.util.Collection",
    map["Node" := [MethodInfo("getNext", true, 0, "Node")]], map[])

  const PojoByDefault: Config := Config(None, None, true, false)

  /** On a cyclic class graph resolution never bottoms out: the class is
      cached only after its default mapping is built, and building it asks
      for the class again. Every amount of fuel runs out. */
  lemma {:induction false} CyclicClassOverflows(cache: Cache, fuel: nat)
    requires Valid(cache) && "Node" !in cache.entries
    ensures Resolve(NodeUniverse, PojoByDefault, cache, "Node", fuel).Err?
    decreases fuel
  {
    var u, cfg := NodeUniverse, PojoByDefault;
    assert NoEntryFor(u, cache, "Node");
    LookupMisses(u, cache, "Node");
    assert PolicyAdmits(cfg, "Node") && !IsContainer(u, "Node");
    if fuel > 0 {
      CyclicClassOverflows(cache, fuel - 1);
      var ms := DeclaredMethods(u, "Node");
      assert IsAccessor(ms[0]) && !IsSimple(u, ms[0].returnType);
      assert DefaultAttributes(u, cfg, cache, ms, 0, fuel - 1).Err?;
    }
  }

  /** `B extends A`; `B.getParent(): A`; `A.getName(): String`. */
  const InheritUniverse: Universe := Universe(
    {("A", "B")}, map[], map[], {}, "java.lang.String", "java.lang.Boolean", "java.util.Collection",
    map["B" := [MethodInfo("getParent", true, 0, "A")],
        "A" := [MethodInfo("getName", true, 0, "java.lang.String")]],
    map[])

  /** Resolving a class twice need not give the same mapping: resolving `B`
      caches its supertype `A` first (for the `parent` column), so the second
      lookup of `B` meets `A`'s entry before `B`'s own. */
  lemma SecondResolveMeetsSupertype()
    ensures var first := Resolve(InheritUniverse, PojoByDefault, EmptyCache(), "B", 2);
            && first.Ok?
            && var second := Resolve(InheritUniverse, PojoByDefault, first.value.cache, "B", 2);
            && second.Ok?
            && second.value.mapping != first.value.mapping
  {
    var u, cfg := InheritUniverse, PojoByDefault;
    var ma := Mapping([LeafAttribute(Some("name"), ["name"])]);
    PropertyNameOfGetter('N', "ame");
    assert "get" + ['N'] + "ame" == "getName";
    assert LowerChar('N') == 'n' && ['n'] + "ame" == "name";
    assert PropertyName("getName") == Some("name");
    PropertyNameOfGetter('P', "arent");
    assert "get" + ['P'] + "arent" == "getParent";
    assert LowerChar('P') == 'p' && ['p'] + "arent" == "parent";
    assert PropertyName("getParent") == Some("parent");
    var msA := DeclaredMethods(u, "A");
    assert msA == [MethodInfo("getName", true, 0, "java.lang.String")];
    assert IsAccessor(msA[0]) && IsSimple(u, msA[0].returnType);
    assert DefaultAttributes(u, cfg, EmptyCache(), msA, 1, 0) == Ok(Built([], EmptyCache()));
    assert [LeafAttribute(Some("name"), ["name"])] + [] == [LeafAttribute(Some("name"), ["name"])];
    assert DefaultAttributes(u, cfg, EmptyCache(), msA, 0, 0)
        == Ok(Built([LeafAttribute(Some("name"), ["name"])], EmptyCache()));
    assert Lookup(u, EmptyCache(), "A", 0) == None;
    assert !IsContainer(u, "A") && !IsContainer(u, "B");
    assert [] + ["A"] == ["A"] && ["A"] + ["B"] == ["A", "B"];
    assert Put(EmptyCache(), "A", Some(ma)) == Cache(map["A" := Some(ma)], ["A"]);
    var ra := Resolve(u, cfg, EmptyCache(), "A", 1);
    assert ra == Ok(Resolved(Some(ma), Cache(map["A" := Some(ma)], ["A"])));
    var first := Resolve(u, cfg, EmptyCache(), "B", 2);
    assert [NestedAttribute("parent", Some(ma))] + [] == [NestedAttribute("parent", Some(ma))];
    var mb := Mapping([NestedAttribute("parent", Some(ma))]);
    assert DefaultAttributes(u, cfg, EmptyCache(), DeclaredMethods(u, "B"), 0, 1)
        == Ok(Built([NestedAttribute("parent", Some(ma))], Cache(map["A" := Some(ma)], ["A"])));
    assert first == Ok(Resolved(Some(mb), Cache(map["A" := Some(ma), "B" := Some(mb)], ["A", "B"])));
    var second := Resolve(u, cfg, first.value.cache, "B", 2);
    assert Lookup(u, first.value.cache, "B", 0) == Some("A");
    assert second.value.mapping == Some(ma);
  }
}
