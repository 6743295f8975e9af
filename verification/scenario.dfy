/** The `Person` mapping the provider registers: an address group of three
    columns followed by last name, first name and age. */
module Scenario {
  import opened Wrappers
  import opened Mappings
  import opened HeaderWriter
  import opened Text
  import opened Writer
  import opened Classes
  import opened Values
  import opened Quoting
  import opened MapperConfig
  import opened Getters

  function AddressMapping(): (m: Mapping)
    ensures |m.attrs| == 3
  {
    AddLeaf(AddLeaf(AddLeaf(EmptyMapping(), Some("Street"), ["street"]), Some("City"), ["city"]), Some("State"), ["state"])
  }

  function PersonMapping(): (m: Mapping)
    ensures |m.attrs| == 4
  {
    var m := Add(EmptyMapping(), NestedAttribute("address", Some(AddressMapping())));
    AddLeaf(AddLeaf(AddLeaf(m, Some("LastName"), ["lastName"]), Some("FirstName"), ["firstName"]), Some("Age"), ["age"])
  }

  lemma AddressLeaves()
    ensures Leaves(AddressMapping(), 0) == Ok(["Street", "City", "State"])
  {
    var a := AddressMapping();
    assert a.attrs == [LeafAttribute(Some("Street"), ["street"]), LeafAttribute(Some("City"), ["city"]), LeafAttribute(Some("State"), ["state"])];
    assert Leaves(a, 3) == Ok([]);
    assert ["State"] + [] == ["State"];
    assert Leaves(a, 2) == Ok(["State"]);
    assert ["City"] + ["State"] == ["City", "State"];
    assert Leaves(a, 1) == Ok(["City", "State"]);
    assert ["Street"] + ["City", "State"] == ["Street", "City", "State"];
  }

  /** The header line of a person: the address columns first, depth first. */
  lemma PersonColumns()
    ensures Leaves(PersonMapping(), 0) == Ok(["Street", "City", "State", "LastName", "FirstName", "Age"])
    ensures LeadsWithLeaf(PersonMapping(), 0)
  {
    var p := PersonMapping();
    AddressLeaves();
    assert p.attrs == [NestedAttribute("address", Some(AddressMapping())), LeafAttribute(Some("LastName"), ["lastName"]),
                       LeafAttribute(Some("FirstName"), ["firstName"]), LeafAttribute(Some("Age"), ["age"])];
    assert Leaves(p, 4) == Ok([]);
    assert ["Age"] + [] == ["Age"];
    assert Leaves(p, 3) == Ok(["Age"]);
    assert ["FirstName"] + ["Age"] == ["FirstName", "Age"];
    assert Leaves(p, 2) == Ok(["FirstName", "Age"]);
    assert ["LastName"] + ["FirstName", "Age"] == ["LastName", "FirstName", "Age"];
    assert Leaves(p, 1) == Ok(["LastName", "FirstName", "Age"]);
    assert ["Street", "City", "State"] + ["LastName", "FirstName", "Age"] == ["Street", "City", "State", "LastName", "FirstName", "Age"];
    assert LeadsWithLeaf(AddressMapping(), 0);
  }

  /** The person header line names the six leaf columns, quoted and
      separated by single commas. */
  lemma PersonHeaderLine(excel: bool)
    ensures Headers(excel, PersonMapping(), 0, "")
         == Ok(Join(QuoteAll(excel, ["Street", "City", "State", "LastName", "FirstName", "Age"]), ","))
  {
    PersonColumns();
    HeaderLine(excel, PersonMapping());
  }

  /** A null address fills its three columns with two separators, and the
      separator after the group supplies the third; a null person, however,
      gets three separators for its six columns. */
  lemma NullPersonParts()
    ensures NullFill(Some(AddressMapping())) == Ok(",,")
    ensures NullFill(Some(PersonMapping())) == Ok(",,,")
  {
    assert Commas(2) == "," + ("," + Commas(0)) == ",,";
    assert Commas(3) == "," + Commas(2) == ",,,";
  }

  const PersonClass: ClassId := "com.test.rest.Person"
  const AddressClass: ClassId := "com.test.rest.UsAddress"
  const StringClass: ClassId := "java.lang.String"

  /** The JavaBean getter of a property: `get` and the capitalised name. */
  function GetterName(prop: string): string
    requires |prop| > 0
  {
    "get" + ([UpperChar(prop[0])] + prop[1..])
  }

  /** The public zero-argument getter of a property. */
  function PropGetter(prop: string, result: ClassId): MethodInfo
    requires |prop| > 0
  {
    MethodInfo(GetterName(prop), true, 0, result)
  }

  /** The getters are the usual Java names. */
  lemma JavaNames()
    ensures GetterName("street") == "getStreet" && GetterName("city") == "getCity" && GetterName("state") == "getState"
    ensures GetterName("firstName") == "getFirstName" && GetterName("lastName") == "getLastName"
    ensures GetterName("age") == "getAge" && GetterName("address") == "getAddress"
  {
  }

  /** `Person` and its `UsAddress`, with their public getters. */
  const PersonUniverse: Universe := Universe(
    {}, map[], map[], {"int"}, StringClass, "java.lang.Boolean", "java.util.Collection",
    map[],
    map[PersonClass := [PropGetter("firstName", StringClass), PropGetter("lastName", StringClass),
                        PropGetter("age", "int"), PropGetter("address", AddressClass)],
        AddressClass := [PropGetter("street", StringClass), PropGetter("city", StringClass),
                         PropGetter("state", StringClass)]])

  function Leaf1(header: string, name: string): Attribute
    requires |name| > 0
  {
    Leaf(Some(header), [name], Some([Invoke(PropGetter(name, StringClass))]))
  }

  function PreparedAddress(): Mapping
  {
    Mapping([Leaf1("Street", "street"), Leaf1("City", "city"), Leaf1("State", "state")])
  }

  function AgeLeaf(): Attribute
  {
    Leaf(Some("Age"), ["age"], Some([Invoke(PropGetter("age", "int"))]))
  }

  function PreparedAddressGroup(): Attribute
  {
    Nested("address", Some(PreparedAddress()), Some([Invoke(PropGetter("address", AddressClass))]))
  }

  /** Four specs that each prepare on their own prepare together. */
  lemma PrepareFour(u: Universe, cls: ClassId, m: Mapping, b0: Attribute, b1: Attribute, b2: Attribute, b3: Attribute)
    requires |m.attrs| == 4 && !SkipsPreparation(u, cls)
    requires PrepareAttr(u, cls, m.attrs[0]) == Ok(b0) && PrepareAttr(u, cls, m.attrs[1]) == Ok(b1)
    requires PrepareAttr(u, cls, m.attrs[2]) == Ok(b2) && PrepareAttr(u, cls, m.attrs[3]) == Ok(b3)
    ensures Prepare(u, cls, m) == Ok(Mapping([b0, b1, b2, b3]))
  {
    var b := [b0, b1, b2, b3];
    PrepareEach(u, cls, m, 0, b);
  }

  /** The person mapping after `prepareGetters` against `Person`: the nested
      group reads `getAddress`, its child reads the address getters. */
  function PreparedPerson(): Mapping
  {
    Mapping([PreparedAddressGroup(),
             Leaf1("LastName", "lastName"), Leaf1("FirstName", "firstName"),
             AgeLeaf()])
  }

  /** The getter of a property is the public method at position `k` when it
      has the property's getter name and no method before it has that name. */
  lemma GetterAt(cls: ClassId, prop: string, k: nat)
    requires |prop| > 0 && k < |PublicMethods(PersonUniverse, cls)|
    requires PublicMethods(PersonUniverse, cls)[k] == PropGetter(prop, PublicMethods(PersonUniverse, cls)[k].returnType)
    requires forall j :: 0 <= j < k ==> PublicMethods(PersonUniverse, cls)[j].name != GetterName(prop)
    ensures GetterFor(PersonUniverse, cls, prop) == Ok(Invoke(PublicMethods(PersonUniverse, cls)[k]))
  {
    FindMethodAt(PublicMethods(PersonUniverse, cls), k);
  }

  /** A one-property leaf is prepared with that property's getter. */
  lemma LeafPrepared(u: Universe, cls: ClassId, h: string, n: string, g: Getter)
    requires GetterFor(u, cls, n) == Ok(g)
    ensures PrepareAttr(u, cls, Leaf(Some(h), [n], None)) == Ok(Leaf(Some(h), [n], Some([g])))
  {
    assert [n][1..] == [] && [g] + [] == [g];
    assert Plan(u, cls, []) == Ok([]);
    assert Plan(u, cls, [n]) == Ok([g]);
  }

  lemma AddressGetters()
    ensures GetterFor(PersonUniverse, AddressClass, "street") == Ok(Invoke(PropGetter("street", StringClass)))
    ensures GetterFor(PersonUniverse, AddressClass, "city") == Ok(Invoke(PropGetter("city", StringClass)))
    ensures GetterFor(PersonUniverse, AddressClass, "state") == Ok(Invoke(PropGetter("state", StringClass)))
  {
    var ms := PublicMethods(PersonUniverse, AddressClass);
    assert |ms[0].name| == 9 && |ms[1].name| == 7 && |ms[2].name| == 8;
    GetterAt(AddressClass, "street", 0);
    GetterAt(AddressClass, "city", 1);
    GetterAt(AddressClass, "state", 2);
  }

  lemma PersonGetters()
    ensures GetterFor(PersonUniverse, PersonClass, "address") == Ok(Invoke(PropGetter("address", AddressClass)))
    ensures GetterFor(PersonUniverse, PersonClass, "lastName") == Ok(Invoke(PropGetter("lastName", StringClass)))
    ensures GetterFor(PersonUniverse, PersonClass, "firstName") == Ok(Invoke(PropGetter("firstName", StringClass)))
    ensures GetterFor(PersonUniverse, PersonClass, "age") == Ok(Invoke(PropGetter("age", "int")))
  {
    var ms := PublicMethods(PersonUniverse, PersonClass);
    assert |ms[0].name| == 12 && |ms[1].name| == 11 && |ms[2].name| == 6 && |ms[3].name| == 10;
    GetterAt(PersonClass, "firstName", 0);
    GetterAt(PersonClass, "lastName", 1);
    GetterAt(PersonClass, "age", 2);
    GetterAt(PersonClass, "address", 3);
  }

  lemma AddressSpecs()
    ensures AddressMapping().attrs
         == [LeafAttribute(Some("Street"), ["street"]), LeafAttribute(Some("City"), ["city"]), LeafAttribute(Some("State"), ["state"])]
  {
  }

  lemma PersonSpecs()
    ensures PersonMapping().attrs
         == [NestedAttribute("address", Some(AddressMapping())), LeafAttribute(Some("LastName"), ["lastName"]),
             LeafAttribute(Some("FirstName"), ["firstName"]), LeafAttribute(Some("Age"), ["age"])]
  {
  }

  /** Three specs that each prepare on their own prepare together. */
  lemma PrepareThree(u: Universe, cls: ClassId, m: Mapping, b0: Attribute, b1: Attribute, b2: Attribute)
    requires |m.attrs| == 3 && !SkipsPreparation(u, cls)
    requires PrepareAttr(u, cls, m.attrs[0]) == Ok(b0) && PrepareAttr(u, cls, m.attrs[1]) == Ok(b1)
    requires PrepareAttr(u, cls, m.attrs[2]) == Ok(b2)
    ensures Prepare(u, cls, m) == Ok(Mapping([b0, b1, b2]))
  {
    var b := [b0, b1, b2];
    PrepareEach(u, cls, m, 0, b);
  }

  lemma AddressLeavesPrepared()
    ensures PrepareAttr(PersonUniverse, AddressClass, LeafAttribute(Some("Street"), ["street"])) == Ok(Leaf1("Street", "street"))
    ensures PrepareAttr(PersonUniverse, AddressClass, LeafAttribute(Some("City"), ["city"])) == Ok(Leaf1("City", "city"))
    ensures PrepareAttr(PersonUniverse, AddressClass, LeafAttribute(Some("State"), ["state"])) == Ok(Leaf1("State", "state"))
  {
    var u := PersonUniverse;
    AddressGetters();
    LeafPrepared(u, AddressClass, "Street", "street", Invoke(PropGetter("street", StringClass)));
    LeafPrepared(u, AddressClass, "City", "city", Invoke(PropGetter("city", StringClass)));
    LeafPrepared(u, AddressClass, "State", "state", Invoke(PropGetter("state", StringClass)));
  }

  lemma AddressPrepared()
    ensures Prepare(PersonUniverse, AddressClass, AddressMapping()) == Ok(PreparedAddress())
  {
    var u, a := PersonUniverse, AddressMapping();
    assert |a.attrs| == 3 && !SkipsPreparation(u, AddressClass);
    assert PrepareAttr(u, AddressClass, a.attrs[0]) == Ok(Leaf1("Street", "street")) &&
           PrepareAttr(u, AddressClass, a.attrs[1]) == Ok(Leaf1("City", "city")) &&
           PrepareAttr(u, AddressClass, a.attrs[2]) == Ok(Leaf1("State", "state")) by {
      AddressSpecs();
      AddressLeavesPrepared();
    }
    PrepareThree(u, AddressClass, a, Leaf1("Street", "street"), Leaf1("City", "city"), Leaf1("State", "state"));
  }

  /** Preparing the registered mapping against `Person` gives exactly that plan. */
  lemma PersonPrepared()
    ensures Prepare(PersonUniverse, PersonClass, PersonMapping()) == Ok(PreparedPerson())
  {
    var u, m := PersonUniverse, PersonMapping();
    assert |m.attrs| == 4 && !SkipsPreparation(u, PersonClass);
    assert PrepareAttr(u, PersonClass, m.attrs[0]) == Ok(PreparedAddressGroup()) by {
      PersonSpecs();
      NestedAddressPrepared();
    }
    assert PrepareAttr(u, PersonClass, m.attrs[1]) == Ok(Leaf1("LastName", "lastName")) &&
           PrepareAttr(u, PersonClass, m.attrs[2]) == Ok(Leaf1("FirstName", "firstName")) &&
           PrepareAttr(u, PersonClass, m.attrs[3]) == Ok(AgeLeaf()) by {
      PersonSpecs();
      PersonLeavesPrepared();
    }
    PrepareFour(PersonUniverse, PersonClass, PersonMapping(), PreparedAddressGroup(), Leaf1("LastName", "lastName"),
                Leaf1("FirstName", "firstName"), AgeLeaf());
  }

  lemma PersonLeavesPrepared()
    ensures PrepareAttr(PersonUniverse, PersonClass, LeafAttribute(Some("LastName"), ["lastName"])) == Ok(Leaf1("LastName", "lastName"))
    ensures PrepareAttr(PersonUniverse, PersonClass, LeafAttribute(Some("FirstName"), ["firstName"])) == Ok(Leaf1("FirstName", "firstName"))
    ensures PrepareAttr(PersonUniverse, PersonClass, LeafAttribute(Some("Age"), ["age"])) == Ok(AgeLeaf())
  {
    var u := PersonUniverse;
    PersonGetters();
    LeafPrepared(u, PersonClass, "LastName", "lastName", Invoke(PropGetter("lastName", StringClass)));
    LeafPrepared(u, PersonClass, "FirstName", "firstName", Invoke(PropGetter("firstName", StringClass)));
    LeafPrepared(u, PersonClass, "Age", "age", Invoke(PropGetter("age", "int")));
  }

  /** The address group reads `getAddress`, and its child is prepared against `UsAddress`. */
  lemma NestedAddressPrepared()
    ensures PrepareAttr(PersonUniverse, PersonClass, NestedAttribute("address", Some(AddressMapping())))
         == Ok(PreparedAddressGroup())
  {
    PersonGetters();
    AddressPrepared();
    var g := Invoke(PropGetter("address", AddressClass));
    assert PrepareChild(PersonUniverse, g, Some(AddressMapping())) == Ok(Some(PreparedAddress()));
  }

  /** The registry of the provider: `Person` and `UsAddress` are the POJO
      classes, nothing is rendered as a string by listing, `pojoDefault` is
      off, and the person mapping is registered under `Person`. The provider
      writes a header line; `headers` off shows the data line alone. */
  function PersonConfig(headers: bool): Config
  {
    Config(None, Some([PersonClass, AddressClass]), false, headers)
  }

  function PersonEnv(excel: bool, headers: bool): Env
  {
    Env(PersonUniverse, PersonConfig(headers), excel, "\n", 1)
  }

  function Registered(): Cache
  {
    Put(EmptyCache(), PersonClass, Some(PersonMapping()))
  }

  function AddressValue(street: string, city: string, state: string): Value
  {
    Obj(AddressClass, "UsAddress@1", [Prop(GetterName("street"), Str(street)), Prop(GetterName("city"), Str(city)), Prop(GetterName("state"), Str(state))])
  }

  /** A person; `age` is the decimal text of the `int` age. */
  function PersonValue(first: string, last: string, age: string, address: Value): Value
  {
    Obj(PersonClass, "Person@1", [Prop(GetterName("firstName"), Str(first)), Prop(GetterName("lastName"), Str(last)),
                                  Prop(GetterName("age"), Num("java.lang.Integer", age)), Prop(GetterName("address"), address)])
  }

  /** Text that needs neither escaping nor protection from the Excel `=`. */
  predicate Plain(t: string)
  {
    '"' !in t && ',' !in t
  }

  /** A quoted field: `=` first in Excel mode. */
  function Field(excel: bool, t: string): string
  {
    (if excel then "=" else "") + "\"" + t + "\""
  }

  lemma QuotedField(excel: bool, t: string)
    requires Plain(t)
    ensures ScalarOut(excel, Str(t), true) == Field(excel, t)
  {
  }

  /** The age as written: raw in plain mode, quoted with `=` in Excel mode. */
  function AgeText(excel: bool, age: string): string
  {
    if excel then Field(true, age) else age
  }

  lemma AgeField(excel: bool, age: string)
    requires Plain(age)
    ensures ScalarOut(excel, Num("java.lang.Integer", age), true) == AgeText(excel, age)
  {
  }

  lemma PersonResolves(headers: bool)
    ensures Resolve(PersonUniverse, PersonConfig(headers), Registered(), PersonClass, 1) == Ok(Resolved(Some(PersonMapping()), Registered()))
    ensures !NeedsToString(PersonUniverse, PersonConfig(headers), PersonClass)
    ensures !NeedsToString(PersonUniverse, PersonConfig(headers), AddressClass)
  {
    assert Registered().order == [PersonClass];
    assert Lookup(PersonUniverse, Registered(), PersonClass, 0) == Some(PersonClass);
    assert AnySupertype(PersonUniverse, [PersonClass, AddressClass], AddressClass, 1);
  }

  lemma Join3(a: string, b: string, c: string, sep: string)
    ensures Join([a, b, c], sep) == a + sep + b + sep + c
  {
    assert [a, b, c][1..] == [b, c] && [b, c][1..] == [c];
    assert Join([c], sep) == c;
    assert Join([b, c], sep) == b + sep + c;
  }

  lemma Join4(a: string, b: string, c: string, d: string, sep: string)
    ensures Join([a, b, c, d], sep) == a + sep + b + sep + c + sep + d
  {
    assert [a, b, c, d][1..] == [b, c, d];
    Join3(b, c, d, sep);
  }

  /** Spec `a` reads one property of `v`, whose value is `x`. */
  predicate ReadsProp(v: Value, a: Attribute, x: Value)
    requires v.Obj?
  {
    && a.plan.Some? && |a.plan.value| == 1 && a.plan.value[0].Invoke?
    && PropIndex(v.props, a.plan.value[0].meth.name).Some?
    && v.props[PropIndex(v.props, a.plan.value[0].meth.name).value].result == x
  }

  /** A quoted single-getter cell that did not fail. */
  function PlainCell(t: string): Cell
  {
    Cell(t, false, false, true)
  }

  /** A prepared one-property spec whose value writes `ts[0]` adds that
      plain cell in front of the cells after it. */
  lemma CellStep(env: Env, cache: Cache, v: Value, m: Mapping, i: nat, x: Value, ts: seq<string>)
    requires v.Obj? && Valid(cache) && i < |m.attrs| && ReadsProp(v, m.attrs[i], x) && ts != []
    requires Content(env, cache, x, false, m.attrs[i].Child(), true) == Ok(Out(ts[0], cache))
    requires ObjectCells(env, cache, v, m, i + 1, true) == Ok(Cells(PlainCells(ts[1..]), cache))
    ensures ObjectCells(env, cache, v, m, i, true) == Ok(Cells(PlainCells(ts), cache))
  {
    var gs := m.attrs[i].plan.value;
    assert GetterValues(env, cache, v, m.attrs[i].Child(), gs, 1, true) == Ok(Piece("", false, cache));
    assert ts[0] + "" == ts[0];
  }

  function PlainCells(ts: seq<string>): seq<Cell>
  {
    if ts == [] then [] else [PlainCell(ts[0])] + PlainCells(ts[1..])
  }

  /** Plain cells are their texts between separators. */
  lemma {:induction false} PlainWrapped(ts: seq<string>)
    ensures WrappedAll(PlainCells(ts)) == ts
    decreases |ts|
  {
    if ts != [] {
      PlainWrapped(ts[1..]);
      assert "" + ts[0] + "" == ts[0];
    }
  }

  lemma {:induction false} PlainNeverFails(ts: seq<string>)
    ensures |PlainCells(ts)| == |ts| && forall k :: 0 <= k < |ts| ==> !PlainCells(ts)[k].failed
    decreases |ts|
  {
    if ts != [] {
      PlainNeverFails(ts[1..]);
      assert forall k :: 0 < k < |ts| ==> PlainCells(ts)[k] == PlainCells(ts[1..])[k - 1];
    }
  }

  /** An object written as plain cells is their texts joined by commas. */
  lemma PlainContent(env: Env, cache: Cache, v: Value, rows: bool, m: Mapping, ts: seq<string>)
    requires Valid(cache) && v.Obj? && !NeedsToString(env.u, env.cfg, v.objClass)
    requires ObjectCells(env, cache, v, m, 0, true) == Ok(Cells(PlainCells(ts), cache))
    ensures Content(env, cache, v, rows, Some(m), true) == Ok(Out(Join(ts, Separator), cache))
  {
    ObjectContent(env, cache, v, rows, Some(m), true);
    PlainWrapped(ts);
    PlainNeverFails(ts);
  }

  /** An object whose first spec still lacks a plan is written with the whole
      mapping prepared against its class. */
  lemma PreparedFirst(env: Env, cache: Cache, v: Value, m: Mapping, p: Mapping)
    requires v.Obj? && Valid(cache) && 0 < |m.attrs| && m.attrs[0].plan.None?
    requires Prepare(env.u, v.objClass, m) == Ok(p) && p.attrs[0].plan.Some?
    ensures ObjectCells(env, cache, v, m, 0, true) == ObjectCells(env, cache, v, p, 0, true)
  {
  }

  function AddressProps(street: string, city: string, state: string): seq<Value>
  {
    [Str(street), Str(city), Str(state)]
  }

  /** Address column `k` reads the `k`-th property of the address. */
  lemma AddressReads(street: string, city: string, state: string, k: nat)
    requires k < 3
    ensures ReadsProp(AddressValue(street, city, state), PreparedAddress().attrs[k], AddressProps(street, city, state)[k])
  {
    var ps := AddressValue(street, city, state).props;
    assert |ps[0].getter| == 9 && |ps[1].getter| == 7 && |ps[2].getter| == 8;
    PropIndexAt(ps, k);
  }

  function AddressFields(excel: bool, street: string, city: string, state: string): seq<string>
  {
    [Field(excel, street), Field(excel, city), Field(excel, state)]
  }

  /** The address columns from `k` on are plain cells of the quoted fields. */
  lemma {:induction false} AddressCellsFrom(excel: bool, headers: bool, cache: Cache, street: string, city: string, state: string, k: nat)
    requires Valid(cache) && Plain(street) && Plain(city) && Plain(state) && k <= 3
    ensures ObjectCells(PersonEnv(excel, headers), cache, AddressValue(street, city, state), PreparedAddress(), k, true)
         == Ok(Cells(PlainCells(AddressFields(excel, street, city, state)[k..]), cache))
    decreases 3 - k
  {
    var fs := AddressFields(excel, street, city, state);
    if k < 3 {
      AddressCellsFrom(excel, headers, cache, street, city, state, k + 1);
      var s := [street, city, state][k];
      AddressReads(street, city, state, k);
      QuotedField(excel, s);
      assert fs[k..][0] == fs[k] && fs[k..][1..] == fs[k + 1..];
      CellStep(PersonEnv(excel, headers), cache, AddressValue(street, city, state), PreparedAddress(), k, Str(s), fs[k..]);
    }
  }

  /** An address is its three quoted fields. */
  lemma AddressCell(excel: bool, headers: bool, cache: Cache, street: string, city: string, state: string)
    requires Valid(cache) && Plain(street) && Plain(city) && Plain(state)
    ensures Content(PersonEnv(excel, headers), cache, AddressValue(street, city, state), false, Some(PreparedAddress()), true)
         == Ok(Out(Field(excel, street) + "," + Field(excel, city) + "," + Field(excel, state), cache))
  {
    var fs := AddressFields(excel, street, city, state);
    AddressCellsFrom(excel, headers, cache, street, city, state, 0);
    assert fs[0..] == fs;
    PersonResolves(headers);
    PlainContent(PersonEnv(excel, headers), cache, AddressValue(street, city, state), false, PreparedAddress(), fs);
    Join3(fs[0], fs[1], fs[2], ",");
  }

  /** Person column `k` reads the `k`-th property of the person. */
  lemma PersonReads(first: string, last: string, age: string, address: Value, k: nat)
    requires k < 4
    ensures ReadsProp(PersonValue(first, last, age, address), PreparedPerson().attrs[k], PersonProps(first, last, age, address)[k])
  {
    var ps := PersonValue(first, last, age, address).props;
    assert |ps[0].getter| == 12 && |ps[1].getter| == 11 && |ps[2].getter| == 6 && |ps[3].getter| == 10;
    PropIndexAt(ps, [3, 1, 0, 2][k]);
  }

  function PersonFields(excel: bool, first: string, last: string, age: string, address: string): seq<string>
  {
    [address, Field(excel, last), Field(excel, first), AgeText(excel, age)]
  }

  function PersonProps(first: string, last: string, age: string, address: Value): seq<Value>
  {
    [address, Str(last), Str(first), Num("java.lang.Integer", age)]
  }

  /** Person column `k` writes its field. */
  lemma PersonColumn(excel: bool, headers: bool, cache: Cache, first: string, last: string, age: string, address: Value, t: string, k: nat)
    requires Valid(cache) && Plain(first) && Plain(last) && Plain(age) && k < 4
    requires Content(PersonEnv(excel, headers), cache, address, false, Some(PreparedAddress()), true) == Ok(Out(t, cache))
    ensures Content(PersonEnv(excel, headers), cache, PersonProps(first, last, age, address)[k], false, PreparedPerson().attrs[k].Child(), true)
         == Ok(Out(PersonFields(excel, first, last, age, t)[k], cache))
  {
    if k == 1 { QuotedField(excel, last); }
    if k == 2 { QuotedField(excel, first); }
    if k == 3 { AgeField(excel, age); }
  }

  /** The person columns from `k` on: the address group writes `t`, then
      the names quoted and the age. */
  lemma {:induction false} PersonCellsFrom(excel: bool, headers: bool, cache: Cache, first: string, last: string, age: string, address: Value, t: string, k: nat)
    requires Valid(cache) && Plain(first) && Plain(last) && Plain(age) && k <= 4
    requires Content(PersonEnv(excel, headers), cache, address, false, Some(PreparedAddress()), true) == Ok(Out(t, cache))
    ensures ObjectCells(PersonEnv(excel, headers), cache, PersonValue(first, last, age, address), PreparedPerson(), k, true)
         == Ok(Cells(PlainCells(PersonFields(excel, first, last, age, t)[k..]), cache))
    decreases 4 - k
  {
    var fs := PersonFields(excel, first, last, age, t);
    if k < 4 {
      PersonCellsFrom(excel, headers, cache, first, last, age, address, t, k + 1);
      var x := PersonProps(first, last, age, address)[k];
      PersonReads(first, last, age, address, k);
      PersonColumn(excel, headers, cache, first, last, age, address, t, k);
      assert fs[k..][0] == fs[k] && fs[k..][1..] == fs[k + 1..];
      CellStep(PersonEnv(excel, headers), cache, PersonValue(first, last, age, address), PreparedPerson(), k, x, fs[k..]);
    }
  }

  /** A person is its address text, then the names quoted, then the age. */
  lemma PersonText(excel: bool, headers: bool, cache: Cache, first: string, last: string, age: string, address: Value, t: string)
    requires Valid(cache) && Plain(first) && Plain(last) && Plain(age)
    requires Content(PersonEnv(excel, headers), cache, address, false, Some(PreparedAddress()), true) == Ok(Out(t, cache))
    ensures Content(PersonEnv(excel, headers), cache, PersonValue(first, last, age, address), true, Some(PersonMapping()), true)
         == Ok(Out(t + "," + Field(excel, last) + "," + Field(excel, first) + "," + AgeText(excel, age), cache))
  {
    var env, v := PersonEnv(excel, headers), PersonValue(first, last, age, address);
    var fs := PersonFields(excel, first, last, age, t);
    assert ObjectCells(env, cache, v, PersonMapping(), 0, true) == Ok(Cells(PlainCells(fs), cache)) by {
      PersonPrepared();
      PreparedFirst(env, cache, v, PersonMapping(), PreparedPerson());
      PersonCellsFrom(excel, headers, cache, first, last, age, address, t, 0);
      assert fs[0..] == fs;
    }
    PersonResolves(headers);
    PlainContent(env, cache, v, true, PersonMapping(), fs);
    Join4(fs[0], fs[1], fs[2], fs[3], ",");
  }

  /** The six person headers, in the order the header line writes them. */
  const PersonHeaders: seq<string> := ["Street", "City", "State", "LastName", "FirstName", "Age"]

  /** What the header phase writes for a person: the quoted headers and a
      newline when headers are on, nothing otherwise. */
  function HeaderPart(excel: bool, headers: bool): string
  {
    if headers then Join(QuoteAll(excel, PersonHeaders), ",") + "\n" else ""
  }

  /** With headers off nothing precedes the data line. */
  lemma NoHeaderPart(excel: bool, t: string)
    ensures HeaderPart(excel, false) + t == t
  {
    assert "" + t == t;
  }

  /** The header phase on an object whose class hits the cache: the header
      line, with the registry unchanged once the mapping prepares. */
  lemma HeaderPhaseHit(env: Env, cache: Cache, v: Value, cls: ClassId, m: Mapping, line: string, p: Option<Mapping>)
    requires Valid(cache) && v.Obj? && v.objClass == cls && env.cfg.writeHeaders
    requires Resolve(env.u, env.cfg, cache, cls, env.fuel) == Ok(Resolved(Some(m), cache))
    requires HeaderLineOf(env, m) == Ok(line)
    requires PrepareFor(env.u, cls, Some(m)) == Ok(p)
    ensures HeaderPhase(env, cache, v) == Ok(Out(line, cache))
  {
    assert Probe(v) == Some(v);
  }

  /** `serialize` of an object whose class hits the cache: what the header
      phase wrote, then the object's content. */
  lemma SerializeHit(env: Env, cache: Cache, v: Value, cls: ClassId, m: Mapping, head: string, body: string)
    requires Valid(cache) && v.Obj? && v.objClass == cls
    requires env.cfg.writeHeaders ==> HeaderPhase(env, cache, v) == Ok(Out(head, cache))
    requires !env.cfg.writeHeaders ==> head == ""
    requires Resolve(env.u, env.cfg, cache, cls, env.fuel) == Ok(Resolved(Some(m), cache))
    requires Content(env, cache, v, true, Some(m), true) == Ok(Out(body, cache))
    ensures Serialize(env, cache, v) == Ok(Out(head + body, cache))
  {
    assert !env.cfg.writeHeaders ==> head + body == body;
  }

  /** With headers on, a person's header line is the quoted headers and a newline. */
  lemma PersonHeaderLineOf(excel: bool)
    ensures HeaderLineOf(PersonEnv(excel, true), PersonMapping()) == Ok(HeaderPart(excel, true))
  {
    PersonHeaderLine(excel);
  }

  lemma PersonPrepareFor()
    ensures PrepareFor(PersonUniverse, PersonClass, Some(PersonMapping())) == Ok(Some(PreparedPerson()))
  {
    PersonPrepared();
  }

  /** The header phase on a person: the header line when headers are on,
      then the mapping prepared against `Person`; the registry is unchanged. */
  lemma PersonHeaderPhase(excel: bool, v: Value)
    requires v.Obj? && v.objClass == PersonClass
    ensures HeaderPhase(PersonEnv(excel, true), Registered(), v) == Ok(Out(HeaderPart(excel, true), Registered()))
  {
    var env := PersonEnv(excel, true);
    PersonResolves(true);
    PersonHeaderLineOf(excel);
    PersonPrepareFor();
    HeaderPhaseHit(env, Registered(), v, PersonClass, PersonMapping(), HeaderPart(excel, true), Some(PreparedPerson()));
  }

  /** `serialize` of a person with the registered mapping: the header part,
      then the data line. */
  lemma PersonSerialized(excel: bool, headers: bool, first: string, last: string, age: string, address: Value, t: string)
    requires Plain(first) && Plain(last) && Plain(age)
    requires Content(PersonEnv(excel, headers), Registered(), address, false, Some(PreparedAddress()), true) == Ok(Out(t, Registered()))
    ensures Serialize(PersonEnv(excel, headers), Registered(), PersonValue(first, last, age, address))
         == Ok(Out(HeaderPart(excel, headers) + (t + "," + Field(excel, last) + "," + Field(excel, first) + "," + AgeText(excel, age)), Registered()))
  {
    var env, v := PersonEnv(excel, headers), PersonValue(first, last, age, address);
    var body := t + "," + Field(excel, last) + "," + Field(excel, first) + "," + AgeText(excel, age);
    if headers {
      PersonHeaderPhase(excel, v);
    }
    PersonResolves(headers);
    PersonText(excel, headers, Registered(), first, last, age, address, t);
    SerializeHit(env, Registered(), v, PersonClass, PersonMapping(), HeaderPart(excel, headers), body);
  }

  /** The output for a person: the header part, then the three address
      fields, the last and first names, and the age, each quoted except the
      plain-mode age. */
  lemma PersonRow(excel: bool, headers: bool, first: string, last: string, age: string, street: string, city: string, state: string)
    requires Plain(first) && Plain(last) && Plain(age) && Plain(street) && Plain(city) && Plain(state)
    ensures Serialize(PersonEnv(excel, headers), Registered(), PersonValue(first, last, age, AddressValue(street, city, state)))
         == Ok(Out(HeaderPart(excel, headers) + (Field(excel, street) + "," + Field(excel, city) + "," + Field(excel, state) + ","
                   + Field(excel, last) + "," + Field(excel, first) + "," + AgeText(excel, age)), Registered()))
  {
    var a := Field(excel, street) + "," + Field(excel, city) + "," + Field(excel, state);
    AddressCell(excel, headers, Registered(), street, city, state);
    PersonSerialized(excel, headers, first, last, age, AddressValue(street, city, state), a);
  }

  /** With a null address the three address columns stay empty: two
      separators from the group, one after it. */
  lemma NullAddressRow(excel: bool, headers: bool, first: string, last: string, age: string)
    requires Plain(first) && Plain(last) && Plain(age)
    ensures Serialize(PersonEnv(excel, headers), Registered(), PersonValue(first, last, age, Null))
         == Ok(Out(HeaderPart(excel, headers) + (",,," + Field(excel, last) + "," + Field(excel, first) + "," + AgeText(excel, age)), Registered()))
  {
    assert Commas(2) == "," + ("," + Commas(0)) == ",,";
    assert NullFill(Some(PreparedAddress())) == Ok(",,");
    PersonSerialized(excel, headers, first, last, age, Null, ",,");
    assert ",," + "," == ",,,";
  }

  lemma SamplePlain()
    ensures Plain("Joe") && Plain("Doe") && Plain("30") && Plain("101 1st str") && Plain("San Francisco") && Plain("CA")
    ensures Plain("Bob") && Plain("Homeless") && Plain("60")
  {
  }

  function Joe(address: Value): Value
  {
    PersonValue("Joe", "Doe", "30", address)
  }

  function JoesAddress(): Value
  {
    AddressValue("101 1st str", "San Francisco", "CA")
  }

  /** Bob Homeless, aged 60, has no address. */
  function Bob(): Value
  {
    PersonValue("Bob", "Homeless", "60", Null)
  }

  /** Joe Doe's data line: every field quoted except the age. */
  lemma SampleRow()
    ensures Serialize(PersonEnv(false, false), Registered(), Joe(JoesAddress()))
         == Ok(Out("\"101 1st str\",\"San Francisco\",\"CA\",\"Doe\",\"Joe\",30", Registered()))
  {
    SamplePlain();
    PersonRow(false, false, "Joe", "Doe", "30", "101 1st str", "San Francisco", "CA");
    SampleText();
    NoHeaderPart(false, "\"101 1st str\",\"San Francisco\",\"CA\",\"Doe\",\"Joe\",30");
  }

  /** The data line split after the address group. */
  lemma RowHalves(excel: bool, a: string, b: string, c: string, d: string, e: string, age: string)
    ensures Field(excel, a) + "," + Field(excel, b) + "," + Field(excel, c) + "," + Field(excel, d) + "," + Field(excel, e) + "," + AgeText(excel, age)
         == (Field(excel, a) + "," + Field(excel, b) + "," + Field(excel, c)) + ("," + Field(excel, d) + "," + Field(excel, e) + "," + AgeText(excel, age))
  {
  }

  lemma SampleAddressText()
    ensures Field(false, "101 1st str") + "," + Field(false, "San Francisco") + "," + Field(false, "CA")
         == "\"101 1st str\",\"San Francisco\",\"CA\""
  {
    var a, c := Field(false, "101 1st str"), Field(false, "San Francisco");
    assert a == "\"101 1st str\"";
    assert c == "\"San Francisco\"";
    assert a + "," + c == "\"101 1st str\",\"San Francisco\"";
  }

  lemma SamplePersonText()
    ensures "," + Field(false, "Doe") + "," + Field(false, "Joe") + "," + AgeText(false, "30") == ",\"Doe\",\"Joe\",30"
  {
  }

  lemma SampleText()
    ensures Field(false, "101 1st str") + "," + Field(false, "San Francisco") + "," + Field(false, "CA") + ","
            + Field(false, "Doe") + "," + Field(false, "Joe") + "," + AgeText(false, "30")
         == "\"101 1st str\",\"San Francisco\",\"CA\",\"Doe\",\"Joe\",30"
  {
    RowHalves(false, "101 1st str", "San Francisco", "CA", "Doe", "Joe", "30");
    SampleAddressText();
    SamplePersonText();
    assert "\"101 1st str\",\"San Francisco\",\"CA\"" + ",\"Doe\",\"Joe\",30" == "\"101 1st str\",\"San Francisco\",\"CA\",\"Doe\",\"Joe\",30";
  }

  lemma SampleExcelAddressText()
    ensures Field(true, "101 1st str") + "," + Field(true, "San Francisco") + "," + Field(true, "CA")
         == "=\"101 1st str\",=\"San Francisco\",=\"CA\""
  {
    var a, c := Field(true, "101 1st str"), Field(true, "San Francisco");
    assert a == "=\"101 1st str\"";
    assert c == "=\"San Francisco\"";
    assert a + "," + c == "=\"101 1st str\",=\"San Francisco\"";
  }

  lemma SampleExcelPersonText()
    ensures "," + Field(true, "Doe") + "," + Field(true, "Joe") + "," + AgeText(true, "30") == ",=\"Doe\",=\"Joe\",=\"30\""
  {
  }

  lemma SampleExcelText()
    ensures Field(true, "101 1st str") + "," + Field(true, "San Francisco") + "," + Field(true, "CA") + ","
            + Field(true, "Doe") + "," + Field(true, "Joe") + "," + AgeText(true, "30")
         == "=\"101 1st str\",=\"San Francisco\",=\"CA\",=\"Doe\",=\"Joe\",=\"30\""
  {
    RowHalves(true, "101 1st str", "San Francisco", "CA", "Doe", "Joe", "30");
    SampleExcelAddressText();
    SampleExcelPersonText();
    assert "=\"101 1st str\",=\"San Francisco\",=\"CA\"" + ",=\"Doe\",=\"Joe\",=\"30\""
        == "=\"101 1st str\",=\"San Francisco\",=\"CA\",=\"Doe\",=\"Joe\",=\"30\"";
  }

  lemma SampleBobText()
    ensures ",,," + Field(false, "Homeless") + "," + Field(false, "Bob") + "," + AgeText(false, "60") == ",,,\"Homeless\",\"Bob\",60"
  {
  }

  /** In Excel mode every field, the age included, is `=` and a quoted text. */
  lemma SampleExcelRow()
    ensures Serialize(PersonEnv(true, false), Registered(), Joe(JoesAddress()))
         == Ok(Out("=\"101 1st str\",=\"San Francisco\",=\"CA\",=\"Doe\",=\"Joe\",=\"30\"", Registered()))
  {
    SamplePlain();
    PersonRow(true, false, "Joe", "Doe", "30", "101 1st str", "San Francisco", "CA");
    SampleExcelText();
    NoHeaderPart(true, "=\"101 1st str\",=\"San Francisco\",=\"CA\",=\"Doe\",=\"Joe\",=\"30\"");
  }

  /** Bob has no address, so its three columns stay empty. */
  lemma SampleNullAddressRow()
    ensures Serialize(PersonEnv(false, false), Registered(), Bob()) == Ok(Out(",,,\"Homeless\",\"Bob\",60", Registered()))
  {
    SamplePlain();
    NullAddressRow(false, false, "Bob", "Homeless", "60");
    SampleBobText();
    NoHeaderPart(false, ",,,\"Homeless\",\"Bob\",60");
  }

  /** A plain header is written as a quoted field. */
  lemma QuotedHeader(excel: bool, h: string)
    requires Plain(h)
    ensures WriteQuoted(excel, Some(h)) == Field(excel, h)
  {
  }

  /** The header cells are the six headers as quoted fields, `=` first in
      Excel mode. */
  lemma HeaderFields(excel: bool)
    ensures QuoteAll(excel, PersonHeaders)
         == [Field(excel, "Street"), Field(excel, "City"), Field(excel, "State"),
             Field(excel, "LastName"), Field(excel, "FirstName"), Field(excel, "Age")]
  {
    var hs := PersonHeaders;
    var fs := [Field(excel, "Street"), Field(excel, "City"), Field(excel, "State"),
               Field(excel, "LastName"), Field(excel, "FirstName"), Field(excel, "Age")];
    forall k | 0 <= k < 6
      ensures QuoteAll(excel, hs)[k] == fs[k]
    {
      assert fs[k] == Field(excel, hs[k]);
      QuotedHeader(excel, hs[k]);
    }
  }

  /** What the provider writes for Bob in plain mode: the header line, then
      his data line with the three address columns empty. */
  lemma SampleProviderRow()
    ensures Serialize(PersonEnv(false, true), Registered(), Bob())
         == Ok(Out(HeaderPart(false, true) + ",,,\"Homeless\",\"Bob\",60", Registered()))
  {
    SamplePlain();
    NullAddressRow(false, true, "Bob", "Homeless", "60");
    SampleBobText();
  }
}
