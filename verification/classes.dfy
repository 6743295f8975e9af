/** Java reflection reduced to tables: the class universe the registry and the
    writer consult instead of `Class` and `Method` objects. */
module Classes {
  import opened Wrappers

  /** A class, identified by its name. */
  type ClassId = string

  /** What `java.lang.reflect.Method` tells the model about one method. */
  datatype MethodInfo = MethodInfo(name: string, isPublic: bool, arity: nat, returnType: ClassId)

  /** The reflective facts about every class the model can meet. */
  datatype Universe = Universe(
    subtypes: set<(ClassId, ClassId)>,        // (a, b): b is a proper subtype of a; every ancestor pair is listed, not only direct ones
    componentType: map<ClassId, ClassId>,     // array classes to their element class
    typeVariableClass: map<ClassId, ClassId>, // generic classes to the class of the reflective object of their first type parameter
    primitives: set<ClassId>,
    stringClass: ClassId,
    booleanClass: ClassId,
    collectionClass: ClassId,                 // java.util.Collection
    declaredMethods: map<ClassId, seq<MethodInfo>>, // `getDeclaredMethods()`, in enumeration order
    publicMethods: map<ClassId, seq<MethodInfo>>)   // what `getMethod` searches: public, inherited included

  /** `a.isAssignableFrom(b)`: reflexive, otherwise as the subtype table says. */
  predicate AssignableFrom(u: Universe, a: ClassId, b: ClassId)
  {
    a == b || (a, b) in u.subtypes
  }

  /** `c.getComponentType()`: `None` for every class that is not an array. */
  function ComponentType(u: Universe, c: ClassId): Option<ClassId>
  {
    if c in u.componentType then Some(u.componentType[c]) else None
  }

  /** `c.isPrimitive() || c == String.class`. */
  predicate IsSimple(u: Universe, c: ClassId)
  {
    c in u.primitives || c == u.stringClass
  }

  function DeclaredMethods(u: Universe, c: ClassId): seq<MethodInfo>
  {
    if c in u.declaredMethods then u.declaredMethods[c] else []
  }

  function PublicMethods(u: Universe, c: ClassId): seq<MethodInfo>
  {
    if c in u.publicMethods then u.publicMethods[c] else []
  }

  /** The first zero-argument method named `name` in `ms`. */
  function FindMethod(ms: seq<MethodInfo>, name: string): (r: Option<MethodInfo>)
    ensures r.Some? ==> r.value in ms && r.value.name == name && r.value.arity == 0
    ensures r.None? <==> forall m :: m in ms ==> m.name != name || m.arity != 0
  {
    if ms == [] then None
    else if ms[0].name == name && ms[0].arity == 0 then Some(ms[0])
    else FindMethod(ms[1..], name)
  }

  /** The lookup answers the first zero-argument method of that name. */
  lemma {:induction false} FindMethodAt(ms: seq<MethodInfo>, k: nat)
    requires k < |ms| && ms[k].arity == 0
    requires forall j :: 0 <= j < k ==> ms[j].name != ms[k].name
    ensures FindMethod(ms, ms[k].name) == Some(ms[k])
  {
    if k > 0 {
      FindMethodAt(ms[1..], k - 1);
      assert ms[1..][k - 1] == ms[k];
    }
  }

  /** `c.getMethod(name)`: `None` stands for `NoSuchMethodException`. */
  function GetMethod(u: Universe, c: ClassId, name: string): Option<MethodInfo>
  {
    FindMethod(PublicMethods(u, c), name)
  }
}
