/** The bookkeeping of the abstract base classes: a material's attributes
    (density and name) with the "update only known attributes" rule, and
    the constitutive-law id counter with its default names. */
module CoreBase {
  import opened Results
  import opened Sums

  // ---------------------------------------------------------------------
  // Materials

  /** An attribute value: a number or a text. */
  datatype Value = Num(num: real) | Text(text: string)

  /** A material is its instance namespace, the private names set by the
      constructor (`_density`, `_name`) and any set later, together with
      the names its class provides, which `hasattr` sees as well. */
  datatype Material = Material(attrs: map<string, Value>, classAttrs: set<string>)

  /** The names starting with an underscore that `hasattr` finds on a
      `Material` instance through its class, as of CPython 3.11 and 3.12:
      the class's own entries (`__materials__` and its annotation table,
      the constructor, module and doc entries), what `abc.ABC` and its
      metaclass add (`__slots__`, `_abc_impl`, `__abstractmethods__`), and
      the methods every `object` has. The data descriptors `__class__`,
      `__dict__` and `__weakref__` are not among them (see Left out). */
  const MaterialClassAttributes: set<string> :=
    {"__materials__", "__annotations__", "__init__", "__module__", "__doc__",
     "__slots__", "_abc_impl", "__abstractmethods__",
     "__delattr__", "__dir__", "__eq__", "__format__", "__ge__",
     "__getattribute__", "__getstate__", "__gt__", "__hash__",
     "__init_subclass__", "__le__", "__lt__", "__ne__", "__new__",
     "__reduce__", "__reduce_ex__", "__repr__", "__setattr__", "__sizeof__",
     "__str__", "__subclasshook__"}

  /** `hasattr(material, name)`. */
  predicate Visible(m: Material, name: string)
  {
    name in m.attrs || name in m.classAttrs
  }

  /** The constructor keeps the magnitude of the density and names the
      material "Material" when no name is given; `classAttrs` are the names
      of the instance's class. */
  function NewMaterial(density: real, name: Option<string>,
                       classAttrs: set<string> := MaterialClassAttributes): (m: Material)
    ensures m.attrs.Keys == {"_density", "_name"} && m.classAttrs == classAttrs
    ensures m.attrs["_density"].Num? && m.attrs["_density"].num >= 0.0
    ensures m.attrs["_density"].num == density || m.attrs["_density"].num == -density
    ensures m.attrs["_name"] == Text(if name.Some? then name.value else "Material")
  {
    Material(map["_density" := Num(Abs(density)), "_name" := Text(name.GetOr("Material"))], classAttrs)
  }

  /** `update_attributes`: walk the entries in order; an entry (key, value)
      sets `_key` on the instance when `hasattr` finds that name, on the
      instance or on its class, and is skipped (with a warning) otherwise.
      Setting a name found only on the class creates an instance attribute
      that shadows it. */
  function UpdateAttributes(m: Material, updates: seq<(string, Value)>): (r: Material)
    ensures r.classAttrs == m.classAttrs
    ensures m.attrs.Keys <= r.attrs.Keys <= m.attrs.Keys + m.classAttrs
  {
    if |updates| == 0 then m
    else
      var before := UpdateAttributes(m, updates[..|updates| - 1]);
      var (key, value) := updates[|updates| - 1];
      if Visible(before, "_" + key) then Material(before.attrs["_" + key := value], before.classAttrs)
      else before
  }

  /** The value of the last entry that targets the attribute `attr`, if any. */
  function LastWrite(updates: seq<(string, Value)>, attr: string): Option<Value>
  {
    if |updates| == 0 then None
    else if "_" + updates[|updates| - 1].0 == attr then Some(updates[|updates| - 1].1)
    else LastWrite(updates[..|updates| - 1], attr)
  }

  /** After an update each existing attribute holds the value of the last
      entry targeting it, or its old value when no entry does. */
  lemma {:induction false} UpdateIsLastWrite(m: Material, updates: seq<(string, Value)>, attr: string)
    requires attr in m.attrs
    ensures UpdateAttributes(m, updates).attrs[attr] == LastWrite(updates, attr).GetOr(m.attrs[attr])
  {
    if |updates| > 0 {
      UpdateIsLastWrite(m, updates[..|updates| - 1], attr);
    }
  }

  /** An entry naming no attribute of the instance or its class changes
      nothing. */
  lemma UnknownKeyIgnored(m: Material, key: string, value: Value)
    requires !Visible(m, "_" + key)
    ensures UpdateAttributes(m, [(key, value)]) == m
  {
    assert [(key, value)][..0] == [];
  }

  /** Updating touches only the attributes that some entry targets. */
  lemma UpdateTouchesOnlyTargets(m: Material, updates: seq<(string, Value)>, attr: string)
    requires attr in m.attrs
    requires forall i :: 0 <= i < |updates| ==> "_" + updates[i].0 != attr
    ensures UpdateAttributes(m, updates).attrs[attr] == m.attrs[attr]
  {
    UpdateIsLastWrite(m, updates, attr);
    NoWrite(updates, attr);
  }

  lemma {:induction false} NoWrite(updates: seq<(string, Value)>, attr: string)
    requires forall i :: 0 <= i < |updates| ==> "_" + updates[i].0 != attr
    ensures LastWrite(updates, attr) == None
  {
    if |updates| > 0 {
      NoWrite(updates[..|updates| - 1], attr);
    }
  }

  /** A name found only on the class gains an instance attribute exactly
      when some entry targets it, holding the last such entry's value. */
  lemma {:induction false} ClassAttributeShadowed(m: Material, updates: seq<(string, Value)>, attr: string)
    requires attr in m.classAttrs && attr !in m.attrs
    ensures var r := UpdateAttributes(m, updates);
      (attr in r.attrs <==> LastWrite(updates, attr).Some?)
      && (attr in r.attrs ==> r.attrs[attr] == LastWrite(updates, attr).value)
  {
    if |updates| > 0 {
      ClassAttributeShadowed(m, updates[..|updates| - 1], attr);
    }
  }

  /** Updating "abc_impl" finds the class's `_abc_impl` and so adds an
      instance attribute `_abc_impl`. */
  lemma AbcImplShadowed()
    ensures var m := UpdateAttributes(NewMaterial(2400.0, None), [("abc_impl", Num(1.0))]);
      m.attrs.Keys == {"_density", "_name", "_abc_impl"} && m.attrs["_abc_impl"] == Num(1.0)
  {
    var m0 := NewMaterial(2400.0, None);
    var u := [("abc_impl", Num(1.0))];
    assert u[..0] == [];
    assert UpdateAttributes(m0, u[..0]) == m0;
    assert "_" + "abc_impl" == "_abc_impl";
    assert Visible(m0, "_abc_impl");
    var r := UpdateAttributes(m0, u);
    assert r.attrs == m0.attrs["_abc_impl" := Num(1.0)];
  }

  /** Updating "_repr__" finds `__repr__`, which every object has, and so
      adds an instance attribute `__repr__`. */
  lemma ReprShadowed()
    ensures var m := UpdateAttributes(NewMaterial(1.0, None), [("_repr__", Num(5.0))]);
      m.attrs.Keys == {"_density", "_name", "__repr__"} && m.attrs["__repr__"] == Num(5.0)
  {
    var m0 := NewMaterial(1.0, None);
    var u := [("_repr__", Num(5.0))];
    assert u[..0] == [];
    assert UpdateAttributes(m0, u[..0]) == m0;
    assert "_" + "_repr__" == "__repr__";
    assert Visible(m0, "__repr__");
    var r := UpdateAttributes(m0, u);
    assert r.attrs == m0.attrs["__repr__" := Num(5.0)];
  }

  /** The constructor's non-negative density is not protected afterwards:
      updating "density" stores the given value as is. */
  lemma UpdateCanMakeDensityNegative()
    ensures var m := UpdateAttributes(NewMaterial(2400.0, None), [("density", Num(-1.0))]);
      m.attrs["_density"] == Num(-1.0)
  {
    var m0 := NewMaterial(2400.0, None);
    UpdateIsLastWrite(m0, [("density", Num(-1.0))], "_density");
  }

  // ---------------------------------------------------------------------
  // Constitutive-law ids

  /** The class attribute `constitutive_law_counter`: its value on the
      base class, and the values that the increments have stored on the
      concrete classes (named by their class names). */
  datatype Counters = Counters(base: nat, perClass: map<string, nat>)

  const InitialCounters: Counters := Counters(0, map[])

  /** The counter as read through a class: its own value once an increment
      has stored one there, the base class's value before. */
  function Current(c: Counters, cls: string): nat
  {
    if cls in c.perClass then c.perClass[cls] else c.base
  }

  /** What the base constructor leaves on a new law. */
  datatype LawHeader = LawHeader(id: nat, name: string)

  /** `ConstitutiveLaw.__init__` for an instance of class `cls`: the id is
      the counter read through the class, the name is the given one or
      "ConstitutiveLaw_<id>", and the increment stores id + 1 on `cls`. */
  function NewLaw(c: Counters, cls: string, name: Option<string>): (r: (LawHeader, Counters))
    ensures r.0.id == Current(c, cls)
    ensures Current(r.1, cls) == Current(c, cls) + 1
    ensures forall other :: other != cls ==> Current(r.1, other) == Current(c, other)
    ensures r.0.name == if name.Some? then name.value else DefaultLawName(r.0.id)
  {
    var id := Current(c, cls);
    (LawHeader(id, name.GetOr(DefaultLawName(id))), c.(perClass := c.perClass[cls := id + 1]))
  }

  /** The ids of k laws of one class created in a row. */
  function CreateMany(c: Counters, cls: string, k: nat): (r: (seq<nat>, Counters))
    ensures |r.0| == k
  {
    if k == 0 then ([], c)
    else
      var (ids, c1) := CreateMany(c, cls, k - 1);
      var (h, c2) := NewLaw(c1, cls, None);
      (ids + [h.id], c2)
  }

  /** Laws of one class get consecutive ids starting at the class's
      current counter, and the counter ends k further on. */
  lemma {:induction false} IdsConsecutive(c: Counters, cls: string, k: nat)
    ensures var (ids, c2) := CreateMany(c, cls, k);
      (forall i :: 0 <= i < k ==> ids[i] == Current(c, cls) + i)
      && Current(c2, cls) == Current(c, cls) + k
  {
    if k > 0 {
      IdsConsecutive(c, cls, k - 1);
    }
  }

  /** Creating laws of one class leaves every other class's counter alone. */
  lemma {:induction false} OtherClassesUntouched(c: Counters, cls: string, k: nat, other: string)
    requires other != cls
    ensures Current(CreateMany(c, cls, k).1, other) == Current(c, other)
  {
    if k > 0 {
      OtherClassesUntouched(c, cls, k - 1, other);
    }
  }

  /** Because the increment lands on the concrete class, the first law of
      one class and the first law of another both get id 0. */
  lemma IdsSharedAcrossClasses()
    ensures var (a, c1) := NewLaw(InitialCounters, "Elastic", None);
      var (b, _) := NewLaw(c1, "ElasticPlastic", None);
      a.id == 0 && b.id == 0
  {
  }

  // ---------------------------------------------------------------------
  // Default names

  function DigitChar(d: nat): char
    requires d < 10
  {
    "0123456789"[d]
  }

  function DigitValue(ch: char): nat
  {
    if '0' <= ch <= '9' then (ch - '0') as nat else 0
  }

  /** The decimal representation Python's f-string gives a natural number. */
  function NatToString(n: nat): (s: string)
    ensures |s| >= 1
    ensures forall i :: 0 <= i < |s| ==> '0' <= s[i] <= '9'
  {
    if n < 10 then [DigitChar(n)] else NatToString(n / 10) + [DigitChar(n % 10)]
  }

  /** Reading a string of decimal digits back as a number. */
  function ParseNat(s: string): nat
  {
    if |s| == 0 then 0 else ParseNat(s[..|s| - 1]) * 10 + DigitValue(s[|s| - 1])
  }

  lemma {:induction false} ParseNatToString(n: nat)
    ensures ParseNat(NatToString(n)) == n
  {
    var s := NatToString(n);
    if n < 10 {
      assert s[..0] == [];
      DigitRoundTrip(n);
    } else {
      assert s[..|s| - 1] == NatToString(n / 10);
      ParseNatToString(n / 10);
      DigitRoundTrip(n % 10);
    }
  }

  lemma DigitRoundTrip(d: nat)
    requires d < 10
    ensures DigitValue(DigitChar(d)) == d
  {
  }

  const LawNamePrefix: string := "ConstitutiveLaw_"

  /** The name a law gets when none is given. */
  function DefaultLawName(id: nat): string
  {
    LawNamePrefix + NatToString(id)
  }

  /** Different ids give different default names, and the id can be read
      back from the name. */
  lemma DefaultNameInjective(a: nat, b: nat)
    ensures ParseNat(DefaultLawName(a)[|LawNamePrefix|..]) == a
    ensures DefaultLawName(a) == DefaultLawName(b) ==> a == b
  {
    assert DefaultLawName(a)[|LawNamePrefix|..] == NatToString(a);
    assert DefaultLawName(b)[|LawNamePrefix|..] == NatToString(b);
    ParseNatToString(a);
    ParseNatToString(b);
  }

  /** The first law created gets the default name "ConstitutiveLaw_0". */
  lemma FirstDefaultName()
    ensures NewLaw(InitialCounters, "Elastic", None).0.name == "ConstitutiveLaw_0"
  {
  }
}
