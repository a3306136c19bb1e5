/** The property probes of harness/propertyHelper.ts over ordinary objects (section 10.1 of ECMA-262)
    with own data properties only, viewed as a map, and without inherited properties. */
module PropertyHelper {
  import opened Types

  type NonZero = r: real | r != 0.0 witness 1.0

  datatype Number = NaN | PosInf | NegInf | PosZero | NegZero | Finite(r: NonZero)

  /** A language value; objects, functions and symbols are references. */
  datatype Value = Undefined | Null | Bool(b: bool) | Num(n: Number) | Str(s: string) | Ref(id: nat)

  predicate IsZero(v: Value) {
    v == Num(PosZero) || v == Num(NegZero)
  }

  /** The strict equality operator. */
  predicate StrictlyEqual(a: Value, b: Value) {
    if a == Num(NaN) || b == Num(NaN) then false else a == b || (IsZero(a) && IsZero(b))
  }

  /** One divided by a zero. */
  function Reciprocal(v: Value): Value
    requires IsZero(v)
  {
    if v == Num(PosZero) then Num(PosInf) else Num(NegInf)
  }

  function IsSameValue(a: Value, b: Value): (r: bool)
    ensures r <==> a == b
  {
    if StrictlyEqual(a, Num(PosZero)) && StrictlyEqual(b, Num(PosZero)) then
      StrictlyEqual(Reciprocal(a), Reciprocal(b))
    else if !StrictlyEqual(a, a) && !StrictlyEqual(b, b) then true
    else StrictlyEqual(a, b)
  }

  predicate Truthy(v: Value) {
    match v
    case Undefined | Null => false
    case Bool(b) => b
    case Num(n) => !n.NaN? && !n.PosZero? && !n.NegZero?
    case Str(s) => s != ""
    case Ref(_) => true
  }

  datatype Property = Property(value: Value, writable: bool, enumerable: bool, configurable: bool)

  const UNLIKELY := Str("unlikelyValue")
  const UNLIKELY2 := Str("unlikelyValue2")

  /** Changes of a property that is not configurable that section 10.1.6.3 still lets pass. */
  predicate Compatible(current: Property, desc: Property) {
    current.configurable ||
    (!desc.configurable && desc.enumerable == current.enumerable &&
     (current.writable || (!desc.writable && desc.value == current.value)))
  }

  /** What a call to verifyProperty comes to. */
  datatype Outcome = Returned | AssertFailed | TypeError

  /** The descriptor argument: undefined, null, another primitive, or an object's own fields. */
  datatype Desc = NoDesc | NullDesc | PrimitiveDesc | Fields(fields: map<string, Value>)

  predicate IsField(k: string) {
    k == "value" || k == "writable" || k == "enumerable" || k == "configurable" || k == "get" || k == "set"
  }

  predicate Named(f: map<string, Value>) {
    forall k :: k in f ==> IsField(k)
  }

  /** The flag is absent, undefined, or the real one. */
  predicate FlagAgrees(f: map<string, Value>, k: string, actual: bool) {
    k in f && f[k] != Undefined ==> f[k] == Bool(actual)
  }

  /** The descriptor describes the property. */
  predicate Describes(f: map<string, Value>, p: Property) {
    Named(f) && ("value" in f ==> f["value"] == p.value) &&
    FlagAgrees(f, "enumerable", p.enumerable) && FlagAgrees(f, "writable", p.writable) &&
    FlagAgrees(f, "configurable", p.configurable)
  }

  /** The configurability probe removes the property: it is only tried when the descriptor's flag is the
      real one, and only succeeds when that is true. */
  predicate ProbeDeletes(f: map<string, Value>, p: Property) {
    Named(f) && "configurable" in f && f["configurable"] == Bool(true) && p.configurable
  }

  class OrdinaryObject {
    var props: map<string, Property>
    var extensible: bool

    constructor (props: map<string, Property>, extensible: bool)
      ensures this.props == props && this.extensible == extensible
    {
      this.props := props;
      this.extensible := extensible;
    }

    method Get(name: string) returns (v: Value)
      ensures v == if name in props then props[name].value else Undefined
    {
      v := if name in props then props[name].value else Undefined;
    }

    /** OrdinarySet; false where strict code throws a TypeError and sloppy code goes on. */
    method Set(name: string, v: Value) returns (ok: bool)
      modifies `props
      ensures ok == if name in old(props) then old(props)[name].writable else extensible
      ensures props == if !ok then old(props)
                       else if name in old(props) then old(props)[name := old(props)[name].(value := v)]
                       else old(props)[name := Property(v, true, true, true)]
    {
      if name in props {
        if !props[name].writable { return false; }
        props := props[name := props[name].(value := v)];
        return true;
      }
      if !extensible { return false; }
      props := props[name := Property(v, true, true, true)];
      return true;
    }

    /** OrdinaryDelete */
    method Delete(name: string) returns (ok: bool)
      modifies `props
      ensures ok == (name in old(props) ==> old(props)[name].configurable)
      ensures props == if ok then old(props) - {name} else old(props)
    {
      if name in props && !props[name].configurable { return false; }
      props := props - {name};
      return true;
    }

    /** OrdinaryDefineOwnProperty with a complete data descriptor. */
    method Define(name: string, desc: Property) returns (ok: bool)
      modifies `props
      ensures ok == if name in old(props) then Compatible(old(props)[name], desc) else extensible
      ensures props == if ok then old(props)[name := desc] else old(props)
    {
      ok := if name in props then Compatible(props[name], desc) else extensible;
      if ok { props := props[name := desc]; }
    }

    method IsConfigurable(name: string) returns (r: bool)
      modifies `props
      ensures name in old(props) ==> r == old(props)[name].configurable
      ensures name !in old(props) ==> r
      ensures props == if r then old(props) - {name} else old(props)
    {
      var _ := Delete(name);
      r := name !in props;
    }

    /** The names a for-in loop visits, in any order. */
    method EnumerableNames() returns (names: seq<string>)
      ensures forall k :: k in names <==> k in props && props[k].enumerable
    {
      names := [];
      var rest := props.Keys;
      while rest != {}
        invariant rest <= props.Keys
        invariant forall k :: k in names <==> k in props.Keys - rest && props[k].enumerable
        decreases rest
      {
        var k :| k in rest;
        if props[k].enumerable { names := names + [k]; }
        rest := rest - {k};
      }
    }

    method IsEnumerable(name: string) returns (r: bool)
      ensures r == (name in props && props[name].enumerable)
    {
      var stringCheck := false;
      var names := EnumerableNames();
      for i := 0 to |names|
        invariant !stringCheck && name !in names[..i]
      {
        if names[i] == name {
          stringCheck := true;
          assert name in names;
          break;
        }
      }
      assert names[..|names|] == names;
      r := stringCheck && name in props && props[name].enumerable;
    }

    /** The writability probe with two to four arguments; an absent one is `None`. The property looked at
        afterwards is `verifyProp` if that is given and not empty, else the one written. Looking at the one
        written, the answer is the attribute whatever the old value, the probe value included, and the
        properties come back as they were; with an explicit value equal to the old one it also says yes to a
        read-only property, and then throws in strict code when it puts the old value back. Looking at
        another one, it answers whether that held the probe value before, and a write that succeeded stays
        unless it did. */
    method IsWritable(name: string, verifyProp: Option<string>, value: Option<Value>, strict: bool)
      returns (r: bool, threw: bool)
      modifies `props
      ensures var other, was := LooksAt(name, verifyProp), old(props);
              var probe := Probed(was, name, value);
              if other == name then
                props == was &&
                (name in was ==>
                  (r <==> was[name].writable || was[name].value == probe) &&
                  (threw <==> strict && r && !was[name].writable)) &&
                (name !in was ==> r == extensible && !threw)
              else
                (r <==> other in was && was[other].value == probe) &&
                (threw <==> strict && r && name in was && !was[name].writable) &&
                props == if !r && CanSet(was, extensible, name) then Written(was, name, probe) else was
    {
      var newValue := if value.Some? && Truthy(value.value) then value.value else UNLIKELY;
      var hadValue := name in props;
      var oldValue := Get(name);
      if value.None? && StrictlyEqual(newValue, oldValue) {
        newValue := UNLIKELY2;
      }
      ProbesDiffer();
      ghost var was := props;
      r := WriteProbe(name, LooksAt(name, verifyProp), newValue);
      threw := false;
      if r {
        threw := Revert(name, hadValue, oldValue, newValue, was, strict);
      }
    }

    /** The write of the probe, whose TypeError is caught, and the look at what it did. */
    method WriteProbe(name: string, other: string, probe: Value) returns (r: bool)
      requires probe != Undefined
      modifies `props
      ensures props == if CanSet(old(props), extensible, name) then Written(old(props), name, probe) else old(props)
      ensures r <==> if other != name then other in old(props) && old(props)[other].value == probe
                     else if name in old(props) then old(props)[name].writable || old(props)[name].value == probe
                     else extensible
    {
      var _ := Set(name, probe);
      var now := Get(other);
      r := IsSameValue(now, probe);
    }

    /** The way back from the properties `was`. */
    method Revert(name: string, hadValue: bool, oldValue: Value, ghost probe: Value, ghost was: map<string, Property>,
                  strict: bool)
      returns (threw: bool)
      requires hadValue == (name in was) && oldValue == ValueOf(was, name)
      requires props == if CanSet(was, extensible, name) then Written(was, name, probe) else was
      modifies `props
      ensures props == was && (threw <==> strict && name in was && !was[name].writable)
    {
      threw := false;
      if hadValue {
        var ok := Set(name, oldValue);
        threw := strict && !ok;
      } else {
        var _ := Delete(name);
      }
      assert props == was;
    }

    method CheckValue(name: string, f: map<string, Value>, original: Property) returns (failures: nat)
      requires name in props && props[name] == original
      ensures failures > 0 <==> "value" in f && f["value"] != original.value
    {
      failures := 0;
      if "value" in f {
        if !IsSameValue(f["value"], original.value) { failures := failures + 1; }
        var current := Get(name);
        if !IsSameValue(f["value"], current) { failures := failures + 1; }
      }
    }

    method CheckEnumerable(name: string, f: map<string, Value>, original: Property) returns (bad: bool)
      requires name in props && props[name] == original
      ensures bad == !FlagAgrees(f, "enumerable", original.enumerable)
    {
      bad := false;
      if "enumerable" in f && f["enumerable"] != Undefined {
        bad := f["enumerable"] != Bool(original.enumerable);
        if !bad {
          var e := IsEnumerable(name);
          bad := f["enumerable"] != Bool(e);
        }
      }
    }

    method CheckWritable(name: string, f: map<string, Value>, original: Property, strict: bool) returns (bad: bool)
      requires name in props && props[name] == original
      modifies `props
      ensures bad == !FlagAgrees(f, "writable", original.writable) && props == old(props)
    {
      bad := false;
      if "writable" in f && f["writable"] != Undefined {
        bad := f["writable"] != Bool(original.writable);
        if !bad {
          var w, _ := IsWritable(name, None, None, strict);
          bad := f["writable"] != Bool(w);
        }
      }
    }

    method CheckConfigurable(name: string, f: map<string, Value>, original: Property) returns (bad: bool)
      requires name in props && props[name] == original && Named(f)
      modifies `props
      ensures bad == !FlagAgrees(f, "configurable", original.configurable)
      ensures props == if ProbeDeletes(f, original) then old(props) - {name} else old(props)
    {
      bad := false;
      if "configurable" in f && f["configurable"] != Undefined {
        bad := f["configurable"] != Bool(original.configurable);
        if !bad {
          var c := IsConfigurable(name);
          bad := f["configurable"] != Bool(c);
        }
      }
    }

    /** verifyProperty: it returns normally iff the descriptor describes the property, except that the
        restoring define can fail on an object that lost a property and cannot regain it; with `restore`
        the properties are then the initial ones. A failed assertion leaves a deleted property deleted. */
    method VerifyProperty(name: string, desc: Desc, restore: bool, strict: bool) returns (outcome: Outcome)
      modifies `props
      ensures desc.NoDesc? ==> (outcome == if name in old(props) then AssertFailed else Returned)
      ensures desc.NullDesc? || desc.PrimitiveDesc? || (desc.Fields? && name !in old(props)) ==> outcome == AssertFailed
      ensures !desc.Fields? || name !in old(props) ==> props == old(props)
      ensures desc.Fields? && name in old(props) ==>
                var p := old(props)[name];
                var gone := ProbeDeletes(desc.fields, p);
                (outcome == AssertFailed <==> !Describes(desc.fields, p)) &&
                (outcome == TypeError <==> Describes(desc.fields, p) && restore && gone && !extensible) &&
                props == if !gone || (outcome == Returned && restore) then old(props) else old(props) - {name}
    {
      if desc.NoDesc? {
        return if name in props then AssertFailed else Returned;
      }
      if name !in props { return AssertFailed; }
      if !desc.Fields? { return AssertFailed; }
      var original := props[name];
      var f := desc.fields;
      if exists k :: k in f && !IsField(k) { return AssertFailed; }

      var failures := CheckValue(name, f, original);
      var badEnumerable := CheckEnumerable(name, f, original);
      var badWritable := CheckWritable(name, f, original, strict);
      var badConfigurable := CheckConfigurable(name, f, original);
      if badEnumerable { failures := failures + 1; }
      if badWritable { failures := failures + 1; }
      if badConfigurable { failures := failures + 1; }
      if failures > 0 { return AssertFailed; }
      if restore {
        var ok := Define(name, original);
        if !ok { return TypeError; }
        assert props == old(props);
      }
      return Returned;
    }
  }

  /** A property described as it is, whose restoring throws. */
  method RestoreThrows() returns (outcome: Outcome)
    ensures outcome == TypeError
  {
    var o := new OrdinaryObject(map["x" := Property(Undefined, true, true, true)], false);
    var f := map["configurable" := Bool(true)];
    outcome := o.VerifyProperty("x", Fields(f), true, true);
  }

  /** A read-only property that is called writable, after which strict code throws. */
  method ReadOnlyCalledWritable() returns (r: bool, threw: bool)
    ensures r && threw
  {
    var o := new OrdinaryObject(map["x" := Property(Ref(0), false, true, true)], true);
    r, threw := o.IsWritable("x", None, Some(Ref(0)), true);
  }

  /** A probe that stays. */
  method ProbeStays() returns (r: bool, left: map<string, Property>)
    ensures !r && left == map["x" := Property(UNLIKELY, true, true, true), "y" := Property(Null, true, true, true)]
  {
    var was := map["x" := Property(Null, true, true, true), "y" := Property(Null, true, true, true)];
    var o := new OrdinaryObject(was, true);
    var threw: bool;
    r, threw := o.IsWritable("x", Some("y"), None, true);
    left := o.props;
  }

  lemma {:induction false} ProbesDiffer()
    ensures UNLIKELY != UNLIKELY2
  {
    assert UNLIKELY.s[0] == 'u' && |UNLIKELY.s| != |UNLIKELY2.s|;
  }

  /** The property whose value decides. */
  function LooksAt(name: string, verifyProp: Option<string>): string {
    if verifyProp.Some? && verifyProp.value != "" then verifyProp.value else name
  }

  function ValueOf(props: map<string, Property>, name: string): Value {
    if name in props then props[name].value else Undefined
  }

  /** The value written: an explicit one if it is truthy, else one that differs from the old one, unless
      `value` was passed. */
  function Probed(props: map<string, Property>, name: string, value: Option<Value>): Value {
    if value.Some? && Truthy(value.value) then value.value
    else if value.None? && ValueOf(props, name) == UNLIKELY then UNLIKELY2
    else UNLIKELY
  }

  predicate CanSet(props: map<string, Property>, extensible: bool, name: string) {
    if name in props then props[name].writable else extensible
  }

  function Written(props: map<string, Property>, name: string, v: Value): map<string, Property> {
    props[name := if name in props then props[name].(value := v) else Property(v, true, true, true)]
  }

  /** The values that count as false. */
  lemma {:induction false} FalsyAre(v: Value)
    ensures !Truthy(v) <==>
            v == Undefined || v == Null || v == Bool(false) || v == Str("") ||
            v == Num(NaN) || v == Num(PosZero) || v == Num(NegZero)
  {
  }

  /** The value written when none is given, or a false one: not the present one, unless one was given. */
  lemma {:induction false} ProbeIs(props: map<string, Property>, name: string)
    ensures Probed(props, name, None) ==
            if name in props && props[name].value == Str("unlikelyValue") then Str("unlikelyValue2")
            else Str("unlikelyValue")
    ensures Probed(props, name, Some(Undefined)) == Str("unlikelyValue")
    ensures ValueOf(props, name) != Probed(props, name, None)
  {
    ProbesDiffer();
  }

  /** A descriptor that describes a property has no field but the six there are; the value, if there, is the
      property's, and each flag that is there and not undefined is the property's attribute. */
  lemma {:induction false} DescribesMeans(f: map<string, Value>, p: Property)
    ensures Describes(f, p) <==>
            (forall k :: k in f ==>
               k == "value" || k == "writable" || k == "enumerable" || k == "configurable" ||
               k == "get" || k == "set") &&
            (forall v: Value :: ("value", v) in f.Items ==> v == p.value) &&
            (forall v: Value :: ("writable", v) in f.Items ==> v == Undefined || v == Bool(p.writable)) &&
            (forall v: Value :: ("enumerable", v) in f.Items ==> v == Undefined || v == Bool(p.enumerable)) &&
            (forall v: Value :: ("configurable", v) in f.Items ==> v == Undefined || v == Bool(p.configurable))
  {
    assert "value" in f ==> ("value", f["value"]) in f.Items;
    assert "writable" in f ==> ("writable", f["writable"]) in f.Items;
    assert "enumerable" in f ==> ("enumerable", f["enumerable"]) in f.Items;
    assert "configurable" in f ==> ("configurable", f["configurable"]) in f.Items;
  }
}
