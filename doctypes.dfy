/**
 * docent/core/types.py: `DocField`, whose comparison methods build
 * single-entry query-filter maps, and `DocMeta`, which keeps the first-wins
 * registry of application classes and turns dataclass field names into
 * `DocField`s on class-attribute access.
 */
module DocTypes {
  import opened Wrappers
  import opened Text

  /** The comparison a filter expresses. */
  datatype Op = Eq | Ne | Gt | Gte | Lt | Lte

  /** The operator tag a comparison writes into its filter; the tag identifies the comparison. */
  function Tag(op: Op): (t: string)
    ensures OpOfTag(t) == Some(op)
  {
    match op
    case Eq => "__eq__"
    case Ne => "__ne__"
    case Gt => "__gt__"
    case Gte => "__gte__"
    case Lt => "__lt__"
    case Lte => "__lte__"
  }

  /** The comparison a tag stands for, if any. */
  function OpOfTag(t: string): Option<Op> {
    if t == "__eq__" then Some(Eq)
    else if t == "__ne__" then Some(Ne)
    else if t == "__gt__" then Some(Gt)
    else if t == "__gte__" then Some(Gte)
    else if t == "__lt__" then Some(Lt)
    else if t == "__lte__" then Some(Lte)
    else None
  }

  /** A filter: field name to operator tag to value. */
  type Filter<V> = map<string, map<string, V>>

  /** A field of a dataclass, as `dataclasses.Field` describes it. */
  datatype DataclassField = DataclassField(name: string, fieldType: string)

  /** `DocField(name, type)`. */
  datatype DocField = DocField(name: string, fieldType: string) {

    /** `{self.name: {tag: value}}`. */
    function Compare<V>(op: Op, value: V): (f: Filter<V>)
      ensures f.Keys == {name} && f[name].Keys == {Tag(op)} && f[name][Tag(op)] == value
    {
      map[name := map[Tag(op) := value]]
    }

    /** `__eq__`. */
    function Equals<V>(value: V): (f: Filter<V>)
      ensures f.Keys == {name} && f[name] == map["__eq__" := value]
    {
      Compare(Eq, value)
    }

    /** `__ne__`. */
    function NotEquals<V>(value: V): (f: Filter<V>)
      ensures f.Keys == {name} && f[name] == map["__ne__" := value]
    {
      Compare(Ne, value)
    }

    /** `__gt__`. */
    function GreaterThan<V>(value: V): (f: Filter<V>)
      ensures f.Keys == {name} && f[name] == map["__gt__" := value]
    {
      Compare(Gt, value)
    }

    /** `__gte__` (a named method: Python's `>=` does not call it). */
    function GreaterOrEqual<V>(value: V): (f: Filter<V>)
      ensures f.Keys == {name} && f[name] == map["__gte__" := value]
    {
      Compare(Gte, value)
    }

    /** `__lt__`. */
    function LessThan<V>(value: V): (f: Filter<V>)
      ensures f.Keys == {name} && f[name] == map["__lt__" := value]
    {
      Compare(Lt, value)
    }

    /** `__lte__` (a named method: Python's `<=` does not call it). */
    function LessOrEqual<V>(value: V): (f: Filter<V>)
      ensures f.Keys == {name} && f[name] == map["__lte__" := value]
    {
      Compare(Lte, value)
    }
  }

  /** Reads a single-entry filter back as (field name, comparison, value). */
  ghost function DecodeFilter<V>(f: Filter<V>): Option<(string, Op, V)> {
    if |f.Keys| != 1 then None
    else
      var n :| n in f;
      if |f[n].Keys| != 1 then None
      else
        var t :| t in f[n];
        match OpOfTag(t)
        case None => None
        case Some(op) => Some((n, op, f[n][t]))
  }

  /** A comparison's filter decodes to the field's name, the comparison and the value, unchanged. */
  lemma FilterRoundTrip<V>(field: DocField, op: Op, value: V)
    ensures DecodeFilter(field.Compare(op, value)) == Some((field.name, op, value))
  {
  }

  /** Two comparisons of the same field and value give different filters. */
  lemma FiltersDistinct<V>(field: DocField, a: Op, b: Op, value: V)
    requires a != b
    ensures field.Compare(a, value) != field.Compare(b, value)
  {
    FilterRoundTrip(field, a, value);
    FilterRoundTrip(field, b, value);
  }

  /** `DocField.from_dataclass_field`. */
  function FromDataclassField(fld: DataclassField): (f: DocField)
    ensures f.name == fld.name && f.fieldType == fld.fieldType
  {
    DocField(fld.name, fld.fieldType)
  }

  /**
   * A class whose metaclass is `DocMeta`: its `__name__`, `__module__`,
   * `reference`, and its `__dataclass_fields__` (`None` when it has none).
   */
  datatype DocClass = DocClass(
    name: string,
    moduleName: string,
    reference: string,
    dataclassFields: Option<map<string, DataclassField>>)

  /** What class-attribute access yields. */
  datatype Attribute =
    | FieldAttr(field: DocField)  // a `DocField` for a dataclass field
    | Ordinary                    // the normal lookup of `type.__getattribute__`
    | AttributeError              // `__dataclass_fields__` itself is missing

  /**
   * `DocMeta.__getattribute__`: on a class other than `DocObject`, a name in
   * `__dataclass_fields__` yields that field's `DocField`; every other name
   * falls through. (`type(cls) is not type` holds for every `DocMeta` class.)
   */
  function GetAttribute(cls: DocClass, attr: string): (a: Attribute)
    ensures a.FieldAttr? <==> cls.name != "DocObject" && cls.dataclassFields.Some? && attr in cls.dataclassFields.value
    ensures a.FieldAttr? ==> a.field.name == cls.dataclassFields.value[attr].name
                             && a.field.fieldType == cls.dataclassFields.value[attr].fieldType
    ensures a == AttributeError <==> cls.name != "DocObject" && cls.dataclassFields.None?
  {
    if cls.name == "DocObject" then Ordinary
    else match cls.dataclassFields
      case None => AttributeError
      case Some(fields) => if attr in fields then FieldAttr(FromDataclassField(fields[attr])) else Ordinary
  }

  /** Modules whose classes are never registered. */
  predicate IsFrameworkModule(m: string) {
    StartsWith(m, "docent.core") || StartsWith(m, "docent.rest")
  }

  /** The exception `DocMeta.__call__` raises before registering anything. */
  datatype CallError =
    | AttributeErr   // a lookup raised, or a `DocField` came back where a string or dict was used
    | UnhashableKey  // `reference` came back as a `DocField`, which defines `__eq__` and so has no hash

  /**
   * The lookups of `DocMeta.__call__` go through `DocMeta.__getattribute__`:
   * `cls.__module__` always, then `cls.APPLICATION_OBJECTS` and `cls.reference`
   * for an application class. Any of them fails when the class, not being
   * `DocObject`, has no `__dataclass_fields__`, or has a dataclass field of
   * that name.
   */
  function CallFailure(cls: DocClass): (err: Option<CallError>)
    ensures err.Some? <==> cls.name != "DocObject"
                           && (|| cls.dataclassFields.None?
                               || "__module__" in cls.dataclassFields.value
                               || (!IsFrameworkModule(cls.moduleName)
                                   && ("APPLICATION_OBJECTS" in cls.dataclassFields.value || "reference" in cls.dataclassFields.value)))
    ensures err == Some(UnhashableKey) ==> cls.dataclassFields.Some? && "reference" in cls.dataclassFields.value
  {
    if GetAttribute(cls, "__module__") != Ordinary then Some(AttributeErr)
    else if IsFrameworkModule(cls.moduleName) then None
    else if GetAttribute(cls, "APPLICATION_OBJECTS") != Ordinary then Some(AttributeErr)
    else if GetAttribute(cls, "reference") != Ordinary then Some(UnhashableKey)
    else None
  }

  /** The call reaches `setdefault`: an application class whose lookups all succeed. */
  predicate Registers(cls: DocClass) {
    CallFailure(cls).None? && !IsFrameworkModule(cls.moduleName)
  }

  /**
   * The dictionary after `DocMeta.__call__`: `setdefault(cls.reference, cls)`
   * when the call reaches it, otherwise unchanged.
   */
  function Registered(objects: map<string, DocClass>, cls: DocClass): (r: map<string, DocClass>)
    ensures !Registers(cls) ==> r == objects
    ensures IsFrameworkModule(cls.moduleName) ==> r == objects
    ensures Registers(cls) ==> r.Keys == objects.Keys + {cls.reference}
    ensures forall k :: k in objects ==> k in r && r[k] == objects[k]
    ensures Registers(cls) && cls.reference !in objects ==> r[cls.reference] == cls
  {
    if !Registers(cls) then objects
    else if cls.reference in objects then objects
    else objects[cls.reference := cls]
  }

  /** Registering a class again changes nothing. */
  lemma RegisteredIdempotent(objects: map<string, DocClass>, cls: DocClass)
    ensures Registered(Registered(objects, cls), cls) == Registered(objects, cls)
  {
  }

  /** The registry after a series of calls, in order. */
  function RegisterAll(objects: map<string, DocClass>, classes: seq<DocClass>): map<string, DocClass>
    decreases |classes|
  {
    if |classes| == 0 then objects else RegisterAll(Registered(objects, classes[0]), classes[1..])
  }

  /** No call ever registers a class from `docent.core` or `docent.rest`. */
  lemma {:induction false} RegisterAllNoFramework(objects: map<string, DocClass>, classes: seq<DocClass>)
    requires forall k :: k in objects ==> !IsFrameworkModule(objects[k].moduleName)
    ensures var r := RegisterAll(objects, classes);
            forall k :: k in r ==> !IsFrameworkModule(r[k].moduleName)
    decreases |classes|
  {
    if |classes| > 0 {
      var next := Registered(objects, classes[0]);
      RegisterAllNoFramework(next, classes[1..]);
      assert RegisterAll(objects, classes) == RegisterAll(next, classes[1..]);
    }
  }

  /** An entry, once present, is never overwritten. */
  lemma {:induction false} RegisterAllKeeps(objects: map<string, DocClass>, classes: seq<DocClass>, k: string)
    requires k in objects
    ensures k in RegisterAll(objects, classes) && RegisterAll(objects, classes)[k] == objects[k]
    decreases |classes|
  {
    if |classes| > 0 {
      RegisterAllKeeps(Registered(objects, classes[0]), classes[1..], k);
    }
  }

  /** The first application class with a given reference is the one that stays registered under it. */
  lemma {:induction false} RegisterAllFirstWins(objects: map<string, DocClass>, classes: seq<DocClass>, i: nat)
    requires i < |classes| && Registers(classes[i])
    requires classes[i].reference !in objects
    requires forall j :: 0 <= j < i && Registers(classes[j]) ==> classes[j].reference != classes[i].reference
    ensures classes[i].reference in RegisterAll(objects, classes)
            && RegisterAll(objects, classes)[classes[i].reference] == classes[i]
    decreases |classes|
  {
    var next := Registered(objects, classes[0]);
    if i == 0 {
      RegisterAllKeeps(next, classes[1..], classes[0].reference);
    } else {
      assert classes[i].reference !in next;
      forall j | 0 <= j < i - 1 && Registers(classes[1..][j])
        ensures classes[1..][j].reference != classes[1..][i - 1].reference
      {
        assert classes[1..][j] == classes[j + 1];
      }
      RegisterAllFirstWins(next, classes[1..], i - 1);
    }
  }

  /** The `APPLICATION_OBJECTS` dictionary shared by every `DocMeta` class. */
  class ObjectRegistry {
    var objects: map<string, DocClass>

    constructor ()
      ensures objects == map[]
    {
      objects := map[];
    }

    /** The registration step of `DocMeta.__call__`, with the exception it raises, if any. */
    method Call(cls: DocClass) returns (failure: Option<CallError>)
      modifies this
      ensures failure == CallFailure(cls)
      ensures objects == Registered(old(objects), cls)
    {
      if GetAttribute(cls, "__module__") != Ordinary {
        return Some(AttributeErr);
      }
      if !StartsWith(cls.moduleName, "docent.core") && !StartsWith(cls.moduleName, "docent.rest") {
        if GetAttribute(cls, "APPLICATION_OBJECTS") != Ordinary {
          return Some(AttributeErr);
        }
        if GetAttribute(cls, "reference") != Ordinary {
          return Some(UnhashableKey);
        }
        if cls.reference !in objects {
          objects := objects[cls.reference := cls];
        }
      }
      return None;
    }
  }
}
