/**
 * The part of the Python object model the script commands look at, seen through the C API:
 * a callable argument, the object that calling it without arguments produces, the runtime
 * type of that object (`ob_type`), the name of its direct base (`tp_base->tp_name`) and the
 * `__annotations__` entry of its type dictionary (`tp_dict`).
 */
module PyObjects {
  import opened Common

  /** The Python exceptions the commands raise: `PyErr_BadArgument`, `TypeError`, `IndexError`. */
  datatype PyError = BadArgument | TypeError(message: string) | IndexError(message: string)

  /**
   * A type object (or any callable). `name` is `tp_name`, `base` the name of `tp_base` when it
   * is not null, `dict` is `tp_dict`, and `call` says what calling it with no arguments does.
   */
  datatype TypeObject = TypeObject(name: string, base: Option<string>, dict: Option<TypeDict>, call: CallBehaviour)

  /** The one entry of a type dictionary the generator reads. */
  datatype TypeDict = TypeDict(annotations: AnnotationsEntry)

  /**
   * The `__annotations__` entry: absent, present but not a dictionary (so that
   * `PyDict_Items` fails), or a dictionary whose items are listed in insertion order. The member
   * names of a dictionary's items are its keys, so they are distinct (`DistinctNames`).
   */
  datatype AnnotationsEntry = Missing | NotADict | Items(items: seq<Annotation>)

  /** No two items share a member name, as no two keys of a dictionary are equal. */
  predicate DistinctNames(items: seq<Annotation>)
  {
    forall i, j :: 0 <= i < j < |items| ==> items[i].memberName != items[j].memberName
  }

  /**
   * One `(name, annotation)` item. `memberType` is `None` when the item has no second element; the
   * items `PyDict_Items` returns are always pairs with a value, so that case never arises in the
   * source and its test for it is dead.
   */
  datatype Annotation = Annotation(memberName: string, memberType: Option<TypeObject>)

  /**
   * The outcome of `PyObject_CallObject(callable, nullptr)`: it raises, it returns an instance of
   * the callable itself, or it returns an object of some other runtime type (a `__new__` that
   * returns something else, or a factory function).
   */
  datatype CallBehaviour = Raises | ReturnsOwnInstance | ReturnsInstanceOf(runtimeType: TypeObject)

  /**
   * The text a `const char*` from `PyUnicode_AsUTF8` carries into C string operations: everything
   * before the first NUL. Python strings may hold NULs, and this conversion does not reject them.
   */
  function AsCString(s: string): (r: string)
    ensures '\0' !in r
    ensures |r| <= |s| && r == s[..|r|]
    ensures |r| < |s| ==> s[|r|] == '\0'
    ensures '\0' !in s ==> r == s
  {
    if s == [] || s[0] == '\0' then [] else [s[0]] + AsCString(s[1..])
  }

  /** The base type name every scripted structure type and member type must extend directly. */
  const MARKER_TYPE_NAME: string := "ImHexType"

  /** The runtime type of the object a zero-argument call produces, or `None` when the call raises. */
  function Instantiate(callable: TypeObject): (r: Option<TypeObject>)
    ensures r.None? <==> callable.call.Raises?
    ensures callable.call.ReturnsOwnInstance? ==> r == Some(callable)
    ensures callable.call.ReturnsInstanceOf? ==> r == Some(callable.call.runtimeType)
  {
    match callable.call
    case Raises => None
    case ReturnsOwnInstance => Some(callable)
    case ReturnsInstanceOf(t) => Some(t)
  }

  /** The direct base exists and is named `ImHexType`; grandchildren of the marker do not qualify. */
  predicate ExtendsImHexType(t: TypeObject): (b: bool)
    ensures b <==> t.base.Some? && t.base.value == MARKER_TYPE_NAME
  {
    t.base == Some(MARKER_TYPE_NAME)
  }
}
