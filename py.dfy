/**
 * The few Python runtime notions the backup code relies on: the values a
 * check hook may return, Python's `==` against `False`, Python truthiness,
 * and the exceptions the core can raise, returned here as a Result.
 */
module Py {

  /** A Python value as far as the backup code inspects it. */
  datatype PyValue =
    | PyNone
    | PyBool(b: bool)
    | PyInt(i: int)
    | PyStr(s: string)
    | PyList(items: seq<PyValue>)

  /** The exceptions raised by the core. */
  datatype Error =
    | KeyError(key: string)          // dict lookup of a missing key
    | ValueError(item: string)       // list.remove of an absent item
    | AttributeError(attr: string)   // attribute looked up on None
    | NameError(ident: string)       // reference to an undefined name
    | DatabaseBackupException(engine: Option<string>)   // no driver registered for the engine

  datatype Option<+T> = None | Some(value: T)

  datatype Result<+T> = Ok(value: T) | Err(error: Error)

  /** `v == False` in Python: `False`, and `0` since `bool` is a subclass of `int`. */
  predicate EqualsFalse(v: PyValue) {
    v == PyBool(false) || v == PyInt(0)
  }

  /** `bool(v)` in Python. */
  predicate Truthy(v: PyValue) {
    match v
    case PyNone => false
    case PyBool(b) => b
    case PyInt(i) => i != 0
    case PyStr(s) => s != ""
    case PyList(items) => items != []
  }

  /** `False not in checks`: no element compares equal to `False`. */
  predicate NoFalse(checks: seq<PyValue>) {
    forall i :: 0 <= i < |checks| ==> !EqualsFalse(checks[i])
  }

  /** `None` passes `False not in` but is falsy: the two aggregation rules differ on it. */
  lemma NoneRules()
    ensures NoFalse([PyNone]) && !Truthy(PyNone)
  {
  }

  /** No element occurs twice. */
  predicate NoDup<T(==)>(s: seq<T>) {
    forall i, j :: 0 <= i < j < |s| ==> s[i] != s[j]
  }

  lemma NoDupConcat<T>(a: seq<T>, b: seq<T>)
    requires NoDup(a) && NoDup(b) && forall x :: x in a ==> x !in b
    ensures NoDup(a + b)
  {
    forall i, j | 0 <= i < j < |a + b|
      ensures (a + b)[i] != (a + b)[j]
    {
      if i < |a| <= j {
        assert (a + b)[i] in a && (a + b)[j] == b[j - |a|];
      }
    }
  }
}
