/** The values the renderer inspects.

    A Python object is an `Obj` kept in a `Heap` under an `Id`; containers list
    the ids of their elements, so `item is obj` is an equality of ids and a
    container may hold itself, directly or through other containers.

    Everything the renderer learns from the object by calling into Python
    (`repr()`, `object.__repr__`, `type(obj).__name__`, `type(obj).__module__`,
    `hasattr`, `iter()`, `len()`, iteration, `obj[key]`, `sorted(obj)`) is a
    field holding that call's outcome, so that user code that raises or lies
    is an input like any other. */
module Values {

  import Formatting

  type Id = nat

  datatype Option<T> = None | Some(value: T)

  /** A raised exception; `repr` is `repr(exc)`, or None when that raises too. */
  datatype Exc = Exc(repr: Option<string>)

  /** The outcome of a call into Python that may raise. */
  datatype Attempt<T> = Returns(value: T) | Raises(exc: Exc)

  /** What `for item in obj` sees: these items, then the end of the
      iteration or, when `raises` is present, that exception. */
  datatype Iteration = Iteration(items: seq<Id>, raises: Option<Exc>)

  /** The sequence-like types of the renderer's table, in table order. */
  datatype CollectionKind = TupleKind | ListKind | FrozenSetKind | SetKind | DequeKind

  /** The mapping types of the renderer's table, in table order. */
  datatype DictKind = PlainDictKind | OrderedDictKind

  /** The built-in type an object is an instance of, as far as the renderer asks. */
  datatype Shape =
    | IntObj(n: int)                   // an instance of int
    | TextObj                          // an instance of str or bytes
    | Collection(kind: CollectionKind) // an instance of tuple, list, frozenset, set or deque
    | Mapping(dictKind: DictKind,      // an instance of dict or OrderedDict:
              values: map<Id, Id>,     //   obj[key] for the keys where it returns
              sorted: Attempt<seq<Id>>)//   sorted(obj)
    | RangeObj                         // an instance of range
    | OtherObj                         // anything else

  datatype Obj = Obj(
    shape: Shape,
    /** `type(obj).__repr__` is the `__repr__` of the table type of `shape`
        (false as well when looking it up raises) */
    exactRepr: bool,
    repr: Attempt<string>,         // repr(obj)
    objectRepr: Attempt<string>,   // object.__repr__(obj)
    typeName: Attempt<string>,     // type(obj).__name__
    moduleName: Attempt<string>,   // type(obj).__module__, Raises when it is no string
    hasIter: bool,                 // hasattr(obj, '__iter__')
    iterIsSelf: Attempt<bool>,     // obj is iter(obj)
    hasLen: bool,                  // hasattr(obj, '__len__')
    len: Attempt<nat>,             // len(obj)
    iteration: Iteration           // for item in obj (for a mapping: its keys)
  )

  type Heap = map<Id, Obj>

  /** Every id an object refers to is in the heap. */
  predicate ObjClosed(h: Heap, o: Obj)
  {
    && (forall x :: x in o.iteration.items ==> x in h)
    && (o.shape.Mapping? ==> forall k :: k in o.shape.values ==> o.shape.values[k] in h)
    && (o.shape.Mapping? && o.shape.sorted.Returns? ==> forall x :: x in o.shape.sorted.value ==> x in h)
  }

  predicate Closed(h: Heap)
  {
    forall j :: j in h ==> ObjClosed(h, h[j])
  }

  // Built-in objects as Python creates them

  function PlainInt(n: int): Obj
  {
    Obj(IntObj(n), true, Returns(Formatting.Decimal(n)), Returns("<int object>"), Returns("int"),
        Returns("builtins"), false, Returns(false), false, Returns(0), Iteration([], None))
  }

  /** A str whose `repr()` is `quoted` and whose length is `length`. */
  function PlainStr(quoted: string, length: nat): Obj
  {
    Obj(TextObj, true, Returns(quoted), Returns("<str object>"), Returns("str"),
        Returns("builtins"), true, Returns(false), true, Returns(length), Iteration([], None))
  }

  function CollectionTypeName(kind: CollectionKind): string
  {
    match kind
    case TupleKind => "tuple"
    case ListKind => "list"
    case FrozenSetKind => "frozenset"
    case SetKind => "set"
    case DequeKind => "deque"
  }

  function PlainCollection(kind: CollectionKind, items: seq<Id>): Obj
  {
    Obj(Collection(kind), true, Returns("<collection>"), Returns("<collection object>"),
        Returns(CollectionTypeName(kind)), Returns(if kind == DequeKind then "collections" else "builtins"),
        true, Returns(false), true, Returns(|items|), Iteration(items, None))
  }

  /** A dict with `keys` in insertion order whose `sorted()` gives `sortedKeys`. */
  function PlainDict(keys: seq<Id>, values: map<Id, Id>, sortedKeys: Attempt<seq<Id>>): Obj
  {
    Obj(Mapping(PlainDictKind, values, sortedKeys), true, Returns("<dict>"), Returns("<dict object>"),
        Returns("dict"), Returns("builtins"), true, Returns(false), true, Returns(|keys|), Iteration(keys, None))
  }
}
