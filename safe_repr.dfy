/** The renderer `SafeRepr` of ptvsd/safe_repr.py, as functions.

    `Repr(h, id, level, hex)` is `_repr(obj, level, convert_to_hex)`: the parts
    the generator would yield, or the exception that escapes while they are
    produced. `Call` is the public `__call__`. The loops of `_repr_iter` and
    `_repr_dict` are stated here in closed form; the loop-by-loop versions
    are the methods of module Renderer, proved equal to these. */
module SafeRepr {

  import opened Values
  import opened Formatting

  // The constant tables of the class

  const MaxStringOuter: nat := 65536
  const MaxStringInner: nat := 30
  const MaxOtherOuter: nat := 65536
  const MaxOtherInner: nat := 30
  /** Per-depth element limits; its length is the depth rendered structurally. */
  const MaxCollection: seq<nat> := [15, 10]
  /** The level an element that is its own container is rendered at. */
  const SelfLevel: nat := 100

  datatype CollectionRow = CollectionRow(prefix: string, suffix: string, comma: bool)

  /** The row of `collection_types` for each sequence-like type (Python 3 spellings). */
  function CollectionInfo(kind: CollectionKind): CollectionRow
  {
    match kind
    case TupleKind => CollectionRow("(", ")", true)
    case ListKind => CollectionRow("[", "]", false)
    case FrozenSetKind => CollectionRow("frozenset({", "})", false)
    case SetKind => CollectionRow("{", "}", false)
    case DequeKind => CollectionRow("deque([", "])", false)
  }

  datatype DictRow = DictRow(prefix: string, suffix: string, itemPrefix: string, itemSep: string, itemSuffix: string)

  /** The row of `dict_types` for each mapping type. */
  function DictInfo(kind: DictKind): DictRow
  {
    match kind
    case PlainDictKind => DictRow("{", "}", "", ": ", "")
    case OrderedDictKind => DictRow("OrderedDict([", "])", "(", ", ", ")")
  }

  /** What remains of the structural depth below `level`; every recursive
      rendering call lowers it. */
  function Rank(level: nat): nat
  {
    if level >= |MaxCollection| then 0 else |MaxCollection| - level
  }

  /** The level an element `item` of `container` is rendered at. */
  function ChildLevel(container: Id, item: Id, level: nat): nat
  {
    if item == container then SelfLevel else level + 1
  }

  // Bounded literal rendering: _repr_obj, _repr_str, _repr_other

  function Max(a: int, b: int): int { if a >= b then a else b }

  /** Length of the head kept by a truncation: `max(1, int(2 * limit / 3))`. */
  function HeadCount(limit: nat): nat { Max(1, 2 * limit / 3) }

  /** Length of the tail kept by a truncation: `max(1, int(limit / 3))`. */
  function TailCount(limit: nat): nat { Max(1, limit / 3) }

  /** A natural form within `limit` is kept whole; a longer one becomes its
      head, an ellipsis and its tail. */
  function Truncate(r: string, limit: nat): seq<string>
  {
    if limit >= |r| then [r]
    else [r[..HeadCount(limit)], "...", r[|r| - TailCount(limit)..]]
  }

  /** The natural textual form `_repr_obj` starts from, with its chain of
      fallbacks when `repr()` raises. */
  function NaturalRepr(o: Obj, hex: bool): string
  {
    if o.shape.IntObj? && hex then Hex(o.shape.n)
    else match o.repr
      case Returns(r) => r
      case Raises(_) =>
        match o.objectRepr
        case Returns(r) => r
        case Raises(_) =>
          match o.typeName
          case Returns(t) => "<no repr available for " + t + ">"
          case Raises(_) => "<no repr available for object>"
  }

  /** `_repr_obj`: the natural form, truncated to the inner limit when nested
      (`level > 0`) and to the outer limit at the top. */
  function ReprObj(o: Obj, level: nat, limitInner: nat, limitOuter: nat, hex: bool): seq<string>
  {
    Truncate(NaturalRepr(o, hex), if level > 0 then limitInner else limitOuter)
  }

  function ReprStr(o: Obj, level: nat, hex: bool): seq<string>
  {
    ReprObj(o, level, MaxStringInner, MaxStringOuter, hex)
  }

  function ReprOther(o: Obj, level: nat, hex: bool): seq<string>
  {
    ReprObj(o, level, MaxOtherInner, MaxOtherOuter, hex)
  }

  // _is_long_iter

  /** `type(obj).__module__.partition('.')[0] in ('numpy', 'scipy')`, false when it raises. */
  predicate SelfTruncatingModule(m: Attempt<string>)
  {
    m.Returns? && (ModuleHead(m.value) == "numpy" || ModuleHead(m.value) == "scipy")
  }

  /** The checks `_is_long_iter` makes before it looks at depth and size:
      the object is no string, has `__iter__`, `iter()` returns a fresh
      iterator, and it is neither a range nor a numpy/scipy value. */
  predicate Probed(o: Obj)
  {
    !o.shape.TextObj? && o.hasIter && o.iterIsSelf == Returns(false)
    && !o.shape.RangeObj? && !SelfTruncatingModule(o.moduleName)
  }

  /** `_is_long_iter(obj, level)`: whether the object is unsafe to `repr()`. */
  function IsLongIter(h: Heap, id: Id, level: nat): bool
    requires Closed(h) && id in h
    decreases Rank(level), 1, 0
  {
    var o := h[id];
    if o.shape.TextObj? then o.len.Raises? || o.len.value > MaxStringInner
    else if !o.hasIter then false
    else if o.iterIsSelf.Raises? then true
    else if o.iterIsSelf.value then false
    else if o.shape.RangeObj? then false
    else if SelfTruncatingModule(o.moduleName) then false
    else if level >= |MaxCollection| then true
    else if o.hasLen then
      (o.len.Returns? && o.len.value > MaxCollection[level])
      || AnyLong(h, o.iteration, level, None, 0)
    else AnyLong(h, o.iteration, level, Some(MaxCollection[level]), 0)
  }

  /** `any(...)` over the iteration from index `i` on. With a cap (the
      unsized case) an index beyond it counts as long. The iteration raising
      before `any` has its answer counts as long too. */
  function AnyLong(h: Heap, it: Iteration, level: nat, cap: Option<nat>, i: nat): bool
    requires Closed(h) && (forall x :: x in it.items ==> x in h)
    requires level < |MaxCollection| && i <= |it.items|
    decreases Rank(level), 0, |it.items| - i
  {
    if i == |it.items| then it.raises.Some?
    else
      (cap.Some? && i > cap.value)
      || IsLongIter(h, it.items[i], level + 1)
      || AnyLong(h, it, level, cap, i + 1)
  }

  // _repr_long_iter

  /** The one-part summary of a long iterable, with its fallbacks. */
  function LongIterSummary(o: Obj, hex: bool): string
  {
    match o.typeName
    case Raises(_) => "<no repr available for object>"
    case Returns(t) =>
      match o.len
      case Raises(_) => "<" + t + ">"
      case Returns(n) => "<" + t + ", len() = " + (if hex then Hex(n) else Decimal(n)) + ">"
  }

  // The recursive renderer

  /** The parts a rendering yields, or the exception that escapes it. */
  datatype Outcome = Parts(parts: seq<string>) | Raised(exc: Exc)

  /** Yield the parts of `a`, then those of `b`; the first exception wins. */
  function Then(a: Outcome, b: Outcome): Outcome
  {
    if a.Raised? then a else if b.Raised? then b else Parts(a.parts + b.parts)
  }

  /** Yielding `a`, `b` and `c` in that order, however grouped. */
  lemma ThenAssoc(a: Outcome, b: Outcome, c: Outcome)
    ensures Then(Then(a, b), c) == Then(a, Then(b, c))
  {
    if a.Parts? && b.Parts? && c.Parts? {
      assert a.parts + b.parts + c.parts == a.parts + (b.parts + c.parts);
    }
  }

  /** Yielding `a` and then `b` before `r` is yielding `a + b` before it. */
  lemma ThenParts(a: seq<string>, b: seq<string>, r: Outcome)
    ensures Then(Parts(a), Then(Parts(b), r)) == Then(Parts(a + b), r)
  {
    if r.Parts? {
      assert a + (b + r.parts) == a + b + r.parts;
    }
  }

  /** `_repr`: dispatch on the table types (exact `__repr__` only), then the
      long-iterable summary, then the bounded literal. */
  function Repr(h: Heap, id: Id, level: nat, hex: bool): Outcome
    requires Closed(h) && id in h
    decreases Rank(level), 2, 0
  {
    var o := h[id];
    if o.shape.Collection? && o.exactRepr then
      var row := CollectionInfo(o.shape.kind);
      ReprIter(h, id, level, hex, row.prefix, row.suffix, row.comma)
    else if o.shape.Mapping? && o.exactRepr then
      var row := DictInfo(o.shape.dictKind);
      ReprDict(h, id, level, hex, row.prefix, row.suffix, row.itemPrefix, row.itemSep, row.itemSuffix)
    else if o.shape.TextObj? && o.exactRepr then Parts(ReprStr(o, level, hex))
    else if IsLongIter(h, id, 0) then Parts([LongIterSummary(o, hex)])
    else Parts(ReprOther(o, level, hex))
  }

  /** `_repr_iter`: below the depth ceiling the first `limit - 1` items of
      the iteration, separated by ", "; then ", ..." if there are `limit`
      or more, otherwise the iteration's own end (an exception escapes) and
      the single-element comma. */
  function ReprIter(h: Heap, self: Id, level: nat, hex: bool, prefix: string, suffix: string, comma: bool): Outcome
    requires Closed(h) && self in h
    decreases Rank(level), 1, 0
  {
    if level >= |MaxCollection| then Parts([prefix, "...", suffix])
    else
      var it := h[self].iteration;
      var limit := MaxCollection[level];
      if |it.items| >= limit then
        Then(Then(Parts([prefix]), ReprElems(h, self, it.items[..limit - 1], level, hex)), Parts([", ", "...", suffix]))
      else
        Then(Then(Parts([prefix]), ReprElems(h, self, it.items, level, hex)), IterEnd(it, comma && |it.items| == 1, suffix))
  }

  /** What `_repr_iter` yields when the loop runs out of items: the
      exception the iteration ended with, or the single-element comma when
      `comma` holds and the suffix. */
  function IterEnd(it: Iteration, comma: bool, suffix: string): Outcome
  {
    if it.raises.Some? then Raised(it.raises.value)
    else Parts((if comma then [","] else []) + [suffix])
  }

  /** The elements `xs` of `self`, each at its child level, separated by ", ". */
  function ReprElems(h: Heap, self: Id, xs: seq<Id>, level: nat, hex: bool): Outcome
    requires Closed(h) && (forall x :: x in xs ==> x in h)
    requires level < |MaxCollection|
    decreases Rank(level), 0, |xs|
  {
    if |xs| == 0 then Parts([])
    else
      var last := xs[|xs| - 1];
      Then(ReprElems(h, self, xs[..|xs| - 1], level, hex),
           Then(Parts(if |xs| == 1 then [] else [", "]), Repr(h, last, ChildLevel(self, last, level), hex)))
  }

  /** The keys `_repr_dict` visits: `sorted(obj)`, or `list(obj)` when sorting raises. */
  function SortedKeys(o: Obj): Attempt<seq<Id>>
    requires o.shape.Mapping?
  {
    match o.shape.sorted
    case Returns(ks) => Returns(ks)
    case Raises(_) =>
      if o.iteration.raises.Some? then Raises(o.iteration.raises.value) else Returns(o.iteration.items)
  }

  /** `_repr_dict`: empty first, then the depth ceiling, then the first
      `limit - 1` entries in key order and ", ..." if there are more. */
  function ReprDict(h: Heap, self: Id, level: nat, hex: bool, prefix: string, suffix: string,
                    itemPrefix: string, itemSep: string, itemSuffix: string): Outcome
    requires Closed(h) && self in h && h[self].shape.Mapping?
    decreases Rank(level), 1, 0
  {
    var o := h[self];
    match o.len  // `if not obj`
    case Raises(e) => Raised(e)
    case Returns(n) =>
      if n == 0 then Parts([prefix + suffix])
      else if level >= |MaxCollection| then Parts([prefix + "..." + suffix])
      else
        match SortedKeys(o)
        case Raises(e) => Raised(e)
        case Returns(ks) =>
          var limit := MaxCollection[level];
          var shown := if |ks| >= limit then ks[..limit - 1] else ks;
          var tail := if |ks| >= limit then [", ", "...", suffix] else [suffix];
          Then(Then(Parts([prefix]), ReprEntries(h, self, shown, level, hex, itemPrefix, itemSep, itemSuffix)), Parts(tail))
  }

  /** The entries for keys `ks`, separated by ", ". */
  function ReprEntries(h: Heap, self: Id, ks: seq<Id>, level: nat, hex: bool,
                       itemPrefix: string, itemSep: string, itemSuffix: string): Outcome
    requires Closed(h) && self in h && h[self].shape.Mapping? && (forall k :: k in ks ==> k in h)
    requires level < |MaxCollection|
    decreases Rank(level), 0, |ks|
  {
    if |ks| == 0 then Parts([])
    else
      Then(ReprEntries(h, self, ks[..|ks| - 1], level, hex, itemPrefix, itemSep, itemSuffix),
           Then(Parts(if |ks| == 1 then [] else [", "]),
                ReprEntry(h, self, ks[|ks| - 1], level, hex, itemPrefix, itemSep, itemSuffix)))
  }

  /** One entry: the key at `level + 1` (no self check), the separator, the
      value at its child level, or "<?>" when `obj[key]` raises. */
  function ReprEntry(h: Heap, self: Id, key: Id, level: nat, hex: bool,
                     itemPrefix: string, itemSep: string, itemSuffix: string): Outcome
    requires Closed(h) && self in h && h[self].shape.Mapping? && key in h
    requires level < |MaxCollection|
    decreases Rank(level), 0, 0
  {
    var values := h[self].shape.values;
    var value := if key in values then Repr(h, values[key], ChildLevel(self, values[key], level), hex)
                 else Parts(["<?>"]);
    Then(Then(Then(Then(Parts([itemPrefix]), Repr(h, key, level + 1, hex)), Parts([itemSep])), value), Parts([itemSuffix]))
  }

  /** `__call__`: the joined parts, or the exception's description. */
  function Call(h: Heap, id: Id, hex: bool): string
    requires Closed(h) && id in h
  {
    match Repr(h, id, 0, hex)
    case Parts(ps) => Concat(ps)
    case Raised(e) =>
      match e.repr
      case Some(r) => "An exception was raised: " + r
      case None => "An exception was raised"
  }
}
