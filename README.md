# SafeRepr: a verified model of ptvsd's bounded `repr()`

ptvsd's `SafeRepr` turns any Python object into a short, printable text
for the debugger's variable views. It must never raise, and it must not
print huge or deeply nested values in full. It renders tuples, lists,
sets, frozensets and deques element by element. A sequence shows at most
`limit - 1` items (`limit` is 15 at the top and 10 one level down),
followed by `, ...`. Below two levels a collection shows only `...`. Dicts
and OrderedDicts are rendered entry by entry in sorted key order, with the
same caps. Strings and all other values are cut to 30 characters when
nested and to 65536 at the top, keeping a head, `...` and a tail. Other
iterables that are too long or too deep are summarised as
`<type, len() = n>`. With `convert_to_hex`, ints are written as `hex(n)`.
A container that holds itself renders that element past the depth
ceiling, so a list that contains itself prints as `[[...]]`. An exception that escapes the
rendering becomes the text `An exception was raised: …`.

The project has these modules:

- **Values** (`values.dfy`): the objects the renderer inspects. Objects
  live in a heap `map<Id, Obj>`, so `item is obj` is an equality of ids
  and a container may hold itself. Each call the renderer makes into
  Python is a field holding that call's outcome, which may be an
  exception. These calls are `repr()`, `object.__repr__`, the type's name
  and module, `hasattr`, `iter()`, `len()`, the iteration, `obj[key]` and
  `sorted()`.
- **Formatting** (`formatting.dfy`): `''.join`, Python's `str(n)` and
  `hex(n)` for ints, and the first component of a dotted module name.
- **SafeRepr** (`safe_repr.dfy`): the renderer as functions. `Repr` is
  `_repr`. It yields an `Outcome`: either the parts the generator yields or
  the exception that escapes it. The module also holds `ReprIter`,
  `ReprDict`, `ReprEntry`, `IsLongIter`, `LongIterSummary`,
  `ReprStr`/`ReprOther`/`ReprObj` and `Call` (`__call__`), and the
  constant tables of the class.
- **Renderer** (`renderer.dfy`): `_repr_iter` and `_repr_dict` as the
  loops the source runs. Each loop counts down from the limit, emits
  `", "` from the second item on and breaks at the cap. The loops call
  back into `_repr`, which is the method `Render`. `Renderer.Call` is the
  imperative entry point `__call__` and mirrors `SafeRepr.Call`. Each
  method is proved equal to its function in SafeRepr.
- **Joined** (`joined.dfy`): an independent description of a rendered
  element list. It is the items' renderings in order, separated by
  `", "`, unless one of them raises, in which case the first exception
  escapes. The recursive element and entry functions are proved equal to
  it.
- **LiteralProps**, **LongIterProps**, **CollectionProps**
  (`literal_props.dfy`, `long_iter_props.dfy`, `collection_props.dfy`): the
  properties the class promises, as lemmas.
- **Scenarios** (`scenarios.dfy`): concrete objects and the exact text
  they render as.

## Model

| member | source | states |
|---|---|---|
| SafeRepr.Repr | ptvsd/safe_repr.py:81-115 | defines `_repr`; it has no contract of its own: Renderer.Render, OtherDispatch, StrDispatch, IterCeiling, DictCeiling and SelfContainment state its cases |
| SafeRepr.ReprIter | ptvsd/safe_repr.py:171-196 | defines `_repr_iter`; no contract of its own: IterCap, IterShort, TrailingComma, IterCeiling and ElemsJoined state it |
| SafeRepr.ReprDict | ptvsd/safe_repr.py:209-253 | defines `_repr_dict`; no contract of its own: DictCeiling, DictBody and EntriesJoined state it |
| SafeRepr.ReprEntry | ptvsd/safe_repr.py:238-251 | defines one entry of `_repr_dict`; no contract of its own: EntryShape states it |
| SafeRepr.IsLongIter | ptvsd/safe_repr.py:119-169 | defines `_is_long_iter`; no contract of its own: IsLongIterSpec states every case |
| SafeRepr.AnyLong | ptvsd/safe_repr.py:163-165 | defines the two `any(...)` scans; no contract of its own: AnyLongSpec states it |
| SafeRepr.LongIterSummary | ptvsd/safe_repr.py:198-207 | defines `_repr_long_iter`; no contract of its own: LongIterSummarySpec states it |
| SafeRepr.NaturalRepr | ptvsd/safe_repr.py:265-279 | defines the natural form of `_repr_obj`; no contract of its own: NaturalReprFallbacks states it |
| SafeRepr.Truncate | ptvsd/safe_repr.py:281-294 | defines the cut of `_repr_obj`; no contract of its own: TruncateSpec states it |
| SafeRepr.ReprObj | ptvsd/safe_repr.py:265-294 | defines `_repr_obj`; no contract of its own: LiteralLimits states it |
| SafeRepr.ReprStr | ptvsd/safe_repr.py:255-258 | defines `_repr_str`; no contract of its own: LiteralLimits and StrDispatch state it |
| SafeRepr.ReprOther | ptvsd/safe_repr.py:260-263 | defines `_repr_other`; no contract of its own: LiteralLimits and OtherDispatch state it |
| SafeRepr.Call | ptvsd/safe_repr.py:72-79 | defines `__call__`; no contract of its own: CallSpec and Renderer.Call state it |
| Renderer.Render | ptvsd/safe_repr.py:81-115 | the dispatch method yields exactly `Repr`: exact table types first (sequences, then mappings, then strings), then the long-iterable summary, then the bounded literal |
| Renderer.RenderIter | ptvsd/safe_repr.py:171-196 | the counting loop with `yield_comma`, `count -= 1` and `break` yields exactly `ReprIter` |
| Renderer.RenderDict | ptvsd/safe_repr.py:209-253 | the entry loop over the sorted keys, with the same countdown and break, yields exactly `ReprDict` |
| Renderer.RenderEntry | ptvsd/safe_repr.py:238-251 | one entry, as the loop body yields it, is exactly `ReprEntry` |
| Renderer.Call | ptvsd/safe_repr.py:72-79 | `__call__` returns exactly `SafeRepr.Call`: the joined parts, or the exception's description |
| Joined.ElemsJoined | ptvsd/safe_repr.py:180-191 | the elements shown are each element's rendering at its child level, in iteration order, separated by ", "; the first exception among them escapes |
| Joined.EntriesJoined | ptvsd/safe_repr.py:228-251 | the entries shown are each key's entry, in key order, separated by ", "; the first exception among them escapes |
| Joined.JoinSnoc | ptvsd/safe_repr.py:180-191 | adding an item extends the joined list by a separator (from the second item on) and the item's parts |
| Formatting.DecimalSpec | ptvsd/safe_repr.py:199-201 | `str(n)` is an optional minus sign then decimal digits without a leading zero that read back as `abs(n)` |
| Formatting.HexSpec | ptvsd/safe_repr.py:268-269 | `hex(n)` is `0x` (after `-` when negative) then hexadecimal digits without a leading zero that read back as `abs(n)` |
| Formatting.DigitsRoundTrip | ptvsd/safe_repr.py:268-269 | reading back the digits of `n` in any base from 2 to 16 gives `n` |
| Formatting.DigitsShape | ptvsd/safe_repr.py:268-269 | the digits of `n` are a non-empty string of digits of the base with no leading zero |
| Formatting.ModuleHeadSpec | ptvsd/safe_repr.py:145 | `m.partition('.')[0]` is the longest dot-free prefix of `m`, followed in `m` by a dot when shorter |
| Formatting.ModuleHeadOfDotted | ptvsd/safe_repr.py:145 | a dot-free name is its own head, also when a dot and more follow it |
| LiteralProps.TruncateSpec | ptvsd/safe_repr.py:281-294 | a form within the limit is yielded whole; a longer one as a head of `max(1, 2*limit/3)` characters, "..." and a tail of `max(1, limit/3)` characters, 2 or 3 characters longer than the limit when the limit is at least 2 |
| LiteralProps.LiteralLimits | ptvsd/safe_repr.py:255-294 | strings and other values share the limits 30 (nested) and 65536 (top); verbatim within the limit, otherwise a head, "..." and a tail of the natural form that together are 2 or 3 characters over the limit |
| LiteralProps.NaturalReprFallbacks | ptvsd/safe_repr.py:267-279 | the natural form is `hex(n)` for an int in hex mode, else `repr()`, falling back to `object.__repr__`, then to "<no repr available for T>", then to "<no repr available for object>" |
| LiteralProps.LongIterSummarySpec | ptvsd/safe_repr.py:198-207 | the summary is one part in angle brackets: "<T, len() = " then the length in hex or decimal, or "<T>" when `len()` raises, or the fixed text when the type name raises |
| LongIterProps.AnyLongSpec | ptvsd/safe_repr.py:164-165 | the `any(...)` holds exactly when an item is long one level down, the index runs past the cap (unsized case), or the iteration raises before an answer |
| LongIterProps.IsLongIterSpec | ptvsd/safe_repr.py:119-169 | every case of `_is_long_iter` as an if-and-only-if: strings by length over 30 (raising `len()` is long); non-iterables, one-off iterators, ranges and numpy/scipy values never; raising `iter()` and too-deep nesting always; sized by `len() > limit`, unsized by more than `limit + 1` items, either one by a long item or a raising iteration |
| LongIterProps.SelfTruncatingBelow | ptvsd/safe_repr.py:142-149 | values of module numpy or scipy themselves, and of any module below them, are exempt from the length test |
| CollectionProps.IterCap | ptvsd/safe_repr.py:178-188 | with `limit` or more items: the first `limit - 1` items (14 at the top, 9 one level down), then ", ..." and the suffix; later items and the end of the iteration play no part |
| CollectionProps.IterShort | ptvsd/safe_repr.py:178-196 | with fewer items: all of them, then "," only when the type asks for it and there is exactly one item, then the suffix; an exception from an item or from the iteration escapes |
| CollectionProps.TrailingComma | ptvsd/safe_repr.py:46-51 | only a tuple writes a comma after a single element: `(x,)` but `[x]`, `{x}`, `frozenset({x})`, `deque([x])` |
| CollectionProps.IterCeiling | ptvsd/safe_repr.py:175-176 | at or beyond the depth ceiling a sequence-like value is its prefix, "..." and its suffix |
| CollectionProps.DictCeiling | ptvsd/safe_repr.py:211-216 | an empty mapping is prefix plus suffix at any depth; a non-empty one at or beyond the ceiling is prefix, "..." and suffix in one part; a raising truth test escapes |
| CollectionProps.DictBody | ptvsd/safe_repr.py:218-253 | a non-empty mapping below the ceiling shows its first `limit - 1` entries in `sorted()` order (iteration order when sorting raises), then ", ..." if there are `limit` or more keys, then the suffix; an exception from an entry, or from `list(obj)`, escapes |
| CollectionProps.EntryShape | ptvsd/safe_repr.py:238-251 | an entry is item prefix, the key at `level + 1` (even when it is the mapping itself), separator, the value at its child level or "<?>" when the lookup raises, and item suffix; an exception from key or value escapes |
| CollectionProps.SelfContainment | ptvsd/safe_repr.py:190 | an element that is its own container renders at level 100, past the ceiling (a self-holding list prints as `[[...]]`); every step lowers the remaining depth, so the recursion is bounded |
| CollectionProps.OtherDispatch | ptvsd/safe_repr.py:112-115 | a value that is not an exact table type is summarised when it is a long iterable at level 0, whatever its depth; otherwise it is `_repr_other`: its natural form verbatim when it fits the limit (30 nested, 65536 at the top), else a head of it, "..." and a tail of it, 2 or 3 characters over the limit |
| CollectionProps.StrDispatch | ptvsd/safe_repr.py:106-109 | a `str` or `bytes` with its own type's `__repr__` is `_repr_str`: its `repr()` verbatim within 30 characters nested or 65536 at the top, else a head of it, "..." and a tail of it, 2 or 3 characters over the limit |
| CollectionProps.IntRendering | ptvsd/safe_repr.py:265-271 | an int renders as `hex(n)` in hex mode and as its `repr()` otherwise, when that fits the limit |
| CollectionProps.CallSpec | ptvsd/safe_repr.py:72-79 | `__call__` never raises: it returns the joined parts, or "An exception was raised: " and the exception's `repr()`, or "An exception was raised" when that `repr()` raises |
| Scenarios.IntScenario | ptvsd/safe_repr.py:265-284 | `42` renders as "42", and as "0x2a" in hex mode |
| Scenarios.SmallListScenario | ptvsd/safe_repr.py:171-196 | `[1, 2, 3]` renders as "[1, 2, 3]" |
| Scenarios.SelfListScenario | ptvsd/safe_repr.py:190 | a list that contains itself renders as "[[...]]" |
| Scenarios.RaisingListScenario | ptvsd/safe_repr.py:72-77 | a list whose iteration raises `ValueError()` renders as "An exception was raised: ValueError()" |
| Scenarios.SmallDictScenario | ptvsd/safe_repr.py:223-251 | `{'b': 1, 'a': 2}` yields the parts of "{'a': 2, 'b': 1}", in sorted key order |

## Left out

- Python 2: the `unicode`/`long`/`xrange` aliases and the Python 2 set spellings `set([...])` and `frozenset([...])`. The model uses the Python 3 rows of the tables.
- The tables are fixed in the model. `deque` and `OrderedDict` are always present, and their import failures are not modelled.
- `sorted()` is an oracle. An `Obj` carries what `sorted(obj)` returns or raises; the ordering of Python values is not modelled.
- `isinstance` and the `has_obj_repr` comparison are folded into an object's `shape` and `exactRepr` fields. A `__repr__` lookup that raises counts as "not exact", and a failing `==` comparison falls back to identity. Both are inputs, not computed.
- Generators are modelled as finished sequences of parts. Laziness, and output already yielded before an exception escapes, are not modelled: `''.join` never sees a partial result, and the model does not either.
- `hasattr(obj, '__iter__')` and `hasattr(obj, '__len__')` are booleans. An attribute lookup that raises something other than AttributeError is not modelled.
- Renderer.Call: the text after "An exception was raised: " is the exception's `repr()`, an input. The model does not bound it. The long-iterable summary's type name and length are not bounded either. The 65539-character bound therefore covers literals only, not every result.
- Iterations are finite, and every call into Python is deterministic and free of side effects (a `__repr__` that mutates the container it sits in is not modelled). So the model does not show that `_is_long_iter` can hang (ptvsd/safe_repr.py:156-164): for a sized object whose `len()` is within the limit, or raises, the `any(...)` over its items has no index cap, and an unbounded `__iter__` of items that are not long never lets it return. Only the unsized case at line 165 stops at `i > limit`.
- Only exceptions derived from `Exception` are modelled. Every handler in the class is `except Exception`, so a `BaseException` such as `KeyboardInterrupt`, `SystemExit` or `GeneratorExit` escapes `__call__`. CollectionProps.CallSpec's "never raises" holds for `Exception` subclasses only.
- The truth test `not obj` of `_repr_dict` (ptvsd/safe_repr.py:211) is read from `len()`. A dict subclass that overrides `__bool__` but keeps `dict.__repr__` is not modelled.
- Integers are unbounded. Python's `len()` is bounded by `sys.maxsize`, but no limit of the renderer depends on that.
- The test double tests/helpers/vsc/_fake.py is not part of this model.
