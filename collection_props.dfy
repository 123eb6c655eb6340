/** Properties of `_repr`, `_repr_iter` and `_repr_dict` stated against the
    independent description of module Joined: which items are shown, what
    follows them, when the depth ceiling applies, how entries look, and that
    the recursion is bounded. */
module CollectionProps {

  import opened Values
  import opened Formatting
  import opened SafeRepr
  import opened Joined
  import LiteralProps

  /** The prefix, the joined outcomes and a tail, yielded one after the other. */
  lemma Framed(prefix: string, os: seq<Outcome>, tail: Outcome)
    ensures Then(Then(Parts([prefix]), Join(os)), tail)
         == if FirstRaised(os).Some? then Raised(FirstRaised(os).value)
            else if tail.Raised? then tail
            else Parts([prefix] + Interleave(os) + tail.parts)
  {
  }

  /** A sequence-like value with at least `limit` items, below the ceiling:
      the first `limit - 1` items separated by ", ", then ", ..." and the
      suffix. Later items, and how the iteration ends, play no part. */
  lemma IterCap(h: Heap, self: Id, level: nat, hex: bool, prefix: string, suffix: string, comma: bool)
    requires Closed(h) && self in h && level < |MaxCollection|
    requires |h[self].iteration.items| >= MaxCollection[level]
    ensures var os := ItemOutcomes(h, self, h[self].iteration.items[..MaxCollection[level] - 1], level, hex);
      ReprIter(h, self, level, hex, prefix, suffix, comma)
        == if FirstRaised(os).Some? then Raised(FirstRaised(os).value)
           else Parts([prefix] + Interleave(os) + [", ", "...", suffix])
  {
    var shown := h[self].iteration.items[..MaxCollection[level] - 1];
    ElemsJoined(h, self, shown, level, hex);
    Framed(prefix, ItemOutcomes(h, self, shown, level, hex), Parts([", ", "...", suffix]));
  }

  /** A sequence-like value with fewer than `limit` items, below the
      ceiling: all items separated by ", ", then "," only when `comma` holds
      and there is exactly one item, then the suffix; an exception raised by
      an item or by the iteration escapes instead. */
  lemma IterShort(h: Heap, self: Id, level: nat, hex: bool, prefix: string, suffix: string, comma: bool)
    requires Closed(h) && self in h && level < |MaxCollection|
    requires |h[self].iteration.items| < MaxCollection[level]
    ensures var it := h[self].iteration;
      var os := ItemOutcomes(h, self, it.items, level, hex);
      ReprIter(h, self, level, hex, prefix, suffix, comma)
        == if FirstRaised(os).Some? then Raised(FirstRaised(os).value)
           else if it.raises.Some? then Raised(it.raises.value)
           else Parts([prefix] + Interleave(os) + ((if comma && |it.items| == 1 then [","] else []) + [suffix]))
  {
    var it := h[self].iteration;
    ElemsJoined(h, self, it.items, level, hex);
    Framed(prefix, ItemOutcomes(h, self, it.items, level, hex), IterEnd(it, comma && |it.items| == 1, suffix));
  }

  /** Only a tuple writes a comma after a single element: `(x,)` but `[x]`,
      `{x}`, `frozenset({x})` and `deque([x])`. */
  lemma TrailingComma(h: Heap, id: Id, level: nat, hex: bool)
    requires Closed(h) && id in h && level < |MaxCollection|
    requires h[id].shape.Collection? && h[id].exactRepr
    requires |h[id].iteration.items| == 1 && h[id].iteration.raises.None?
    ensures var row := CollectionInfo(h[id].shape.kind);
      var x := h[id].iteration.items[0];
      var item := Repr(h, x, ChildLevel(id, x, level), hex);
      item.Parts? ==>
        Repr(h, id, level, hex)
          == Parts([row.prefix] + item.parts + ((if h[id].shape.kind == TupleKind then [","] else []) + [row.suffix]))
  {
    var row := CollectionInfo(h[id].shape.kind);
    var x := h[id].iteration.items[0];
    IterShort(h, id, level, hex, row.prefix, row.suffix, row.comma);
    var os := ItemOutcomes(h, id, h[id].iteration.items, level, hex);
    assert os == [Repr(h, x, ChildLevel(id, x, level), hex)];
    assert row.comma == (h[id].shape.kind == TupleKind);
  }

  /** At or beyond the depth ceiling a sequence-like value shows no
      elements: its prefix, "..." and its suffix. */
  lemma IterCeiling(h: Heap, id: Id, level: nat, hex: bool)
    requires Closed(h) && id in h && level >= |MaxCollection|
    requires h[id].shape.Collection? && h[id].exactRepr
    ensures var row := CollectionInfo(h[id].shape.kind);
      Repr(h, id, level, hex) == Parts([row.prefix, "...", row.suffix])
  {
  }

  /** A mapping whose truth test raises lets that exception escape; an
      empty one renders as prefix and suffix at any depth; a non-empty one
      at or beyond the depth ceiling is one part: prefix, "..." and suffix. */
  lemma DictCeiling(h: Heap, id: Id, level: nat, hex: bool)
    requires Closed(h) && id in h
    requires h[id].shape.Mapping? && h[id].exactRepr
    ensures var o := h[id];
      var row := DictInfo(o.shape.dictKind);
      && (o.len.Raises? ==> Repr(h, id, level, hex) == Raised(o.len.exc))
      && (o.len == Returns(0) ==> Repr(h, id, level, hex) == Parts([row.prefix + row.suffix]))
      && (o.len.Returns? && o.len.value > 0 && level >= |MaxCollection| ==>
            Repr(h, id, level, hex) == Parts([row.prefix + "..." + row.suffix]))
  {
  }

  /** A non-empty mapping below the ceiling: its first `limit - 1` entries
      in key order (`sorted()`, or iteration order when sorting raises),
      separated by ", ", then ", ..." if there are `limit` or more keys, then
      the suffix. An exception from an entry, or from `list(obj)` when
      sorting raises, escapes. */
  lemma DictBody(h: Heap, self: Id, level: nat, hex: bool, prefix: string, suffix: string,
                 itemPrefix: string, itemSep: string, itemSuffix: string)
    requires Closed(h) && self in h && h[self].shape.Mapping? && level < |MaxCollection|
    requires h[self].len.Returns? && h[self].len.value > 0
    ensures SortedKeys(h[self]).Raises? ==>
      ReprDict(h, self, level, hex, prefix, suffix, itemPrefix, itemSep, itemSuffix)
        == Raised(SortedKeys(h[self]).exc)
    ensures SortedKeys(h[self]).Returns? ==>
      var ks := SortedKeys(h[self]).value;
      var limit := MaxCollection[level];
      var shown := if |ks| >= limit then ks[..limit - 1] else ks;
      var os := EntryOutcomes(h, self, shown, level, hex, itemPrefix, itemSep, itemSuffix);
      ReprDict(h, self, level, hex, prefix, suffix, itemPrefix, itemSep, itemSuffix)
        == if FirstRaised(os).Some? then Raised(FirstRaised(os).value)
           else Parts([prefix] + Interleave(os) + (if |ks| >= limit then [", ", "...", suffix] else [suffix]))
  {
    if SortedKeys(h[self]).Returns? {
      var ks := SortedKeys(h[self]).value;
      var limit := MaxCollection[level];
      var shown := if |ks| >= limit then ks[..limit - 1] else ks;
      var tail := if |ks| >= limit then [", ", "...", suffix] else [suffix];
      EntriesJoined(h, self, shown, level, hex, itemPrefix, itemSep, itemSuffix);
      Framed(prefix, EntryOutcomes(h, self, shown, level, hex, itemPrefix, itemSep, itemSuffix), Parts(tail));
    }
  }

  /** An entry is the item prefix, the key rendered one level down (even
      when the key is the mapping itself), the item separator, the value
      rendered at its child level or "<?>" when looking it up raises, and
      the item suffix; an exception from the key or the value escapes. */
  lemma EntryShape(h: Heap, self: Id, key: Id, level: nat, hex: bool,
                   itemPrefix: string, itemSep: string, itemSuffix: string)
    requires Closed(h) && self in h && h[self].shape.Mapping? && key in h && level < |MaxCollection|
    ensures var values := h[self].shape.values;
      var k := Repr(h, key, level + 1, hex);
      var e := ReprEntry(h, self, key, level, hex, itemPrefix, itemSep, itemSuffix);
      && (k.Raised? ==> e == k)
      && (k.Parts? && key !in values ==> e == Parts([itemPrefix] + k.parts + [itemSep, "<?>", itemSuffix]))
      && (k.Parts? && key in values ==>
            var v := Repr(h, values[key], ChildLevel(self, values[key], level), hex);
            && (v.Raised? ==> e == v)
            && (v.Parts? ==> e == Parts([itemPrefix] + k.parts + [itemSep] + v.parts + [itemSuffix])))
  {
    var k := Repr(h, key, level + 1, hex);
    var values := h[self].shape.values;
    if k.Parts? && key !in values {
      assert [itemPrefix] + k.parts + [itemSep] + ["<?>"] + [itemSuffix]
          == [itemPrefix] + k.parts + [itemSep, "<?>", itemSuffix];
    }
  }

  /** A container that holds itself renders that element at level 100,
      past the ceiling, so the element shows no elements of its own:
      a list that contains itself prints as `[[...]]`. Every other element
      is rendered one level down, and each step lowers the remaining depth,
      so rendering never nests more than `|MaxCollection|` levels of
      elements. */
  lemma SelfContainment(h: Heap, id: Id, level: nat, hex: bool)
    requires Closed(h) && id in h
    ensures ChildLevel(id, id, level) == SelfLevel >= |MaxCollection|
    ensures var o := h[id];
      o.shape.Collection? && o.exactRepr ==>
        Repr(h, id, ChildLevel(id, id, level), hex)
          == Parts([CollectionInfo(o.shape.kind).prefix, "...", CollectionInfo(o.shape.kind).suffix])
    ensures var o := h[id];
      o.shape.Mapping? && o.exactRepr && o.len.Returns? && o.len.value > 0 ==>
        Repr(h, id, ChildLevel(id, id, level), hex)
          == Parts([DictInfo(o.shape.dictKind).prefix + "..." + DictInfo(o.shape.dictKind).suffix])
    ensures forall item: Id :: level < |MaxCollection| ==> Rank(ChildLevel(id, item, level)) < Rank(level)
    ensures Rank(level) <= |MaxCollection|
  {
    if h[id].shape.Collection? && h[id].exactRepr {
      IterCeiling(h, id, SelfLevel, hex);
    } else if h[id].shape.Mapping? && h[id].exactRepr {
      DictCeiling(h, id, SelfLevel, hex);
    }
  }

  /** Values that are not table types with their own `__repr__`: the
      long-iterable test is made at level 0 whatever the depth, and a long
      iterable becomes its one-part summary; anything else renders as its
      bounded literal (`_repr_other`): verbatim when its natural form fits
      the limit of its level, otherwise a head of it, "..." and a tail of
      it, 2 or 3 characters over the limit. */
  lemma OtherDispatch(h: Heap, id: Id, level: nat, hex: bool)
    requires Closed(h) && id in h
    requires var o := h[id];
      !(o.exactRepr && (o.shape.Collection? || o.shape.Mapping? || o.shape.TextObj?))
    ensures IsLongIter(h, id, 0) ==> Repr(h, id, level, hex) == Parts([LongIterSummary(h[id], hex)])
    ensures !IsLongIter(h, id, 0) ==> Repr(h, id, level, hex) == Parts(ReprOther(h[id], level, hex))
    ensures var r := NaturalRepr(h[id], hex);
      var limit := if level > 0 then MaxOtherInner else MaxOtherOuter;
      && (!IsLongIter(h, id, 0) && |r| <= limit ==> Repr(h, id, level, hex) == Parts([r]))
      && (!IsLongIter(h, id, 0) && |r| > limit ==> TruncatedOutcome(Repr(h, id, level, hex), r, limit))
  {
    LiteralProps.LiteralLimits(h[id], level, hex);
  }

  /** An outcome that holds the truncation of `r` to `limit`: a head of
      `r`, "..." and a tail of `r`, 2 or 3 characters longer than `limit`. */
  predicate TruncatedOutcome(out: Outcome, r: string, limit: nat)
  {
    && out.Parts? && |out.parts| == 3
    && out.parts[0] <= r && out.parts[1] == "..." && EndsWith(r, out.parts[2])
    && limit + 2 <= |Concat(out.parts)| <= limit + 3
  }

  /** A `str` or `bytes` with its own type's `__repr__` renders as its
      bounded literal (`_repr_str`): verbatim within 30 characters when
      nested or 65536 at the top, otherwise a head, "..." and a tail. */
  lemma StrDispatch(h: Heap, id: Id, level: nat, hex: bool)
    requires Closed(h) && id in h && h[id].shape.TextObj? && h[id].exactRepr
    ensures Repr(h, id, level, hex) == Parts(ReprStr(h[id], level, hex))
    ensures var r := NaturalRepr(h[id], hex);
      var limit := if level > 0 then MaxStringInner else MaxStringOuter;
      && (|r| <= limit ==> Repr(h, id, level, hex) == Parts([r]))
      && (|r| > limit ==> TruncatedOutcome(Repr(h, id, level, hex), r, limit))
  {
    LiteralProps.LiteralLimits(h[id], level, hex);
  }

  /** An int (which has no `__iter__`) renders as `hex(n)` in hex mode and
      as its `repr()` otherwise, whenever that fits the limit of its level. */
  lemma IntRendering(h: Heap, id: Id, level: nat, hex: bool)
    requires Closed(h) && id in h && h[id].shape.IntObj? && !h[id].hasIter
    ensures var n := h[id].shape.n;
      var limit := if level > 0 then MaxOtherInner else MaxOtherOuter;
      && (hex && |Hex(n)| <= limit ==> Repr(h, id, level, hex) == Parts([Hex(n)]))
      && (!hex && h[id].repr.Returns? && |h[id].repr.value| <= limit ==>
            Repr(h, id, level, hex) == Parts([h[id].repr.value]))
  {
    IsLongIterSpecNoIter(h, id);
  }

  lemma IsLongIterSpecNoIter(h: Heap, id: Id)
    requires Closed(h) && id in h && h[id].shape.IntObj? && !h[id].hasIter
    ensures !IsLongIter(h, id, 0)
  {
  }

  /** `__call__` never raises: it returns the joined parts, or, when an
      exception escapes the rendering, a text naming it (or a fixed text
      when even its `%r` raises). */
  lemma CallSpec(h: Heap, id: Id, hex: bool)
    requires Closed(h) && id in h
    ensures Repr(h, id, 0, hex).Parts? ==> Call(h, id, hex) == Concat(Repr(h, id, 0, hex).parts)
    ensures Repr(h, id, 0, hex).Raised? ==>
      var e := Repr(h, id, 0, hex).exc;
      && "An exception was raised" <= Call(h, id, hex)
      && (e.repr.Some? ==> Call(h, id, hex) == "An exception was raised: " + e.repr.value)
      && (e.repr.None? ==> Call(h, id, hex) == "An exception was raised")
  {
  }
}
