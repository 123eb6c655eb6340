/** The renderer as the source runs it: `_repr_iter` and `_repr_dict` as
    loops that count down from the depth's limit, emit ", " from the second
    item on and break at the cap, and `_repr` as the dispatch that the loops
    call back into for every element. Each method is proved to produce
    exactly what the corresponding function of module SafeRepr specifies. */
module Renderer {

  import opened Values
  import opened Formatting
  import opened SafeRepr

  /** `_repr(obj, level, convert_to_hex)` */
  method Render(h: Heap, id: Id, level: nat, hex: bool) returns (out: Outcome)
    requires Closed(h) && id in h
    ensures out == Repr(h, id, level, hex)
    decreases Rank(level), 2, 0
  {
    var o := h[id];
    if o.shape.Collection? && o.exactRepr {
      var row := CollectionInfo(o.shape.kind);
      out := RenderIter(h, id, level, hex, row.prefix, row.suffix, row.comma);
    } else if o.shape.Mapping? && o.exactRepr {
      var row := DictInfo(o.shape.dictKind);
      out := RenderDict(h, id, level, hex, row.prefix, row.suffix, row.itemPrefix, row.itemSep, row.itemSuffix);
    } else if o.shape.TextObj? && o.exactRepr {
      out := Parts(ReprStr(o, level, hex));
    } else if IsLongIter(h, id, 0) {
      out := Parts([LongIterSummary(o, hex)]);
    } else {
      out := Parts(ReprOther(o, level, hex));
    }
  }


  /** The separator `_repr_iter` and `_repr_dict` emit before item `i`:
      `yield_comma` is false only before the first one. */
  function Sep(i: nat): seq<string>
  {
    if i == 0 then [] else [", "]
  }

  /** Once the elements rendered so far have raised, later elements change nothing. */
  lemma {:induction false} ElemsRaisedStays(h: Heap, self: Id, xs: seq<Id>, k: nat, level: nat, hex: bool)
    requires Closed(h) && (forall x :: x in xs ==> x in h) && level < |MaxCollection|
    requires 0 < k <= |xs| && ReprElems(h, self, xs[..k], level, hex).Raised?
    ensures ReprElems(h, self, xs, level, hex) == ReprElems(h, self, xs[..k], level, hex)
    decreases |xs|
  {
    if k < |xs| {
      var init := xs[..|xs| - 1];
      assert init[..k] == xs[..k];
      ElemsRaisedStays(h, self, init, k, level, hex);
    } else {
      assert xs[..k] == xs;
    }
  }

  lemma {:induction false} EntriesRaisedStays(h: Heap, self: Id, ks: seq<Id>, k: nat, level: nat, hex: bool,
                                              ip: string, sep: string, sfx: string)
    requires Closed(h) && self in h && h[self].shape.Mapping? && (forall x :: x in ks ==> x in h)
    requires level < |MaxCollection|
    requires 0 < k <= |ks| && ReprEntries(h, self, ks[..k], level, hex, ip, sep, sfx).Raised?
    ensures ReprEntries(h, self, ks, level, hex, ip, sep, sfx) == ReprEntries(h, self, ks[..k], level, hex, ip, sep, sfx)
    decreases |ks|
  {
    if k < |ks| {
      var init := ks[..|ks| - 1];
      assert init[..k] == ks[..k];
      EntriesRaisedStays(h, self, init, k, level, hex, ip, sep, sfx);
    } else {
      assert ks[..k] == ks;
    }
  }

  /** One more element: what the loop body of `_repr_iter` appends to the
      parts `done` of the elements before it. */
  lemma ElemsSnoc(h: Heap, self: Id, items: seq<Id>, i: nat, level: nat, hex: bool, done: seq<string>)
    requires Closed(h) && (forall x :: x in items ==> x in h) && level < |MaxCollection| && i < |items|
    requires ReprElems(h, self, items[..i], level, hex) == Parts(done)
    ensures ReprElems(h, self, items[..i + 1], level, hex)
         == Then(Parts(done + Sep(i)), Repr(h, items[i], ChildLevel(self, items[i], level), hex))
  {
    assert items[..i + 1][..i] == items[..i];
    ThenParts(done, Sep(i), Repr(h, items[i], ChildLevel(self, items[i], level), hex));
  }

  /** One more entry: what the loop body of `_repr_dict` appends. */
  lemma EntriesSnoc(h: Heap, self: Id, ks: seq<Id>, i: nat, level: nat, hex: bool,
                    ip: string, sep: string, sfx: string, done: seq<string>)
    requires Closed(h) && self in h && h[self].shape.Mapping? && (forall x :: x in ks ==> x in h)
    requires level < |MaxCollection| && i < |ks|
    requires ReprEntries(h, self, ks[..i], level, hex, ip, sep, sfx) == Parts(done)
    ensures ReprEntries(h, self, ks[..i + 1], level, hex, ip, sep, sfx)
         == Then(Parts(done + Sep(i)), ReprEntry(h, self, ks[i], level, hex, ip, sep, sfx))
  {
    assert ks[..i + 1][..i] == ks[..i];
    ThenParts(done, Sep(i), ReprEntry(h, self, ks[i], level, hex, ip, sep, sfx));
  }

  /** The loop of `_repr_iter` broke at the cap after `limit - 1` items. */
  lemma IterCutOff(h: Heap, self: Id, level: nat, hex: bool, prefix: string, suffix: string, comma: bool,
                    body: seq<string>, i: nat, sep: seq<string>)
    requires Closed(h) && self in h && level < |MaxCollection|
    requires i < |h[self].iteration.items| && i == MaxCollection[level] - 1 && sep == Sep(i)
    requires ReprElems(h, self, h[self].iteration.items[..i], level, hex) == Parts(body)
    ensures ReprIter(h, self, level, hex, prefix, suffix, comma) == Then(Parts([prefix] + body), Parts(sep + ["...", suffix]))
  {
  }

  /** The loop of `_repr_iter` ran out of items. */
  lemma IterExhausted(h: Heap, self: Id, level: nat, hex: bool, prefix: string, suffix: string, comma: bool, body: seq<string>, n: nat)
    requires Closed(h) && self in h && level < |MaxCollection|
    requires n == |h[self].iteration.items| < MaxCollection[level]
    requires ReprElems(h, self, h[self].iteration.items[..n], level, hex) == Parts(body)
    ensures ReprIter(h, self, level, hex, prefix, suffix, comma)
         == Then(Parts([prefix] + body), IterEnd(h[self].iteration, comma && n == 1, suffix))
  {
    assert h[self].iteration.items[..n] == h[self].iteration.items;
  }

  /** One pass of the loop of `_repr_iter` that renders item `i`: either
      the item's rendering raises, and so does the whole rendering, or its
      parts extend those of the items before it. */
  lemma IterStep(h: Heap, self: Id, level: nat, hex: bool, prefix: string, suffix: string, comma: bool,
                 body: seq<string>, i: nat, sep: seq<string>)
    requires Closed(h) && self in h && level < |MaxCollection|
    requires i < |h[self].iteration.items| && i < MaxCollection[level] - 1 && sep == Sep(i)
    requires ReprElems(h, self, h[self].iteration.items[..i], level, hex) == Parts(body)
    ensures var item := h[self].iteration.items[i];
      var sub := Repr(h, item, ChildLevel(self, item, level), hex);
      && (sub.Raised? ==> ReprIter(h, self, level, hex, prefix, suffix, comma) == sub)
      && (sub.Parts? ==> ReprElems(h, self, h[self].iteration.items[..i + 1], level, hex) == Parts(body + sep + sub.parts))
  {
    var items := h[self].iteration.items;
    ElemsSnoc(h, self, items, i, level, hex, body);
    var sub := Repr(h, items[i], ChildLevel(self, items[i], level), hex);
    if sub.Raised? {
      var limit := MaxCollection[level];
      var shown := if |items| >= limit then items[..limit - 1] else items;
      assert shown[..i + 1] == items[..i + 1];
      ElemsRaisedStays(h, self, shown, i + 1, level, hex);
    }
  }

  /** `_repr_iter(obj, level, prefix, suffix, comma_after_single_element, convert_to_hex)`;
      `body` holds the parts yielded after the prefix. */
  method RenderIter(h: Heap, self: Id, level: nat, hex: bool, prefix: string, suffix: string, comma: bool)
    returns (out: Outcome)
    requires Closed(h) && self in h
    ensures out == ReprIter(h, self, level, hex, prefix, suffix, comma)
    decreases Rank(level), 1, 0
  {
    if level >= |MaxCollection| {
      return Parts([prefix, "...", suffix]);
    }
    var items := h[self].iteration.items;
    var limit := MaxCollection[level];
    var count: int := limit;
    var yieldComma := false;
    var body: seq<string> := [];
    var i := 0;
    while i < |items|
      invariant 0 <= i <= |items| && i < limit
      invariant count == limit - i && yieldComma == (i > 0)
      invariant ReprElems(h, self, items[..i], level, hex) == Parts(body)
    {
      var item := items[i];
      var sep: seq<string> := if yieldComma then [", "] else [];
      yieldComma := true;
      count := count - 1;
      if count <= 0 {
        IterCutOff(h, self, level, hex, prefix, suffix, comma, body, i, sep);
        return Then(Parts([prefix] + body), Parts(sep + ["...", suffix]));
      }
      var sub := Render(h, item, ChildLevel(self, item, level), hex);
      IterStep(h, self, level, hex, prefix, suffix, comma, body, i, sep);
      if sub.Raised? {
        return sub;
      }
      body := body + sep + sub.parts;
      i := i + 1;
    }
    IterExhausted(h, self, level, hex, prefix, suffix, comma, body, i);
    out := Then(Parts([prefix] + body), IterEnd(h[self].iteration, comma && count == limit - 1, suffix));
  }

  /** The body of the loop of `_repr_dict` for one key: the item prefix, the
      key, the separator, the value (or "<?>" when the lookup raises) and the
      item suffix. */
  method RenderEntry(h: Heap, self: Id, key: Id, level: nat, hex: bool,
                     itemPrefix: string, itemSep: string, itemSuffix: string)
    returns (out: Outcome)
    requires Closed(h) && self in h && h[self].shape.Mapping? && key in h
    requires level < |MaxCollection|
    ensures out == ReprEntry(h, self, key, level, hex, itemPrefix, itemSep, itemSuffix)
    decreases Rank(level), 0, 0
  {
    var k := Render(h, key, level + 1, hex);
    if k.Raised? {
      return k;
    }
    var values := h[self].shape.values;
    var v: Outcome;
    if key in values {
      var item := values[key];
      v := Render(h, item, ChildLevel(self, item, level), hex);
      if v.Raised? {
        return v;
      }
    } else {
      v := Parts(["<?>"]);
    }
    out := Parts([itemPrefix] + k.parts + [itemSep] + v.parts + [itemSuffix]);
  }

  /** The loop of `_repr_dict` broke at the cap after `limit - 1` entries. */
  lemma DictCutOff(h: Heap, self: Id, level: nat, hex: bool, prefix: string, suffix: string,
                   ip: string, sep: string, sfx: string, keys: seq<Id>, i: nat, body: seq<string>, comma: seq<string>)
    requires Closed(h) && self in h && h[self].shape.Mapping? && level < |MaxCollection|
    requires h[self].len.Returns? && h[self].len.value != 0 && SortedKeys(h[self]) == Returns(keys)
    requires i < |keys| && i == MaxCollection[level] - 1 && comma == Sep(i)
    requires ReprEntries(h, self, keys[..i], level, hex, ip, sep, sfx) == Parts(body)
    ensures ReprDict(h, self, level, hex, prefix, suffix, ip, sep, sfx)
         == Then(Parts([prefix] + body), Parts(comma + ["...", suffix]))
  {
  }

  /** The loop of `_repr_dict` ran out of keys. */
  lemma DictExhausted(h: Heap, self: Id, level: nat, hex: bool, prefix: string, suffix: string,
                      ip: string, sep: string, sfx: string, keys: seq<Id>, n: nat, body: seq<string>)
    requires Closed(h) && self in h && h[self].shape.Mapping? && level < |MaxCollection|
    requires h[self].len.Returns? && h[self].len.value != 0 && SortedKeys(h[self]) == Returns(keys)
    requires n == |keys| < MaxCollection[level]
    requires ReprEntries(h, self, keys[..n], level, hex, ip, sep, sfx) == Parts(body)
    ensures ReprDict(h, self, level, hex, prefix, suffix, ip, sep, sfx) == Then(Parts([prefix] + body), Parts([suffix]))
  {
    assert keys[..n] == keys;
  }

  /** One pass of the loop of `_repr_dict` that renders key `i`: either the
      entry raises, and so does the whole rendering, or its parts extend
      those of the entries before it. */
  lemma DictStep(h: Heap, self: Id, level: nat, hex: bool, prefix: string, suffix: string,
                 ip: string, sep: string, sfx: string, keys: seq<Id>, i: nat, body: seq<string>, comma: seq<string>)
    requires Closed(h) && self in h && h[self].shape.Mapping? && level < |MaxCollection|
    requires h[self].len.Returns? && h[self].len.value != 0 && SortedKeys(h[self]) == Returns(keys)
    requires i < |keys| && i < MaxCollection[level] - 1 && comma == Sep(i)
    requires ReprEntries(h, self, keys[..i], level, hex, ip, sep, sfx) == Parts(body)
    ensures var entry := ReprEntry(h, self, keys[i], level, hex, ip, sep, sfx);
      && (entry.Raised? ==> ReprDict(h, self, level, hex, prefix, suffix, ip, sep, sfx) == entry)
      && (entry.Parts? ==> ReprEntries(h, self, keys[..i + 1], level, hex, ip, sep, sfx) == Parts(body + comma + entry.parts))
  {
    EntriesSnoc(h, self, keys, i, level, hex, ip, sep, sfx, body);
    if ReprEntry(h, self, keys[i], level, hex, ip, sep, sfx).Raised? {
      DictEntryRaised(h, self, level, hex, prefix, suffix, ip, sep, sfx, keys, i);
    }
  }

  /** An entry raised: so does the whole rendering. */
  lemma DictEntryRaised(h: Heap, self: Id, level: nat, hex: bool, prefix: string, suffix: string,
                        ip: string, sep: string, sfx: string, keys: seq<Id>, i: nat)
    requires Closed(h) && self in h && h[self].shape.Mapping? && level < |MaxCollection|
    requires h[self].len.Returns? && h[self].len.value != 0 && SortedKeys(h[self]) == Returns(keys)
    requires i < |keys| && i < MaxCollection[level] - 1
    requires ReprEntries(h, self, keys[..i + 1], level, hex, ip, sep, sfx).Raised?
    ensures ReprDict(h, self, level, hex, prefix, suffix, ip, sep, sfx)
         == ReprEntries(h, self, keys[..i + 1], level, hex, ip, sep, sfx)
  {
    var limit := MaxCollection[level];
    if |keys| >= limit {
      assert keys[..limit - 1][..i + 1] == keys[..i + 1];
      EntriesRaisedStays(h, self, keys[..limit - 1], i + 1, level, hex, ip, sep, sfx);
    } else {
      EntriesRaisedStays(h, self, keys, i + 1, level, hex, ip, sep, sfx);
    }
  }

  /** `_repr_dict(obj, level, prefix, suffix, item_prefix, item_sep, item_suffix, convert_to_hex)`;
      `body` holds the parts yielded after the prefix. */
  method RenderDict(h: Heap, self: Id, level: nat, hex: bool, prefix: string, suffix: string,
                    itemPrefix: string, itemSep: string, itemSuffix: string)
    returns (out: Outcome)
    requires Closed(h) && self in h && h[self].shape.Mapping?
    ensures out == ReprDict(h, self, level, hex, prefix, suffix, itemPrefix, itemSep, itemSuffix)
    decreases Rank(level), 1, 0
  {
    var o := h[self];
    if o.len.Raises? {
      return Raised(o.len.exc);
    }
    if o.len.value == 0 {
      return Parts([prefix + suffix]);
    }
    if level >= |MaxCollection| {
      return Parts([prefix + "..." + suffix]);
    }
    var limit := MaxCollection[level];
    var count: int := limit;
    var yieldComma := false;
    var keys: seq<Id>;
    match o.shape.sorted {
      case Returns(ks) =>
        keys := ks;
      case Raises(_) =>
        if o.iteration.raises.Some? {
          return Raised(o.iteration.raises.value);
        }
        keys := o.iteration.items;
    }
    assert SortedKeys(o) == Returns(keys);
    var body: seq<string> := [];
    var i := 0;
    while i < |keys|
      invariant 0 <= i <= |keys| && i < limit
      invariant count == limit - i && yieldComma == (i > 0)
      invariant ReprEntries(h, self, keys[..i], level, hex, itemPrefix, itemSep, itemSuffix) == Parts(body)
    {
      var key := keys[i];
      var sep: seq<string> := if yieldComma then [", "] else [];
      yieldComma := true;
      count := count - 1;
      if count <= 0 {
        DictCutOff(h, self, level, hex, prefix, suffix, itemPrefix, itemSep, itemSuffix, keys, i, body, sep);
        return Then(Parts([prefix] + body), Parts(sep + ["...", suffix]));
      }
      var entry := RenderEntry(h, self, key, level, hex, itemPrefix, itemSep, itemSuffix);
      DictStep(h, self, level, hex, prefix, suffix, itemPrefix, itemSep, itemSuffix, keys, i, body, sep);
      if entry.Raised? {
        return entry;
      }
      body := body + sep + entry.parts;
      i := i + 1;
    }
    DictExhausted(h, self, level, hex, prefix, suffix, itemPrefix, itemSep, itemSuffix, keys, i, body);
    out := Then(Parts([prefix] + body), Parts([suffix]));
  }

  /** `__call__(obj, convert_to_hex)` */
  method Call(h: Heap, id: Id, hex: bool) returns (s: string)
    requires Closed(h) && id in h
    ensures s == SafeRepr.Call(h, id, hex)
  {
    var r := Render(h, id, 0, hex);
    match r {
      case Parts(ps) =>
        s := Concat(ps);
      case Raised(e) =>
        s := if e.repr.Some? then "An exception was raised: " + e.repr.value else "An exception was raised";
    }
  }
}
