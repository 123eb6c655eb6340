/** Properties of `_is_long_iter`, the test that decides whether an object
    that is not one of the table types may be handed to `repr()`. */
module LongIterProps {

  import opened Values
  import opened Formatting
  import opened SafeRepr

  /** The `any(...)` over an iteration from index `i` on holds exactly when
      the iteration runs past the cap (if there is one) at or after `i`, one
      of the remaining items is itself long one level down, or the iteration
      ends by raising. */
  lemma {:induction false} AnyLongSpec(h: Heap, it: Iteration, level: nat, cap: Option<nat>, i: nat)
    requires Closed(h) && (forall x :: x in it.items ==> x in h)
    requires level < |MaxCollection| && i <= |it.items|
    ensures AnyLong(h, it, level, cap, i) <==>
      || (cap.Some? && |it.items| > i && |it.items| > cap.value + 1)
      || (exists j :: i <= j < |it.items| && IsLongIter(h, it.items[j], level + 1))
      || it.raises.Some?
    decreases |it.items| - i
  {
    if i < |it.items| {
      AnyLongSpec(h, it, level, cap, i + 1);
      if IsLongIter(h, it.items[i], level + 1) {
        assert exists j :: i <= j < |it.items| && IsLongIter(h, it.items[j], level + 1);
      }
    }
  }

  /** Every case of `_is_long_iter`, in the order the source tests them:
      strings by length against the inner string limit (a raising `len()`
      counts as long); non-iterables, one-off iterators, ranges and
      numpy/scipy values are never long; an iterable whose `iter()` raises,
      or one nested too deep, is always long; a sized iterable is long when
      its size exceeds the limit of its level, when one of its items is long
      one level down, or when iterating it raises; an unsized one likewise,
      with "more than `limit + 1` items" in place of the size test. */
  lemma IsLongIterSpec(h: Heap, id: Id, level: nat)
    requires Closed(h) && id in h
    ensures var o := h[id];
      o.shape.TextObj? ==> (IsLongIter(h, id, level) <==> o.len.Raises? || o.len.value > MaxStringInner)
    ensures var o := h[id];
      !o.shape.TextObj? && (!o.hasIter || o.iterIsSelf == Returns(true)) ==> !IsLongIter(h, id, level)
    ensures var o := h[id];
      !o.shape.TextObj? && o.hasIter && o.iterIsSelf.Raises? ==> IsLongIter(h, id, level)
    ensures var o := h[id];
      (!o.shape.TextObj? && o.hasIter && o.iterIsSelf == Returns(false)
       && (o.shape.RangeObj? || SelfTruncatingModule(o.moduleName)))
      ==> !IsLongIter(h, id, level)
    ensures Probed(h[id]) && level >= |MaxCollection| ==> IsLongIter(h, id, level)
    ensures var o := h[id]; var items := o.iteration.items;
      Probed(o) && level < |MaxCollection| && o.hasLen ==>
        (IsLongIter(h, id, level) <==>
          || (o.len.Returns? && o.len.value > MaxCollection[level])
          || (exists j :: 0 <= j < |items| && IsLongIter(h, items[j], level + 1))
          || o.iteration.raises.Some?)
    ensures var o := h[id]; var items := o.iteration.items;
      Probed(o) && level < |MaxCollection| && !o.hasLen ==>
        (IsLongIter(h, id, level) <==>
          || |items| > MaxCollection[level] + 1
          || (exists j :: 0 <= j < |items| && IsLongIter(h, items[j], level + 1))
          || o.iteration.raises.Some?)
  {
    var o := h[id];
    if Probed(o) && level < |MaxCollection| {
      if o.hasLen {
        AnyLongSpec(h, o.iteration, level, None, 0);
      } else {
        AnyLongSpec(h, o.iteration, level, Some(MaxCollection[level]), 0);
      }
    }
  }

  /** A value of module `numpy` or `scipy` itself, or of any module below
      them, is exempt from the length test. */
  lemma SelfTruncatingBelow(package: string, rest: string)
    requires package == "numpy" || package == "scipy"
    ensures SelfTruncatingModule(Returns(package))
    ensures SelfTruncatingModule(Returns(package + "." + rest))
  {
    ModuleHeadOfDotted(package, rest);
  }
}
