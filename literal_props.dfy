/** Properties of the bounded literal rendering (`_repr_obj`, `_repr_str`,
    `_repr_other`) and of the long-iterable summary (`_repr_long_iter`). */
module LiteralProps {

  import opened Values
  import opened Formatting
  import opened SafeRepr

  /** A form within the limit is kept whole. A longer one becomes a head of
      about two thirds of the limit, an ellipsis and a tail of about one
      third; for any limit of at least 2 that is 2 or 3 characters more
      than the limit. */
  lemma TruncateSpec(r: string, limit: nat)
    ensures |r| <= limit ==> Truncate(r, limit) == [r] && Concat(Truncate(r, limit)) == r
    ensures |r| > limit ==>
      && |Truncate(r, limit)| == 3
      && Truncate(r, limit)[0] <= r && |Truncate(r, limit)[0]| == HeadCount(limit)
      && Truncate(r, limit)[1] == "..."
      && EndsWith(r, Truncate(r, limit)[2]) && |Truncate(r, limit)[2]| == TailCount(limit)
    ensures |r| > limit >= 2 ==> limit + 2 <= |Concat(Truncate(r, limit))| <= limit + 3
  {
    if |r| <= limit {
      ConcatSnoc([], r);
      assert [] + [r] == [r];
    } else {
      var head, tail := r[..HeadCount(limit)], r[|r| - TailCount(limit)..];
      ConcatThree(head, "...", tail);
      if limit >= 2 {
        assert 2 * limit / 3 >= 1;
        assert limit - 1 <= HeadCount(limit) + TailCount(limit) <= limit;
      }
    }
  }

  /** `_repr_str` and `_repr_other` share their limits: 30 characters for a
      nested value and 65536 at the top. Within the limit the natural form
      comes out verbatim; beyond it the output is a head of the natural form,
      "..." and a tail of it, 2 or 3 characters longer than the limit. */
  lemma LiteralLimits(o: Obj, level: nat, hex: bool)
    ensures ReprStr(o, level, hex) == ReprOther(o, level, hex)
    ensures var r := NaturalRepr(o, hex);
      var limit := if level > 0 then 30 else 65536;
      && (|r| <= limit ==> ReprOther(o, level, hex) == [r])
      && (|r| > limit ==>
          && |ReprOther(o, level, hex)| == 3
          && ReprOther(o, level, hex)[0] <= r
          && ReprOther(o, level, hex)[1] == "..."
          && EndsWith(r, ReprOther(o, level, hex)[2])
          && limit + 2 <= |Concat(ReprOther(o, level, hex))| <= limit + 3)
  {
    TruncateSpec(NaturalRepr(o, hex), if level > 0 then 30 else 65536);
  }

  /** The natural form: `hex(n)` for an int in hex mode, otherwise `repr()`,
      falling back to `object.__repr__`, then to a text naming the type,
      then to a fixed text. */
  lemma NaturalReprFallbacks(o: Obj, hex: bool)
    ensures o.shape.IntObj? && hex ==> NaturalRepr(o, hex) == Hex(o.shape.n)
    ensures !(o.shape.IntObj? && hex) ==>
      && (o.repr.Returns? ==> NaturalRepr(o, hex) == o.repr.value)
      && (o.repr.Raises? && o.objectRepr.Returns? ==> NaturalRepr(o, hex) == o.objectRepr.value)
      && (o.repr.Raises? && o.objectRepr.Raises? && o.typeName.Returns? ==>
            NaturalRepr(o, hex) == "<no repr available for " + o.typeName.value + ">")
      && (o.repr.Raises? && o.objectRepr.Raises? && o.typeName.Raises? ==>
            NaturalRepr(o, hex) == "<no repr available for object>")
  {
  }

  /** The summary of a long iterable is one part in angle brackets: the
      type name and the length (as `hex()` in hex mode, otherwise decimal),
      or just the type name when `len()` raises, or a fixed text when even
      the type name cannot be had. */
  lemma LongIterSummarySpec(o: Obj, hex: bool)
    ensures var s := LongIterSummary(o, hex);
      && |s| >= 2 && s[0] == '<' && s[|s| - 1] == '>'
      && (o.typeName.Raises? ==> s == "<no repr available for object>")
      && (o.typeName.Returns? && o.len.Raises? ==> s == "<" + o.typeName.value + ">")
      && (o.typeName.Returns? && o.len.Returns? ==>
            && s[..|o.typeName.value| + 11] == "<" + o.typeName.value + ", len() = "
            && (hex ==> s[|o.typeName.value| + 11..|s| - 1] == Hex(o.len.value))
            && (!hex ==> s[|o.typeName.value| + 11..|s| - 1] == Decimal(o.len.value)))
  {
    if o.typeName.Returns? && o.len.Returns? {
      var t := o.typeName.value;
      var d := if hex then Hex(o.len.value) else Decimal(o.len.value);
      var s := "<" + t + ", len() = " + d + ">";
      assert |"<" + t + ", len() = "| == |t| + 11;
      assert s[..|t| + 11] == "<" + t + ", len() = ";
      assert s[|t| + 11..|s| - 1] == d;
    }
  }
}
