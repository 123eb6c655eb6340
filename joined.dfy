/** An independent description of what `_repr_iter` and `_repr_dict` yield
    for the items they visit: the renderings of the items in order,
    separated by ", ", unless one of them raises, in which case the first
    exception is what escapes. The recursive definitions of module SafeRepr
    are proved equal to it. */
module Joined {

  import opened Values
  import opened SafeRepr

  /** The first exception among the outcomes, in order. */
  function FirstRaised(os: seq<Outcome>): Option<Exc>
  {
    if |os| == 0 then None
    else if os[0].Raised? then Some(os[0].exc)
    else FirstRaised(os[1..])
  }

  /** The parts of an outcome that did not raise. */
  function PartsOf(o: Outcome): seq<string>
  {
    if o.Parts? then o.parts else []
  }

  /** The parts of the outcomes with ", " between neighbours. */
  function Interleave(os: seq<Outcome>): seq<string>
  {
    if |os| == 0 then []
    else if |os| == 1 then PartsOf(os[0])
    else PartsOf(os[0]) + [", "] + Interleave(os[1..])
  }

  /** The outcomes one after the other, separated by ", ". */
  function Join(os: seq<Outcome>): Outcome
  {
    match FirstRaised(os)
    case Some(e) => Raised(e)
    case None => Parts(Interleave(os))
  }

  /** The renderings of the elements `xs` of `self`, each at its child level. */
  function ItemOutcomes(h: Heap, self: Id, xs: seq<Id>, level: nat, hex: bool): (os: seq<Outcome>)
    requires Closed(h) && (forall x :: x in xs ==> x in h)
    ensures |os| == |xs|
    ensures forall k :: 0 <= k < |xs| ==> os[k] == Repr(h, xs[k], ChildLevel(self, xs[k], level), hex)
  {
    seq(|xs|, k requires 0 <= k < |xs| => Repr(h, xs[k], ChildLevel(self, xs[k], level), hex))
  }

  /** The renderings of the entries of `self` for keys `ks`. */
  function EntryOutcomes(h: Heap, self: Id, ks: seq<Id>, level: nat, hex: bool,
                         itemPrefix: string, itemSep: string, itemSuffix: string): (os: seq<Outcome>)
    requires Closed(h) && self in h && h[self].shape.Mapping? && (forall k :: k in ks ==> k in h)
    requires level < |MaxCollection|
    ensures |os| == |ks|
    ensures forall k :: 0 <= k < |ks| ==> os[k] == ReprEntry(h, self, ks[k], level, hex, itemPrefix, itemSep, itemSuffix)
  {
    seq(|ks|, k requires 0 <= k < |ks| => ReprEntry(h, self, ks[k], level, hex, itemPrefix, itemSep, itemSuffix))
  }

  lemma {:induction false} FirstRaisedSnoc(os: seq<Outcome>, o: Outcome)
    ensures FirstRaised(os + [o])
         == if FirstRaised(os).Some? then FirstRaised(os) else if o.Raised? then Some(o.exc) else None
  {
    if |os| > 0 {
      assert (os + [o])[1..] == os[1..] + [o];
      FirstRaisedSnoc(os[1..], o);
    }
  }

  lemma {:induction false} InterleaveSnoc(os: seq<Outcome>, o: Outcome)
    ensures Interleave(os + [o]) == Interleave(os) + (if |os| == 0 then [] else [", "]) + PartsOf(o)
  {
    if |os| == 1 {
      assert (os + [o])[1..] == [o];
    } else if |os| > 1 {
      assert (os + [o])[1..] == os[1..] + [o];
      InterleaveSnoc(os[1..], o);
    }
  }

  /** Adding one outcome at the end: the parts so far, a separator, its parts. */
  lemma JoinSnoc(os: seq<Outcome>, o: Outcome)
    ensures Join(os + [o]) == Then(Then(Join(os), Parts(if |os| == 0 then [] else [", "])), o)
  {
    FirstRaisedSnoc(os, o);
    InterleaveSnoc(os, o);
  }

  lemma ItemOutcomesSnoc(h: Heap, self: Id, xs: seq<Id>, level: nat, hex: bool)
    requires Closed(h) && (forall x :: x in xs ==> x in h) && |xs| > 0
    ensures ItemOutcomes(h, self, xs, level, hex)
         == ItemOutcomes(h, self, xs[..|xs| - 1], level, hex)
            + [Repr(h, xs[|xs| - 1], ChildLevel(self, xs[|xs| - 1], level), hex)]
  {
  }

  lemma EntryOutcomesSnoc(h: Heap, self: Id, ks: seq<Id>, level: nat, hex: bool, ip: string, sep: string, sfx: string)
    requires Closed(h) && self in h && h[self].shape.Mapping? && (forall k :: k in ks ==> k in h)
    requires level < |MaxCollection| && |ks| > 0
    ensures EntryOutcomes(h, self, ks, level, hex, ip, sep, sfx)
         == EntryOutcomes(h, self, ks[..|ks| - 1], level, hex, ip, sep, sfx)
            + [ReprEntry(h, self, ks[|ks| - 1], level, hex, ip, sep, sfx)]
  {
  }

  /** `ReprElems` renders the elements in order, separated by ", ", and
      the first exception among them escapes. */
  lemma {:induction false} ElemsJoined(h: Heap, self: Id, xs: seq<Id>, level: nat, hex: bool)
    requires Closed(h) && (forall x :: x in xs ==> x in h) && level < |MaxCollection|
    ensures ReprElems(h, self, xs, level, hex) == Join(ItemOutcomes(h, self, xs, level, hex))
    decreases |xs|
  {
    if |xs| > 0 {
      var init := xs[..|xs| - 1];
      var last := xs[|xs| - 1];
      ElemsJoined(h, self, init, level, hex);
      var os := ItemOutcomes(h, self, init, level, hex);
      ItemOutcomesSnoc(h, self, xs, level, hex);
      JoinSnoc(os, Repr(h, last, ChildLevel(self, last, level), hex));
      ThenAssoc(ReprElems(h, self, init, level, hex), Parts(if |init| == 0 then [] else [", "]),
                Repr(h, last, ChildLevel(self, last, level), hex));
    }
  }

  /** `ReprEntries` renders the entries in order, separated by ", ", and
      the first exception among them escapes. */
  lemma {:induction false} EntriesJoined(h: Heap, self: Id, ks: seq<Id>, level: nat, hex: bool,
                                         ip: string, sep: string, sfx: string)
    requires Closed(h) && self in h && h[self].shape.Mapping? && (forall k :: k in ks ==> k in h)
    requires level < |MaxCollection|
    ensures ReprEntries(h, self, ks, level, hex, ip, sep, sfx) == Join(EntryOutcomes(h, self, ks, level, hex, ip, sep, sfx))
    decreases |ks|
  {
    if |ks| > 0 {
      var init := ks[..|ks| - 1];
      var last := ks[|ks| - 1];
      EntriesJoined(h, self, init, level, hex, ip, sep, sfx);
      var os := EntryOutcomes(h, self, init, level, hex, ip, sep, sfx);
      EntryOutcomesSnoc(h, self, ks, level, hex, ip, sep, sfx);
      JoinSnoc(os, ReprEntry(h, self, last, level, hex, ip, sep, sfx));
      ThenAssoc(ReprEntries(h, self, init, level, hex, ip, sep, sfx), Parts(if |init| == 0 then [] else [", "]),
                ReprEntry(h, self, last, level, hex, ip, sep, sfx));
    }
  }
}
