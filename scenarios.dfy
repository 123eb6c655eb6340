/** Worked examples: what `SafeRepr()(obj)` returns for small heaps of
    built-in objects. */
module Scenarios {

  import opened Values
  import opened Formatting
  import opened SafeRepr
  import opened Joined
  import opened CollectionProps
  import LiteralProps

  /** `42` renders as "42", and as "0x2a" in hex mode. */
  lemma IntScenario()
    ensures Call(map[0 := PlainInt(42)], 0, false) == "42"
    ensures Call(map[0 := PlainInt(42)], 0, true) == "0x2a"
  {
    var h := map[0 := PlainInt(42)];
    FortyTwo();
    IntRendering(h, 0, 0, false);
    IntRendering(h, 0, 0, true);
    ConcatSnoc([], "42");
    ConcatSnoc([], "0x2a");
  }

  lemma FortyTwo()
    ensures Decimal(42) == "42" && Hex(42) == "0x2a"
  {
    assert Digits(42, 10) == "42" by {
      assert Digits(4, 10) == "4";
    }
    assert Digits(42, 16) == "2a" by {
      assert Digits(2, 16) == "2";
    }
  }

  /** The list `[1, 2, 3]`. */
  function SmallList(): Heap
  {
    map[0 := PlainCollection(ListKind, [1, 2, 3]), 1 := PlainInt(1), 2 := PlainInt(2), 3 := PlainInt(3)]
  }

  lemma SmallListClosed()
    ensures Closed(SmallList())
  {
  }

  lemma SmallListItems()
    ensures Closed(SmallList())
    ensures ItemOutcomes(SmallList(), 0, [1, 2, 3], 0, false) == [Parts(["1"]), Parts(["2"]), Parts(["3"])]
  {
    var h := SmallList();
    SmallListClosed();
    assert Decimal(1) == "1" && Decimal(2) == "2" && Decimal(3) == "3";
    IntRendering(h, 1, 1, false);
    IntRendering(h, 2, 1, false);
    IntRendering(h, 3, 1, false);
  }

  lemma SmallListParts()
    ensures Closed(SmallList())
    ensures Repr(SmallList(), 0, 0, false) == Parts(["[", "1", ", ", "2", ", ", "3", "]"])
  {
    var h := SmallList();
    SmallListItems();
    IterShort(h, 0, 0, false, "[", "]", false);
    InterleaveThree("1", "2", "3");
    assert Repr(h, 0, 0, false) == ReprIter(h, 0, 0, false, "[", "]", false);
    assert ["["] + ["1", ", ", "2", ", ", "3"] + ([] + ["]"]) == ["[", "1", ", ", "2", ", ", "3", "]"];
  }

  lemma InterleaveThree(a: string, b: string, c: string)
    ensures Interleave([Parts([a]), Parts([b]), Parts([c])]) == [a, ", ", b, ", ", c]
    ensures FirstRaised([Parts([a]), Parts([b]), Parts([c])]) == None
  {
    var os := [Parts([a]), Parts([b]), Parts([c])];
    assert os[1..] == [Parts([b]), Parts([c])];
    assert os[1..][1..] == [Parts([c])];
    assert Interleave([Parts([c])]) == [c];
    assert Interleave([Parts([b]), Parts([c])]) == [b, ", ", c];
    assert FirstRaised([Parts([c])]) == None;
    assert FirstRaised([Parts([b]), Parts([c])]) == None;
  }

  lemma ConcatSmallList()
    ensures Concat(["[", "1", ", ", "2", ", ", "3", "]"]) == "[1, 2, 3]"
  {
    ConcatSnoc([], "[");
    assert [] + ["["] == ["["];
    ConcatSnoc(["["], "1");
    assert ["["] + ["1"] == ["[", "1"];
    ConcatSnoc(["[", "1"], ", ");
    assert ["[", "1"] + [", "] == ["[", "1", ", "];
    ConcatSnoc(["[", "1", ", "], "2");
    assert ["[", "1", ", "] + ["2"] == ["[", "1", ", ", "2"];
    ConcatSnoc(["[", "1", ", ", "2"], ", ");
    assert ["[", "1", ", ", "2"] + [", "] == ["[", "1", ", ", "2", ", "];
    ConcatSnoc(["[", "1", ", ", "2", ", "], "3");
    assert ["[", "1", ", ", "2", ", "] + ["3"] == ["[", "1", ", ", "2", ", ", "3"];
    ConcatSnoc(["[", "1", ", ", "2", ", ", "3"], "]");
    assert ["[", "1", ", ", "2", ", ", "3"] + ["]"] == ["[", "1", ", ", "2", ", ", "3", "]"];
    assert "" + "[" + "1" + ", " + "2" + ", " + "3" + "]" == "[1, 2, 3]";
  }

  /** `[1, 2, 3]` renders as "[1, 2, 3]". */
  lemma SmallListScenario()
    ensures Closed(SmallList())
    ensures Call(SmallList(), 0, false) == "[1, 2, 3]"
  {
    SmallListParts();
    ConcatSmallList();
  }

  /** A list that contains itself: `a = []; a.append(a)`. */
  function SelfList(): Heap
  {
    map[0 := PlainCollection(ListKind, [0])]
  }

  lemma SelfListParts()
    ensures Closed(SelfList())
    ensures Repr(SelfList(), 0, 0, false) == Parts(["[", "[", "...", "]", "]"])
  {
    var h := SelfList();
    assert Closed(h);
    SelfContainment(h, 0, 0, false);
    IterShort(h, 0, 0, false, "[", "]", false);
    var os := ItemOutcomes(h, 0, [0], 0, false);
    assert os == [Parts(["[", "...", "]"])];
    assert Repr(h, 0, 0, false) == ReprIter(h, 0, 0, false, "[", "]", false);
    assert ["["] + ["[", "...", "]"] + ([] + ["]"]) == ["[", "[", "...", "]", "]"];
  }

  lemma ConcatSelfList()
    ensures Concat(["[", "[", "...", "]", "]"]) == "[[...]]"
  {
    ConcatSnoc([], "[");
    assert [] + ["["] == ["["];
    ConcatSnoc(["["], "[");
    assert ["["] + ["["] == ["[", "["];
    ConcatSnoc(["[", "["], "...");
    assert ["[", "["] + ["..."] == ["[", "[", "..."];
    ConcatSnoc(["[", "[", "..."], "]");
    assert ["[", "[", "..."] + ["]"] == ["[", "[", "...", "]"];
    ConcatSnoc(["[", "[", "...", "]"], "]");
    assert ["[", "[", "...", "]"] + ["]"] == ["[", "[", "...", "]", "]"];
    assert "" + "[" + "[" + "..." + "]" + "]" == "[[...]]";
  }

  /** A list that contains itself renders as "[[...]]". */
  lemma SelfListScenario()
    ensures Closed(SelfList())
    ensures Call(SelfList(), 0, false) == "[[...]]"
  {
    SelfListParts();
    ConcatSelfList();
  }

  /** An empty list whose iteration raises an exception whose `repr()` is
      "ValueError()". */
  function RaisingList(): Heap
  {
    map[0 := PlainCollection(ListKind, []).(iteration := Iteration([], Some(Exc(Some("ValueError()")))))]
  }

  /** An exception raised while rendering becomes the text of the result. */
  lemma RaisingListScenario()
    ensures Closed(RaisingList())
    ensures Call(RaisingList(), 0, false) == "An exception was raised: ValueError()"
  {
    RaisingListOutcome();
  }

  lemma RaisingListOutcome()
    ensures Closed(RaisingList())
    ensures Repr(RaisingList(), 0, 0, false) == Raised(Exc(Some("ValueError()")))
  {
    var h := RaisingList();
    assert Closed(h);
    IterShort(h, 0, 0, false, "[", "]", false);
    assert ItemOutcomes(h, 0, [], 0, false) == [];
    assert Repr(h, 0, 0, false) == ReprIter(h, 0, 0, false, "[", "]", false);
  }

  /** The dict `{'b': 1, 'a': 2}`: keys in insertion order, `sorted()`
      puts 'a' first. */
  function SmallDict(): Heap
  {
    map[0 := PlainDict([1, 2], map[1 := 3, 2 := 4], Returns([2, 1])),
        1 := PlainStr("'b'", 1), 2 := PlainStr("'a'", 1), 3 := PlainInt(1), 4 := PlainInt(2)]
  }

  lemma SmallDictClosed()
    ensures Closed(SmallDict())
  {
  }

  /** A str key within the inner limit renders as its `repr()`. */
  lemma StrKey(h: Heap, key: Id, quoted: string, length: nat)
    requires Closed(h) && key in h && h[key] == PlainStr(quoted, length) && |quoted| <= 30
    ensures Repr(h, key, 1, false) == Parts([quoted])
  {
    LiteralProps.LiteralLimits(h[key], 1, false);
  }

  /** An entry of a plain dict whose key is a str and whose value is an int. */
  lemma PlainEntry(h: Heap, self: Id, key: Id, value: Id, quoted: string, digits: string)
    requires Closed(h) && self in h && h[self].shape.Mapping? && key in h
    requires key in h[self].shape.values && h[self].shape.values[key] == value && value != self
    requires h[key] == PlainStr(quoted, 1) && |quoted| <= 30
    requires h[value].shape.IntObj? && !h[value].hasIter
    requires h[value].repr == Returns(digits) && |digits| <= 30
    ensures ReprEntry(h, self, key, 0, false, "", ": ", "") == Parts(["", quoted, ": ", digits, ""])
  {
    StrKey(h, key, quoted, 1);
    IntRendering(h, value, 1, false);
    EntryShape(h, self, key, 0, false, "", ": ", "");
  }

  lemma SmallDictOutcomes()
    ensures Closed(SmallDict())
    ensures EntryOutcomes(SmallDict(), 0, [2, 1], 0, false, "", ": ", "")
         == [Parts(["", "'a'", ": ", "2", ""]), Parts(["", "'b'", ": ", "1", ""])]
  {
    var h := SmallDict();
    SmallDictClosed();
    assert Decimal(1) == "1" && Decimal(2) == "2";
    PlainEntry(h, 0, 2, 4, "'a'", "2");
    PlainEntry(h, 0, 1, 3, "'b'", "1");
  }

  lemma InterleaveTwo(a: seq<string>, b: seq<string>)
    ensures Interleave([Parts(a), Parts(b)]) == a + [", "] + b
    ensures FirstRaised([Parts(a), Parts(b)]) == None
  {
    assert [Parts(a), Parts(b)][1..] == [Parts(b)];
    assert FirstRaised([Parts(b)]) == None;
  }

  lemma SmallDictBody()
    ensures Closed(SmallDict())
    ensures ReprDict(SmallDict(), 0, 0, false, "{", "}", "", ": ", "")
         == Parts(["{"] + (["", "'a'", ": ", "2", ""] + [", "] + ["", "'b'", ": ", "1", ""]) + ["}"])
  {
    SmallDictOutcomes();
    DictBody(SmallDict(), 0, 0, false, "{", "}", "", ": ", "");
    InterleaveTwo(["", "'a'", ": ", "2", ""], ["", "'b'", ": ", "1", ""]);
  }

  /** `{'b': 1, 'a': 2}` renders in sorted key order: "{'a': 2, 'b': 1}". */
  lemma SmallDictScenario()
    ensures Closed(SmallDict())
    ensures Repr(SmallDict(), 0, 0, false)
         == Parts(["{", "", "'a'", ": ", "2", "", ", ", "", "'b'", ": ", "1", "", "}"])
  {
    SmallDictBody();
    SmallDictDispatch();
    SmallDictFlat();
  }

  lemma SmallDictFlat()
    ensures ["{"] + (["", "'a'", ": ", "2", ""] + [", "] + ["", "'b'", ": ", "1", ""]) + ["}"]
         == ["{", "", "'a'", ": ", "2", "", ", ", "", "'b'", ": ", "1", "", "}"]
  {
  }

  lemma SmallDictDispatch()
    ensures Closed(SmallDict())
    ensures Repr(SmallDict(), 0, 0, false) == ReprDict(SmallDict(), 0, 0, false, "{", "}", "", ": ", "")
  {
    SmallDictClosed();
  }
}
