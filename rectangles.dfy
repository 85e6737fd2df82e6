/** The Rectangle shape: two corner groups, `TopRight a b` and `BottomLeft c d`, in any
    order, and the integer area and perimeter of the parsed corners. */
module Rectangles {
  import opened Optional
  import opened IntText
  import opened KeywordGroups

  /** The keywords Rectangle.parse recognises, with the number of values each takes. */
  const RectangleArity: map<string, nat> := map["TopRight" := 2, "BottomLeft" := 2]

  /** The four fields of a Rectangle; None is a field never set or set from a non-integer. */
  datatype RectangleState = RectangleState(top: Option<int>, right: Option<int>, bottom: Option<int>, left: Option<int>)
  {
    predicate Complete() {
      top.Some? && right.Some? && bottom.Some? && left.Some?
    }

    /** The corner rule: the bottom-left corner is not above or right of the top-right one. */
    predicate Ordered()
      requires Complete()
    {
      bottom.value <= top.value && left.value <= right.value
    }
  }

  /** A freshly created Rectangle: every field unset. */
  const RectangleUnset := RectangleState(None, None, None, None)

  /** The fields after storing the groups in order: `TopRight` sets top and right from its
      two values, `BottomLeft` sets bottom and left, a later group overwriting an earlier. */
  function RectangleAfter(s: RectangleState, gs: seq<Group>): RectangleState {
    RectangleState(
      Field(gs, "TopRight", 0, s.top), Field(gs, "TopRight", 1, s.right),
      Field(gs, "BottomLeft", 0, s.bottom), Field(gs, "BottomLeft", 1, s.left))
  }

  /** Storing one more group: its keyword's two fields take its values, the others stay. */
  lemma RectangleAfterSnoc(s: RectangleState, done: seq<Group>, g: Group)
    requires |g.values| == 2
    ensures var t := RectangleAfter(s, done);
      RectangleAfter(s, done + [g]) ==
        if g.keyword == "TopRight" then t.(top := ParseInt(g.values[0]), right := ParseInt(g.values[1]))
        else if g.keyword == "BottomLeft" then t.(bottom := ParseInt(g.values[0]), left := ParseInt(g.values[1]))
        else t
  {
    LastWithSnoc(done, g, "TopRight");
    LastWithSnoc(done, g, "BottomLeft");
  }

  /** What Rectangle.parse does to an object in state s: the new fields when it returns
      True, None when it returns False. */
  function RectangleParse(s: RectangleState, tokens: seq<string>): (r: Option<RectangleState>)
    ensures r.Some? ==> r.value.Complete() && r.value.Ordered()
  {
    match Split(RectangleArity, tokens)
    case None => None
    case Some(gs) =>
      var t := RectangleAfter(s, gs);
      if t.Complete() && t.Ordered() then Some(t) else None
  }

  /** One iteration of Rectangle.parse's loop on `TopRight` at index i: the groups walked
      grow by that group, and its two values are stored in top and right. */
  lemma RectangleTopRightStep(entry: RectangleState, parameters: seq<string>, done: seq<Group>, i: nat)
    requires i + 2 < |parameters| && parameters[i] == "TopRight"
    requires WellFormed(RectangleArity, done) && Flatten(done) == parameters[..i]
    ensures var g := Group("TopRight", parameters[i + 1..i + 3]);
      var (x, y) := ParsePoint(i, parameters);
      WellFormed(RectangleArity, done + [g]) && Flatten(done + [g]) == parameters[..i + 3] &&
      RectangleAfter(entry, done + [g]) == RectangleAfter(entry, done).(top := x, right := y)
  {
    WalkStep(RectangleArity, parameters, done, i);
    RectangleAfterSnoc(entry, done, Group("TopRight", parameters[i + 1..i + 3]));
  }

  /** One iteration of Rectangle.parse's loop on `BottomLeft` at index i: the groups
      walked grow by that group, and its two values are stored in bottom and left. */
  lemma RectangleBottomLeftStep(entry: RectangleState, parameters: seq<string>, done: seq<Group>, i: nat)
    requires i + 2 < |parameters| && parameters[i] == "BottomLeft"
    requires WellFormed(RectangleArity, done) && Flatten(done) == parameters[..i]
    ensures var g := Group("BottomLeft", parameters[i + 1..i + 3]);
      var (x, y) := ParsePoint(i, parameters);
      WellFormed(RectangleArity, done + [g]) && Flatten(done + [g]) == parameters[..i + 3] &&
      RectangleAfter(entry, done + [g]) == RectangleAfter(entry, done).(bottom := x, left := y)
  {
    WalkStep(RectangleArity, parameters, done, i);
    RectangleAfterSnoc(entry, done, Group("BottomLeft", parameters[i + 1..i + 3]));
  }

  /** Rectangle.parse's loop stopping early at index i rejects the input. */
  lemma RectangleStop(entry: RectangleState, parameters: seq<string>, done: seq<Group>, i: nat)
    requires i < |parameters|
    requires parameters[i] !in RectangleArity || i + 2 >= |parameters|
    requires WellFormed(RectangleArity, done) && Flatten(done) == parameters[..i]
    ensures RectangleParse(entry, parameters) == None
  {
    WalkFails(RectangleArity, parameters, done, i);
  }

  /** Rectangle.parse's loop running out of tokens: the outcome is decided by the fields
      the walk stored. */
  lemma RectangleFinish(entry: RectangleState, parameters: seq<string>, done: seq<Group>)
    requires WellFormed(RectangleArity, done) && Flatten(done) == parameters[..|parameters|]
    ensures var t := RectangleAfter(entry, done);
      RectangleParse(entry, parameters) == if t.Complete() && t.Ordered() then Some(t) else None
  {
    WalkDone(RectangleArity, parameters, done);
  }

  /** Rectangle.get_area: height times width. */
  function BoxArea(top: int, right: int, bottom: int, left: int): int {
    (top - bottom) * (right - left)
  }

  /** Rectangle.get_perimeter: twice the height plus twice the width. */
  function BoxPerimeter(top: int, right: int, bottom: int, left: int): int {
    2 * (top - bottom) + 2 * (right - left)
  }

  class Rectangle {
    var top: Option<int>
    var right: Option<int>
    var bottom: Option<int>
    var left: Option<int>

    function State(): RectangleState
      reads this
    {
      RectangleState(top, right, bottom, left)
    }

    constructor ()
      ensures State() == RectangleUnset
    {
      top, right, bottom, left := None, None, None, None;
    }

    /** Rectangle.parse: walks the tokens group by group, storing each point as it goes,
        then demands all four fields and ordered corners. On False the fields are left
        as far as the walk got, which the method does not promise anything about. */
    method Parse(parameters: seq<string>) returns (ok: bool)
      modifies this
      ensures ok == RectangleParse(old(State()), parameters).Some?
      ensures ok ==> State() == RectangleParse(old(State()), parameters).value
    {
      var i := 0;
      ghost var done: seq<Group> := [];
      ghost var entry := State();
      while i < |parameters|
        invariant i <= |parameters|
        invariant WellFormed(RectangleArity, done) && Flatten(done) == parameters[..i]
        invariant RectangleState(top, right, bottom, left) == RectangleAfter(entry, done)
        decreases |parameters| - i
      {
        if parameters[i] == "TopRight" {
          if i + 2 >= |parameters| {
            RectangleStop(entry, parameters, done, i);
            return false;
          }
          RectangleTopRightStep(entry, parameters, done, i);
          var point := ParsePoint(i, parameters);
          top, right := point.0, point.1;
          done := done + [Group("TopRight", parameters[i + 1..i + 3])];
          i := i + 3;
        } else if parameters[i] == "BottomLeft" {
          if i + 2 >= |parameters| {
            RectangleStop(entry, parameters, done, i);
            return false;
          }
          RectangleBottomLeftStep(entry, parameters, done, i);
          var point := ParsePoint(i, parameters);
          bottom, left := point.0, point.1;
          done := done + [Group("BottomLeft", parameters[i + 1..i + 3])];
          i := i + 3;
        } else {
          RectangleStop(entry, parameters, done, i);
          return false;
        }
      }
      RectangleFinish(entry, parameters, done);
      if top.None? || right.None? || left.None? || bottom.None? {
        return false;
      }
      return bottom.value <= top.value && left.value <= right.value;
    }

    /** Rectangle.get_area on a parsed rectangle: never negative once the corners are
        ordered. */
    function Area(): (a: int)
      reads this
      requires State().Complete()
      ensures State().Ordered() ==> a >= 0
    {
      BoxArea(top.value, right.value, bottom.value, left.value)
    }

    /** Rectangle.get_perimeter on a parsed rectangle: never negative once the corners
        are ordered. */
    function Perimeter(): (p: int)
      reads this
      requires State().Complete()
      ensures State().Ordered() ==> p >= 0
    {
      BoxPerimeter(top.value, right.value, bottom.value, left.value)
    }
  }

  /** A successful parse leaves a rectangle whose area and perimeter are not negative. */
  lemma RectangleParsedMeasures(s: RectangleState, tokens: seq<string>)
    requires RectangleParse(s, tokens).Some?
    ensures var r := RectangleParse(s, tokens).value;
      BoxArea(r.top.value, r.right.value, r.bottom.value, r.left.value) >= 0 &&
      BoxPerimeter(r.top.value, r.right.value, r.bottom.value, r.left.value) >= 0
  {
    var r := RectangleParse(s, tokens).value;
    assert r.top.value - r.bottom.value >= 0 && r.right.value - r.left.value >= 0;
  }

  /** Both corner groups, written in decimal, in either order: the parse from a fresh
      object succeeds exactly when the corners are ordered, and then stores them. */
  lemma RectangleFromCorners(a: int, b: int, c: int, d: int)
    ensures var expected := if c <= a && d <= b then Some(RectangleState(Some(a), Some(b), Some(c), Some(d))) else None;
      RectangleParse(RectangleUnset, ["TopRight", Decimal(a), Decimal(b), "BottomLeft", Decimal(c), Decimal(d)]) == expected &&
      RectangleParse(RectangleUnset, ["BottomLeft", Decimal(c), Decimal(d), "TopRight", Decimal(a), Decimal(b)]) == expected
  {
    assert ["TopRight", Decimal(a), Decimal(b), "BottomLeft", Decimal(c), Decimal(d)] ==
      ["TopRight"] + [Decimal(a), Decimal(b)] + ["BottomLeft"] + [Decimal(c), Decimal(d)];
    assert ["BottomLeft", Decimal(c), Decimal(d), "TopRight", Decimal(a), Decimal(b)] ==
      ["BottomLeft"] + [Decimal(c), Decimal(d)] + ["TopRight"] + [Decimal(a), Decimal(b)];
    RectangleFromGroups(a, b, c, d, true);
    RectangleFromGroups(a, b, c, d, false);
  }

  /** The two corner groups, written in decimal, top-right or bottom-left first. */
  lemma RectangleFromGroups(a: int, b: int, c: int, d: int, topRightFirst: bool)
    ensures var topRight, bottomLeft := Group("TopRight", [Decimal(a), Decimal(b)]), Group("BottomLeft", [Decimal(c), Decimal(d)]);
      var (g1, g2) := if topRightFirst then (topRight, bottomLeft) else (bottomLeft, topRight);
      RectangleParse(RectangleUnset, [g1.keyword] + g1.values + [g2.keyword] + g2.values) ==
        if c <= a && d <= b then Some(RectangleState(Some(a), Some(b), Some(c), Some(d))) else None
  {
    var topRight, bottomLeft := Group("TopRight", [Decimal(a), Decimal(b)]), Group("BottomLeft", [Decimal(c), Decimal(d)]);
    var (g1, g2) := if topRightFirst then (topRight, bottomLeft) else (bottomLeft, topRight);
    SplitPair(RectangleArity, g1, g2);
    LastOfPair(g1, g2, "TopRight");
    LastOfPair(g1, g2, "BottomLeft");
    ParseIntDecimal(a);
    ParseIntDecimal(b);
    ParseIntDecimal(c);
    ParseIntDecimal(d);
  }

  /** Keyword groups are order-independent: swapping two neighbouring groups with
      different keywords gives the same outcome and the same fields. */
  lemma RectangleOrderIndependent(s: RectangleState, a: seq<Group>, g1: Group, g2: Group, b: seq<Group>)
    requires WellFormed(RectangleArity, a + [g1, g2] + b) && g1.keyword != g2.keyword
    ensures RectangleParse(s, Flatten(a + [g1, g2] + b)) == RectangleParse(s, Flatten(a + [g2, g1] + b))
  {
    assert RectangleAfter(s, a + [g1, g2] + b) == RectangleAfter(s, a + [g2, g1] + b) by {
      LastWithSwap(a, g1, g2, b, "TopRight");
      LastWithSwap(a, g1, g2, b, "BottomLeft");
    }
    SplitRearranged(RectangleArity, a, g1, g2, b);
  }

  /** A repeated keyword overwrites: a group followed later by another with the same
      keyword has no effect on the outcome. */
  lemma RectangleLaterGroupWins(s: RectangleState, a: seq<Group>, g: Group, b: seq<Group>)
    requires WellFormed(RectangleArity, a + [g] + b) && LastWith(b, g.keyword).Some?
    ensures RectangleParse(s, Flatten(a + [g] + b)) == RectangleParse(s, Flatten(a + b))
  {
    SplitWithout(RectangleArity, a, g, b);
    ShadowedGroup(a, g, b, "TopRight");
    ShadowedGroup(a, g, b, "BottomLeft");
    assert RectangleAfter(s, a + [g] + b) == RectangleAfter(s, a + b);
  }

  /** Fail-fast: after a prefix of complete groups, an unknown keyword, or a keyword with
      too few values after it, rejects the input whatever follows. */
  lemma RectangleFailsFast(s: RectangleState, prefix: seq<string>, t: string, rest: seq<string>)
    requires Split(RectangleArity, prefix).Some?
    requires t !in RectangleArity || |rest| < RectangleArity[t]
    ensures RectangleParse(s, prefix + [t] + rest) == None
  {
    SplitFailsFast(RectangleArity, prefix, t, rest);
  }

  /** From a fresh object both groups are required: input that names only one corner, or
      none (the empty input), is rejected. */
  lemma RectangleNeedsBothCorners(tokens: seq<string>)
    requires Split(RectangleArity, tokens).Some?
    requires LastWith(Split(RectangleArity, tokens).value, "TopRight").None? ||
             LastWith(Split(RectangleArity, tokens).value, "BottomLeft").None?
    ensures RectangleParse(RectangleUnset, tokens) == None
  {
  }

  /** A value that is not an integer leaves its field unset, so the parse fails. */
  lemma RectangleRejectsNonInteger(s: RectangleState, tokens: seq<string>, keyword: string, k: nat)
    requires Split(RectangleArity, tokens).Some?
    requires keyword in RectangleArity
    requires var last := LastWith(Split(RectangleArity, tokens).value, keyword);
      last.Some? && k < |last.value.values| && ParseInt(last.value.values[k]) == None
    ensures RectangleParse(s, tokens) == None
  {
    SplitSound(RectangleArity, tokens);
    LastWithFound(Split(RectangleArity, tokens).value, keyword);
    var t := RectangleAfter(s, Split(RectangleArity, tokens).value);
    if keyword == "TopRight" {
      assert k == 0 ==> t.top.None?;
      assert k == 1 ==> t.right.None?;
    } else {
      assert k == 0 ==> t.bottom.None?;
      assert k == 1 ==> t.left.None?;
    }
  }

  /** The accepted cases of the module's own test function, with their measures. */
  lemma RectangleTestAccepted()
    ensures RectangleParse(RectangleUnset, ["BottomLeft", "1", "1", "TopRight", "2", "2"]).Some?
    ensures var r := RectangleParse(RectangleUnset, ["TopRight", "2", "2", "BottomLeft", "1", "1"]);
      r.Some? &&
      BoxPerimeter(r.value.top.value, r.value.right.value, r.value.bottom.value, r.value.left.value) == 4 &&
      BoxArea(r.value.top.value, r.value.right.value, r.value.bottom.value, r.value.left.value) == 1
    ensures var r := RectangleParse(RectangleUnset, ["TopRight", "4", "4", "BottomLeft", "1", "1"]);
      r.Some? &&
      BoxPerimeter(r.value.top.value, r.value.right.value, r.value.bottom.value, r.value.left.value) == 12 &&
      BoxArea(r.value.top.value, r.value.right.value, r.value.bottom.value, r.value.left.value) == 9
  {
    SmallDecimals();
    assert RectangleParse(RectangleUnset, ["TopRight", "2", "2", "BottomLeft", "1", "1"]) ==
           Some(RectangleState(Some(2), Some(2), Some(1), Some(1))) &&
           RectangleParse(RectangleUnset, ["BottomLeft", "1", "1", "TopRight", "2", "2"]).Some? by {
      RectangleFromCorners(2, 2, 1, 1);
    }
    assert RectangleParse(RectangleUnset, ["TopRight", "4", "4", "BottomLeft", "1", "1"]) ==
           Some(RectangleState(Some(4), Some(4), Some(1), Some(1))) by {
      RectangleFromCorners(4, 4, 1, 1);
    }
  }

  /** The test cases that name one corner only, or a keyword without its values. */
  lemma RectangleTestIncomplete()
    ensures RectangleParse(RectangleUnset, ["TopRight", "1", "1"]) == None
    ensures RectangleParse(RectangleUnset, ["BottomLeft", "1", "1"]) == None
    ensures RectangleParse(RectangleUnset, ["BottomLeft"]) == None
  {
    assert RectangleParse(RectangleUnset, ["TopRight", "1", "1"]) == None by {
      OneGroup(RectangleArity, Group("TopRight", ["1", "1"]));
      LastWithFound([Group("TopRight", ["1", "1"])], "BottomLeft");
    }
    assert RectangleParse(RectangleUnset, ["BottomLeft", "1", "1"]) == None by {
      OneGroup(RectangleArity, Group("BottomLeft", ["1", "1"]));
      LastWithFound([Group("BottomLeft", ["1", "1"])], "TopRight");
    }
    RectangleFailsFast(RectangleUnset, [], "BottomLeft", []);
  }

  /** The test cases with a token that is no keyword at a group start. */
  lemma RectangleTestUnknownKeyword()
    ensures RectangleParse(RectangleUnset, ["BottomLeft", "1", "1", "1", "TopRight", "1"]) == None
    ensures RectangleParse(RectangleUnset, ["1", "1", "1", "1"]) == None
  {
    SmallDecimals();
    assert RectangleParse(RectangleUnset, ["BottomLeft", "1", "1", "1", "TopRight", "1"]) == None by {
      OneGroup(RectangleArity, Group("BottomLeft", ["1", "1"]));
      RectangleFailsFast(RectangleUnset, ["BottomLeft", "1", "1"], "1", ["TopRight", "1"]);
    }
    RectangleFailsFast(RectangleUnset, [], "1", ["1", "1", "1"]);
  }

  /** The test case with an unknown keyword after two complete groups. */
  lemma RectangleTestTrailingKeyword()
    ensures RectangleParse(RectangleUnset, ["BottomLeft", "1", "1", "TopRight", "1", "1", "Foo", "3"]) == None
  {
    SmallDecimals();
    RectangleFromCorners(1, 1, 1, 1);
    var valid := ["BottomLeft", "1", "1", "TopRight", "1", "1"];
    assert valid + ["Foo"] + ["3"] == ["BottomLeft", "1", "1", "TopRight", "1", "1", "Foo", "3"];
    RectangleFailsFast(RectangleUnset, valid, "Foo", ["3"]);
  }

  /** The test case with the corners given the wrong way round. */
  lemma RectangleTestInverted()
    ensures RectangleParse(RectangleUnset, ["BottomLeft", "2", "2", "TopRight", "1", "1"]) == None
  {
    SmallDecimals();
    RectangleFromCorners(1, 1, 2, 2);
  }
}
