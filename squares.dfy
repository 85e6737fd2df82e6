/** The Square shape: `TopRight a b` and `Side n`, in any order; the bottom-left corner
    is derived from them, and the area and perimeter are the Rectangle's. */
module Squares {
  import opened Optional
  import opened IntText
  import opened KeywordGroups
  import opened Rectangles

  /** The keywords Square.parse recognises, with the number of values each takes. */
  const SquareArity: map<string, nat> := map["TopRight" := 2, "Side" := 1]

  /** The fields of a Square: the Rectangle's four and the side. */
  datatype SquareState = SquareState(top: Option<int>, right: Option<int>, bottom: Option<int>, left: Option<int>, side: Option<int>)

  /** A freshly created Square: every field unset. */
  const SquareUnset := SquareState(None, None, None, None, None)

  /** The fields after storing the groups in order: `TopRight` sets top and right, `Side`
      sets side; bottom and left are not touched by the walk. */
  function SquareAfter(s: SquareState, gs: seq<Group>): SquareState {
    SquareState(Field(gs, "TopRight", 0, s.top), Field(gs, "TopRight", 1, s.right),
                s.bottom, s.left, Field(gs, "Side", 0, s.side))
  }

  /** Storing one more group: its keyword's fields take its values, the others stay. */
  lemma SquareAfterSnoc(s: SquareState, done: seq<Group>, g: Group)
    requires g.keyword in SquareArity && |g.values| == SquareArity[g.keyword]
    ensures var t := SquareAfter(s, done);
      SquareAfter(s, done + [g]) ==
        if g.keyword == "TopRight" then SquareState(ParseInt(g.values[0]), ParseInt(g.values[1]), t.bottom, t.left, t.side)
        else SquareState(t.top, t.right, t.bottom, t.left, ParseInt(g.values[0]))
  {
    LastWithSnoc(done, g, "TopRight");
    LastWithSnoc(done, g, "Side");
  }

  /** What Square.parse does to an object in state s: the new fields when it returns True,
      None when it returns False. A parsed square has its bottom-left corner one side
      below and left of its top-right corner. */
  function SquareParse(s: SquareState, tokens: seq<string>): (r: Option<SquareState>)
    ensures r.Some? ==> r.value.top.Some? && r.value.right.Some? && r.value.side.Some?
    ensures r.Some? ==> r.value.bottom == Some(r.value.top.value - r.value.side.value)
    ensures r.Some? ==> r.value.left == Some(r.value.right.value - r.value.side.value)
  {
    match Split(SquareArity, tokens)
    case None => None
    case Some(gs) => SquareDerive(SquareAfter(s, gs))
  }

  /** The check after Square.parse's loop: top, right and side must be set, and then
      bottom and left are derived from them. */
  function SquareDerive(t: SquareState): Option<SquareState> {
    if t.top.Some? && t.right.Some? && t.side.Some? then
      Some(SquareState(t.top, t.right, Some(t.top.value - t.side.value), Some(t.right.value - t.side.value), t.side))
    else None
  }

  /** One iteration of Square.parse's loop on `TopRight` at index i: the groups walked
      grow by that group, and its two values are stored in top and right. */
  lemma SquareCornerStep(entry: SquareState, parameters: seq<string>, done: seq<Group>, i: nat)
    requires i + 2 < |parameters| && parameters[i] == "TopRight"
    requires WellFormed(SquareArity, done) && Flatten(done) == parameters[..i]
    ensures var g := Group("TopRight", parameters[i + 1..i + 3]);
      var (x, y) := ParsePoint(i, parameters);
      WellFormed(SquareArity, done + [g]) && Flatten(done + [g]) == parameters[..i + 3] &&
      SquareAfter(entry, done + [g]) == SquareAfter(entry, done).(top := x, right := y)
  {
    WalkStep(SquareArity, parameters, done, i);
    SquareAfterSnoc(entry, done, Group("TopRight", parameters[i + 1..i + 3]));
  }

  /** One iteration of Square.parse's loop on `Side` at index i: the groups walked grow by
      that group, and its value is stored in side. */
  lemma SquareSideStep(entry: SquareState, parameters: seq<string>, done: seq<Group>, i: nat)
    requires i + 1 < |parameters| && parameters[i] == "Side"
    requires WellFormed(SquareArity, done) && Flatten(done) == parameters[..i]
    ensures var g := Group("Side", parameters[i + 1..i + 2]);
      WellFormed(SquareArity, done + [g]) && Flatten(done + [g]) == parameters[..i + 2] &&
      SquareAfter(entry, done + [g]) == SquareAfter(entry, done).(side := ParseInt(parameters[i + 1]))
  {
    WalkStep(SquareArity, parameters, done, i);
    SquareAfterSnoc(entry, done, Group("Side", parameters[i + 1..i + 2]));
  }

  /** Square.parse's loop stopping early at index i rejects the input. */
  lemma SquareStop(entry: SquareState, parameters: seq<string>, done: seq<Group>, i: nat)
    requires i < |parameters|
    requires parameters[i] !in SquareArity || i + SquareArity[parameters[i]] >= |parameters|
    requires WellFormed(SquareArity, done) && Flatten(done) == parameters[..i]
    ensures SquareParse(entry, parameters) == None
  {
    WalkFails(SquareArity, parameters, done, i);
  }

  /** Square.parse's loop running out of tokens: the outcome is decided by the fields the
      walk stored. */
  lemma SquareFinish(entry: SquareState, parameters: seq<string>, done: seq<Group>)
    requires WellFormed(SquareArity, done) && Flatten(done) == parameters[..|parameters|]
    ensures var t := SquareAfter(entry, done);
      SquareParse(entry, parameters) ==
        if t.top.Some? && t.right.Some? && t.side.Some? then
          Some(t.(bottom := Some(t.top.value - t.side.value), left := Some(t.right.value - t.side.value)))
        else None
  {
    WalkDone(SquareArity, parameters, done);
  }

  class Square {
    var top: Option<int>
    var right: Option<int>
    var bottom: Option<int>
    var left: Option<int>
    var side: Option<int>

    function State(): SquareState
      reads this
    {
      SquareState(top, right, bottom, left, side)
    }

    constructor ()
      ensures State() == SquareUnset
    {
      top, right, bottom, left, side := None, None, None, None, None;
    }

    /** Square.parse: walks the tokens group by group, storing each value as it goes, then
        demands top, right and side and derives bottom and left from them. */
    method Parse(parameters: seq<string>) returns (ok: bool)
      modifies this
      ensures ok == SquareParse(old(State()), parameters).Some?
      ensures ok ==> State() == SquareParse(old(State()), parameters).value
    {
      var i := 0;
      ghost var done: seq<Group> := [];
      ghost var entry := State();
      while i < |parameters|
        invariant i <= |parameters|
        invariant WellFormed(SquareArity, done) && Flatten(done) == parameters[..i]
        invariant SquareState(top, right, bottom, left, side) == SquareAfter(entry, done)
        decreases |parameters| - i
      {
        if parameters[i] == "TopRight" {
          if i + 2 >= |parameters| {
            SquareStop(entry, parameters, done, i);
            return false;
          }
          SquareCornerStep(entry, parameters, done, i);
          var point := ParsePoint(i, parameters);
          top, right := point.0, point.1;
          done := done + [Group("TopRight", parameters[i + 1..i + 3])];
          i := i + 3;
        } else if parameters[i] == "Side" {
          if i + 1 >= |parameters| {
            SquareStop(entry, parameters, done, i);
            return false;
          }
          SquareSideStep(entry, parameters, done, i);
          side := ParseInt(parameters[i + 1]);
          done := done + [Group("Side", parameters[i + 1..i + 2])];
          i := i + 2;
        } else {
          SquareStop(entry, parameters, done, i);
          return false;
        }
      }
      SquareFinish(entry, parameters, done);
      var isValid := top.Some? && right.Some? && side.Some?;
      if isValid {
        bottom := Some(top.value - side.value);
        left := Some(right.value - side.value);
      }
      return isValid;
    }

    /** Rectangle.get_area, inherited: on a parsed square, the side squared. */
    function Area(): (a: int)
      reads this
      requires top.Some? && right.Some? && bottom.Some? && left.Some?
      ensures side.Some? && bottom == Some(top.value - side.value) && left == Some(right.value - side.value) ==>
        a == side.value * side.value
    {
      BoxArea(top.value, right.value, bottom.value, left.value)
    }

    /** Rectangle.get_perimeter, inherited: on a parsed square, four times the side. */
    function Perimeter(): (p: int)
      reads this
      requires top.Some? && right.Some? && bottom.Some? && left.Some?
      ensures side.Some? && bottom == Some(top.value - side.value) && left == Some(right.value - side.value) ==>
        p == 4 * side.value
    {
      BoxPerimeter(top.value, right.value, bottom.value, left.value)
    }
  }

  /** The top-right corner and the side, written in decimal, in either order: the parse
      from a fresh object always succeeds (no sign check on the side) and derives the
      bottom-left corner. */
  lemma SquareFromCorner(a: int, b: int, n: int)
    ensures var expected := Some(SquareState(Some(a), Some(b), Some(a - n), Some(b - n), Some(n)));
      SquareParse(SquareUnset, ["TopRight", Decimal(a), Decimal(b), "Side", Decimal(n)]) == expected &&
      SquareParse(SquareUnset, ["Side", Decimal(n), "TopRight", Decimal(a), Decimal(b)]) == expected
  {
    assert ["TopRight", Decimal(a), Decimal(b), "Side", Decimal(n)] == ["TopRight"] + [Decimal(a), Decimal(b)] + ["Side"] + [Decimal(n)];
    assert ["Side", Decimal(n), "TopRight", Decimal(a), Decimal(b)] == ["Side"] + [Decimal(n)] + ["TopRight"] + [Decimal(a), Decimal(b)];
    SquareFromGroups(a, b, n, true);
    SquareFromGroups(a, b, n, false);
  }

  /** A corner group and a side group, written in decimal, corner or side first. */
  lemma SquareFromGroups(a: int, b: int, n: int, cornerFirst: bool)
    ensures var corner, side := Group("TopRight", [Decimal(a), Decimal(b)]), Group("Side", [Decimal(n)]);
      var (g1, g2) := if cornerFirst then (corner, side) else (side, corner);
      SquareParse(SquareUnset, [g1.keyword] + g1.values + [g2.keyword] + g2.values) ==
        Some(SquareState(Some(a), Some(b), Some(a - n), Some(b - n), Some(n)))
  {
    var corner, side := Group("TopRight", [Decimal(a), Decimal(b)]), Group("Side", [Decimal(n)]);
    var (g1, g2) := if cornerFirst then (corner, side) else (side, corner);
    SplitPair(SquareArity, g1, g2);
    LastOfPair(g1, g2, "TopRight");
    LastOfPair(g1, g2, "Side");
    ParseIntDecimal(a);
    ParseIntDecimal(b);
    ParseIntDecimal(n);
  }

  /** A parsed square measures side squared and four sides, by the Rectangle formulas. */
  lemma SquareParsedMeasures(s: SquareState, tokens: seq<string>)
    requires SquareParse(s, tokens).Some?
    ensures var q := SquareParse(s, tokens).value;
      BoxArea(q.top.value, q.right.value, q.bottom.value, q.left.value) == q.side.value * q.side.value &&
      BoxPerimeter(q.top.value, q.right.value, q.bottom.value, q.left.value) == 4 * q.side.value
  {
  }

  /** Keyword groups are order-independent: swapping two neighbouring groups with
      different keywords gives the same outcome and the same fields. */
  lemma SquareOrderIndependent(s: SquareState, a: seq<Group>, g1: Group, g2: Group, b: seq<Group>)
    requires WellFormed(SquareArity, a + [g1, g2] + b) && g1.keyword != g2.keyword
    ensures SquareParse(s, Flatten(a + [g1, g2] + b)) == SquareParse(s, Flatten(a + [g2, g1] + b))
  {
    SplitRearranged(SquareArity, a, g1, g2, b);
    LastWithSwap(a, g1, g2, b, "TopRight");
    LastWithSwap(a, g1, g2, b, "Side");
    assert SquareAfter(s, a + [g1, g2] + b) == SquareAfter(s, a + [g2, g1] + b);
  }

  /** A repeated keyword overwrites: a group followed later by another with the same
      keyword has no effect on the outcome. */
  lemma SquareLaterGroupWins(s: SquareState, a: seq<Group>, g: Group, b: seq<Group>)
    requires WellFormed(SquareArity, a + [g] + b) && LastWith(b, g.keyword).Some?
    ensures SquareParse(s, Flatten(a + [g] + b)) == SquareParse(s, Flatten(a + b))
  {
    SplitWithout(SquareArity, a, g, b);
    ShadowedGroup(a, g, b, "TopRight");
    ShadowedGroup(a, g, b, "Side");
    assert SquareAfter(s, a + [g] + b) == SquareAfter(s, a + b);
  }

  /** Fail-fast: after a prefix of complete groups, an unknown keyword, or a keyword with
      too few values after it, rejects the input whatever follows. */
  lemma SquareFailsFast(s: SquareState, prefix: seq<string>, t: string, rest: seq<string>)
    requires Split(SquareArity, prefix).Some?
    requires t !in SquareArity || |rest| < SquareArity[t]
    ensures SquareParse(s, prefix + [t] + rest) == None
  {
    SplitFailsFast(SquareArity, prefix, t, rest);
  }

  /** From a fresh object both groups are required: input without a corner or without a
      side, including the empty input, is rejected. */
  lemma SquareNeedsBothGroups(tokens: seq<string>)
    requires Split(SquareArity, tokens).Some?
    requires LastWith(Split(SquareArity, tokens).value, "TopRight").None? ||
             LastWith(Split(SquareArity, tokens).value, "Side").None?
    ensures SquareParse(SquareUnset, tokens) == None
  {
  }

  /** A value that is not an integer leaves its field unset, so the parse fails. */
  lemma SquareRejectsNonInteger(s: SquareState, tokens: seq<string>, keyword: string, k: nat)
    requires Split(SquareArity, tokens).Some?
    requires keyword in SquareArity
    requires var last := LastWith(Split(SquareArity, tokens).value, keyword);
      last.Some? && k < |last.value.values| && ParseInt(last.value.values[k]) == None
    ensures SquareParse(s, tokens) == None
  {
    SplitSound(SquareArity, tokens);
    LastWithFound(Split(SquareArity, tokens).value, keyword);
    var t := SquareAfter(s, Split(SquareArity, tokens).value);
    if keyword == "TopRight" {
      assert k == 0 ==> t.top.None?;
      assert k == 1 ==> t.right.None?;
    } else {
      assert t.side.None?;
    }
  }

  /** The accepted cases of the module's own test function, with the derived corner and
      the measures. */
  lemma SquareTestAccepted()
    ensures SquareParse(SquareUnset, ["Side", "1", "TopRight", "1", "1"]).Some?
    ensures var r := SquareParse(SquareUnset, ["TopRight", "1", "1", "Side", "1"]);
      r == Some(SquareState(Some(1), Some(1), Some(0), Some(0), Some(1))) &&
      BoxPerimeter(1, 1, 0, 0) == 4 && BoxArea(1, 1, 0, 0) == 1
    ensures var r := SquareParse(SquareUnset, ["TopRight", "2", "2", "Side", "2"]);
      r == Some(SquareState(Some(2), Some(2), Some(0), Some(0), Some(2))) &&
      BoxPerimeter(2, 2, 0, 0) == 8 && BoxArea(2, 2, 0, 0) == 4
  {
    SmallDecimals();
    assert SquareParse(SquareUnset, ["TopRight", "1", "1", "Side", "1"]) ==
           Some(SquareState(Some(1), Some(1), Some(0), Some(0), Some(1))) &&
           SquareParse(SquareUnset, ["Side", "1", "TopRight", "1", "1"]).Some? by {
      SquareFromCorner(1, 1, 1);
    }
    assert SquareParse(SquareUnset, ["TopRight", "2", "2", "Side", "2"]) ==
           Some(SquareState(Some(2), Some(2), Some(0), Some(0), Some(2))) by {
      SquareFromCorner(2, 2, 2);
    }
  }

  /** The test cases that give one group only, or a keyword without its values. */
  lemma SquareTestIncomplete()
    ensures SquareParse(SquareUnset, ["TopRight", "1", "1"]) == None
    ensures SquareParse(SquareUnset, ["Side", "1"]) == None
    ensures SquareParse(SquareUnset, ["Side"]) == None
    ensures SquareParse(SquareUnset, ["Side", "1", "TopRight", "1"]) == None
  {
    assert SquareParse(SquareUnset, ["TopRight", "1", "1"]) == None by {
      OneGroup(SquareArity, Group("TopRight", ["1", "1"]));
      LastWithFound([Group("TopRight", ["1", "1"])], "Side");
    }
    assert SquareParse(SquareUnset, ["Side", "1"]) == None by {
      OneGroup(SquareArity, Group("Side", ["1"]));
      LastWithFound([Group("Side", ["1"])], "TopRight");
    }
    SquareFailsFast(SquareUnset, [], "Side", []);
    assert SquareParse(SquareUnset, ["Side", "1", "TopRight", "1"]) == None by {
      OneGroup(SquareArity, Group("Side", ["1"]));
      SquareFailsFast(SquareUnset, ["Side", "1"], "TopRight", ["1"]);
    }
  }

  /** The test cases with a token that is no keyword at a group start. */
  lemma SquareTestUnknownKeyword()
    ensures SquareParse(SquareUnset, ["Side", "1", "TopRight", "1", "1", "Foo", "3"]) == None
    ensures SquareParse(SquareUnset, ["1", "1", "1"]) == None
  {
    var valid := ["Side", "1", "TopRight", "1", "1"];
    assert valid + ["Foo"] + ["3"] == ["Side", "1", "TopRight", "1", "1", "Foo", "3"];
    assert [] + ["1"] + ["1", "1"] == ["1", "1", "1"];
    SmallDecimals();
    SquareFromCorner(1, 1, 1);
    SquareFailsFast(SquareUnset, valid, "Foo", ["3"]);
    SquareFailsFast(SquareUnset, [], "1", ["1", "1"]);
  }
}
