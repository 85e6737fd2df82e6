/** The Circle shape: `Center x y` and `Radius r`, in any order. Only the parse is
    modelled; the circle's area and perimeter are floating-point. */
module Circles {
  import opened Optional
  import opened IntText
  import opened KeywordGroups

  /** The keywords Circle.parse recognises, with the number of values each takes. */
  const CircleArity: map<string, nat> := map["Center" := 2, "Radius" := 1]

  /** The two keywords have the same length, so telling them apart takes a character. */
  lemma CircleKeywordsDiffer()
    ensures "Center" != "Radius"
  {
    assert "Center"[0] != "Radius"[0];
  }

  /** The fields of a Circle. */
  datatype CircleState = CircleState(x: Option<int>, y: Option<int>, radius: Option<int>)

  /** A freshly created Circle: every field unset. */
  const CircleUnset := CircleState(None, None, None)

  /** The fields after storing the groups in order: `Center` sets x and y, `Radius` sets
      radius, a later group overwriting an earlier. */
  function CircleAfter(s: CircleState, gs: seq<Group>): CircleState {
    CircleState(Field(gs, "Center", 0, s.x), Field(gs, "Center", 1, s.y), Field(gs, "Radius", 0, s.radius))
  }

  /** Storing one more group: its keyword's fields take its values, the others stay. */
  lemma CircleAfterSnoc(s: CircleState, done: seq<Group>, g: Group)
    requires g.keyword in CircleArity && |g.values| == CircleArity[g.keyword]
    ensures var t := CircleAfter(s, done);
      CircleAfter(s, done + [g]) ==
        if g.keyword == "Center" then CircleState(ParseInt(g.values[0]), ParseInt(g.values[1]), t.radius)
        else CircleState(t.x, t.y, ParseInt(g.values[0]))
  {
    CircleKeywordsDiffer();
    LastWithSnoc(done, g, "Center");
    LastWithSnoc(done, g, "Radius");
  }

  /** What Circle.parse does to an object in state s: the new fields when it returns
      True (all three set), None when it returns False. No sign check on the radius. */
  function CircleParse(s: CircleState, tokens: seq<string>): (r: Option<CircleState>)
    ensures r.Some? ==> r.value.x.Some? && r.value.y.Some? && r.value.radius.Some?
  {
    match Split(CircleArity, tokens)
    case None => None
    case Some(gs) =>
      var t := CircleAfter(s, gs);
      if t.x.Some? && t.y.Some? && t.radius.Some? then Some(t) else None
  }

  /** One iteration of Circle.parse's loop on `Center` at index i: the groups walked grow
      by that group, and its two values are stored in x and y. */
  lemma CircleCenterStep(entry: CircleState, parameters: seq<string>, done: seq<Group>, i: nat)
    requires i + 2 < |parameters| && parameters[i] == "Center"
    requires WellFormed(CircleArity, done) && Flatten(done) == parameters[..i]
    ensures var g := Group("Center", parameters[i + 1..i + 3]);
      WellFormed(CircleArity, done + [g]) && Flatten(done + [g]) == parameters[..i + 3] &&
      CircleAfter(entry, done + [g]) ==
        CircleAfter(entry, done).(x := ParseInt(parameters[i + 1]), y := ParseInt(parameters[i + 2]))
  {
    WalkStep(CircleArity, parameters, done, i);
    CircleAfterSnoc(entry, done, Group("Center", parameters[i + 1..i + 3]));
  }

  /** One iteration of Circle.parse's loop on `Radius` at index i: the groups walked grow
      by that group, and its value is stored in radius. */
  lemma CircleRadiusStep(entry: CircleState, parameters: seq<string>, done: seq<Group>, i: nat)
    requires i + 1 < |parameters| && parameters[i] == "Radius"
    requires WellFormed(CircleArity, done) && Flatten(done) == parameters[..i]
    ensures var g := Group("Radius", parameters[i + 1..i + 2]);
      WellFormed(CircleArity, done + [g]) && Flatten(done + [g]) == parameters[..i + 2] &&
      CircleAfter(entry, done + [g]) == CircleAfter(entry, done).(radius := ParseInt(parameters[i + 1]))
  {
    CircleKeywordsDiffer();
    WalkStep(CircleArity, parameters, done, i);
    CircleAfterSnoc(entry, done, Group("Radius", parameters[i + 1..i + 2]));
  }

  /** Circle.parse's loop stopping early at index i rejects the input. */
  lemma CircleStop(entry: CircleState, parameters: seq<string>, done: seq<Group>, i: nat)
    requires i < |parameters|
    requires parameters[i] !in CircleArity || i + CircleArity[parameters[i]] >= |parameters|
    requires WellFormed(CircleArity, done) && Flatten(done) == parameters[..i]
    ensures CircleParse(entry, parameters) == None
  {
    WalkFails(CircleArity, parameters, done, i);
  }

  /** Circle.parse's loop running out of tokens: the outcome is decided by the fields the
      walk stored. */
  lemma CircleFinish(entry: CircleState, parameters: seq<string>, done: seq<Group>)
    requires WellFormed(CircleArity, done) && Flatten(done) == parameters[..|parameters|]
    ensures var t := CircleAfter(entry, done);
      CircleParse(entry, parameters) == if t.x.Some? && t.y.Some? && t.radius.Some? then Some(t) else None
  {
    WalkDone(CircleArity, parameters, done);
  }

  class Circle {
    var x: Option<int>
    var y: Option<int>
    var radius: Option<int>

    function State(): CircleState
      reads this
    {
      CircleState(x, y, radius)
    }

    constructor ()
      ensures State() == CircleUnset
    {
      x, y, radius := None, None, None;
    }

    /** Circle.parse: walks the tokens group by group, storing each value as it goes, then
        demands all three fields. */
    method Parse(parameters: seq<string>) returns (ok: bool)
      modifies this
      ensures ok == CircleParse(old(State()), parameters).Some?
      ensures ok ==> State() == CircleParse(old(State()), parameters).value
    {
      var i := 0;
      ghost var done: seq<Group> := [];
      ghost var entry := State();
      while i < |parameters|
        invariant i <= |parameters|
        invariant WellFormed(CircleArity, done) && Flatten(done) == parameters[..i]
        invariant CircleState(x, y, radius) == CircleAfter(entry, done)
        decreases |parameters| - i
      {
        if parameters[i] == "Center" {
          if i + 2 >= |parameters| {
            CircleStop(entry, parameters, done, i);
            return false;
          }
          CircleCenterStep(entry, parameters, done, i);
          x := ParseInt(parameters[i + 1]);
          y := ParseInt(parameters[i + 2]);
          done := done + [Group("Center", parameters[i + 1..i + 3])];
          i := i + 3;
        } else if parameters[i] == "Radius" {
          if i + 1 >= |parameters| {
            CircleStop(entry, parameters, done, i);
            return false;
          }
          CircleRadiusStep(entry, parameters, done, i);
          radius := ParseInt(parameters[i + 1]);
          done := done + [Group("Radius", parameters[i + 1..i + 2])];
          i := i + 2;
        } else {
          CircleStop(entry, parameters, done, i);
          return false;
        }
      }
      CircleFinish(entry, parameters, done);
      return x.Some? && y.Some? && radius.Some?;
    }
  }

  /** The centre and the radius, written in decimal, in either order: the parse from a
      fresh object always succeeds and stores them. */
  lemma CircleFromParts(cx: int, cy: int, r: int)
    ensures var expected := Some(CircleState(Some(cx), Some(cy), Some(r)));
      CircleParse(CircleUnset, ["Center", Decimal(cx), Decimal(cy), "Radius", Decimal(r)]) == expected &&
      CircleParse(CircleUnset, ["Radius", Decimal(r), "Center", Decimal(cx), Decimal(cy)]) == expected
  {
    assert ["Center", Decimal(cx), Decimal(cy), "Radius", Decimal(r)] == ["Center"] + [Decimal(cx), Decimal(cy)] + ["Radius"] + [Decimal(r)];
    assert ["Radius", Decimal(r), "Center", Decimal(cx), Decimal(cy)] == ["Radius"] + [Decimal(r)] + ["Center"] + [Decimal(cx), Decimal(cy)];
    CircleFromGroups(cx, cy, r, true);
    CircleFromGroups(cx, cy, r, false);
  }

  /** A centre group and a radius group, written in decimal, centre or radius first. */
  lemma CircleFromGroups(cx: int, cy: int, r: int, centerFirst: bool)
    ensures var center, radius := Group("Center", [Decimal(cx), Decimal(cy)]), Group("Radius", [Decimal(r)]);
      var (g1, g2) := if centerFirst then (center, radius) else (radius, center);
      CircleParse(CircleUnset, [g1.keyword] + g1.values + [g2.keyword] + g2.values) ==
        Some(CircleState(Some(cx), Some(cy), Some(r)))
  {
    var center, radius := Group("Center", [Decimal(cx), Decimal(cy)]), Group("Radius", [Decimal(r)]);
    var (g1, g2) := if centerFirst then (center, radius) else (radius, center);
    CircleKeywordsDiffer();
    SplitPair(CircleArity, g1, g2);
    LastOfPair(g1, g2, "Center");
    LastOfPair(g1, g2, "Radius");
    ParseIntDecimal(cx);
    ParseIntDecimal(cy);
    ParseIntDecimal(r);
  }

  /** Keyword groups are order-independent: swapping two neighbouring groups with
      different keywords gives the same outcome and the same fields. */
  lemma CircleOrderIndependent(s: CircleState, a: seq<Group>, g1: Group, g2: Group, b: seq<Group>)
    requires WellFormed(CircleArity, a + [g1, g2] + b) && g1.keyword != g2.keyword
    ensures CircleParse(s, Flatten(a + [g1, g2] + b)) == CircleParse(s, Flatten(a + [g2, g1] + b))
  {
    SplitRearranged(CircleArity, a, g1, g2, b);
    LastWithSwap(a, g1, g2, b, "Center");
    LastWithSwap(a, g1, g2, b, "Radius");
    assert CircleAfter(s, a + [g1, g2] + b) == CircleAfter(s, a + [g2, g1] + b);
  }

  /** A repeated keyword overwrites: a group followed later by another with the same
      keyword has no effect on the outcome. */
  lemma CircleLaterGroupWins(s: CircleState, a: seq<Group>, g: Group, b: seq<Group>)
    requires WellFormed(CircleArity, a + [g] + b) && LastWith(b, g.keyword).Some?
    ensures CircleParse(s, Flatten(a + [g] + b)) == CircleParse(s, Flatten(a + b))
  {
    SplitWithout(CircleArity, a, g, b);
    ShadowedGroup(a, g, b, "Center");
    ShadowedGroup(a, g, b, "Radius");
    assert CircleAfter(s, a + [g] + b) == CircleAfter(s, a + b);
  }

  /** Fail-fast: after a prefix of complete groups, an unknown keyword, or a keyword with
      too few values after it, rejects the input whatever follows. */
  lemma CircleFailsFast(s: CircleState, prefix: seq<string>, t: string, rest: seq<string>)
    requires Split(CircleArity, prefix).Some?
    requires t !in CircleArity || |rest| < CircleArity[t]
    ensures CircleParse(s, prefix + [t] + rest) == None
  {
    SplitFailsFast(CircleArity, prefix, t, rest);
  }

  /** From a fresh object both groups are required: input without a centre or without a
      radius, including the empty input, is rejected. */
  lemma CircleNeedsBothGroups(tokens: seq<string>)
    requires Split(CircleArity, tokens).Some?
    requires LastWith(Split(CircleArity, tokens).value, "Center").None? ||
             LastWith(Split(CircleArity, tokens).value, "Radius").None?
    ensures CircleParse(CircleUnset, tokens) == None
  {
  }

  /** A value that is not an integer leaves its field unset, so the parse fails. */
  lemma CircleRejectsNonInteger(s: CircleState, tokens: seq<string>, keyword: string, k: nat)
    requires Split(CircleArity, tokens).Some?
    requires keyword in CircleArity
    requires var last := LastWith(Split(CircleArity, tokens).value, keyword);
      last.Some? && k < |last.value.values| && ParseInt(last.value.values[k]) == None
    ensures CircleParse(s, tokens) == None
  {
    SplitSound(CircleArity, tokens);
    LastWithFound(Split(CircleArity, tokens).value, keyword);
    var t := CircleAfter(s, Split(CircleArity, tokens).value);
    if keyword == "Center" {
      assert k == 0 ==> t.x.None?;
      assert k == 1 ==> t.y.None?;
    } else {
      assert t.radius.None?;
    }
  }

  /** The accepted cases of the module's own test function. */
  lemma CircleTestAccepted()
    ensures CircleParse(CircleUnset, ["Center", "1", "1", "Radius", "2"]) == Some(CircleState(Some(1), Some(1), Some(2)))
    ensures CircleParse(CircleUnset, ["Radius", "2", "Center", "1", "1"]) == Some(CircleState(Some(1), Some(1), Some(2)))
    ensures CircleParse(CircleUnset, ["Radius", "4", "Center", "1", "1"]) == Some(CircleState(Some(1), Some(1), Some(4)))
  {
    SmallDecimals();
    assert CircleParse(CircleUnset, ["Center", "1", "1", "Radius", "2"]) == Some(CircleState(Some(1), Some(1), Some(2))) &&
           CircleParse(CircleUnset, ["Radius", "2", "Center", "1", "1"]) == Some(CircleState(Some(1), Some(1), Some(2))) by {
      CircleFromParts(1, 1, 2);
    }
    CircleFromParts(1, 1, 4);
  }

  /** The test cases that give one group only, or a keyword without its values. */
  lemma CircleTestIncomplete()
    ensures CircleParse(CircleUnset, ["Center", "1", "1"]) == None
    ensures CircleParse(CircleUnset, ["Center", "1"]) == None
    ensures CircleParse(CircleUnset, ["Center"]) == None
    ensures CircleParse(CircleUnset, ["Center", "1", "Radius", "2"]) == None
  {
    assert CircleParse(CircleUnset, ["Center", "1", "1"]) == None by {
      OneGroup(CircleArity, Group("Center", ["1", "1"]));
      LastWithFound([Group("Center", ["1", "1"])], "Radius");
    }
    CircleFailsFast(CircleUnset, [], "Center", ["1"]);
    CircleFailsFast(CircleUnset, [], "Center", []);
    assert CircleParse(CircleUnset, ["Center", "1", "Radius", "2"]) == None by {
      assert Split(CircleArity, ["Center", "1", "Radius", "2"]) == None by {
        OneGroup(CircleArity, Group("Radius", ["2"]));
        OneGroup(CircleArity, Group("Center", ["1", "Radius"]));
        assert ["Center", "1", "Radius", "2"] == ["Center", "1", "Radius"] + ["2"] + [];
        SplitFailsFast(CircleArity, ["Center", "1", "Radius"], "2", []);
      }
    }
  }

  /** The test cases with a token that is no keyword at a group start. */
  lemma CircleTestUnknownKeyword()
    ensures CircleParse(CircleUnset, ["Center", "1", "1", "Radius", "2", "Foo", "3"]) == None
    ensures CircleParse(CircleUnset, ["1", "1", "2"]) == None
  {
    var valid := ["Center", "1", "1", "Radius", "2"];
    assert valid + ["Foo"] + ["3"] == ["Center", "1", "1", "Radius", "2", "Foo", "3"];
    assert [] + ["1"] + ["1", "2"] == ["1", "1", "2"];
    SmallDecimals();
    CircleFromParts(1, 1, 2);
    CircleFailsFast(CircleUnset, valid, "Foo", ["3"]);
    CircleFailsFast(CircleUnset, [], "1", ["1", "2"]);
  }
}
