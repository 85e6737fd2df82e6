/** The token structure every shape's parse loop walks: a keyword followed by a fixed
    number of value tokens, repeated until the tokens run out. Each shape gives a table
    from its keywords to their arity (2 for a point, 1 for a scalar). */
module KeywordGroups {
  import opened Optional
  import opened IntText

  /** A keyword token and the value tokens that follow it. */
  datatype Group = Group(keyword: string, values: seq<string>)

  /** Every group names a keyword of the table and carries exactly its arity of values. */
  predicate WellFormed(arity: map<string, nat>, gs: seq<Group>) {
    forall g | g in gs :: g.keyword in arity && |g.values| == arity[g.keyword]
  }

  /** The tokens that spell out a sequence of groups. */
  function Flatten(gs: seq<Group>): seq<string> {
    if gs == [] then [] else [gs[0].keyword] + gs[0].values + Flatten(gs[1..])
  }

  /** Cuts the tokens into groups from the front, as each parse loop does: a token at a
      group start that is no keyword, or a keyword with too few tokens after it, fails at
      once. */
  function Split(arity: map<string, nat>, tokens: seq<string>): (r: Option<seq<Group>>)
    ensures r.Some? ==> WellFormed(arity, r.value)
    decreases |tokens|
  {
    if tokens == [] then Some([])
    else if tokens[0] !in arity || arity[tokens[0]] >= |tokens| then None
    else
      var n := arity[tokens[0]];
      match Split(arity, tokens[n + 1..])
      case None => None
      case Some(rest) =>
        WellFormedCons(arity, Group(tokens[0], tokens[1..n + 1]), rest);
        Some([Group(tokens[0], tokens[1..n + 1])] + rest)
  }

  /** The tokens of one group in front of others. */
  lemma FlattenCons(g: Group, gs: seq<Group>)
    ensures Flatten([g] + gs) == [g.keyword] + g.values + Flatten(gs)
  {
    assert ([g] + gs)[1..] == gs;
  }

  /** One well-formed group in front of well-formed groups. */
  lemma WellFormedCons(arity: map<string, nat>, g: Group, gs: seq<Group>)
    requires g.keyword in arity && |g.values| == arity[g.keyword]
    requires WellFormed(arity, gs)
    ensures WellFormed(arity, [g] + gs)
  {
    forall h | h in [g] + gs ensures h.keyword in arity && |h.values| == arity[h.keyword] {
      if h != g {
        assert h in gs;
      }
    }
  }

  /** Tokens read as a keyword, its n values, and the tokens after them. */
  lemma TokensCons(tokens: seq<string>, n: nat)
    requires n < |tokens|
    ensures tokens == [tokens[0]] + tokens[1..n + 1] + tokens[n + 1..]
  {
  }

  /** A successful cut spells out the tokens exactly. */
  lemma {:induction false} SplitSpells(arity: map<string, nat>, tokens: seq<string>, gs: seq<Group>)
    requires Split(arity, tokens) == Some(gs)
    ensures Flatten(gs) == tokens
    decreases |tokens|
  {
    if tokens != [] {
      var n := arity[tokens[0]];
      var g := Group(tokens[0], tokens[1..n + 1]);
      var rest := Split(arity, tokens[n + 1..]).value;
      assert gs == [g] + rest;
      SplitSpells(arity, tokens[n + 1..], rest);
      FlattenCons(g, rest);
      TokensCons(tokens, n);
    }
  }

  /** A successful cut yields well-formed groups that spell out the tokens exactly. */
  lemma SplitSound(arity: map<string, nat>, tokens: seq<string>)
    requires Split(arity, tokens).Some?
    ensures WellFormed(arity, Split(arity, tokens).value)
    ensures Flatten(Split(arity, tokens).value) == tokens
  {
    SplitSpells(arity, tokens, Split(arity, tokens).value);
  }

  /** Split is the inverse of Flatten on well-formed groups: the cut is unique. */
  lemma {:induction false} SplitFlatten(arity: map<string, nat>, gs: seq<Group>)
    requires WellFormed(arity, gs)
    ensures Split(arity, Flatten(gs)) == Some(gs)
  {
    if gs != [] {
      var g, tokens := gs[0], Flatten(gs);
      var n := |g.values|;
      assert WellFormed(arity, gs[1..]) by {
        forall h | h in gs[1..] ensures h.keyword in arity && |h.values| == arity[h.keyword] {
          assert h in gs;
        }
      }
      SplitFlatten(arity, gs[1..]);
      assert tokens[1..n + 1] == g.values;
      assert tokens[n + 1..] == Flatten(gs[1..]);
      assert [g] + gs[1..] == gs;
    }
  }

  /** The tokens of two groups. */
  lemma FlattenPair(g1: Group, g2: Group)
    ensures Flatten([g1, g2]) == [g1.keyword] + g1.values + [g2.keyword] + g2.values
  {
    assert [g2][1..] == [];
    assert Flatten([g2]) == [g2.keyword] + g2.values;
    assert [g1, g2][1..] == [g2];
  }

  /** Two well-formed groups, written out, cut as themselves. */
  lemma SplitPair(arity: map<string, nat>, g1: Group, g2: Group)
    requires g1.keyword in arity && |g1.values| == arity[g1.keyword]
    requires g2.keyword in arity && |g2.values| == arity[g2.keyword]
    ensures Split(arity, [g1.keyword] + g1.values + [g2.keyword] + g2.values) == Some([g1, g2])
  {
    FlattenPair(g1, g2);
    assert WellFormed(arity, [g1, g2]) by {
      WellFormedCons(arity, g2, []);
      WellFormedCons(arity, g1, [g2]);
      assert [g2] + [] == [g2] && [g1] + [g2] == [g1, g2];
    }
    SplitFlatten(arity, [g1, g2]);
  }

  /** The last group with a keyword among two groups. */
  lemma LastOfPair(g1: Group, g2: Group, keyword: string)
    ensures LastWith([g1, g2], keyword) ==
      if g2.keyword == keyword then Some(g2) else if g1.keyword == keyword then Some(g1) else None
  {
    assert [g1] + [g2] == [g1, g2] && [] + [g1] == [g1];
    LastWithSnoc([g1], g2, keyword);
    LastWithSnoc([], g1, keyword);
  }

  /** A single well-formed group cuts as itself. */
  lemma OneGroup(arity: map<string, nat>, g: Group)
    requires g.keyword in arity && |g.values| == arity[g.keyword]
    ensures Split(arity, [g.keyword] + g.values) == Some([g])
  {
    assert Flatten([g]) == [g.keyword] + g.values by {
      assert [g][1..] == [];
    }
    SplitFlatten(arity, [g]);
  }

  /** Dropping the first k tokens of a + b, where a has at least k tokens. */
  lemma DropFront(a: seq<string>, b: seq<string>, k: nat)
    requires 0 < k <= |a|
    ensures (a + b)[0] == a[0] && (a + b)[k..] == a[k..] + b
  {
  }

  /** Fail-fast: after any prefix that cuts cleanly, a token that is no keyword, or a
      keyword followed by fewer tokens than its arity, makes the whole cut fail,
      whatever comes after. */
  lemma {:induction false} SplitFailsFast(arity: map<string, nat>, prefix: seq<string>, t: string, rest: seq<string>)
    requires Split(arity, prefix).Some?
    requires t !in arity || |rest| < arity[t]
    ensures Split(arity, prefix + [t] + rest) == None
    decreases |prefix|
  {
    if prefix == [] {
      assert prefix + [t] + rest == [t] + rest;
    } else {
      var n := arity[prefix[0]];
      DropFront(prefix, [t] + rest, n + 1);
      assert prefix + [t] + rest == prefix + ([t] + rest);
      assert prefix[n + 1..] + [t] + rest == prefix[n + 1..] + ([t] + rest);
      SplitFailsFast(arity, prefix[n + 1..], t, rest);
    }
  }

  /** The tokens of groups followed by one more group. */
  lemma {:induction false} FlattenSnoc(gs: seq<Group>, g: Group)
    ensures Flatten(gs + [g]) == Flatten(gs) + [g.keyword] + g.values
  {
    if gs == [] {
      assert [] + [g] == [g];
      assert [g][1..] == [];
    } else {
      assert (gs + [g])[1..] == gs[1..] + [g];
      FlattenSnoc(gs[1..], g);
    }
  }

  /** One iteration of a parse loop that has cut the tokens before index i into the
      groups done: a known keyword with enough tokens after it adds one group, and the
      groups cut then spell out the tokens up to the end of that group. */
  lemma WalkStep(arity: map<string, nat>, tokens: seq<string>, done: seq<Group>, i: nat)
    requires i < |tokens| && tokens[i] in arity && i + arity[tokens[i]] < |tokens|
    requires WellFormed(arity, done) && Flatten(done) == tokens[..i]
    ensures var g := Group(tokens[i], tokens[i + 1..i + 1 + arity[tokens[i]]]);
      WellFormed(arity, done + [g]) && Flatten(done + [g]) == tokens[..i + 1 + arity[tokens[i]]]
  {
    var g := Group(tokens[i], tokens[i + 1..i + 1 + arity[tokens[i]]]);
    FlattenSnoc(done, g);
    assert tokens[..i + 1 + arity[tokens[i]]] == tokens[..i] + [g.keyword] + g.values;
    forall h | h in done + [g] ensures h.keyword in arity && |h.values| == arity[h.keyword] {
      if h != g {
        assert h in done;
      }
    }
  }

  /** A parse loop that meets, at a group start, a token that is no keyword or a keyword
      with too few tokens after it: the whole cut fails. */
  lemma WalkFails(arity: map<string, nat>, tokens: seq<string>, done: seq<Group>, i: nat)
    requires i < |tokens| && (tokens[i] !in arity || i + arity[tokens[i]] >= |tokens|)
    requires WellFormed(arity, done) && Flatten(done) == tokens[..i]
    ensures Split(arity, tokens) == None
  {
    assert tokens == tokens[..i] + [tokens[i]] + tokens[i + 1..];
    SplitFlatten(arity, done);
    SplitFailsFast(arity, tokens[..i], tokens[i], tokens[i + 1..]);
  }

  /** A parse loop that has run out of tokens has cut them into exactly the groups done. */
  lemma WalkDone(arity: map<string, nat>, tokens: seq<string>, done: seq<Group>)
    requires WellFormed(arity, done) && Flatten(done) == tokens[..|tokens|]
    ensures Split(arity, tokens) == Some(done)
  {
    assert tokens[..|tokens|] == tokens;
    SplitFlatten(arity, done);
  }

  /** The last group with the given keyword: the one whose values a parse loop stores
      last, since a repeated keyword overwrites what an earlier one stored. */
  function LastWith(gs: seq<Group>, keyword: string): Option<Group> {
    if gs == [] then None
    else if gs[|gs| - 1].keyword == keyword then Some(gs[|gs| - 1])
    else LastWith(gs[..|gs| - 1], keyword)
  }

  /** LastWith finds a group with the keyword exactly when there is one. */
  lemma {:induction false} LastWithFound(gs: seq<Group>, keyword: string)
    ensures LastWith(gs, keyword).Some? ==> LastWith(gs, keyword).value in gs && LastWith(gs, keyword).value.keyword == keyword
    ensures LastWith(gs, keyword).None? <==> forall g | g in gs :: g.keyword != keyword
  {
    if gs != [] && gs[|gs| - 1].keyword != keyword {
      LastWithFound(gs[..|gs| - 1], keyword);
      assert gs == gs[..|gs| - 1] + [gs[|gs| - 1]];
    }
  }

  /** A group appended after the others is the last one with its keyword, and leaves
      the other keywords' last groups as they were. */
  lemma LastWithSnoc(gs: seq<Group>, g: Group, keyword: string)
    ensures LastWith(gs + [g], keyword) == if g.keyword == keyword then Some(g) else LastWith(gs, keyword)
  {
    assert (gs + [g])[..|gs|] == gs;
  }

  /** The last group in a + b with a keyword is b's if b has one, and a's otherwise. */
  lemma {:induction false} LastWithAppend(a: seq<Group>, b: seq<Group>, keyword: string)
    ensures LastWith(a + b, keyword) == if LastWith(b, keyword).Some? then LastWith(b, keyword) else LastWith(a, keyword)
    decreases |b|
  {
    if b == [] {
      assert a + b == a;
    } else {
      var b0, g := b[..|b| - 1], b[|b| - 1];
      assert b == b0 + [g];
      assert a + b == (a + b0) + [g];
      LastWithSnoc(a + b0, g, keyword);
      LastWithSnoc(b0, g, keyword);
      LastWithAppend(a, b0, keyword);
    }
  }

  /** Swapping two neighbouring groups with different keywords changes no keyword's
      last group. */
  lemma LastWithSwap(a: seq<Group>, g1: Group, g2: Group, b: seq<Group>, keyword: string)
    requires g1.keyword != g2.keyword
    ensures LastWith(a + [g1, g2] + b, keyword) == LastWith(a + [g2, g1] + b, keyword)
  {
    LastWithAppend(a + [g1, g2], b, keyword);
    LastWithAppend(a + [g2, g1], b, keyword);
    assert a + [g1, g2] == (a + [g1]) + [g2];
    assert a + [g2, g1] == (a + [g2]) + [g1];
    LastWithSnoc(a + [g1], g2, keyword);
    LastWithSnoc(a, g1, keyword);
    LastWithSnoc(a + [g2], g1, keyword);
    LastWithSnoc(a, g2, keyword);
  }

  /** A group followed later by one with the same keyword is overwritten: dropping it
      changes no keyword's last group. */
  lemma ShadowedGroup(a: seq<Group>, g: Group, b: seq<Group>, keyword: string)
    requires LastWith(b, g.keyword).Some?
    ensures LastWith(a + [g] + b, keyword) == LastWith(a + b, keyword)
  {
    LastWithAppend(a + [g], b, keyword);
    LastWithAppend(a, b, keyword);
    LastWithSnoc(a, g, keyword);
  }

  /** Swapping two neighbouring groups keeps a well-formed sequence well formed. */
  lemma WellFormedSwap(arity: map<string, nat>, a: seq<Group>, g1: Group, g2: Group, b: seq<Group>)
    requires WellFormed(arity, a + [g1, g2] + b)
    ensures WellFormed(arity, a + [g2, g1] + b)
  {
    forall h | h in a + [g2, g1] + b ensures h.keyword in arity && |h.values| == arity[h.keyword] {
      assert h in a + [g1, g2] + b;
    }
  }

  /** Well-formed groups in any order, and with one of them left out, written out and
      cut again, give back exactly those groups. */
  lemma SplitRearranged(arity: map<string, nat>, a: seq<Group>, g1: Group, g2: Group, b: seq<Group>)
    requires WellFormed(arity, a + [g1, g2] + b)
    ensures Split(arity, Flatten(a + [g1, g2] + b)) == Some(a + [g1, g2] + b)
    ensures Split(arity, Flatten(a + [g2, g1] + b)) == Some(a + [g2, g1] + b)
  {
    WellFormedSwap(arity, a, g1, g2, b);
    SplitFlatten(arity, a + [g1, g2] + b);
    SplitFlatten(arity, a + [g2, g1] + b);
  }

  /** Well-formed groups, with one group left out, written out and cut again, give back
      exactly those groups. */
  lemma SplitWithout(arity: map<string, nat>, a: seq<Group>, g: Group, b: seq<Group>)
    requires WellFormed(arity, a + [g] + b)
    ensures Split(arity, Flatten(a + [g] + b)) == Some(a + [g] + b)
    ensures Split(arity, Flatten(a + b)) == Some(a + b)
  {
    assert WellFormed(arity, a + b) by {
      forall h | h in a + b ensures h.keyword in arity && |h.values| == arity[h.keyword] {
        assert h in a + [g] + b;
      }
    }
    SplitFlatten(arity, a + [g] + b);
    SplitFlatten(arity, a + b);
  }

  /** What a field holds once the groups are stored in order: value k of the last group
      with the keyword, read as an integer, or what it held before if no group names it. */
  function Field(gs: seq<Group>, keyword: string, k: nat, before: Option<int>): Option<int> {
    match LastWith(gs, keyword)
    case None => before
    case Some(g) => if k < |g.values| then ParseInt(g.values[k]) else None
  }

  /** Shape.parse_point: the two integers after the keyword at index i. */
  function ParsePoint(i: nat, lst: seq<string>): (r: (Option<int>, Option<int>))
    requires i + 2 < |lst|
    ensures r.0.Some? <==> IsIntegerText(lst[i + 1])
    ensures r.1.Some? <==> IsIntegerText(lst[i + 2])
  {
    (ParseInt(lst[i + 1]), ParseInt(lst[i + 2]))
  }

  /** A point written in decimal reads back as that point. */
  lemma ParsePointDecimal(i: nat, lst: seq<string>, x: int, y: int)
    requires i + 2 < |lst| && lst[i + 1] == Decimal(x) && lst[i + 2] == Decimal(y)
    ensures ParsePoint(i, lst) == (Some(x), Some(y))
  {
    ParseIntDecimal(x);
    ParseIntDecimal(y);
  }
}
