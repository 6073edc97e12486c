/**
 * `buildHoldings`: the net amount per token from the `groupBy` sums of a user's
 * transfers (IN minus OUT), keeping the tokens that are known and do not net to zero,
 * in order of their first group.
 */
module Holdings {
  import opened Wrappers
  import opened Store

  /** One `groupBy` row: a token, a direction and the summed amount (`None` is SQL NULL). */
  datatype Group = Group(tokenId: string, direction: Direction, sum: Option<real>)

  datatype TokenInfo = TokenInfo(id: string, symbol: string, name: string)

  datatype Holding = Holding(token: TokenInfo, amount: real)

  /** A group that carries an amount; the others are skipped. */
  predicate Counted(g: Group) {
    g.sum.Some?
  }

  /** The group's amount with its sign: IN adds, OUT subtracts. */
  function Signed(g: Group): (v: real)
    requires Counted(g)
    ensures g.direction == In ==> v == g.sum.value
    ensures g.direction == Out ==> v == -g.sum.value
  {
    if g.direction == In then g.sum.value else -g.sum.value
  }

  /** ΣIN − ΣOUT over the counted groups of token `id`. */
  function Net(groups: seq<Group>, id: string): real {
    if groups == [] then 0.0
    else
      var g := groups[|groups| - 1];
      Net(groups[..|groups| - 1], id) + (if Counted(g) && g.tokenId == id then Signed(g) else 0.0)
  }

  /** Some counted group belongs to token `id`. */
  predicate HasAmount(groups: seq<Group>, id: string) {
    exists k | 0 <= k < |groups| :: groups[k].tokenId == id && Counted(groups[k])
  }

  /** The keys of the `totals` Map in insertion order: each token at its first counted group. */
  function TokenOrder(groups: seq<Group>): seq<string> {
    if groups == [] then []
    else
      var order := TokenOrder(groups[..|groups| - 1]);
      var g := groups[|groups| - 1];
      if Counted(g) && g.tokenId !in order then order + [g.tokenId] else order
  }

  /** The finished `totals` Map. */
  function NetTotals(groups: seq<Group>): (totals: map<string, real>)
    ensures totals.Keys == set id | id in TokenOrder(groups)
  {
    map id | id in TokenOrder(groups) :: Net(groups, id)
  }

  /** `new Map(tokens.map(t => [t.id, t]))`: a later token with the same id replaces an earlier one. */
  function TokenMap(tokens: seq<TokenInfo>): (m: map<string, TokenInfo>)
    ensures forall id | id in m :: m[id].id == id && m[id] in tokens
    ensures forall t | t in tokens :: t.id in m
  {
    if tokens == [] then map[]
    else
      var t := tokens[|tokens| - 1];
      TokenMap(tokens[..|tokens| - 1])[t.id := t]
  }

  /** The pipeline after the loop: look each token up, drop the unknown ones and those
      whose amount is zero, in `totals` order. */
  function Pipeline(order: seq<string>, totals: map<string, real>, tokenMap: map<string, TokenInfo>): (r: seq<Holding>)
    requires forall id | id in order :: id in totals
    ensures |r| <= |order|
  {
    if order == [] then []
    else
      var id := order[0];
      (if id in tokenMap && totals[id] != 0.0 then [Holding(tokenMap[id], totals[id])] else [])
      + Pipeline(order[1..], totals, tokenMap)
  }

  /** What `buildHoldings(groups, tokens)` returns. */
  function HoldingsOf(groups: seq<Group>, tokens: seq<TokenInfo>): seq<Holding> {
    Pipeline(TokenOrder(groups), NetTotals(groups), TokenMap(tokens))
  }

  /** The accumulation loop over `groups`, filling `totals`; `order` is its key order. */
  method Totals(groups: seq<Group>) returns (order: seq<string>, totals: map<string, real>)
    ensures order == TokenOrder(groups)
    ensures totals == NetTotals(groups)
  {
    order, totals := [], map[];
    for i := 0 to |groups|
      invariant order == TokenOrder(groups[..i])
      invariant totals.Keys == set id | id in order
      invariant forall id | id in totals :: totals[id] == Net(groups[..i], id)
      invariant forall id | id !in totals :: Net(groups[..i], id) == 0.0
    {
      var g := groups[i];
      assert groups[..i + 1][..i] == groups[..i];
      if g.sum.Some? {
        var signed := if g.direction == In then g.sum.value else -g.sum.value;
        var current := if g.tokenId in totals then totals[g.tokenId] else 0.0;
        if g.tokenId !in totals {
          order := order + [g.tokenId];
        }
        totals := totals[g.tokenId := current + signed];
      }
    }
    assert groups[..|groups|] == groups;
  }

  /** `buildHoldings(groups, tokens)`. */
  method BuildHoldings(groups: seq<Group>, tokens: seq<TokenInfo>) returns (r: seq<Holding>)
    ensures r == HoldingsOf(groups, tokens)
  {
    var tokenMap := TokenMap(tokens);
    var order, totals := Totals(groups);
    r := Pipeline(order, totals, tokenMap);
  }

  // ---- properties ----

  lemma {:induction false} TokenOrderMembers(groups: seq<Group>)
    ensures forall id :: id in TokenOrder(groups) <==> HasAmount(groups, id)
    ensures forall i, j | 0 <= i < j < |TokenOrder(groups)| :: TokenOrder(groups)[i] != TokenOrder(groups)[j]
  {
    if groups != [] {
      var prefix := groups[..|groups| - 1];
      TokenOrderMembers(prefix);
      forall id
        ensures HasAmount(prefix, id) ==> HasAmount(groups, id)
      {
        if HasAmount(prefix, id) {
          var k :| 0 <= k < |prefix| && prefix[k].tokenId == id && Counted(prefix[k]);
          assert groups[k] == prefix[k];
        }
      }
      forall id | HasAmount(groups, id)
        ensures id in TokenOrder(groups)
      {
        var k :| 0 <= k < |groups| && groups[k].tokenId == id && Counted(groups[k]);
        if k < |groups| - 1 {
          assert prefix[k] == groups[k];
        }
      }
    }
  }

  /** Each token comes before the next one in `totals` order: some counted group of the earlier
      token precedes every counted group of the later one. */
  predicate FirstBefore(groups: seq<Group>, a: string, b: string) {
    exists k | 0 <= k < |groups| :: groups[k].tokenId == a && Counted(groups[k])
      && forall m | 0 <= m <= k :: !(groups[m].tokenId == b && Counted(groups[m]))
  }

  lemma {:induction false} TokenOrderFirstOccurrence(groups: seq<Group>)
    ensures forall i, j | 0 <= i < j < |TokenOrder(groups)| ::
      FirstBefore(groups, TokenOrder(groups)[i], TokenOrder(groups)[j])
  {
    if groups != [] {
      var prefix := groups[..|groups| - 1];
      var order := TokenOrder(prefix);
      var g := groups[|groups| - 1];
      TokenOrderFirstOccurrence(prefix);
      TokenOrderMembers(prefix);
      forall i, j | 0 <= i < j < |TokenOrder(groups)|
        ensures FirstBefore(groups, TokenOrder(groups)[i], TokenOrder(groups)[j])
      {
        var a, b := TokenOrder(groups)[i], TokenOrder(groups)[j];
        if j < |order| {
          assert a == order[i] && b == order[j];
          var k :| 0 <= k < |prefix| && prefix[k].tokenId == a && Counted(prefix[k])
            && forall m | 0 <= m <= k :: !(prefix[m].tokenId == b && Counted(prefix[m]));
          assert groups[k] == prefix[k];
          forall m | 0 <= m <= k
            ensures !(groups[m].tokenId == b && Counted(groups[m]))
          {
            assert groups[m] == prefix[m];
          }
        } else {
          assert a == order[i] && b == g.tokenId && b !in order;
          assert HasAmount(prefix, a) && !HasAmount(prefix, b);
          var k :| 0 <= k < |prefix| && prefix[k].tokenId == a && Counted(prefix[k]);
          assert groups[k] == prefix[k];
          forall m | 0 <= m <= k
            ensures !(groups[m].tokenId == b && Counted(groups[m]))
          {
            assert groups[m] == prefix[m];
          }
        }
      }
    }
  }

  /** Each holding is a looked-up token with its non-zero total. */
  lemma {:induction false} PipelineSound(order: seq<string>, totals: map<string, real>, tokenMap: map<string, TokenInfo>)
    requires forall id | id in order :: id in totals
    requires forall id | id in tokenMap :: tokenMap[id].id == id
    ensures forall h | h in Pipeline(order, totals, tokenMap) ::
      && h.token.id in order && h.token.id in tokenMap
      && h.token == tokenMap[h.token.id] && h.amount == totals[h.token.id] && h.amount != 0.0
  {
    if order != [] {
      PipelineSound(order[1..], totals, tokenMap);
      var rest := Pipeline(order[1..], totals, tokenMap);
      var r := Pipeline(order, totals, tokenMap);
      var id := order[0];
      forall x | x in order[1..]
        ensures x in order
      {
        var k :| 0 <= k < |order[1..]| && order[1..][k] == x;
        assert order[k + 1] == x;
      }
      if id in tokenMap && totals[id] != 0.0 {
        assert r == [Holding(tokenMap[id], totals[id])] + rest;
      } else {
        assert r == rest;
      }
    }
  }

  /** Every known token in `order` with a non-zero total yields a holding. */
  lemma {:induction false} PipelineComplete(order: seq<string>, totals: map<string, real>, tokenMap: map<string, TokenInfo>)
    requires forall id | id in order :: id in totals
    requires forall id | id in tokenMap :: tokenMap[id].id == id
    ensures forall id | id in order && id in tokenMap && totals[id] != 0.0 ::
      exists h | h in Pipeline(order, totals, tokenMap) :: h.token.id == id
  {
    if order != [] {
      PipelineComplete(order[1..], totals, tokenMap);
      var rest := Pipeline(order[1..], totals, tokenMap);
      var r := Pipeline(order, totals, tokenMap);
      var first := order[0];
      forall x | x in order && x != first
        ensures x in order[1..]
      {
        var k :| 0 <= k < |order| && order[k] == x;
        assert order[1..][k - 1] == x;
      }
      if first in tokenMap && totals[first] != 0.0 {
        assert r == [Holding(tokenMap[first], totals[first])] + rest;
        assert r[0].token.id == first;
      } else {
        assert r == rest;
      }
    }
  }

  /** Any relation that holds between earlier and later entries of `order` holds between
      earlier and later holdings. */
  lemma {:induction false} PipelineOrder(order: seq<string>, totals: map<string, real>,
                                         tokenMap: map<string, TokenInfo>, before: (string, string) -> bool)
    requires forall id | id in order :: id in totals
    requires forall id | id in tokenMap :: tokenMap[id].id == id
    requires forall i, j | 0 <= i < j < |order| :: before(order[i], order[j])
    ensures forall i, j | 0 <= i < j < |Pipeline(order, totals, tokenMap)| ::
      before(Pipeline(order, totals, tokenMap)[i].token.id, Pipeline(order, totals, tokenMap)[j].token.id)
  {
    if order != [] {
      var rest := Pipeline(order[1..], totals, tokenMap);
      var r := Pipeline(order, totals, tokenMap);
      var first := order[0];
      forall i, j | 0 <= i < j < |order[1..]|
        ensures before(order[1..][i], order[1..][j])
      {
        assert order[1..][i] == order[i + 1] && order[1..][j] == order[j + 1];
      }
      PipelineOrder(order[1..], totals, tokenMap, before);
      if first in tokenMap && totals[first] != 0.0 {
        PipelineSound(order[1..], totals, tokenMap);
        assert r == [Holding(tokenMap[first], totals[first])] + rest;
        forall i, j | 0 <= i < j < |r|
          ensures before(r[i].token.id, r[j].token.id)
        {
          assert r[j] == rest[j - 1];
          if i > 0 {
            assert r[i] == rest[i - 1];
          } else {
            assert rest[j - 1] in rest;
            var k :| 0 <= k < |order[1..]| && order[1..][k] == rest[j - 1].token.id;
            assert before(order[0], order[k + 1]);
          }
        }
      } else {
        assert r == rest;
      }
    }
  }

  /** Every holding is a known token from the list, with its net amount ΣIN − ΣOUT, which is
      not zero; and every known token with a counted group and a non-zero net is there. */
  lemma HoldingsSoundComplete(groups: seq<Group>, tokens: seq<TokenInfo>)
    ensures forall h | h in HoldingsOf(groups, tokens) ::
      h.token in tokens && HasAmount(groups, h.token.id) && h.amount == Net(groups, h.token.id) && h.amount != 0.0
    ensures forall id | HasAmount(groups, id) && id in TokenMap(tokens) && Net(groups, id) != 0.0 ::
      exists h | h in HoldingsOf(groups, tokens) :: h.token.id == id
  {
    var order, totals, tokenMap := TokenOrder(groups), NetTotals(groups), TokenMap(tokens);
    TokenOrderMembers(groups);
    PipelineSound(order, totals, tokenMap);
    PipelineComplete(order, totals, tokenMap);
  }

  /** Each token appears at most once, and holdings follow the order of each token's first
      counted group. */
  lemma HoldingsOrdered(groups: seq<Group>, tokens: seq<TokenInfo>)
    ensures var r := HoldingsOf(groups, tokens);
      forall i, j | 0 <= i < j < |r| ::
        r[i].token.id != r[j].token.id && FirstBefore(groups, r[i].token.id, r[j].token.id)
  {
    var order := TokenOrder(groups);
    TokenOrderMembers(groups);
    TokenOrderFirstOccurrence(groups);
    var before := (a: string, b: string) => a != b && FirstBefore(groups, a, b);
    PipelineOrder(order, NetTotals(groups), TokenMap(tokens), before);
    var r := HoldingsOf(groups, tokens);
    assert r == Pipeline(order, NetTotals(groups), TokenMap(tokens));
    forall i, j | 0 <= i < j < |r|
      ensures r[i].token.id != r[j].token.id && FirstBefore(groups, r[i].token.id, r[j].token.id)
    {
      assert before(r[i].token.id, r[j].token.id);
    }
  }

  /** A token with no counted group nets to zero. */
  lemma {:induction false} NoGroupsNoAmount(groups: seq<Group>, id: string)
    requires !HasAmount(groups, id)
    ensures Net(groups, id) == 0.0
  {
    if groups != [] {
      NoGroupsNoAmount(groups[..|groups| - 1], id);
    }
  }

  /** IN 2 / OUT 1.5 nets to 0.5; IN 5 / OUT 5 nets to zero and is left out. */
  lemma ExampleTotals(g1: Group, g2: Group, g3: Group, g4: Group)
    requires g1 == Group("t1", In, Some(2.0)) && g2 == Group("t1", Out, Some(1.5))
    requires g3 == Group("t2", Out, Some(5.0)) && g4 == Group("t2", In, Some(5.0))
    ensures TokenOrder([g1, g2, g3, g4]) == ["t1", "t2"]
    ensures Net([g1, g2, g3, g4], "t1") == 0.5 && Net([g1, g2, g3, g4], "t2") == 0.0
  {
    assert "t1" != "t2" by { assert "t1"[1] != "t2"[1]; }
    assert [g1, g2, g3, g4][..3] == [g1, g2, g3] && [g1, g2, g3][..2] == [g1, g2]
      && [g1, g2][..1] == [g1] && [g1][..0] == [];
    assert !(Counted(g1) && g1.tokenId == "t2");
    assert Net([], "t2") == 0.0;
    assert Net([g1], "t2") == Net([g1][..0], "t2") + 0.0;
    assert Net([g1], "t1") == 2.0 && Net([g1], "t2") == 0.0;
    assert Net([g1, g2], "t1") == 0.5 && Net([g1, g2], "t2") == 0.0;
    assert Net([g1, g2, g3], "t1") == 0.5 && Net([g1, g2, g3], "t2") == -5.0;
    assert TokenOrder([g1]) == ["t1"] && TokenOrder([g1, g2]) == ["t1"];
    assert TokenOrder([g1, g2, g3]) == ["t1", "t2"];
  }

  method HoldingsExample() {
    var a := TokenInfo("t1", "AAA", "Token A");
    var b := TokenInfo("t2", "BBB", "Token B");
    var g1, g2, g3, g4 := Group("t1", In, Some(2.0)), Group("t1", Out, Some(1.5)),
                          Group("t2", Out, Some(5.0)), Group("t2", In, Some(5.0));
    var groups := [g1, g2, g3, g4];
    ExampleTotals(g1, g2, g3, g4);
    assert [a, b][..1] == [a];
    assert TokenMap([a, b]) == map["t1" := a, "t2" := b];
    var r := BuildHoldings(groups, [a, b]);
    assert ["t1", "t2"][1..] == ["t2"] && ["t2"][1..] == [];
    assert NetTotals(groups) == map["t1" := 0.5, "t2" := 0.0];
    assert Pipeline(["t2"], NetTotals(groups), TokenMap([a, b])) == [];
    assert r == [Holding(a, 0.5)];
  }
}
