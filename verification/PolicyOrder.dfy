/** How generated permits sit beside the hand-written policy. Rules are evaluated first
    match within a zone pair, in index order; generated ones start at a floor. */
module PolicyOrder {
  import opened Options
  import opened Prefixes
  import Sorting

  const RULE_INDEX_FLOOR := 100

  datatype Action = Permit | Deny

  datatype Application = Application(protocol: string, port: Option<nat>)

  datatype Packet = Packet(
    sourceZone: string, destinationZone: string, source: Address, destination: Address, protocol: string, port: nat)

  datatype Rule = Rule(
    index: int, sourceZone: string, destinationZone: string,
    sources: seq<Prefix>, destinations: seq<Prefix>, applications: seq<Application>, action: Action)

  predicate InPair(r: Rule, p: Packet) {
    r.sourceZone == p.sourceZone && r.destinationZone == p.destinationZone
  }

  predicate Matches(r: Rule, p: Packet) {
    && InPair(r, p)
    && (exists i :: 0 <= i < |r.sources| && Holds(r.sources[i], p.source))
    && (exists i :: 0 <= i < |r.destinations| && Holds(r.destinations[i], p.destination))
    && (exists i :: 0 <= i < |r.applications| && r.applications[i].protocol == p.protocol
                    && (r.applications[i].port.None? || r.applications[i].port.value == p.port))
  }

  predicate ByIndex(x: Rule, y: Rule) {
    x.index < y.index
  }

  /** The rules of the packet's zone pair, in the order the policy lists them. */
  function OfPair(rules: seq<Rule>, p: Packet): seq<Rule> {
    if rules == [] then []
    else OfPair(rules[..|rules| - 1], p) + (if InPair(rules[|rules| - 1], p) then [rules[|rules| - 1]] else [])
  }

  function FirstMatch(rules: seq<Rule>, p: Packet): Option<Action> {
    if rules == [] then None
    else if Matches(rules[0], p) then Some(rules[0].action)
    else FirstMatch(rules[1..], p)
  }

  /** What the rendered policy does with a packet; `None` is falling through it. */
  function Verdict(rules: seq<Rule>, p: Packet): Option<Action> {
    FirstMatch(Sorting.Sort(OfPair(rules, p), ByIndex), p)
  }

  predicate Generated(r: Rule) {
    r.index >= RULE_INDEX_FLOOR
  }

  /** The hand-written part, in policy order, and the generated part. */
  function Baseline(rules: seq<Rule>): seq<Rule> {
    if rules == [] then []
    else Baseline(rules[..|rules| - 1]) + (if Generated(rules[|rules| - 1]) then [] else [rules[|rules| - 1]])
  }

  function Grants(rules: seq<Rule>): seq<Rule> {
    if rules == [] then []
    else Grants(rules[..|rules| - 1]) + (if Generated(rules[|rules| - 1]) then [rules[|rules| - 1]] else [])
  }

  lemma {:induction false} GrantsAre(rules: seq<Rule>, r: Rule)
    ensures r in Grants(rules) <==> r in rules && Generated(r)
    ensures r in Baseline(rules) <==> r in rules && !Generated(r)
  {
    if rules != [] {
      GrantsAre(rules[..|rules| - 1], r);
      assert rules == rules[..|rules| - 1] + [rules[|rules| - 1]];
    }
  }

  lemma {:induction false} InsertBelow(low: seq<Rule>, high: seq<Rule>, x: Rule)
    requires forall r :: r in low ==> !Generated(r)
    requires forall r :: r in high ==> Generated(r)
    ensures Sorting.Insert(low + high, x, ByIndex)
            == if Generated(x) then low + Sorting.Insert(high, x, ByIndex) else Sorting.Insert(low, x, ByIndex) + high
  {
    if low != [] {
      var y, rest := low[0], low[1..];
      assert y in low && low == [y] + rest;
      InsertBelow(rest, high, x);
      InsertCons(y, rest, x);
      InsertCons(y, rest + high, x);
      Regroup([y], rest, high);
      Regroup([y], rest, Sorting.Insert(high, x, ByIndex));
      Regroup([y], Sorting.Insert(rest, x, ByIndex), high);
      Regroup([x], low, high);
    } else {
      assert low + high == high;
      if !Generated(x) && high != [] { assert high[0] in high; }
    }
  }

  lemma InsertCons(y: Rule, rest: seq<Rule>, x: Rule)
    ensures Sorting.Insert([y] + rest, x, ByIndex)
            == if ByIndex(x, y) then [x] + ([y] + rest) else [y] + Sorting.Insert(rest, x, ByIndex)
  {
    assert ([y] + rest)[1..] == rest;
  }

  lemma Regroup(a: seq<Rule>, b: seq<Rule>, c: seq<Rule>)
    ensures a + b + c == a + (b + c)
  {
  }

  lemma PartsApart(rules: seq<Rule>)
    ensures forall r :: r in Sorting.Sort(Baseline(rules), ByIndex) ==> !Generated(r)
    ensures forall r :: r in Sorting.Sort(Grants(rules), ByIndex) ==> Generated(r)
  {
    Sorting.SortKeepsElements(Baseline(rules), ByIndex);
    Sorting.SortKeepsElements(Grants(rules), ByIndex);
    forall r ensures r in Baseline(rules) ==> !Generated(r) { GrantsAre(rules, r); }
    forall r ensures r in Grants(rules) ==> Generated(r) { GrantsAre(rules, r); }
  }

  lemma SortSnoc(rules: seq<Rule>, x: Rule)
    ensures Sorting.Sort(rules + [x], ByIndex) == Sorting.Insert(Sorting.Sort(rules, ByIndex), x, ByIndex)
  {
    assert (rules + [x])[..|rules|] == rules;
  }

  /** Rendering puts the whole baseline before every generated rule. */
  lemma {:induction false} RenderSplits(rules: seq<Rule>)
    ensures Sorting.Sort(rules, ByIndex)
            == Sorting.Sort(Baseline(rules), ByIndex) + Sorting.Sort(Grants(rules), ByIndex)
  {
    if rules != [] {
      var front, x := rules[..|rules| - 1], rules[|rules| - 1];
      RenderSplits(front);
      assert rules == front + [x];
      RenderStep(rules, front, x, Baseline(front), Grants(front));
    }
  }

  lemma RenderStep(rules: seq<Rule>, front: seq<Rule>, x: Rule, base: seq<Rule>, grants: seq<Rule>)
    requires rules == front + [x] && base == Baseline(front) && grants == Grants(front)
    requires Sorting.Sort(front, ByIndex) == Sorting.Sort(base, ByIndex) + Sorting.Sort(grants, ByIndex)
    ensures Sorting.Sort(rules, ByIndex) == Sorting.Sort(Baseline(rules), ByIndex) + Sorting.Sort(Grants(rules), ByIndex)
  {
    PartsApart(front);
    InsertBelow(Sorting.Sort(base, ByIndex), Sorting.Sort(grants, ByIndex), x);
    SortSnoc(front, x);
    PartsSnoc(front, x);
    SortSnoc(if Generated(x) then grants else base, x);
  }

  lemma PartsSnoc(front: seq<Rule>, x: Rule)
    ensures Baseline(front + [x]) == if Generated(x) then Baseline(front) else Baseline(front) + [x]
    ensures Grants(front + [x]) == if Generated(x) then Grants(front) + [x] else Grants(front)
  {
    assert (front + [x])[..|front|] == front;
  }

  lemma {:induction false} FirstMatchConcat(low: seq<Rule>, high: seq<Rule>, p: Packet)
    ensures FirstMatch(low + high, p) == if FirstMatch(low, p).Some? then FirstMatch(low, p) else FirstMatch(high, p)
  {
    if low == [] {
      assert low + high == high;
    } else {
      assert (low + high)[1..] == low[1..] + high;
      FirstMatchConcat(low[1..], high, p);
    }
  }

  lemma {:induction false} FirstMatchOfPermits(rules: seq<Rule>, p: Packet)
    requires forall r :: r in rules ==> r.action == Permit
    ensures FirstMatch(rules, p) == if exists r :: r in rules && Matches(r, p) then Some(Permit) else None
  {
    if rules != [] {
      assert rules[0] in rules && forall r :: r in rules <==> r == rules[0] || r in rules[1..];
      FirstMatchOfPermits(rules[1..], p);
    }
  }

  lemma {:induction false} FirstMatchSome(rules: seq<Rule>, p: Packet)
    ensures FirstMatch(rules, p).Some? <==> exists r :: r in rules && Matches(r, p)
  {
    if rules != [] {
      assert rules[0] in rules && forall r :: r in rules <==> r == rules[0] || r in rules[1..];
      FirstMatchSome(rules[1..], p);
    }
  }

  /** Picking a pair commutes with picking the baseline. */
  lemma {:induction false} PairSplits(rules: seq<Rule>, p: Packet)
    ensures Baseline(OfPair(rules, p)) == OfPair(Baseline(rules), p)
  {
    if rules != [] {
      var front, x := rules[..|rules| - 1], rules[|rules| - 1];
      PairSplits(front, p);
      var pair, low := OfPair(front, p), Baseline(front);
      assert (pair + [x])[..|pair|] == pair && (low + [x])[..|low|] == low;
      assert pair + [] == pair && low + [] == low && Baseline(pair) + [] == Baseline(pair);
      assert OfPair(low, p) + [] == OfPair(low, p);
    }
  }

  /** Whatever permits the grants add, and however they collide or are ordered: a packet
      the hand-written policy decides is decided the same way, so no grant gets past an
      anti-spoofing deny; and of the packets that fell through, exactly those some grant
      matches are permitted. */
  lemma GrantsOnlyPermitFallThrough(rules: seq<Rule>, p: Packet)
    requires forall r :: r in rules && Generated(r) ==> r.action == Permit
    ensures Verdict(rules, p) ==
            if Verdict(Baseline(rules), p).Some? then Verdict(Baseline(rules), p)
            else if exists r :: r in rules && Generated(r) && Matches(r, p) then Some(Permit)
            else None
  {
    var pair := OfPair(rules, p);
    var low, high := Sorting.Sort(Baseline(pair), ByIndex), Sorting.Sort(Grants(pair), ByIndex);
    RenderSplits(pair);
    PairSplits(rules, p);
    FirstMatchConcat(low, high, p);
    Sorting.SortKeepsElements(Grants(pair), ByIndex);
    forall r ensures r in high <==> r in rules && Generated(r) && InPair(r, p) {
      OfPairAre(rules, p, r);
      GrantsAre(pair, r);
    }
    FirstMatchOfPermits(high, p);
  }

  /** A hand-written rule that matches is enough for the baseline to decide. */
  lemma BaselineDecides(rules: seq<Rule>, p: Packet)
    ensures Verdict(Baseline(rules), p).Some? <==> exists r :: r in rules && !Generated(r) && Matches(r, p)
  {
    var pair := OfPair(Baseline(rules), p);
    Sorting.SortKeepsElements(pair, ByIndex);
    FirstMatchSome(Sorting.Sort(pair, ByIndex), p);
    forall r ensures r in pair <==> r in rules && !Generated(r) && InPair(r, p) {
      OfPairAre(Baseline(rules), p, r);
      GrantsAre(rules, r);
    }
  }

  lemma {:induction false} OfPairAre(rules: seq<Rule>, p: Packet, r: Rule)
    ensures r in OfPair(rules, p) <==> r in rules && InPair(r, p)
  {
    if rules != [] {
      OfPairAre(rules[..|rules| - 1], p, r);
      assert rules == rules[..|rules| - 1] + [rules[|rules| - 1]];
    }
  }

  /** Two policies with the same hand-written rules and the same set of grants, in any
      order and with any index collisions among the grants, decide every packet alike. */
  lemma GrantOrderIsIrrelevant(rules: seq<Rule>, rules': seq<Rule>, p: Packet)
    requires Baseline(rules) == Baseline(rules')
    requires forall r :: Generated(r) ==> (r in rules <==> r in rules')
    requires forall r :: r in rules && Generated(r) ==> r.action == Permit
    ensures Verdict(rules, p) == Verdict(rules', p)
  {
    GrantsOnlyPermitFallThrough(rules, p);
    GrantsOnlyPermitFallThrough(rules', p);
  }

  // --- What one packet meets -------------------------------------------------------------------

  /** A rule is about a packet when both zones, the source, the destination and one of the
      applications agree; an application without a port is every port of its protocol. */
  lemma MatchesMeans(r: Rule, p: Packet)
    ensures Matches(r, p) <==>
            && r.sourceZone == p.sourceZone && r.destinationZone == p.destinationZone
            && (exists s :: s in r.sources && Holds(s, p.source))
            && (exists d :: d in r.destinations && Holds(d, p.destination))
            && (exists a :: a in r.applications && a.protocol == p.protocol && (a.port == None || a.port == Some(p.port)))
  {
    if Matches(r, p) {
      var i :| 0 <= i < |r.applications| && r.applications[i].protocol == p.protocol
        && (r.applications[i].port.None? || r.applications[i].port.value == p.port);
      assert r.applications[i] in r.applications;
    }
    if a :| a in r.applications && a.protocol == p.protocol && (a.port == None || a.port == Some(p.port)) {
      var i :| 0 <= i < |r.applications| && r.applications[i] == a;
    }
  }

  function FirstRule(rules: seq<Rule>, p: Packet): Option<Rule> {
    if rules == [] then None
    else if Matches(rules[0], p) then Some(rules[0])
    else FirstRule(rules[1..], p)
  }

  lemma {:induction false} FirstRuleDecides(rules: seq<Rule>, p: Packet)
    ensures FirstMatch(rules, p) == match FirstRule(rules, p) case None => None case Some(r) => Some(r.action)
    ensures FirstRule(rules, p).Some? ==> FirstRule(rules, p).value in rules
  {
    if rules != [] { FirstRuleDecides(rules[1..], p); }
  }

  /** A rule put in by index comes first only below the one that came first before. */
  lemma {:induction false} FirstAfterInsert(rules: seq<Rule>, x: Rule, p: Packet)
    requires Sorting.Sorted(rules, ByIndex)
    ensures var was := FirstRule(rules, p);
            FirstRule(Sorting.Insert(rules, x, ByIndex), p)
            == if Matches(x, p) && (was.None? || x.index < was.value.index) then Some(x) else was
  {
    if rules != [] {
      if ByIndex(x, rules[0]) {
        FirstRuleDecides(rules, p);
        assert ([x] + rules)[1..] == rules;
        forall r | r in rules ensures x.index < r.index {
          var k :| 0 <= k < |rules| && rules[k] == r;
          assert k > 0 ==> !ByIndex(rules[k], rules[0]);
        }
      } else {
        FirstAfterInsert(rules[1..], x, p);
        FirstRuleDecides(rules[1..], p);
      }
    }
  }

  /** The matching rule with the least index, and of those the first listed. */
  ghost predicate Decides(rules: seq<Rule>, p: Packet, i: int) {
    && 0 <= i < |rules| && Matches(rules[i], p)
    && forall j :: 0 <= j < |rules| && j != i && Matches(rules[j], p) ==>
         rules[i].index < rules[j].index || (rules[i].index == rules[j].index && i < j)
  }

  lemma {:induction false} FirstIsLeast(rules: seq<Rule>, p: Packet)
    ensures match FirstRule(Sorting.Sort(OfPair(rules, p), ByIndex), p)
            case None => forall i :: 0 <= i < |rules| ==> !Matches(rules[i], p)
            case Some(r) => exists i :: Decides(rules, p, i) && rules[i] == r
  {
    if rules != [] {
      var front, x := rules[..|rules| - 1], rules[|rules| - 1];
      FirstIsLeast(front, p);
      FirstOfMore(rules, front, x, p);
      LeastWithOneMore(rules, front, x, p, FirstRule(Sorting.Sort(OfPair(front, p), ByIndex), p));
    }
  }

  lemma LeastWithOneMore(rules: seq<Rule>, front: seq<Rule>, x: Rule, p: Packet, was: Option<Rule>)
    requires rules == front + [x]
    requires match was
             case None => forall i :: 0 <= i < |front| ==> !Matches(front[i], p)
             case Some(r) => exists i :: Decides(front, p, i) && front[i] == r
    ensures match if Matches(x, p) && (was.None? || x.index < was.value.index) then Some(x) else was
            case None => forall i :: 0 <= i < |rules| ==> !Matches(rules[i], p)
            case Some(r) => exists i :: Decides(rules, p, i) && rules[i] == r
  {
    assert rules[..|rules| - 1] == front && rules[|rules| - 1] == x;
    if was.Some? {
      var i :| Decides(front, p, i) && front[i] == was.value;
      LeastOfMore(rules, p, i);
    } else {
      assert forall i :: 0 <= i < |front| ==> rules[i] == front[i];
      assert Matches(x, p) ==> Decides(rules, p, |front|);
    }
  }

  lemma FirstOfMore(rules: seq<Rule>, front: seq<Rule>, x: Rule, p: Packet)
    requires rules == front + [x]
    ensures var was := FirstRule(Sorting.Sort(OfPair(front, p), ByIndex), p);
            FirstRule(Sorting.Sort(OfPair(rules, p), ByIndex), p)
            == if Matches(x, p) && (was.None? || x.index < was.value.index) then Some(x) else was
  {
    assert rules[..|rules| - 1] == front;
    if InPair(x, p) {
      SortSnoc(OfPair(front, p), x);
      Sorting.SortSorted(OfPair(front, p), ByIndex);
      FirstAfterInsert(Sorting.Sort(OfPair(front, p), ByIndex), x, p);
    } else {
      assert OfPair(rules, p) == OfPair(front, p);
    }
  }

  lemma LeastOfMore(rules: seq<Rule>, p: Packet, i: int)
    requires rules != [] && Decides(rules[..|rules| - 1], p, i)
    ensures var n := |rules| - 1;
            if Matches(rules[n], p) && rules[n].index < rules[i].index then Decides(rules, p, n) else Decides(rules, p, i)
  {
    var n := |rules| - 1;
    assert forall j :: 0 <= j < n ==> rules[..n][j] == rules[j];
  }

  /** The rendered policy decides a packet by the matching rule with the least index, the
      first listed of those that share it; without a matching rule it falls through. */
  lemma VerdictIsLeastIndex(rules: seq<Rule>, p: Packet)
    ensures match Verdict(rules, p)
            case None => forall i :: 0 <= i < |rules| ==> !Matches(rules[i], p)
            case Some(action) => exists i :: Decides(rules, p, i) && rules[i].action == action
  {
    FirstIsLeast(rules, p);
    FirstRuleDecides(Sorting.Sort(OfPair(rules, p), ByIndex), p);
  }

  /** Hand-written rules have indexes below 100, generated ones from 100 up: if one of the
      first matches, the first of them decides; else a packet is permitted exactly when one
      of the second matches. */
  lemma HandWrittenDecidesFirst(rules: seq<Rule>, p: Packet)
    requires forall r :: r in rules && r.index >= 100 ==> r.action == Permit
    ensures Verdict(rules, p).None? <==> forall i :: 0 <= i < |rules| ==> !Matches(rules[i], p)
    ensures (exists r :: r in rules && r.index < 100 && Matches(r, p)) ==>
              exists i :: Decides(rules, p, i) && rules[i].index < 100 && Verdict(rules, p) == Some(rules[i].action)
    ensures (exists r :: r in rules && Matches(r, p)) && (forall r :: r in rules && Matches(r, p) ==> r.index >= 100) ==>
              Verdict(rules, p) == Some(Permit)
  {
    VerdictIsLeastIndex(rules, p);
    if r :| r in rules && Matches(r, p) {
      var k :| 0 <= k < |rules| && rules[k] == r;
      var i :| Decides(rules, p, i) && Verdict(rules, p) == Some(rules[i].action);
      assert rules[i] in rules && rules[i].index <= r.index;
    }
  }
}
