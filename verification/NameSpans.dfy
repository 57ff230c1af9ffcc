/** Greedy selection of name matches: the longest first, then the leftmost, skipping whatever
    overlaps. */
module NameSpans {
  import opened Sequences
  import opened StableSort

  datatype Match = Match(start: nat, end: nat, employee: string)

  function Length(m: Match): int {
    m.end - m.start
  }

  /** Longer first, then further left. */
  predicate Before(a: Match, b: Match) {
    Length(a) > Length(b) || (Length(a) == Length(b) && a.start < b.start)
  }

  predicate Overlaps(a: Match, b: Match) {
    a.start < b.end && a.end > b.start
  }

  predicate SameSpan(a: Match, b: Match) {
    a.start == b.start && a.end == b.end
  }

  lemma BeforeIsAnOrder()
    ensures StrictWeakOrder(Before)
  {
  }

  ghost predicate Disjoint(accepted: seq<Match>) {
    forall i, j | 0 <= i < j < |accepted| :: !Overlaps(accepted[i], accepted[j])
  }

  /** A match is accepted, or overlaps an accepted one that does not come after it: a longer one, or
      one as long and no further right. */
  ghost predicate Covered(m: Match, accepted: seq<Match>) {
    m in accepted || exists a :: a in accepted && Overlaps(m, a) && !Before(m, a)
  }

  /** What the selection promises: disjoint matches that cover all the others. */
  ghost predicate Selection(matches: seq<Match>, accepted: seq<Match>) {
    && Disjoint(accepted)
    && (forall a | a in accepted :: a in matches)
    && (forall m | m in matches :: Covered(m, accepted))
  }

  predicate Blocked(m: Match, accepted: seq<Match>) {
    exists k :: 0 <= k < |accepted| && Overlaps(m, accepted[k])
  }

  /** The greedy walk over ordered matches. */
  function Greedy(ordered: seq<Match>): seq<Match> {
    if ordered == [] then []
    else
      var accepted, last := Greedy(ordered[..|ordered| - 1]), ordered[|ordered| - 1];
      if Blocked(last, accepted) then accepted else accepted + [last]
  }

  function Select(matches: seq<Match>): seq<Match> {
    Greedy(Sorted(matches, Before))
  }

  /** The employees of some accepted matches. */
  function Employees(accepted: seq<Match>): (named: set<string>)
    ensures forall e :: e in named <==> exists a :: a in accepted && a.employee == e
  {
    set a | a in accepted :: a.employee
  }

  lemma AcceptOne(done: seq<Match>, accepted: seq<Match>, m: Match)
    requires Selection(done, accepted) && !Blocked(m, accepted)
    ensures Selection(done + [m], accepted + [m])
    ensures Employees(accepted + [m]) == Employees(accepted) + {m.employee}
  {
  }

  lemma SkipOne(done: seq<Match>, accepted: seq<Match>, m: Match)
    requires Selection(done, accepted) && Blocked(m, accepted)
    requires forall d | d in done :: !Before(m, d)
    ensures Selection(done + [m], accepted)
  {
    var k :| 0 <= k < |accepted| && Overlaps(m, accepted[k]);
    assert accepted[k] in accepted;
  }

  /** The walk over ordered matches makes a selection. */
  lemma {:induction false} GreedySelects(ordered: seq<Match>)
    requires Ordered(ordered, Before)
    ensures Selection(ordered, Greedy(ordered))
  {
    if ordered == [] {
    } else {
      var shorter, last := ordered[..|ordered| - 1], ordered[|ordered| - 1];
      InitAndLast(ordered);
      GreedySelects(shorter);
      if Blocked(last, Greedy(shorter)) {
        SkipOne(shorter, Greedy(shorter), last);
      } else {
        AcceptOne(shorter, Greedy(shorter), last);
      }
    }
  }

  lemma SelectSelects(matches: seq<Match>)
    ensures Selection(matches, Select(matches))
  {
    BeforeIsAnOrder();
    SortedIsSorted(matches, Before);
    GreedySelects(Sorted(matches, Before));
    SameElements(Sorted(matches, Before), matches);
  }

  lemma SameElements(a: seq<Match>, b: seq<Match>)
    requires multiset(a) == multiset(b)
    ensures forall m :: m in a <==> m in b
  {
    forall m
      ensures m in a <==> m in b
    {
      assert m in a <==> m in multiset(a);
      assert m in b <==> m in multiset(b);
    }
  }

  /** The loop of `_named_employees`: the accepted spans are the selection, in its order, and exactly
      their employees join the ones named directly. */
  method AcceptSpans(matches: seq<Match>, directly: set<string>) returns (accepted: seq<Match>, named: set<string>)
    ensures accepted == Select(matches) && Selection(matches, accepted)
    ensures named == directly + Employees(accepted)
  {
    var ordered := Sorted(matches, Before);
    accepted, named := [], directly;
    for i := 0 to |ordered|
      invariant accepted == Greedy(ordered[..i])
      invariant named == directly + Employees(accepted)
    {
      var m := ordered[i];
      TakeTake(ordered, i);
      if !(exists k :: 0 <= k < |accepted| && Overlaps(m, accepted[k])) {
        accepted := accepted + [m];
        named := named + {m.employee};
      }
    }
    assert ordered[..|ordered|] == ordered;
    SelectSelects(matches);
  }

  /** Nothing further could be added: any match outside the accepted ones overlaps one of them. */
  lemma SelectionIsMaximal(matches: seq<Match>, accepted: seq<Match>, m: Match)
    requires Selection(matches, accepted) && m in matches && m !in accepted
    ensures !Disjoint(accepted + [m])
  {
    var a :| a in accepted && Overlaps(m, a) && !Before(m, a);
    var i :| 0 <= i < |accepted| && accepted[i] == a;
    var longer := accepted + [m];
    assert longer[i] == a && longer[|accepted|] == m && Overlaps(longer[i], longer[|accepted|]);
  }

  predicate Covers(m: Match, position: int) {
    m.start <= position < m.end
  }

  ghost predicate ShareAPosition(a: Match, b: Match) {
    exists position :: Covers(a, position) && Covers(b, position)
  }

  lemma OverlapsExactly(a: Match, b: Match)
    requires a.start < a.end && b.start < b.end
    ensures Overlaps(a, b) <==> ShareAPosition(a, b)
  {
    var p := if a.start < b.start then b.start else a.start;
    assert Overlaps(a, b) ==> Covers(a, p) && Covers(b, p);
  }

  /** Accepted matches share no position, and a match is left out only for an accepted one that shares
      a position with it and is longer, or as long and no further right. */
  lemma LeftOutForLonger(matches: seq<Match>, m: Match)
    requires forall x | x in matches :: x.start < x.end
    requires m in matches
    ensures forall a | a in Select(matches) && a != m && m in Select(matches) :: !ShareAPosition(a, m)
    ensures m !in Select(matches) ==>
      exists a :: a in Select(matches) && a in matches && ShareAPosition(a, m)
               && (|| a.end - a.start > m.end - m.start
                   || (a.end - a.start == m.end - m.start && a.start <= m.start))
  {
    SelectSelects(matches);
    var accepted := Select(matches);
    forall a | a in accepted
      ensures Overlaps(a, m) <==> ShareAPosition(a, m)
      ensures Overlaps(m, a) <==> Overlaps(a, m)
    {
      assert a in matches;
      OverlapsExactly(a, m);
    }
    if m in accepted {
      forall a | a in accepted && a != m
        ensures !Overlaps(a, m)
      {
        DisjointIsApart(accepted, a, m);
      }
    }
  }

  // ----- the selection is unique

  /** No accepted match shares its span with another one. */
  ghost predicate Unshared(matches: seq<Match>, accepted: seq<Match>) {
    forall a, b | a in accepted && b in matches && SameSpan(a, b) && a.start < a.end :: a == b
  }

  lemma DisjointIsApart(accepted: seq<Match>, a: Match, b: Match)
    requires Disjoint(accepted) && a in accepted && b in accepted && a != b
    ensures !Overlaps(a, b)
  {
    var i :| 0 <= i < |accepted| && accepted[i] == a;
    var j :| 0 <= j < |accepted| && accepted[j] == b;
    assert i < j || j < i;
  }

  /** What keeps a match of one selection out of another comes strictly before it. */
  lemma KeptOutByEarlier(matches: seq<Match>, a: seq<Match>, b: seq<Match>, m: Match) returns (x: Match)
    requires Selection(matches, a) && Selection(matches, b)
    requires Unshared(matches, a) || Unshared(matches, b)
    requires m in a && m !in b
    ensures x in b && x in matches && x != m && Overlaps(m, x) && Before(x, m)
  {
    assert m in matches && Covered(m, b);
    x :| x in b && Overlaps(m, x) && !Before(m, x);
    assert x in matches;
    if !Before(x, m) { TiesShareSpans(m, x); }
  }

  lemma TiesShareSpans(a: Match, b: Match)
    requires !Before(a, b) && !Before(b, a) && Overlaps(a, b)
    ensures SameSpan(a, b) && SameSpan(b, a) && a.start < a.end
  {
  }

  lemma {:induction false} SelectedByBoth(matches: seq<Match>, a: seq<Match>, b: seq<Match>, m: Match, longest: int)
    requires Selection(matches, a) && Selection(matches, b)
    requires Unshared(matches, a) || Unshared(matches, b)
    requires forall x | x in matches :: Length(x) <= longest
    requires m in a
    ensures m in b
    decreases longest - Length(m), m.start
  {
    if m !in b {
      var x := KeptOutByEarlier(matches, a, b, m);
      SelectedByBoth(matches, b, a, x, longest);
      DisjointIsApart(a, m, x);
    }
  }

  function Longest(matches: seq<Match>): (longest: int)
    ensures forall x | x in matches :: Length(x) <= longest
  {
    if matches == [] then 0
    else
      var rest := Longest(matches[1..]);
      assert matches == [matches[0]] + matches[1..];
      if Length(matches[0]) > rest then Length(matches[0]) else rest
  }

  /** If no accepted match shares its span, there is no other selection. */
  lemma SelectionIsUnique(matches: seq<Match>, a: seq<Match>, b: seq<Match>)
    requires Selection(matches, a) && Selection(matches, b) && Unshared(matches, a)
    ensures forall m :: m in a <==> m in b
  {
    forall m
      ensures m in a <==> m in b
    {
      if m in a { SelectedByBoth(matches, a, b, m, Longest(matches)); }
      if m in b { SelectedByBoth(matches, b, a, m, Longest(matches)); }
    }
  }

  // ----- a shared span

  /** The matches with the span of `m`, in their order. */
  function WithSpan(matches: seq<Match>, m: Match): seq<Match> {
    Filter(matches, x => SameSpan(x, m))
  }

  /** Of the matches that share a span only the first is ever accepted. */
  lemma {:induction false} GreedyTakesTheFirst(ordered: seq<Match>, m: Match)
    requires Ordered(ordered, Before) && m.start < m.end
    ensures forall a | a in Greedy(ordered) && SameSpan(a, m) ::
      WithSpan(ordered, m) != [] && WithSpan(ordered, m)[0] == a
  {
    if ordered == [] {
    } else {
      var shorter, last := ordered[..|ordered| - 1], ordered[|ordered| - 1];
      InitAndLast(ordered);
      GreedyTakesTheFirst(shorter, m);
      GreedySelects(shorter);
      FilterAppend(shorter, last, x => SameSpan(x, m));
      if SameSpan(last, m) && WithSpan(shorter, m) != [] {
        FirstBlocksTheRest(shorter, WithSpan(shorter, m)[0], last);
      }
    }
  }

  lemma FirstBlocksTheRest(done: seq<Match>, first: Match, m: Match)
    requires Selection(done, Greedy(done)) && first in done && SameSpan(first, m) && m.start < m.end
    ensures Blocked(m, Greedy(done))
  {
    var accepted := Greedy(done);
    var a :| a in accepted && Overlaps(m, a);
    var k :| 0 <= k < |accepted| && accepted[k] == a;
  }

  /** When two employees share a name, their matches share spans, and of each span only the match
      that comes first in the input can be accepted: the other employees are not named by it. */
  lemma SharedNameGoesToTheFirst(matches: seq<Match>, m: Match)
    requires m.start < m.end
    ensures forall a | a in Select(matches) && SameSpan(a, m) ::
      WithSpan(matches, m) != [] && WithSpan(matches, m)[0] == a
  {
    BeforeIsAnOrder();
    SortedIsSorted(matches, Before);
    SortedIsStable(matches, Before, x => SameSpan(x, m));
    GreedyTakesTheFirst(Sorted(matches, Before), m);
  }

  /** So the order of the input decides between two employees of one name. */
  lemma SharedNameDependsOnOrder(start: nat, end: nat, x: string, y: string)
    requires start < end && x != y
    ensures Employees(Select([Match(start, end, x), Match(start, end, y)])) == {x}
    ensures Employees(Select([Match(start, end, y), Match(start, end, x)])) == {y}
  {
    OnlyTheFirst(Match(start, end, x), Match(start, end, y));
    OnlyTheFirst(Match(start, end, y), Match(start, end, x));
  }

  lemma OnlyTheFirst(a: Match, b: Match)
    requires SameSpan(a, b) && a.start < a.end
    ensures Employees(Select([a, b])) == {a.employee}
  {
    assert [a, b][1..] == [b] && [b][1..] == [];
    assert Sorted([b], Before) == [b];
    assert Sorted([a, b], Before) == [a, b];
    assert [a, b][..1] == [a] && [a][..0] == [];
    assert Greedy([a]) == [a];
    assert Blocked(b, [a]) by { assert Overlaps(b, [a][0]); }
    assert Greedy([a, b]) == [a];
  }

  /** Whatever the order of the input, the same matches are accepted. */
  ghost predicate OrderFree(matches: seq<Match>) {
    forall reordered: seq<Match> | multiset(reordered) == multiset(matches) ::
      forall m :: m in Select(reordered) <==> m in Select(matches)
  }

  lemma MovedToFront(matches: seq<Match>, b: Match) returns (reordered: seq<Match>)
    requires b in matches
    ensures multiset(reordered) == multiset(matches) && reordered != [] && reordered[0] == b
  {
    var i :| 0 <= i < |matches| && matches[i] == b;
    reordered := [b] + matches[..i] + matches[i + 1..];
    assert matches == matches[..i] + [b] + matches[i + 1..];
  }

  /** The accepted matches do not depend on the order of the input if and only if none of them shares
      its span with another match, as two employees of one name do. */
  lemma OrderDecidesExactlySharedSpans(matches: seq<Match>)
    ensures OrderFree(matches) <==> Unshared(matches, Select(matches))
  {
    SelectSelects(matches);
    if Unshared(matches, Select(matches)) {
      forall reordered: seq<Match> | multiset(reordered) == multiset(matches)
        ensures forall m :: m in Select(reordered) <==> m in Select(matches)
      {
        SelectSelects(reordered);
        SameElements(matches, reordered);
        SelectionIsUnique(matches, Select(matches), Select(reordered));
      }
    } else {
      var a, b :| a in Select(matches) && b in matches && SameSpan(a, b) && a.start < a.end && a != b;
      var reordered := MovedToFront(matches, b);
      SharedNameGoesToTheFirst(reordered, b);
      assert a !in Select(reordered);
    }
  }

  // ----- the employees named

  /** The employees named, directly or by an accepted span, in the order they were given. */
  method NamedEmployees(employees: seq<string>, matches: seq<Match>, directly: set<string>)
    returns (selected: seq<string>, accepted: seq<Match>)
    ensures accepted == Select(matches) && Selection(matches, accepted)
    ensures selected == Filter(employees, e => e in directly + Employees(accepted))
  {
    var named;
    accepted, named := AcceptSpans(matches, directly);
    selected := [];
    ghost var keep := e => e in directly + Employees(accepted);
    for i := 0 to |employees|
      invariant selected == Filter(employees[..i], keep)
    {
      assert employees[..i + 1] == employees[..i] + [employees[i]];
      FilterAppend(employees[..i], employees[i], keep);
      if employees[i] in named {
        selected := selected + [employees[i]];
      }
    }
    assert employees[..|employees|] == employees;
  }
}
