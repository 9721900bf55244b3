// The challenge of the recovery words: three positions drawn without bias.
module ChallengePositions {
  import opened Common

  // A draw is one 32-bit number.
  const DRAWS: nat := 0x1_0000_0000

  // Draws at or above the limit are thrown away.
  function Limit(words: nat): nat {
    if words == 0 then 0 else DRAWS / words * words
  }

  predicate Accepted(words: nat, draw: nat) {
    draw < Limit(words)
  }

  function Position(words: nat, draw: nat): int {
    if words == 0 then 0 else draw % words + 1
  }

  // ------------------------------------------------------------------ exact uniformity

  // The draws below m * words that give position p.
  function DrawsBelow(words: nat, m: nat, p: nat): set<nat> {
    set d: nat | d < m * words && Position(words, d) == p
  }

  lemma OneMore(a: int, n: int)
    ensures (a + 1) * n == a * n + n
  {
  }

  lemma {:induction false} Multiple(a: nat, n: nat)
    requires a > 0
    ensures a * n >= n
  {
    if a > 1 {
      Multiple(a - 1, n);
      OneMore(a - 1, n);
    }
  }

  lemma Distribute(a: int, b: int, n: int)
    ensures (a + b) * n == a * n + b * n
  {
  }

  lemma SameQuotient(n: nat, q: nat, s: nat, m: nat, r: nat)
    requires q * n + s == m * n + r && s < n && r < n
    ensures q == m && s == r
  {
    if q > m {
      Multiple(q - m, n);
      Distribute(q - m, m, n);
    } else if q < m {
      Multiple(m - q, n);
      Distribute(m - q, q, n);
    }
  }

  // The m-th block of draws gives each position once.
  lemma PositionInBlock(words: nat, m: nat, r: nat)
    requires r < words
    ensures m * words + r >= 0 && Position(words, m * words + r) == r + 1
  {
    var d: nat := m * words + r;
    DivMod(d, words);
    SameQuotient(words, d / words, d % words, m, r);
  }

  lemma DivMod(d: nat, n: nat)
    requires n > 0
    ensures d == d / n * n + d % n && 0 <= d % n < n && d / n >= 0
  {
  }

  lemma {:induction false} EachBlockOnce(words: nat, m: nat, p: nat)
    requires 1 <= p <= words
    ensures |DrawsBelow(words, m, p)| == m
  {
    hide Position;
    if m == 0 {
      assert DrawsBelow(words, 0, p) == {};
    } else {
      EachBlockOnce(words, m - 1, p);
      var start: nat := (m - 1) * words;
      OneMore(m - 1, words);
      forall d: nat | start <= d < start + words ensures Position(words, d) == d - start + 1 {
        PositionInBlock(words, m - 1, d - start);
      }
      BlockAddsOne(words, m, p, start);
    }
  }

  lemma BlockAddsOne(words: nat, m: nat, p: nat, start: nat)
    requires m > 0 && 1 <= p <= words && start == (m - 1) * words && m * words == start + words
    requires forall d: nat :: start <= d < start + words ==> Position(words, d) == d - start + 1
    requires |DrawsBelow(words, m - 1, p)| == m - 1
    ensures |DrawsBelow(words, m, p)| == m
  {
    hide Position;
    var last: nat := start + (p - 1);
    var end := start + words;
    var before, after := DrawsBelow(words, m - 1, p), DrawsBelow(words, m, p);
    assert after == set d: nat | d < end && Position(words, d) == p;
    assert before == set d: nat | d < start && Position(words, d) == p;
    assert Position(words, last) == p;
    assert after == before + {last};
  }

  // Every position has exactly the same number of accepted draws, and each accepted draw gives one.
  lemma PositionsAreUniform(words: nat, p: nat)
    requires 1 <= words <= DRAWS && 1 <= p <= words
    ensures |(set d: nat | d < DRAWS && Accepted(words, d) && Position(words, d) == p)| == DRAWS / words
    ensures forall d: nat :: Accepted(words, d) ==>
      d < DRAWS && 1 <= Position(words, d) <= words && d / words * words + Position(words, d) - 1 == d
    ensures DRAWS - Limit(words) < words
  {
    var m := DRAWS / words;
    DivMod(DRAWS, words);
    forall d: nat | Accepted(words, d) ensures d / words * words + Position(words, d) - 1 == d { DivMod(d, words); }
    EachBlockOnce(words, m, p);
    assert (set d: nat | d < DRAWS && Accepted(words, d) && Position(words, d) == p) == DrawsBelow(words, m, p);
  }

  // ------------------------------------------------------------------ the loop

  predicate Ascending(s: seq<int>) {
    forall i, j :: 0 <= i < j < |s| ==> s[i] < s[j]
  }

  // Three different positions of a phrase of that many words, in order.
  predicate IsChallenge(positions: seq<int>, words: nat) {
    |positions| == 3 && Ascending(positions) && forall i :: 0 <= i < 3 ==> 1 <= positions[i] <= words
  }

  // The positions that the accepted draws give.
  function Collected(words: nat, draws: seq<nat>): set<int> {
    set i | 0 <= i < |draws| && Accepted(words, draws[i]) :: Position(words, draws[i])
  }

  // `[...positions].sort((a, b) => a - b)`: x goes before the first larger number.
  function InsertAscending(x: int, sorted: seq<int>): (r: seq<int>)
    requires Ascending(sorted) && x !in sorted
    ensures Ascending(r) && |r| == |sorted| + 1 && SetOf(r) == SetOf(sorted) + {x}
  {
    if sorted == [] || x < sorted[0] then
      assert SetOf([x] + sorted) == {x} + SetOf(sorted);
      [x] + sorted
    else
      var rest := InsertAscending(x, sorted[1..]);
      InsertedAfter(x, sorted, rest);
      [sorted[0]] + rest
  }

  lemma InsertedAfter(x: int, sorted: seq<int>, rest: seq<int>)
    requires sorted != [] && Ascending(sorted) && sorted[0] < x
    requires Ascending(rest) && SetOf(rest) == SetOf(sorted[1..]) + {x}
    ensures Ascending([sorted[0]] + rest) && SetOf([sorted[0]] + rest) == SetOf(sorted) + {x}
  {
    forall i | 0 <= i < |rest| ensures sorted[0] < rest[i] {
      assert rest[i] in SetOf(rest);
      if rest[i] != x { var j :| 0 <= j < |sorted[1..]| && sorted[1..][j] == rest[i]; }
    }
    assert sorted == [sorted[0]] + sorted[1..];
    assert SetOf(sorted) == {sorted[0]} + SetOf(sorted[1..]);
    assert SetOf([sorted[0]] + rest) == {sorted[0]} + SetOf(rest);
  }

  // What the loop knows after k draws.
  ghost predicate Drawn(words: nat, draws: seq<nat>, k: nat, positions: seq<int>) {
    && k <= |draws| && |positions| <= 3 && Ascending(positions)
    && SetOf(positions) == Collected(words, draws[..k])
    && (forall i :: 0 <= i < |positions| ==> 1 <= positions[i] <= words)
    && (|positions| == 3 ==> k > 0 && |Collected(words, draws[..k - 1])| == 2)
  }

  // The positions of the shortest prefix of the draws that gives three different ones.
  ghost predicate FirstThree(words: nat, draws: seq<nat>, positions: seq<int>) {
    exists k ::
      && 0 < k <= |draws| && SetOf(positions) == Collected(words, draws[..k])
      && |Collected(words, draws[..k - 1])| == 2
  }

  // Draws until three different positions are found; None when the given draws run out first.
  method DrawPositions(words: nat, draws: seq<nat>) returns (r: Option<seq<int>>)
    ensures r.Some? <==> |Collected(words, draws)| >= 3
    ensures r.Some? ==> IsChallenge(r.value, words) && FirstThree(words, draws, r.value)
  {
    hide Accepted, Position, Collected, Ascending;
    var positions: seq<int> := [];
    var k := 0;
    NothingDrawn(words, draws);
    while |positions| < 3
      invariant Drawn(words, draws, k, positions)
      decreases |draws| - k
    {
      if k == |draws| {
        assert draws[..k] == draws;
        AscendingIsDistinct(positions);
        return None;
      }
      if Accepted(words, draws[k]) && Position(words, draws[k]) !in positions {
        var more := InsertAscending(Position(words, draws[k]), positions);
        DrawnAdded(words, draws, k, positions, more);
        positions := more;
      } else {
        DrawnKept(words, draws, k, positions);
      }
      k := k + 1;
    }
    AscendingIsDistinct(positions);
    CollectedGrows(words, draws, k);
    r := Some(positions);
  }

  lemma NothingDrawn(words: nat, draws: seq<nat>)
    ensures Drawn(words, draws, 0, [])
  {
    assert Collected(words, draws[..0]) == {};
    assert SetOf<int>([]) == {};
  }

  lemma AscendingIsDistinct(s: seq<int>)
    requires Ascending(s)
    ensures |SetOf(s)| == |s|
  {
    SetSizeDecidesDistinct(s);
  }

  lemma DrawnKept(words: nat, draws: seq<nat>, k: nat, positions: seq<int>)
    requires Drawn(words, draws, k, positions) && k < |draws| && |positions| < 3
    requires Accepted(words, draws[k]) ==> Position(words, draws[k]) in positions
    ensures Drawn(words, draws, k + 1, positions)
  {
    CollectOne(words, draws, k);
    hide Accepted, Position, Collected, Ascending;
    if Accepted(words, draws[k]) {
      assert SetOf(positions) + {Position(words, draws[k])} == SetOf(positions);
    } else {
      assert SetOf(positions) + {} == SetOf(positions);
    }
  }

  lemma DrawnAdded(words: nat, draws: seq<nat>, k: nat, positions: seq<int>, more: seq<int>)
    requires Drawn(words, draws, k, positions) && k < |draws| && |positions| < 3 && Accepted(words, draws[k])
    requires Ascending(more) && |more| == |positions| + 1 && SetOf(more) == SetOf(positions) + {Position(words, draws[k])}
    ensures Drawn(words, draws, k + 1, more)
  {
    CollectOne(words, draws, k);
    PositionInRange(words, draws[k]);
    hide Accepted, Position, Collected, Ascending;
    AscendingIsDistinct(positions);
    assert draws[..k + 1 - 1] == draws[..k];
    forall i | 0 <= i < |more| ensures 1 <= more[i] <= words {
      assert more[i] in SetOf(more);
      if more[i] != Position(words, draws[k]) { assert more[i] in positions; }
    }
  }

  lemma PositionInRange(words: nat, draw: nat)
    requires Accepted(words, draw)
    ensures 1 <= Position(words, draw) <= words
  {
  }

  lemma CollectOne(words: nat, draws: seq<nat>, k: nat)
    requires k < |draws|
    ensures Collected(words, draws[..k + 1]) ==
      Collected(words, draws[..k]) + if Accepted(words, draws[k]) then {Position(words, draws[k])} else {}
  {
    hide Accepted, Position;
    var longer, shorter := draws[..k + 1], draws[..k];
    assert forall i :: 0 <= i < k ==> longer[i] == shorter[i];
    forall x | x in Collected(words, shorter) ensures x in Collected(words, longer) {
      var i :| 0 <= i < k && Accepted(words, shorter[i]) && Position(words, shorter[i]) == x;
      assert longer[i] == shorter[i];
    }
    assert longer[k] == draws[k];
    assert Accepted(words, longer[k]) ==> Position(words, longer[k]) in Collected(words, longer);
    forall x | x in Collected(words, longer)
      ensures x in Collected(words, shorter) || (Accepted(words, draws[k]) && x == Position(words, draws[k]))
    {
      var i :| 0 <= i <= k && Accepted(words, longer[i]) && Position(words, longer[i]) == x;
      if i < k { assert shorter[i] == longer[i]; }
    }
  }

  lemma CollectedGrows(words: nat, draws: seq<nat>, k: nat)
    requires k <= |draws|
    ensures |Collected(words, draws[..k])| <= |Collected(words, draws)|
  {
    hide Accepted, Position;
    var a, b := Collected(words, draws[..k]), Collected(words, draws);
    forall x | x in a ensures x in b {
      var i :| 0 <= i < k && Accepted(words, draws[..k][i]) && Position(words, draws[..k][i]) == x;
      assert draws[i] == draws[..k][i];
    }
    SubsetSize(a, b);
  }
}
