/** The safe dial of day01/part2.py: a dial of 100 positions starting at 50, turned one
    click at a time by each line of the input, counting every click that lands on 0. */
module Dial {

  /** One input line: its first character and the number after it. */
  datatype Move = Move(first: char, amount: int)

  /** The dial position and how many clicks so far landed on 0. */
  datatype State = State(position: int, zeros: nat)

  const Start: State := State(50, 0)

  predicate InRange(position: int) {
    0 <= position < 100
  }

  /** `L` turns the dial down, any other first character turns it up. */
  function Direction(first: char): (dir: int)
    ensures dir == -1 <==> first == 'L'
    ensures dir == 1 <==> first != 'L'
  {
    if first == 'L' then -1 else 1
  }

  /** `range(amount)` is empty for an amount below one. */
  function Clicks(amount: int): (n: nat)
    ensures amount >= 0 ==> n == amount
    ensures amount < 0 ==> n == 0
  {
    if amount < 0 then 0 else amount
  }

  /** `(dial + dir + 100) % 100`; the left operand is never negative here, so Python's
      floored `%` and Dafny's agree. */
  function ClickPosition(position: int, dir: int): int {
    (position + dir + 100) % 100
  }

  /** One click and its count. */
  function Click(s: State, dir: int): State {
    var p := ClickPosition(s.position, dir);
    State(p, if p == 0 then s.zeros + 1 else s.zeros)
  }

  /** `n` clicks in direction `dir`. */
  function Turn(s: State, dir: int, n: nat): State {
    if n == 0 then s else Click(Turn(s, dir, n - 1), dir)
  }

  /** One input line. */
  function Apply(s: State, m: Move): State {
    Turn(s, Direction(m.first), Clicks(m.amount))
  }

  /** The input lines from `i` on. */
  function ApplyAll(s: State, moves: seq<Move>): State
    decreases |moves|
  {
    if moves == [] then s else ApplyAll(Apply(s, moves[0]), moves[1..])
  }

  /** The lines up to `i`, applied from the left. */
  function ApplyPrefix(s: State, moves: seq<Move>, i: nat): State
    requires i <= |moves|
  {
    if i == 0 then s else Apply(ApplyPrefix(s, moves, i - 1), moves[i - 1])
  }

  /** The script: every line in turn, every click of it. It returns the final position and
      the count the script prints. */
  method Solve(moves: seq<Move>) returns (dial: int, zeroCount: nat)
    ensures State(dial, zeroCount) == ApplyPrefix(Start, moves, |moves|)
  {
    dial, zeroCount := 50, 0;
    for i := 0 to |moves|
      invariant State(dial, zeroCount) == ApplyPrefix(Start, moves, i)
    {
      var dir := if moves[i].first == 'L' then -1 else 1;
      var amount := moves[i].amount;
      ghost var before := State(dial, zeroCount);
      var k := 0;
      while k < amount
        invariant 0 <= k <= Clicks(amount)
        invariant State(dial, zeroCount) == Turn(before, dir, k)
        decreases amount - k
      {
        dial := (dial + dir + 100) % 100;
        if dial == 0 {
          zeroCount := zeroCount + 1;
        }
        k := k + 1;
      }
      assert k == Clicks(amount);
    }
  }

  // ---------------------------------------------------------------- properties

  /** A click moves the dial exactly one position up or down, modulo 100, and keeps it in
      `0..99`. */
  lemma ClickMoves(position: int, dir: int)
    requires InRange(position) && (dir == 1 || dir == -1)
    ensures InRange(ClickPosition(position, dir))
    ensures ClickPosition(position, dir) == (position + dir) % 100
    ensures dir == 1 ==> ClickPosition(position, dir) == if position == 99 then 0 else position + 1
    ensures dir == -1 ==> ClickPosition(position, dir) == if position == 0 then 99 else position - 1
  {
  }

  /** After `n` clicks from `p` the dial is at `p + dir * n` modulo 100, and it stays in
      `0..99`. */
  lemma {:induction false} TurnPosition(s: State, dir: int, n: nat)
    requires dir == 1 || dir == -1
    ensures Turn(s, dir, n).position == (if n == 0 then s.position else (s.position + dir * n) % 100)
    ensures n > 0 ==> InRange(Turn(s, dir, n).position)
  {
    if n > 0 {
      TurnPosition(s, dir, n - 1);
      var x := s.position + dir * (n - 1);
      assert s.position + dir * n == x + dir;
      ModStep(x, dir);
    }
  }

  /** Reducing before a step changes nothing modulo 100. */
  lemma ModStep(x: int, dir: int)
    ensures (x % 100 + dir + 100) % 100 == (x + dir) % 100
    ensures (x + dir + 100) % 100 == (x + dir) % 100
  {
    var q := x / 100;
    assert x == 100 * q + x % 100;
    assert x % 100 + dir + 100 == (x + dir) - 100 * q + 100;
    ShiftMod(x + dir, 1 - q);
  }

  lemma ShiftMod(y: int, c: int)
    ensures (y + 100 * c) % 100 == y % 100
  {
  }

  /** The clicks among the first `n` that land on 0. */
  function Hits(p: int, dir: int, n: nat): set<nat> {
    set k: nat | 1 <= k <= n && (p + dir * k) % 100 == 0
  }

  /** The hits among `n` clicks are those among `n - 1` and, when it lands on 0, the last. */
  lemma HitsStep(p: int, dir: int, n: nat)
    requires n > 0
    ensures (p + dir * n) % 100 == 0 ==> |Hits(p, dir, n)| == |Hits(p, dir, n - 1)| + 1
    ensures (p + dir * n) % 100 != 0 ==> |Hits(p, dir, n)| == |Hits(p, dir, n - 1)|
  {
    var before := Hits(p, dir, n - 1);
    if (p + dir * n) % 100 == 0 {
      assert Hits(p, dir, n) == before + {n};
      assert n !in before;
    } else {
      assert Hits(p, dir, n) == before;
    }
  }

  /** Counting follows the closed form: `n` clicks from position `p` add exactly the
      number of `k` in `1..n` with `p + dir * k` a multiple of 100. */
  lemma {:induction false} TurnCount(s: State, dir: int, n: nat)
    requires InRange(s.position) && (dir == 1 || dir == -1)
    ensures Turn(s, dir, n).zeros == s.zeros + |Hits(s.position, dir, n)|
  {
    if n > 0 {
      TurnCount(s, dir, n - 1);
      TurnPosition(s, dir, n);
      HitsStep(s.position, dir, n);
    }
  }

  /** The count never decreases, grows by at most one per click, and the dial stays in
      range. */
  lemma {:induction false} TurnBounds(s: State, dir: int, n: nat)
    requires InRange(s.position) && (dir == 1 || dir == -1)
    ensures s.zeros <= Turn(s, dir, n).zeros <= s.zeros + n
    ensures InRange(Turn(s, dir, n).position)
  {
    if n > 0 {
      TurnBounds(s, dir, n - 1);
      ClickMoves(Turn(s, dir, n - 1).position, dir);
    }
  }

  /** A click adds one to the count exactly when it lands on 0. */
  lemma ClickCounts(s: State, dir: int)
    ensures Click(s, dir).zeros == s.zeros + 1 <==> Click(s, dir).position == 0
    ensures Click(s, dir).zeros == s.zeros <==> Click(s, dir).position != 0
  {
  }

  /** Turning up 100 clicks from `p` lands on 0 only at the click that reaches 100. */
  lemma FullTurnUpHits(p: int)
    requires InRange(p)
    ensures Hits(p, 1, 100) == {100 - p}
  {
    forall k: nat | 1 <= k <= 100
      ensures k in Hits(p, 1, 100) <==> k == 100 - p
    {
      assert 1 <= p + k < 200;
    }
  }

  /** Turning down 100 clicks from `p` lands on 0 only at the click that reaches 0, or
      -100 from 0. */
  lemma FullTurnDownHits(p: int)
    requires InRange(p)
    ensures Hits(p, -1, 100) == {if p == 0 then 100 else p}
  {
    forall k: nat | 1 <= k <= 100
      ensures k in Hits(p, -1, 100) <==> k == if p == 0 then 100 else p
    {
      assert -100 <= p - k < 99;
    }
  }

  /** 100 clicks in one direction bring the dial back to where it was and pass 0 exactly
      once. */
  lemma FullTurn(s: State, dir: int)
    requires InRange(s.position) && (dir == 1 || dir == -1)
    ensures Turn(s, dir, 100).position == s.position
    ensures Turn(s, dir, 100).zeros == s.zeros + 1
  {
    TurnPosition(s, dir, 100);
    ShiftMod(s.position, dir);
    TurnCount(s, dir, 100);
    if dir == 1 {
      FullTurnUpHits(s.position);
    } else {
      FullTurnDownHits(s.position);
    }
  }

  /** Every line keeps the dial in range and never lowers the count, which grows by at
      most its number of clicks. */
  lemma ApplyBounds(s: State, m: Move)
    requires InRange(s.position)
    ensures InRange(Apply(s, m).position)
    ensures s.zeros <= Apply(s, m).zeros <= s.zeros + Clicks(m.amount)
  {
    TurnBounds(s, Direction(m.first), Clicks(m.amount));
  }

  /** The dial starts at 50 and stays in `0..99` through the whole input, and the count
      never decreases. */
  lemma {:induction false} PrefixBounds(moves: seq<Move>, i: nat)
    requires i <= |moves|
    ensures InRange(ApplyPrefix(Start, moves, i).position)
    ensures forall j :: 0 <= j <= i ==> ApplyPrefix(Start, moves, j).zeros <= ApplyPrefix(Start, moves, i).zeros
  {
    if i > 0 {
      PrefixBounds(moves, i - 1);
      ApplyBounds(ApplyPrefix(Start, moves, i - 1), moves[i - 1]);
    }
  }

  /** The reading from the left agrees with the fold over the input. */
  lemma {:induction false} PrefixIsFold(s: State, moves: seq<Move>, i: nat)
    requires i <= |moves|
    ensures ApplyAll(ApplyPrefix(s, moves, i), moves[i..]) == ApplyAll(s, moves)
    decreases i
  {
    if i > 0 {
      PrefixIsFold(s, moves, i - 1);
      assert moves[i - 1..][1..] == moves[i..];
    }
  }

  /** The script's answer is the fold of the lines over the start state. */
  lemma SolveIsFold(moves: seq<Move>)
    ensures ApplyPrefix(Start, moves, |moves|) == ApplyAll(Start, moves)
  {
    PrefixIsFold(Start, moves, |moves|);
  }

  /** Turning up from `p` by `100 - p` clicks stops on 0, which it reaches only at the last
      click. */
  lemma UpToZero(s: State, n: nat)
    requires 0 < s.position < 100 && n == 100 - s.position
    ensures Turn(s, 1, n) == State(0, s.zeros + 1)
  {
    TurnCount(s, 1, n);
    TurnPosition(s, 1, n);
    forall k: nat | 1 <= k <= n
      ensures k in Hits(s.position, 1, n) <==> k == n
    {
      assert 1 <= s.position + k <= 100;
    }
    assert Hits(s.position, 1, n) == {n};
  }

  /** Turning down from `p` by `p` clicks stops on 0, which it reaches only at the last
      click. */
  lemma DownToZero(s: State, n: nat)
    requires 0 < s.position < 100 && n == s.position
    ensures Turn(s, -1, n) == State(0, s.zeros + 1)
  {
    TurnCount(s, -1, n);
    TurnPosition(s, -1, n);
    forall k: nat | 1 <= k <= n
      ensures k in Hits(s.position, -1, n) <==> k == n
    {
      assert 0 <= s.position - k < 99;
    }
    assert Hits(s.position, -1, n) == {n};
  }

  /** From the start, `R50` and `L50` both stop on 0 and count it. */
  lemma FromStart()
    ensures Apply(Start, Move('R', 50)) == State(0, 1)
    ensures Apply(Start, Move('L', 50)) == State(0, 1)
  {
    UpToZero(Start, 50);
    DownToZero(Start, 50);
  }

  /** Clicking `a` times and then `b` times is clicking `a + b` times. */
  lemma {:induction false} TurnAdd(s: State, dir: int, a: nat, b: nat)
    ensures Turn(s, dir, a + b) == Turn(Turn(s, dir, a), dir, b)
  {
    if b > 0 {
      TurnAdd(s, dir, a, b - 1);
    }
  }

  /** `L150` from the start passes 0 twice and stops there: 50 clicks down to 0, then a
      full turn. */
  lemma DownPastZeroTwice()
    ensures Apply(Start, Move('L', 150)) == State(0, 2)
  {
    DownToZero(Start, 50);
    TurnAdd(Start, -1, 50, 100);
    FullTurn(State(0, 1), -1);
  }
}
