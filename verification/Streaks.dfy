/** Win and loss streaks of an ordered series of net P&Ls: one pass with two counters and two lists,
    against the longest contiguous blocks. */
module Streaks {
  import opened Sequences

  datatype Kind = Win | Loss

  datatype StreakStats = StreakStats(currentWin: nat, currentLoss: nat, maxWin: nat, maxLoss: nat,
                                     avgWin: real, avgLoss: real)

  /** Strictly positive is a win, strictly negative a loss, zero neither. */
  predicate Is(kind: Kind, pnl: real) {
    if kind == Win then pnl > 0.0 else pnl < 0.0
  }

  function Max(a: nat, b: nat): nat {
    if a >= b then a else b
  }

  /** The length of the longest suffix of one kind. */
  function Current(s: seq<real>, kind: Kind): nat {
    if s == [] || !Is(kind, Last(s)) then 0 else Current(Front(s), kind) + 1
  }

  function Longest(s: seq<real>, kind: Kind): nat {
    if s == [] then 0 else Max(Longest(Front(s), kind), Current(s, kind))
  }

  function Count(s: seq<real>, kind: Kind): nat {
    if s == [] then 0 else Count(Front(s), kind) + if Is(kind, Last(s)) then 1 else 0
  }

  /** The number of maximal blocks of one kind: positions where one begins. */
  function Blocks(s: seq<real>, kind: Kind): nat {
    if s == [] then 0
    else Blocks(Front(s), kind) + if Is(kind, Last(s)) && Current(Front(s), kind) == 0 then 1 else 0
  }

  ghost predicate Block(s: seq<real>, kind: Kind, from: nat, to: nat) {
    from <= to <= |s| && forall i :: from <= i < to ==> Is(kind, s[i])
  }

  lemma {:induction false} CurrentIsLongestSuffix(s: seq<real>, kind: Kind)
    ensures Current(s, kind) <= |s| && Block(s, kind, |s| - Current(s, kind), |s|)
    ensures forall from :: 0 <= from <= |s| && Block(s, kind, from, |s|) ==> |s| - from <= Current(s, kind)
  {
    if s != [] {
      CurrentIsLongestSuffix(Front(s), kind);
      forall from | 0 <= from <= |s| && Block(s, kind, from, |s|) ensures |s| - from <= Current(s, kind) {
        if from < |s| {
          assert Is(kind, Last(s));
          assert Block(Front(s), kind, from, |s| - 1);
        }
      }
    }
  }

  /** Longest is the length of the longest contiguous block of one kind. */
  lemma {:induction false} LongestIsLongestBlock(s: seq<real>, kind: Kind)
    ensures exists from: nat, to: nat :: Block(s, kind, from, to) && to - from == Longest(s, kind)
    ensures forall from: nat, to: nat :: Block(s, kind, from, to) ==> to - from <= Longest(s, kind)
  {
    CurrentIsLongestSuffix(s, kind);
    if s == [] {
      assert Block(s, kind, 0, 0);
    } else {
      LongestIsLongestBlock(Front(s), kind);
      if Longest(s, kind) == Current(s, kind) {
        var from: nat := |s| - Current(s, kind);
        assert Block(s, kind, from, |s|);
      } else {
        var from: nat, to: nat :| Block(Front(s), kind, from, to) && to - from == Longest(Front(s), kind);
        assert Block(s, kind, from, to);
      }
      forall from: nat, to: nat | Block(s, kind, from, to) ensures to - from <= Longest(s, kind) {
        if to < |s| {
          assert Block(Front(s), kind, from, to);
        }
      }
    }
  }

  // ---------- the recorded list of streaks ----------

  function Total(streaks: seq<nat>): nat {
    if streaks == [] then 0 else Total(Front(streaks)) + Last(streaks)
  }

  function MaxOf(streaks: seq<nat>): nat {
    if streaks == [] then 0 else Max(MaxOf(Front(streaks)), Last(streaks))
  }

  /** What one kind's counter and list amount to after a prefix. */
  ghost predicate Tracks(s: seq<real>, kind: Kind, open: nat, closed: seq<nat>) {
    && open == Current(s, kind)
    && Total(closed) + open == Count(s, kind)
    && Max(MaxOf(closed), open) == Longest(s, kind)
    && |closed| + (if open > 0 then 1 else 0) == Blocks(s, kind)
  }

  lemma Append(streaks: seq<nat>, x: nat)
    ensures Total(streaks + [x]) == Total(streaks) + x && MaxOf(streaks + [x]) == Max(MaxOf(streaks), x)
  {
    assert Front(streaks + [x]) == streaks;
  }

  lemma TracksStep(s: seq<real>, pnl: real, kind: Kind, open: nat, closed: seq<nat>)
    requires Tracks(s, kind, open, closed)
    ensures Is(kind, pnl) ==> Tracks(s + [pnl], kind, open + 1, closed)
    ensures !Is(kind, pnl) && open > 0 ==> Tracks(s + [pnl], kind, 0, closed + [open])
    ensures !Is(kind, pnl) && open == 0 ==> Tracks(s + [pnl], kind, 0, closed)
  {
    assert Front(s + [pnl]) == s && Last(s + [pnl]) == pnl;
    Append(closed, open);
  }

  lemma NothingTracked()
    ensures Tracks([], Win, 0, []) && Tracks([], Loss, 0, [])
  {
  }

  /** The counter and the list, once the trailing streak is closed, give the statistics of a kind. */
  lemma StreaksOf(s: seq<real>, kind: Kind, open: nat, closed: seq<nat>)
    requires Tracks(s, kind, open, closed)
    ensures open == Current(s, kind)
    ensures var all := if open > 0 then closed + [open] else closed;
            MaxOf(all) == Longest(s, kind) && Total(all) == Count(s, kind) && |all| == Blocks(s, kind)
  {
    Append(closed, open);
  }

  function Average(total: nat, blocks: nat): real {
    if blocks == 0 then 0.0 else (total as real) / (blocks as real)
  }

  method ComputeStreakStats(pnls: seq<real>) returns (r: StreakStats)
    ensures r.currentWin == Current(pnls, Win) && r.currentLoss == Current(pnls, Loss)
    ensures r.maxWin == Longest(pnls, Win) && r.maxLoss == Longest(pnls, Loss)
    ensures r.avgWin == Average(Count(pnls, Win), Blocks(pnls, Win))
    ensures r.avgLoss == Average(Count(pnls, Loss), Blocks(pnls, Loss))
  {
    if pnls == [] {
      return StreakStats(0, 0, 0, 0, 0.0, 0.0);
    }
    hide Tracks;
    var winStreaks, lossStreaks: seq<nat> := [], [];
    NothingTracked();
    var wins, losses := 0, 0;
    var i := 0;
    while i < |pnls|
      invariant 0 <= i <= |pnls|
      invariant wins >= 0 && losses >= 0
      invariant Tracks(pnls[..i], Win, wins, winStreaks)
      invariant Tracks(pnls[..i], Loss, losses, lossStreaks)
    {
      var pnl := pnls[i];
      assert pnls[..i + 1] == pnls[..i] + [pnl];
      TracksStep(pnls[..i], pnl, Win, wins, winStreaks);
      TracksStep(pnls[..i], pnl, Loss, losses, lossStreaks);
      if pnl > 0.0 {
        wins := wins + 1;
        if losses > 0 {
          lossStreaks, losses := lossStreaks + [losses], 0;
        }
      } else if pnl < 0.0 {
        losses := losses + 1;
        if wins > 0 {
          winStreaks, wins := winStreaks + [wins], 0;
        }
      } else {
        if wins > 0 {
          winStreaks, wins := winStreaks + [wins], 0;
        }
        if losses > 0 {
          lossStreaks, losses := lossStreaks + [losses], 0;
        }
      }
      i := i + 1;
    }
    assert pnls[..i] == pnls;
    StreaksOf(pnls, Win, wins, winStreaks);
    StreaksOf(pnls, Loss, losses, lossStreaks);
    if wins > 0 {
      winStreaks := winStreaks + [wins];
    }
    if losses > 0 {
      lossStreaks := lossStreaks + [losses];
    }
    r := StreakStats(wins, losses, MaxOf(winStreaks), MaxOf(lossStreaks),
                     Average(Total(winStreaks), |winStreaks|), Average(Total(lossStreaks), |lossStreaks|));
  }

  /** The recorded win-streak lengths sum to the number of wins: average times blocks is the count. */
  lemma AverageTimesBlocks(s: seq<real>, kind: Kind)
    ensures Average(Count(s, kind), Blocks(s, kind)) * (Blocks(s, kind) as real) == Count(s, kind) as real
  {
    hide Count, Blocks;
    NoBlocksNoCount(s, kind);
  }

  lemma {:induction false} NoBlocksNoCount(s: seq<real>, kind: Kind)
    ensures Blocks(s, kind) == 0 <==> Count(s, kind) == 0
    ensures Current(s, kind) > 0 ==> Blocks(s, kind) > 0
  {
    if s != [] {
      NoBlocksNoCount(Front(s), kind);
    }
  }

  function Negate(s: seq<real>): (n: seq<real>)
    ensures |n| == |s| && forall i :: 0 <= i < |s| ==> n[i] == -s[i]
  {
    seq(|s|, i requires 0 <= i < |s| => -s[i])
  }

  function Other(kind: Kind): Kind {
    if kind == Win then Loss else Win
  }

  /** Negating every P&L swaps the win and loss results. */
  lemma {:induction false} NegationSwaps(s: seq<real>, kind: Kind)
    ensures Current(Negate(s), kind) == Current(s, Other(kind))
    ensures Longest(Negate(s), kind) == Longest(s, Other(kind))
    ensures Count(Negate(s), kind) == Count(s, Other(kind))
    ensures Blocks(Negate(s), kind) == Blocks(s, Other(kind))
  {
    if s == [] {
      assert Negate(s) == s;
    } else {
      assert Front(Negate(s)) == Negate(Front(s)) && Last(Negate(s)) == -Last(s);
      NegationSwaps(Front(s), kind);
    }
  }
}
