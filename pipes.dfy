/**
 * Pipe pairs: how one is spawned, how one frame moves, scores and retires the whole list,
 * and what that frame step guarantees.
 */
module Pipes {
  import opened Config
  import opened Geometry

  /** One pipe pair: a top segment from y = 0, a gap, and a bottom segment down to the ground. */
  datatype Pipe = Pipe(x: real, topHeight: real, bottomY: real, bottomHeight: real, passed: bool)

  /** Lowest top-segment height a spawn can choose. */
  const MinTopHeight: real := 50.0

  /** The rectangles the bird is tested against. */
  function TopRect(p: Pipe): Rect { Rect(p.x, 0.0, PipeWidth, p.topHeight) }
  function BottomRect(p: Pipe): Rect { Rect(p.x, p.bottomY, PipeWidth, p.bottomHeight) }

  /** The height invariant every spawned pipe carries and the frame step never touches. */
  predicate WellFormed(p: Pipe)
  {
    p.bottomY == p.topHeight + PipeGap &&
    p.topHeight + PipeGap + p.bottomHeight + GroundHeight == CanvasHeight &&
    MinTopHeight <= p.topHeight < CanvasHeight - PipeGap - 100.0
  }

  /**
   * The pipe spawnPipe pushes, given the random fraction r in [0, 1): a top height chosen
   * in [50, 350), entering at the right edge of the playfield, not yet passed.
   */
  function Spawned(r: real): (p: Pipe)
    requires 0.0 <= r < 1.0
    ensures WellFormed(p)
    ensures p.bottomY == p.topHeight + PipeGap
    ensures p.topHeight + PipeGap + p.bottomHeight + GroundHeight == CanvasHeight
    ensures 50.0 <= p.topHeight < 350.0 && 50.0 < p.bottomHeight <= 350.0
    ensures p.x == CanvasWidth && !p.passed
  {
    var minHeight := MinTopHeight;
    var maxHeight := CanvasHeight - PipeGap - 100.0;
    var topHeight := r * (maxHeight - minHeight) + minHeight;
    Pipe(CanvasWidth, topHeight, topHeight + PipeGap, CanvasHeight - (topHeight + PipeGap) - GroundHeight, false)
  }

  /** One pipe after the frame step: shifted left, and marked passed once its right edge is left of the bird. */
  function Moved(p: Pipe): Pipe
  {
    var x := p.x - PipeSpeed;
    p.(x := x, passed := p.passed || x + PipeWidth < BirdX)
  }

  /** The pipe earns a point in this frame: it was unpassed and its moved right edge is left of the bird. */
  predicate NewlyPassed(p: Pipe)
  {
    !p.passed && p.x - PipeSpeed + PipeWidth < BirdX
  }

  /** The pipe is kept: its right edge is not left of the playfield. */
  predicate OnScreen(p: Pipe)
  {
    p.x + PipeWidth >= 0.0
  }

  /** The list after one frame step: every pipe moved, the off-screen ones dropped. */
  function Advance(ps: seq<Pipe>): seq<Pipe>
    decreases |ps|
  {
    if ps == [] then []
    else (if OnScreen(Moved(ps[0])) then [Moved(ps[0])] else []) + Advance(ps[1..])
  }

  /** Points scored by one frame step. */
  function Passes(ps: seq<Pipe>): nat
    decreases |ps|
  {
    if ps == [] then 0
    else (if NewlyPassed(ps[0]) then 1 else 0) + Passes(ps[1..])
  }

  /** Positions of the pipes that score in one frame step. */
  ghost function NewlyPassedIndices(ps: seq<Pipe>): set<int>
  {
    set i | 0 <= i < |ps| && NewlyPassed(ps[i])
  }

  /** The invariants a live pipe list keeps between frames. */
  ghost predicate PipesValid(ps: seq<Pipe>)
  {
    (forall i :: 0 <= i < |ps| ==>
       WellFormed(ps[i]) && OnScreen(ps[i]) && ps[i].x <= CanvasWidth &&
       (ps[i].passed <==> ps[i].x + PipeWidth < BirdX)) &&
    (forall i, j :: 0 <= i < j < |ps| ==> ps[i].x <= ps[j].x)
  }

  /** The frame step only moves a pipe and can only set its passed flag; a passed pipe stays passed. */
  lemma MovedKeepsShapeAndPassed(p: Pipe)
    ensures Moved(p).x == p.x - PipeSpeed
    ensures Moved(p).topHeight == p.topHeight && Moved(p).bottomY == p.bottomY
    ensures Moved(p).bottomHeight == p.bottomHeight
    ensures p.passed ==> Moved(p).passed
    ensures NewlyPassed(p) <==> !p.passed && Moved(p).passed
  {
  }

  /** One step of the walk over a suffix: the pipe at i, then the rest. */
  lemma AdvanceAt(ps: seq<Pipe>, i: int)
    requires 0 <= i < |ps|
    ensures Advance(ps[i..]) == (if OnScreen(Moved(ps[i])) then [Moved(ps[i])] else []) + Advance(ps[i + 1..])
    ensures Passes(ps[i..]) == (if NewlyPassed(ps[i]) then 1 else 0) + Passes(ps[i + 1..])
  {
    assert ps[i..][1..] == ps[i + 1..];
  }

  lemma {:induction false} AdvanceAppend(a: seq<Pipe>, b: seq<Pipe>)
    ensures Advance(a + b) == Advance(a) + Advance(b)
    ensures Passes(a + b) == Passes(a) + Passes(b)
    decreases |a|
  {
    if a == [] {
      assert a + b == b;
    } else {
      assert (a + b)[1..] == a[1..] + b;
      AdvanceAppend(a[1..], b);
    }
  }

  /** Every index in s, plus one. */
  function Shift(s: seq<int>): seq<int>
  {
    seq(|s|, k requires 0 <= k < |s| => s[k] + 1)
  }

  /** Positions, in the original list, of the pipes the frame step keeps. */
  ghost function Kept(ps: seq<Pipe>): seq<int>
    decreases |ps|
  {
    if ps == [] then []
    else (if OnScreen(Moved(ps[0])) then [0] else []) + Shift(Kept(ps[1..]))
  }

  lemma {:induction false} KeptMatchesAdvance(ps: seq<Pipe>)
    ensures |Kept(ps)| == |Advance(ps)|
    ensures forall k :: 0 <= k < |Kept(ps)| ==>
      0 <= Kept(ps)[k] < |ps| && Advance(ps)[k] == Moved(ps[Kept(ps)[k]]) && OnScreen(Advance(ps)[k])
    decreases |ps|
  {
    if ps != [] {
      var tail := ps[1..];
      KeptMatchesAdvance(tail);
      var head := if OnScreen(Moved(ps[0])) then [0] else [];
      assert Kept(ps) == head + Shift(Kept(tail));
      forall k | |head| <= k < |Kept(ps)|
        ensures 0 <= Kept(ps)[k] < |ps| && Advance(ps)[k] == Moved(ps[Kept(ps)[k]])
      {
        assert Kept(ps)[k] == Kept(tail)[k - |head|] + 1;
        assert tail[Kept(tail)[k - |head|]] == ps[Kept(ps)[k]];
      }
    }
  }

  lemma {:induction false} KeptIncreases(ps: seq<Pipe>)
    ensures forall k :: 0 <= k < |Kept(ps)| ==> 0 <= Kept(ps)[k] < |ps|
    ensures forall k, l :: 0 <= k < l < |Kept(ps)| ==> Kept(ps)[k] < Kept(ps)[l]
    decreases |ps|
  {
    if ps != [] {
      KeptIncreases(ps[1..]);
    }
  }

  lemma {:induction false} KeptCovers(ps: seq<Pipe>)
    ensures forall j :: 0 <= j < |ps| && OnScreen(Moved(ps[j])) ==> j in Kept(ps)
    decreases |ps|
  {
    if ps != [] {
      var tail := ps[1..];
      KeptCovers(tail);
      forall j | 0 < j < |ps| && OnScreen(Moved(ps[j])) ensures j in Kept(ps) {
        assert tail[j - 1] == ps[j];
        var k :| 0 <= k < |Kept(tail)| && Kept(tail)[k] == j - 1;
        assert Shift(Kept(tail))[k] == j;
      }
    }
  }

  /**
   * The survivors are exactly the moved pipes that are still on screen, in their original
   * relative order: idx lists, increasing, the original position of every survivor.
   */
  lemma AdvanceSelects(ps: seq<Pipe>) returns (idx: seq<int>)
    ensures |idx| == |Advance(ps)|
    ensures forall k :: 0 <= k < |idx| ==> 0 <= idx[k] < |ps| && Advance(ps)[k] == Moved(ps[idx[k]])
    ensures forall k :: 0 <= k < |idx| ==> OnScreen(Advance(ps)[k])
    ensures forall k, l :: 0 <= k < l < |idx| ==> idx[k] < idx[l]
    ensures forall j :: 0 <= j < |ps| && OnScreen(Moved(ps[j])) ==> j in idx
  {
    KeptMatchesAdvance(ps);
    KeptIncreases(ps);
    KeptCovers(ps);
    idx := Kept(ps);
  }

  lemma {:induction false} PassesPrefix(ps: seq<Pipe>, n: nat)
    requires n <= |ps|
    ensures Passes(ps[..n]) == |set i | 0 <= i < n && NewlyPassed(ps[i])|
  {
    if n > 0 {
      PassesPrefix(ps, n - 1);
      assert ps[..n] == ps[..n - 1] + [ps[n - 1]];
      AdvanceAppend(ps[..n - 1], [ps[n - 1]]);
      assert Passes([ps[n - 1]]) == if NewlyPassed(ps[n - 1]) then 1 else 0;
      var before := set i | 0 <= i < n - 1 && NewlyPassed(ps[i]);
      if NewlyPassed(ps[n - 1]) {
        assert (set i | 0 <= i < n && NewlyPassed(ps[i])) == before + {n - 1};
      } else {
        assert (set i | 0 <= i < n && NewlyPassed(ps[i])) == before;
      }
    }
  }

  /** The score rises by exactly the number of pipes that were unpassed and whose moved right edge is left of the bird. */
  lemma PassesCountsNewlyPassed(ps: seq<Pipe>)
    ensures Passes(ps) == |NewlyPassedIndices(ps)|
  {
    PassesPrefix(ps, |ps|);
    assert ps[..|ps|] == ps;
  }

  /** Every pipe the frame step removes has been scored, in this frame or an earlier one. */
  lemma RemovedWereScored(ps: seq<Pipe>)
    ensures forall j :: 0 <= j < |ps| && !OnScreen(Moved(ps[j])) ==> ps[j].passed || NewlyPassed(ps[j])
  {
  }

  /** The frame step keeps the between-frames invariants of the list. */
  lemma AdvanceKeepsValid(ps: seq<Pipe>)
    requires PipesValid(ps)
    ensures PipesValid(Advance(ps))
  {
    var idx := AdvanceSelects(ps);
    var r := Advance(ps);
    forall k | 0 <= k < |r|
      ensures WellFormed(r[k]) && OnScreen(r[k]) && r[k].x <= CanvasWidth &&
              (r[k].passed <==> r[k].x + PipeWidth < BirdX)
    {
      assert r[k] == Moved(ps[idx[k]]);
    }
    forall k, l | 0 <= k < l < |r| ensures r[k].x <= r[l].x {
      assert r[k] == Moved(ps[idx[k]]) && r[l] == Moved(ps[idx[l]]);
    }
  }

  /** A pipe the frame step removes from a valid list was already scored in an earlier frame. */
  lemma RemovedWereScoredBefore(ps: seq<Pipe>)
    requires PipesValid(ps)
    ensures forall j :: 0 <= j < |ps| && !OnScreen(Moved(ps[j])) ==> ps[j].passed
  {
  }

  /** Appending a freshly spawned pipe to a valid list keeps it valid. */
  lemma SpawnKeepsValid(ps: seq<Pipe>, r: real)
    requires 0.0 <= r < 1.0
    requires PipesValid(ps)
    ensures PipesValid(ps + [Spawned(r)])
  {
  }

  /** A pipe after k frame steps, ignoring removal. */
  function MovedTimes(p: Pipe, k: nat): Pipe
  {
    if k == 0 then p else Moved(MovedTimes(p, k - 1))
  }

  lemma {:induction false} MovedTimesShifts(p: Pipe, k: nat)
    ensures MovedTimes(p, k).x == p.x - PipeSpeed * (k as real)
    ensures MovedTimes(p, k).passed == (p.passed || (k > 0 && MovedTimes(p, k).x + PipeWidth < BirdX))
  {
    if k > 0 {
      MovedTimesShifts(p, k - 1);
    }
  }

  /**
   * A spawned pipe is passed by the bird after its 127th step, and stays on screen up to its
   * 153rd step; its 154th step is the one that removes it.
   */
  lemma PipeLifetime(r: real, k: nat)
    requires 0.0 <= r < 1.0
    ensures MovedTimes(Spawned(r), k).passed <==> k >= 127
    ensures OnScreen(MovedTimes(Spawned(r), k)) <==> k <= 153
  {
    MovedTimesShifts(Spawned(r), k);
  }
}
