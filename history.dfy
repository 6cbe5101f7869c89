/**
 * The editor's undo/redo history: the current map plus two stacks of deep
 * copies (the top of each stack is its last element).
 *
 * Saving pushes the current map onto the undo stack, drops the oldest entry
 * once that stack holds more than 50, and empties the redo stack. Undo and
 * redo move the current map onto the other stack and restore the top of
 * their own; on an empty stack they only show a message.
 */
module History {

  /** The cap `maxUndoSteps` on the undo stack. */
  const MaxUndoSteps: nat := 50

  datatype State<T> = State(current: T, undo: seq<T>, redo: seq<T>)

  /** The last `n` entries of `xs` (all of them when there are fewer). */
  function Suffix<T>(xs: seq<T>, n: nat): (r: seq<T>)
    ensures |r| == if |xs| <= n then |xs| else n
    ensures forall i :: 0 <= i < |r| ==> r[i] == xs[|xs| - |r| + i]
  {
    if |xs| <= n then xs else xs[|xs| - n..]
  }

  /** `saveStateToUndo`. */
  function Save<T>(s: State<T>): (r: State<T>)
    ensures r.current == s.current && r.redo == []
    ensures |s.undo| <= MaxUndoSteps ==> r.undo == Suffix(s.undo + [s.current], MaxUndoSteps)
  {
    var u := s.undo + [s.current];
    State(s.current, if |u| > MaxUndoSteps then u[1..] else u, [])
  }

  /** `undo`: a no-op exactly when there is nothing to undo. */
  function Undo<T>(s: State<T>): (r: State<T>)
    ensures r == s <==> |s.undo| == 0
    ensures |s.undo| > 0 ==> r.current == s.undo[|s.undo| - 1] && r.redo == s.redo + [s.current]
  {
    if |s.undo| == 0 then s
    else State(s.undo[|s.undo| - 1], s.undo[..|s.undo| - 1], s.redo + [s.current])
  }

  /** `redo`: a no-op exactly when there is nothing to redo. */
  function Redo<T>(s: State<T>): (r: State<T>)
    ensures r == s <==> |s.redo| == 0
    ensures |s.redo| > 0 ==> r.current == s.redo[|s.redo| - 1] && r.undo == s.undo + [s.current]
  {
    if |s.redo| == 0 then s
    else State(s.redo[|s.redo| - 1], s.undo + [s.current], s.redo[..|s.redo| - 1])
  }

  /** A brush stroke or generation that replaces the current map. */
  function Edit<T>(s: State<T>, g: T): State<T>
  {
    State(g, s.undo, s.redo)
  }

  /** The two stacks together never hold more than `maxUndoSteps` maps. */
  predicate Bounded<T>(s: State<T>)
  {
    |s.undo| + |s.redo| <= MaxUndoSteps
  }

  /** Redo right after an undo restores the map and both stacks exactly. */
  lemma UndoThenRedo<T>(s: State<T>)
    requires |s.undo| > 0
    ensures Redo(Undo(s)) == s
  {
    var u := Undo(s);
    assert u.redo[..|u.redo| - 1] == s.redo;
    assert u.undo + [u.current] == s.undo;
  }

  /** Undo right after a redo restores the map and both stacks exactly. */
  lemma RedoThenUndo<T>(s: State<T>)
    requires |s.redo| > 0
    ensures Undo(Redo(s)) == s
  {
    var r := Redo(s);
    assert r.undo[..|r.undo| - 1] == s.undo;
    assert r.redo + [r.current] == s.redo;
  }

  /**
   * Every history operation keeps the stacks within the cap, although only
   * saving checks it: undo and redo move one map from one stack to the other.
   */
  lemma OperationsKeepBound<T>(s: State<T>, g: T)
    requires Bounded(s)
    ensures Bounded(Save(s)) && Bounded(Undo(s)) && Bounded(Redo(s)) && Bounded(Edit(s, g))
  {
  }

  /** Undo and redo never change the total number of stored maps. */
  lemma UndoRedoKeepTotal<T>(s: State<T>)
    ensures |Undo(s).undo| + |Undo(s).redo| == |s.undo| + |s.redo|
    ensures |Redo(s).undo| + |Redo(s).redo| == |s.undo| + |s.redo|
  {
  }

  /**
   * A session of strokes, each preceded by a save (one per mouse press):
   * the map ends as the last stroke left it.
   */
  function Session<T>(s: State<T>, gs: seq<T>): (r: State<T>)
    decreases |gs|
  {
    if |gs| == 0 then s else Session(Edit(Save(s), gs[0]), gs[1..])
  }

  lemma SuffixAppend<T>(xs: seq<T>, y: T, n: nat)
    requires 0 < n
    ensures Suffix(Suffix(xs, n) + [y], n) == Suffix(xs + [y], n)
  {
    var a := Suffix(Suffix(xs, n) + [y], n);
    var b := Suffix(xs + [y], n);
    assert |a| == |b|;
    forall i | 0 <= i < |a|
      ensures a[i] == b[i]
    {
    }
  }

  /**
   * After a session the undo stack holds exactly the last 50 of the maps
   * saved so far (the older ones are dropped), the redo stack is empty, and
   * the current map is the last stroke's result.
   */
  lemma {:induction false} SessionKeepsLastSteps<T>(s: State<T>, gs: seq<T>)
    requires |s.undo| <= MaxUndoSteps && |gs| > 0
    decreases |gs|
    ensures var r := Session(s, gs);
            r.current == gs[|gs| - 1] && r.redo == []
            && r.undo == Suffix(s.undo + [s.current] + gs[..|gs| - 1], MaxUndoSteps)
  {
    if |gs| == 1 {
      // a session of one stroke
      assert Session(s, gs) == Edit(Save(s), gs[0]) by {
        assert gs[1..] == [];
      }
      assert s.undo + [s.current] + gs[..0] == s.undo + [s.current] by {
        assert gs[..0] == [];
      }
    } else {
      // the first stroke, then the rest of the session
      var s1 := Edit(Save(s), gs[0]);
      SessionKeepsLastSteps(s1, gs[1..]);
      var r := Session(s, gs);
      assert r == Session(s1, gs[1..]);
      var tail := gs[1..][..|gs| - 2];
      var xs := s.undo + [s.current];
      calc {
        r.undo;
        Suffix(s1.undo + [s1.current] + tail, MaxUndoSteps);
        { assert s1.undo == Suffix(xs, MaxUndoSteps) && s1.current == gs[0];
          assert s1.undo + [s1.current] + tail == s1.undo + ([gs[0]] + tail); }
        Suffix(Suffix(xs, MaxUndoSteps) + ([gs[0]] + tail), MaxUndoSteps);
        { SuffixAppendAll(xs, [gs[0]] + tail, MaxUndoSteps); }
        Suffix(xs + ([gs[0]] + tail), MaxUndoSteps);
        { // the first stroke followed by the middle of the rest is all but the last
          var a, b := [gs[0]] + tail, gs[..|gs| - 1];
          assert |a| == |b|;
          forall i | 0 <= i < |a|
            ensures a[i] == b[i]
          {
          }
          assert a == b; }
        Suffix(s.undo + [s.current] + gs[..|gs| - 1], MaxUndoSteps);
      }
    }
  }

  /** Trimming after every push or once at the end keeps the same last n. */
  lemma {:induction false} SuffixAppendAll<T>(xs: seq<T>, ys: seq<T>, n: nat)
    requires 0 < n
    ensures Suffix(Suffix(xs, n) + ys, n) == Suffix(xs + ys, n)
    decreases |ys|
  {
    if |ys| == 0 {
      assert Suffix(xs, n) + ys == Suffix(xs, n);
      assert xs + ys == xs;
    } else {
      var init, y := ys[..|ys| - 1], ys[|ys| - 1];
      assert ys == init + [y];
      SuffixAppendAll(xs, init, n);
      SuffixAppend(Suffix(xs, n) + init, y, n);
      SuffixAppend(xs + init, y, n);
      assert Suffix(xs, n) + ys == (Suffix(xs, n) + init) + [y];
      assert xs + ys == (xs + init) + [y];
    }
  }
}
