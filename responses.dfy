/**
 * The transcript accumulator of the console: the `scan` reducer that folds the
 * current-response channel (`Output | null`) into the ordered list of outputs
 * the view shows, where `null` is the reset signal.
 */
module Responses {
  import opened Wrappers

  /** One response shown in the console (the `Output` record); `kind` is its `type` tag. */
  datatype Output = Output(valid: bool, output: string, kind: string)

  /** A value pushed into the current-response channel: `Some(o)` an output, `None` the reset. */
  type Update = Option<Output>

  /** The reducer `(a, c) => c != null ? [...a, c] : []`. */
  function Step(t: seq<Output>, u: Update): seq<Output>
  {
    match u
    case Some(o) => t + [o]
    case None => []
  }

  /** An output is appended after the unchanged transcript; a reset leaves nothing. */
  lemma StepAppendsOrResets(t: seq<Output>, u: Update)
    ensures u.None? ==> Step(t, u) == []
    ensures u.Some? ==> |Step(t, u)| == |t| + 1 && Step(t, u)[..|t|] == t && Step(t, u)[|t|] == u.value
  {
  }

  /** The accumulator after folding `us` into `seed` with `Step`, left to right. */
  function Fold(seed: seq<Output>, us: seq<Update>): (r: seq<Output>)
    ensures |r| <= |seed| + |us|
    decreases |us|
  {
    if us == [] then seed else Fold(Step(seed, us[0]), us[1..])
  }

  /**
   * What `scan` emits: one snapshot per update, each the whole accumulator
   * after that update (computed the operator's way, carrying the accumulator).
   */
  function Scan(acc: seq<Output>, us: seq<Update>): (r: seq<seq<Output>>)
    ensures |r| == |us|
    decreases |us|
  {
    if us == [] then [] else [Step(acc, us[0])] + Scan(Step(acc, us[0]), us[1..])
  }

  /** The outputs carried by `us`, in order, resets dropped. */
  function Events(us: seq<Update>): (r: seq<Output>)
    ensures |r| <= |us|
  {
    if us == [] then []
    else Events(us[..|us| - 1]) + (match us[|us| - 1] case Some(o) => [o] case None => [])
  }

  /** The position just after the last reset in `us`, or 0 when `us` holds none. */
  function ResetCut(us: seq<Update>): (k: nat)
    ensures k <= |us|
    ensures k > 0 ==> us[k - 1].None?
    ensures forall i :: k <= i < |us| ==> us[i].Some?
  {
    if us == [] then 0
    else if us[|us| - 1].None? then |us|
    else ResetCut(us[..|us| - 1])
  }

  /** Folding one more update is one more `Step` on the accumulator so far. */
  lemma {:induction false} FoldSnoc(seed: seq<Output>, us: seq<Update>, u: Update)
    ensures Fold(seed, us + [u]) == Step(Fold(seed, us), u)
    decreases |us|
  {
    if us == [] {
      assert [u][1..] == [];
    } else {
      assert (us + [u])[1..] == us[1..] + [u];
      FoldSnoc(Step(seed, us[0]), us[1..], u);
    }
  }

  /** One more update adds its output, if any, at the end of the outputs. */
  lemma EventsSnoc(vs: seq<Update>, u: Update)
    ensures Events(vs + [u]) == Events(vs) + (if u.Some? then [u.value] else [])
  {
    assert (vs + [u])[..|vs|] == vs;
  }

  /** With no reset, the outputs are the updates' payloads, position by position. */
  lemma {:induction false} EventsWithoutReset(us: seq<Update>)
    requires forall i :: 0 <= i < |us| ==> us[i].Some?
    ensures |Events(us)| == |us|
    ensures forall i :: 0 <= i < |us| ==> Events(us)[i] == us[i].value
  {
    if us != [] {
      EventsWithoutReset(us[..|us| - 1]);
    }
  }

  /**
   * The transcript described directly, without the reducer: the
   * outputs delivered after the last reset, in delivery order, after the seed
   * when no reset has occurred.
   */
  ghost function SinceLastReset(seed: seq<Output>, us: seq<Update>): seq<Output>
  {
    var k := ResetCut(us);
    (if k == 0 then seed else []) + Events(us[k..])
  }

  /** The description above also grows by one reducer step per update. */
  lemma SinceLastResetSnoc(seed: seq<Output>, us: seq<Update>, u: Update)
    ensures SinceLastReset(seed, us + [u]) == Step(SinceLastReset(seed, us), u)
  {
    var vs := us + [u];
    assert vs[..|us|] == us;
    if u.None? {
      assert ResetCut(vs) == |vs|;
      assert vs[|vs|..] == [];
    } else {
      var k := ResetCut(us);
      assert ResetCut(vs) == k;
      assert vs[k..] == us[k..] + [u];
      EventsSnoc(us[k..], u);
    }
  }

  /** The transcript invariant: the fold is exactly the outputs delivered since the last reset. */
  lemma {:induction false} FoldIsEventsSinceLastReset(seed: seq<Output>, us: seq<Update>)
    ensures Fold(seed, us) == SinceLastReset(seed, us)
  {
    if us != [] {
      var p := us[..|us| - 1];
      var last := us[|us| - 1];
      assert p + [last] == us;
      FoldIsEventsSinceLastReset(seed, p);
      FoldSnoc(seed, p, last);
      SinceLastResetSnoc(seed, p, last);
    } else {
      assert us[0..] == [];
    }
  }

  /** A run of outputs with no reset is appended in order, the seed left untouched. */
  lemma AppendOrderPreserved(seed: seq<Output>, us: seq<Update>)
    requires forall i :: 0 <= i < |us| ==> us[i].Some?
    ensures |Fold(seed, us)| == |seed| + |us|
    ensures Fold(seed, us)[..|seed|] == seed
    ensures forall i :: 0 <= i < |us| ==> Fold(seed, us)[|seed| + i] == us[i].value
  {
    FoldIsEventsSinceLastReset(seed, us);
    assert ResetCut(us) == 0;
    assert us[0..] == us;
    EventsWithoutReset(us);
  }

  /** A reset erases everything delivered before it: only what follows it counts. */
  lemma {:induction false} ResetErasesHistory(seed: seq<Output>, us: seq<Update>, vs: seq<Update>)
    ensures Fold(seed, us + [None] + vs) == Fold([], vs)
    decreases |us|
  {
    if us == [] {
      assert us + [None] + vs == [None] + vs;
      assert ([None] + vs)[1..] == vs;
    } else {
      assert (us + [None] + vs)[1..] == us[1..] + [None] + vs;
      ResetErasesHistory(Step(seed, us[0]), us[1..], vs);
    }
  }

  /** Two consecutive resets both leave the transcript empty, whatever came before. */
  lemma ResetIsIdempotent(seed: seq<Output>, us: seq<Update>)
    ensures Fold(seed, us + [None]) == []
    ensures Fold(seed, us + [None, None]) == Fold(seed, us + [None])
  {
    FoldSnoc(seed, us, None);
    assert us + [None, None] == (us + [None]) + [None];
    FoldSnoc(seed, us + [None], None);
  }

  /** The channel is seeded with a reset: the first snapshot is empty and the seed changes nothing after. */
  lemma SeedResetIsNeutral(us: seq<Update>)
    ensures Scan([], [None]) == [[]]
    ensures Fold([], [None] + us) == Fold([], us)
  {
    assert ([None] + us)[1..] == us;
  }

  /** `[e1, e2, null, e3]` folds to `[e3]`. */
  lemma ResetExample(e1: Output, e2: Output, e3: Output)
    ensures Fold([], [Some(e1), Some(e2), None, Some(e3)]) == [e3]
  {
    ResetErasesHistory([], [Some(e1), Some(e2)], [Some(e3)]);
    assert [Some(e1), Some(e2)] + [None] + [Some(e3)] == [Some(e1), Some(e2), None, Some(e3)];
  }

  /** One more update makes `scan` emit one more snapshot: the new accumulator. */
  lemma {:induction false} ScanSnoc(acc: seq<Output>, us: seq<Update>, u: Update)
    ensures Scan(acc, us + [u]) == Scan(acc, us) + [Fold(acc, us + [u])]
    decreases |us|
  {
    if us == [] {
      assert [u][1..] == [];
    } else {
      var next := Step(acc, us[0]);
      var rest := us[1..];
      assert (us + [u])[0] == us[0];
      assert (us + [u])[1..] == rest + [u];
      ScanSnoc(next, rest, u);
    }
  }

  /** Every snapshot `scan` emits is the full transcript for the updates so far, not a delta. */
  lemma {:induction false} ScanPublishesFold(acc: seq<Output>, us: seq<Update>)
    ensures forall i :: 0 <= i < |us| ==> Scan(acc, us)[i] == Fold(acc, us[..i + 1])
    decreases |us|
  {
    if us != [] {
      var next := Step(acc, us[0]);
      var rest := us[1..];
      ScanPublishesFold(next, rest);
      assert Scan(acc, us) == [next] + Scan(next, rest);
      forall i | 0 <= i < |us|
        ensures Scan(acc, us)[i] == Fold(acc, us[..i + 1])
      {
        if i == 0 {
          assert us[..1][1..] == [];
        } else {
          assert us[..i + 1][1..] == rest[..i];
        }
      }
    }
  }
}
