/** One marker call and one watched fill, database call by database call, in every order they can
    take: exactly when they miss each other.
    Models apps/api/src/sea/intent.service.ts:356-508 beside
    apps/api/src/onchain/fill-watcher.service.ts:589-647. */
module MissWindow {
  import opened Prelude
  import opened Intents
  import opened Sea
  import opened Interleaving
  import opened InterleavingSafety
  import Desk

  // ---------------------------------------------------------------------------
  // Two calls in any order
  // ---------------------------------------------------------------------------

  /** `s` is made of the steps of `a` and of `b`, each in its own order. */
  predicate Interleaves(a: seq<FineStep>, b: seq<FineStep>, s: seq<FineStep>) {
    if s == [] then a == [] && b == []
    else
      (a != [] && a[|a| - 1] == s[|s| - 1] && Interleaves(a[..|a| - 1], b, s[..|s| - 1])) ||
      (b != [] && b[|b| - 1] == s[|s| - 1] && Interleaves(a, b[..|b| - 1], s[..|s| - 1]))
  }

  /** Some `y` of `s` has an `x` somewhere before it. */
  predicate Precedes(s: seq<FineStep>, x: FineStep, y: FineStep) {
    s != [] && (Precedes(s[..|s| - 1], x, y) || (s[|s| - 1] == y && x in s[..|s| - 1]))
  }

  /** Every look-up answers what the rows say at that moment. */
  predicate Truthful(w: Fine, s: seq<FineStep>) {
    s == [] ||
    (Truthful(w, s[..|s| - 1]) && AnswersTruly(Acts(w, s[..|s| - 1]), s[|s| - 1]))
  }

  predicate AnswersTruly(w: Fine, s: FineStep) {
    s.WatcherFinds? && s.p in w.jobs && w.jobs[s.p].Closer? ==>
      Found(w.rows, s.hit, w.jobs[s.p].tx, w.jobs[s.p].market, w.jobs[s.p].owner)
  }

  lemma OneStepMore(w: Fine, s: seq<FineStep>, z: FineStep)
    ensures Acts(w, s + [z]) == Act(Acts(w, s), z)
  {
    assert (s + [z])[..|s + [z]| - 1] == s;
  }

  lemma PrecedesOneMore(s: seq<FineStep>, z: FineStep, x: FineStep, y: FineStep)
    ensures Precedes(s + [z], x, y) <==> Precedes(s, x, y) || (z == y && x in s)
  {
    assert (s + [z])[..|s + [z]| - 1] == s;
  }

  /** A marker call `p` for the intent and a watcher call `q` that saw the trade. */
  datatype Race = Race(p: nat, q: nat, id: string, tx: TxHash, t: Desk.Trade, hit: Option<string>, now: int, later: int)

  function MarkerCall(r: Race): seq<FineStep> {
    [StartMarker(r.p, r.id, r.tx), MarkerLooks(r.p), MarkerWrites(r.p, r.now)]
  }

  function WatcherCall(r: Race): seq<FineStep> {
    [WatcherAdds(r.q, r.t), WatcherFinds(r.q, r.hit), WatcherWrites(r.q, r.later)]
  }

  /** The marker looks before the trade is on record, and the watcher looks before the marker has written. */
  predicate BothLookTooEarly(r: Race, s: seq<FineStep>) {
    Precedes(s, MarkerLooks(r.p), WatcherAdds(r.q, r.t)) &&
    Precedes(s, WatcherFinds(r.q, r.hit), MarkerWrites(r.p, r.now))
  }

  /** A READY row, its owner's trade not yet on record, and nobody else at work or waiting. */
  predicate Starts(w: Fine, r: Race) {
    && r.p != r.q && w.jobs == map[]
    && At(w.rows, r.id, READY) && r.t.txHash == Some(r.tx)
    && r.t.market == w.rows[r.id].market && r.t.taker == w.rows[r.id].owner
    && !Traded(w.trades, r.tx, r.t.market, r.t.taker)
    && forall other :: other in w.rows ==> !Awaits(w.rows, other, r.tx, r.t.market, r.t.taker)
  }

  // ---------------------------------------------------------------------------
  // The world after some steps of each call
  // ---------------------------------------------------------------------------

  /** `early`: the marker looked before the trade came; `caught`: the watcher found the row waiting. */
  function RowAfter(w: Fine, r: Race, marked: nat, watched: nat, early: bool, caught: bool): Intent
    requires r.id in w.rows
  {
    var x := w.rows[r.id];
    if marked < 3 then x
    else
      var x1 := x.(status := if early then EXECUTING else EXECUTED, linkedTxHash := Some(r.tx), updatedAt := r.now);
      if watched == 3 && caught then x1.(status := EXECUTED, updatedAt := r.later) else x1
  }

  function MarkerJob(r: Race, marked: nat, early: bool): Job {
    Marker(r.id, r.t.market, r.t.taker, r.tx, if marked == 1 then Checked else if early then Missed else SawTrade)
  }

  function JobsAfter(r: Race, marked: nat, watched: nat, early: bool): map<nat, Job> {
    (if 1 <= marked <= 2 then map[r.p := MarkerJob(r, marked, early)] else map[])
    + (if 1 <= watched <= 2 then map[r.q := Closer(r.tx, r.t.market, r.t.taker, if watched == 1 then None else r.hit)] else map[])
  }

  function After(w: Fine, r: Race, marked: nat, watched: nat, early: bool, caught: bool): Fine
    requires r.id in w.rows
  {
    Fine(if marked < 3 then w.rows else w.rows[r.id := RowAfter(w, r, marked, watched, early, caught)],
         w.trades + if watched == 0 then [] else [r.t], JobsAfter(r, marked, watched, early), w.placements, w.lost)
  }

  lemma MarkerStarts(w: Fine, r: Race, watched: nat, e: bool, e': bool, c: bool)
    requires Starts(w, r) && watched <= 3
    ensures Act(After(w, r, 0, watched, e, c), StartMarker(r.p, r.id, r.tx)) == After(w, r, 1, watched, e', c)
  {
    var w0, w1 := After(w, r, 0, watched, e, c), After(w, r, 1, watched, e', c);
    assert Act(w0, StartMarker(r.p, r.id, r.tx)) == MarkerStep(w0, StartMarker(r.p, r.id, r.tx));
    assert w0.jobs[r.p := MarkerJob(r, 1, e')] == w1.jobs;
  }

  lemma TradeOnRecord(w: Fine, r: Race, watched: nat)
    requires Starts(w, r)
    ensures Traded(w.trades + if watched == 0 then [] else [r.t], r.tx, r.t.market, r.t.taker) <==> watched > 0
  {
    if watched > 0 {
      assert r.t in w.trades + [r.t] && Desk.Concerns(r.t, r.tx, r.t.market, r.t.taker);
    }
  }

  lemma MarkerLooksUp(w: Fine, r: Race, watched: nat, e: bool, c: bool)
    requires Starts(w, r) && watched <= 3
    ensures Act(After(w, r, 1, watched, e, c), MarkerLooks(r.p)) == After(w, r, 2, watched, watched == 0, c)
  {
    var w1, w2 := After(w, r, 1, watched, e, c), After(w, r, 2, watched, watched == 0, c);
    assert Act(w1, MarkerLooks(r.p)) == MarkerStep(w1, MarkerLooks(r.p));
    assert w1.jobs[r.p] == MarkerJob(r, 1, e);
    TradeOnRecord(w, r, watched);
    assert w1.jobs[r.p := MarkerJob(r, 2, watched == 0)] == w2.jobs;
  }

  lemma MarkerEnds(w: Fine, r: Race, watched: nat, e: bool)
    requires Starts(w, r) && watched <= 3
    ensures Act(After(w, r, 2, watched, e, false), MarkerWrites(r.p, r.now)) == After(w, r, 3, watched, e, false)
  {
    var w2, w3 := After(w, r, 2, watched, e, false), After(w, r, 3, watched, e, false);
    assert Act(w2, MarkerWrites(r.p, r.now)) == MarkerStep(w2, MarkerWrites(r.p, r.now));
    assert w2.jobs[r.p] == MarkerJob(r, 2, e);
    assert w2.jobs - {r.p} == w3.jobs;
    assert MarkerWrite(w.rows, MarkerJob(r, 2, e), r.now) == w3.rows;
  }

  lemma WatcherStarts(w: Fine, r: Race, marked: nat, e: bool, c: bool)
    requires Starts(w, r) && marked <= 3
    ensures Act(After(w, r, marked, 0, e, c), WatcherAdds(r.q, r.t)) == After(w, r, marked, 1, e, c)
  {
    var w0, w1 := After(w, r, marked, 0, e, c), After(w, r, marked, 1, e, c);
    assert Act(w0, WatcherAdds(r.q, r.t)) == WatcherStep(w0, WatcherAdds(r.q, r.t));
    assert w0.jobs[r.q := Closer(r.tx, r.t.market, r.t.taker, None)] == w1.jobs;
    assert w.trades + [] == w.trades;
  }

  /** Nobody but the marked row can be waiting. */
  lemma WhoWaits(w: Fine, r: Race, marked: nat, e: bool, c: bool, hit: Option<string>)
    requires Starts(w, r) && marked <= 3 && Found(After(w, r, marked, 1, e, c).rows, hit, r.tx, r.t.market, r.t.taker)
    ensures hit == if marked == 3 && e then Some(r.id) else None
  {
    var rows := After(w, r, marked, 1, e, c).rows;
    assert Awaits(rows, r.id, r.tx, r.t.market, r.t.taker) <==> marked == 3 && e;
    if hit.Some? && hit.value != r.id {
      assert Awaits(w.rows, hit.value, r.tx, r.t.market, r.t.taker);
      assert false;
    }
  }

  lemma WatcherLooksUp(w: Fine, r: Race, marked: nat, e: bool, c: bool)
    requires Starts(w, r) && marked <= 3 && AnswersTruly(After(w, r, marked, 1, e, c), WatcherFinds(r.q, r.hit))
    ensures r.hit == if marked == 3 && e then Some(r.id) else None
    ensures Act(After(w, r, marked, 1, e, c), WatcherFinds(r.q, r.hit)) == After(w, r, marked, 2, e, marked == 3 && e)
  {
    var w1, w2 := After(w, r, marked, 1, e, c), After(w, r, marked, 2, e, marked == 3 && e);
    assert w1.jobs[r.q] == Closer(r.tx, r.t.market, r.t.taker, None);
    WhoWaits(w, r, marked, e, c, r.hit);
    assert Act(w1, WatcherFinds(r.q, r.hit)) == WatcherStep(w1, WatcherFinds(r.q, r.hit));
    assert w1.jobs[r.q := Closer(r.tx, r.t.market, r.t.taker, r.hit)] == w2.jobs;
  }

  lemma WatcherEnds(w: Fine, r: Race, marked: nat, e: bool, c: bool)
    requires Starts(w, r) && marked <= 3 && r.hit == (if c then Some(r.id) else None) && (c ==> marked == 3 && e)
    ensures Act(After(w, r, marked, 2, e, c), WatcherWrites(r.q, r.later)) == After(w, r, marked, 3, e, c)
  {
    var w2, w3 := After(w, r, marked, 2, e, c), After(w, r, marked, 3, e, c);
    assert Act(w2, WatcherWrites(r.q, r.later)) == WatcherStep(w2, WatcherWrites(r.q, r.later));
    assert w2.jobs[r.q] == Closer(r.tx, r.t.market, r.t.taker, r.hit);
    assert w2.jobs - {r.q} == w3.jobs;
    assert WatcherWrite(w2.rows, w2.jobs[r.q], r.later) == w3.rows;
  }

  // ---------------------------------------------------------------------------
  // Every order
  // ---------------------------------------------------------------------------

  /** What the order of the steps says about the outcome so far. */
  predicate Explains(r: Race, s: seq<FineStep>, marked: nat, watched: nat, early: bool, caught: bool) {
    && (MarkerLooks(r.p) in s <==> marked >= 2) && (WatcherFinds(r.q, r.hit) in s <==> watched >= 2)
    && (marked >= 2 ==> (early <==> watched == 0 || Precedes(s, MarkerLooks(r.p), WatcherAdds(r.q, r.t))))
    && (marked < 2 ==> !Precedes(s, MarkerLooks(r.p), WatcherAdds(r.q, r.t)))
    && (watched < 2 ==> !Precedes(s, WatcherFinds(r.q, r.hit), MarkerWrites(r.p, r.now)))
    && (watched >= 2 ==> r.hit == if caught then Some(r.id) else None)
    && (caught ==> marked == 3 && watched >= 2 && early)
    && (marked == 3 && watched >= 2 && early ==>
          (caught <==> !Precedes(s, WatcherFinds(r.q, r.hit), MarkerWrites(r.p, r.now))))
  }

  /** After `marked` steps of the marker and `watched` of the watcher, in the order of `s`. */
  predicate OnTrack(w: Fine, r: Race, s: seq<FineStep>, marked: nat, watched: nat, early: bool, caught: bool)
    requires r.id in w.rows
  {
    && marked <= 3 && watched <= 3
    && Acts(w, s) == After(w, r, marked, watched, early, caught)
    && Explains(r, s, marked, watched, early, caught)
  }

  lemma MarkerActs(w: Fine, r: Race, marked: nat, watched: nat, early: bool, caught: bool)
    requires Starts(w, r) && marked < 3 && watched <= 3 && (caught ==> marked == 3)
    ensures Act(After(w, r, marked, watched, early, caught), MarkerCall(r)[marked])
         == After(w, r, marked + 1, watched, if marked == 1 then watched == 0 else early, caught)
  {
    if marked == 0 {
      MarkerStarts(w, r, watched, early, early, caught);
    } else if marked == 1 {
      MarkerLooksUp(w, r, watched, early, caught);
    } else {
      MarkerEnds(w, r, watched, early);
    }
  }

  lemma MarkerExplains(r: Race, s: seq<FineStep>, marked: nat, watched: nat, early: bool, caught: bool)
    requires Explains(r, s, marked, watched, early, caught) && marked < 3 && watched <= 3
    ensures Explains(r, s + [MarkerCall(r)[marked]], marked + 1, watched, if marked == 1 then watched == 0 else early, caught)
  {
    var z := MarkerCall(r)[marked];
    PrecedesOneMore(s, z, MarkerLooks(r.p), WatcherAdds(r.q, r.t));
    PrecedesOneMore(s, z, WatcherFinds(r.q, r.hit), MarkerWrites(r.p, r.now));
  }

  lemma MarkerMoves(w: Fine, r: Race, s: seq<FineStep>, marked: nat, watched: nat, early: bool, caught: bool)
    requires Starts(w, r) && OnTrack(w, r, s, marked, watched, early, caught) && marked < 3
    ensures OnTrack(w, r, s + [MarkerCall(r)[marked]], marked + 1, watched, if marked == 1 then watched == 0 else early, caught)
  {
    OneStepMore(w, s, MarkerCall(r)[marked]);
    MarkerActs(w, r, marked, watched, early, caught);
    MarkerExplains(r, s, marked, watched, early, caught);
  }

  lemma WatcherActs(w: Fine, r: Race, marked: nat, watched: nat, early: bool, caught: bool)
    requires Starts(w, r) && marked <= 3 && watched < 3
    requires AnswersTruly(After(w, r, marked, watched, early, caught), WatcherCall(r)[watched])
    requires watched == 2 ==> r.hit == (if caught then Some(r.id) else None) && (caught ==> marked == 3 && early)
    ensures watched == 1 ==> r.hit == if marked == 3 && early then Some(r.id) else None
    ensures Act(After(w, r, marked, watched, early, caught), WatcherCall(r)[watched])
         == After(w, r, marked, watched + 1, early, if watched == 1 then marked == 3 && early else caught)
  {
    if watched == 0 {
      WatcherStarts(w, r, marked, early, caught);
    } else if watched == 1 {
      WatcherLooksUp(w, r, marked, early, caught);
    } else {
      WatcherEnds(w, r, marked, early, caught);
    }
  }

  lemma WatcherExplains(r: Race, s: seq<FineStep>, marked: nat, watched: nat, early: bool, caught: bool)
    requires Explains(r, s, marked, watched, early, caught) && marked <= 3 && watched < 3
    requires watched == 1 ==> r.hit == if marked == 3 && early then Some(r.id) else None
    ensures Explains(r, s + [WatcherCall(r)[watched]], marked, watched + 1, early,
                     if watched == 1 then marked == 3 && early else caught)
  {
    var z := WatcherCall(r)[watched];
    PrecedesOneMore(s, z, MarkerLooks(r.p), WatcherAdds(r.q, r.t));
    PrecedesOneMore(s, z, WatcherFinds(r.q, r.hit), MarkerWrites(r.p, r.now));
  }

  lemma WatcherMoves(w: Fine, r: Race, s: seq<FineStep>, marked: nat, watched: nat, early: bool, caught: bool)
    requires Starts(w, r) && OnTrack(w, r, s, marked, watched, early, caught) && watched < 3
    requires AnswersTruly(Acts(w, s), WatcherCall(r)[watched])
    ensures OnTrack(w, r, s + [WatcherCall(r)[watched]], marked, watched + 1, early,
                    if watched == 1 then marked == 3 && early else caught)
  {
    OneStepMore(w, s, WatcherCall(r)[watched]);
    WatcherActs(w, r, marked, watched, early, caught);
    WatcherExplains(r, s, marked, watched, early, caught);
  }

  lemma NothingYet(w: Fine, r: Race)
    requires Starts(w, r)
    ensures OnTrack(w, r, [], 0, 0, false, false)
  {
    assert JobsAfter(r, 0, 0, false) == map[] && w.trades + [] == w.trades;
  }

  /** Whose step came last. */
  lemma LastOf(r: Race, s: seq<FineStep>, marked: nat, watched: nat) returns (byMarker: bool)
    requires s != [] && marked <= 3 && watched <= 3 && Interleaves(MarkerCall(r)[..marked], WatcherCall(r)[..watched], s)
    ensures byMarker ==> marked > 0 && s == s[..|s| - 1] + [MarkerCall(r)[marked - 1]]
                         && Interleaves(MarkerCall(r)[..marked - 1], WatcherCall(r)[..watched], s[..|s| - 1])
    ensures !byMarker ==> watched > 0 && s == s[..|s| - 1] + [WatcherCall(r)[watched - 1]]
                          && Interleaves(MarkerCall(r)[..marked], WatcherCall(r)[..watched - 1], s[..|s| - 1])
  {
    var a, b := MarkerCall(r)[..marked], WatcherCall(r)[..watched];
    assert marked > 0 ==> a[..|a| - 1] == MarkerCall(r)[..marked - 1];
    assert watched > 0 ==> b[..|b| - 1] == WatcherCall(r)[..watched - 1];
    byMarker := a != [] && a[|a| - 1] == s[|s| - 1] && Interleaves(a[..|a| - 1], b, s[..|s| - 1]);
  }

  lemma MarkerCameLast(w: Fine, r: Race, s: seq<FineStep>, marked: nat, watched: nat, early: bool, caught: bool)
    returns (early': bool)
    requires Starts(w, r) && s != [] && 0 < marked <= 3 && s == s[..|s| - 1] + [MarkerCall(r)[marked - 1]]
    requires OnTrack(w, r, s[..|s| - 1], marked - 1, watched, early, caught)
    ensures OnTrack(w, r, s, marked, watched, early', caught)
  {
    MarkerMoves(w, r, s[..|s| - 1], marked - 1, watched, early, caught);
    early' := if marked == 2 then watched == 0 else early;
  }

  lemma WatcherCameLast(w: Fine, r: Race, s: seq<FineStep>, marked: nat, watched: nat, early: bool, caught: bool)
    returns (caught': bool)
    requires Starts(w, r) && s != [] && 0 < watched <= 3 && s == s[..|s| - 1] + [WatcherCall(r)[watched - 1]]
    requires OnTrack(w, r, s[..|s| - 1], marked, watched - 1, early, caught) && Truthful(w, s)
    ensures OnTrack(w, r, s, marked, watched, early, caught')
  {
    WatcherMoves(w, r, s[..|s| - 1], marked, watched - 1, early, caught);
    caught' := if watched == 2 then marked == 3 && early else caught;
  }

  lemma {:induction false} EveryOrderOnTrack(w: Fine, r: Race, s: seq<FineStep>, marked: nat, watched: nat)
    returns (early: bool, caught: bool)
    requires Starts(w, r) && marked <= 3 && watched <= 3
    requires Interleaves(MarkerCall(r)[..marked], WatcherCall(r)[..watched], s) && Truthful(w, s)
    ensures OnTrack(w, r, s, marked, watched, early, caught)
  {
    if s == [] {
      early, caught := false, false;
      NothingYet(w, r);
    } else {
      var byMarker := LastOf(r, s, marked, watched);
      if byMarker {
        early, caught := EveryOrderOnTrack(w, r, s[..|s| - 1], marked - 1, watched);
        early := MarkerCameLast(w, r, s, marked, watched, early, caught);
      } else {
        early, caught := EveryOrderOnTrack(w, r, s[..|s| - 1], marked, watched - 1);
        caught := WatcherCameLast(w, r, s, marked, watched, early, caught);
      }
    }
  }

  /** Whatever the order of their database calls, one marker and one watched fill leave the intent
      waiting beside its own trade, with nobody left to tell it, exactly when both looked too early;
      in every other order it ends executed under the transaction. One order in which they do miss each
      other is InterleavingSafety.MarkerAndWatcherCanMiss. */
  lemma MarkerAndWatcherMissIff(w: Fine, r: Race, s: seq<FineStep>)
    requires Starts(w, r) && Interleaves(MarkerCall(r), WatcherCall(r), s) && Truthful(w, s)
    ensures Stranded(Acts(w, s), r.id, r.tx) <==> BothLookTooEarly(r, s)
    ensures !BothLookTooEarly(r, s) ==>
              At(Acts(w, s).rows, r.id, EXECUTED) && Acts(w, s).rows[r.id].linkedTxHash == Some(r.tx)
  {
    assert MarkerCall(r)[..3] == MarkerCall(r) && WatcherCall(r)[..3] == WatcherCall(r);
    var early, caught := EveryOrderOnTrack(w, r, s, 3, 3);
    TradeOnRecord(w, r, 3);
  }
}
