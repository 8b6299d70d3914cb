/**
  A realtime pull from its event to its end: what it takes, acknowledges and counts,
  and that it ends.
*/
module PullOutcome {
  import opened Wrappers
  import opened PendingPull

  ghost predicate Apart(rows: seq<Row>) { forall i, j :: 0 <= i < j < |rows| ==> rows[i].id != rows[j].id }

  // ----------------------------------------------------- what a pass takes

  /** Shown at this pass: decrypted, or failing for the fifth time. */
  predicate Due(fails: map<Id, nat>, row: Row) { !row.failed || Count(fails, row.id) >= 4 }

  lemma {:induction false} Untouched(fails: map<Id, nat>, rows: seq<Row>, i: nat, id: Id)
    requires i <= |rows| && forall j :: i <= j < |rows| ==> rows[j].id != id
    ensures Count(Pass(fails, rows, i, []).fails, id) == Count(fails, id) && id !in Pass(fails, rows, i, []).ids
    decreases |rows| - i
  {
    if i < |rows| {
      var x, n := rows[i].id, Count(fails, rows[i].id) + 1;
      if rows[i].failed && n < RETRY_CAP {
        Untouched(fails[x := n], rows, i + 1, id);
      } else {
        Untouched(fails - {x}, rows, i + 1, id);
        TakenFirst(fails, rows, i);
      }
    }
  }

  /** A pass over distinct slots takes exactly those that decrypted or have now failed
      five times; a slot taken counts from nothing again, one that was not has one
      failure more, and the counts of all others stay. */
  lemma {:induction false} PassTakes(fails: map<Id, nat>, rows: seq<Row>, i: nat, k: nat)
    requires i <= k < |rows| && Apart(rows)
    ensures var p := Pass(fails, rows, i, []); var row := rows[k];
      && (row.id in p.ids <==> Due(fails, row))
      && Count(p.fails, row.id) == if Due(fails, row) then 0 else Count(fails, row.id) + 1
    decreases |rows| - i
  {
    var x, n := rows[i].id, Count(fails, rows[i].id) + 1;
    var taken := !(rows[i].failed && n < RETRY_CAP);
    var next := if taken then fails - {x} else fails[x := n];
    if taken {
      TakenFirst(fails, rows, i);
    }
    if k == i {
      Untouched(next, rows, i + 1, x);
    } else {
      assert rows[i].id != rows[k].id;
      PassTakes(next, rows, i + 1, k);
    }
  }

  // ------------------------------------------------------ from event to end

  function Repeated(a: Step, n: nat): seq<Step> { if n == 0 then [] else [a] + Repeated(a, n - 1) }

  lemma {:induction false} DrainRuns(s: State, n: nat)
    requires Drain(s, n).Some?
    ensures CanRun(s, Repeated(Cached(0), n)) && Run(s, Repeated(Cached(0), n)) == Drain(s, n).value
    decreases n
  {
    if n > 0 {
      DrainRuns(Take(s, 0), n - 1);
      assert Repeated(Cached(0), n)[1..] == Repeated(Cached(0), n - 1);
    }
  }

  lemma {:induction false} RunOn(s: State, run: seq<Step>, more: seq<Step>)
    requires CanRun(s, run) && CanRun(Run(s, run), more)
    ensures CanRun(s, run + more) && Run(s, run + more) == Run(Run(s, run), more)
    decreases |run|
  {
    if run == [] {
      assert run + more == more;
    } else {
      assert (run + more)[1..] == run[1..] + more;
      RunOn(Next(s, run[0]), run[1..], more);
    }
  }

  /** Nothing is under way, and chat `c` is open and set up with keys. */
  predicate Ready(s: State, c: Chat) {
    s.active == Some(c) && s.mounted == Some(c) && s.usable && !s.pulling && s.pulls == []
  }

  /** An event of the open chat is served: by a fetch at once, or by one more round of
      the pull that is under way. */
  lemma EventServed(s: State, c: Chat)
    requires Inv(s) && s.active == Some(c) && s.mounted == Some(c) && s.usable
    ensures var t := Next(s, Event);
      t.pulling && if s.pulling then t.again && t.pulls == s.pulls else t.pulls == [Pull(c, Fetching)] && !t.again
  {
  }

  /** Whether events are served is settled when the chat is set up: with keys and context
      the next event of the open chat has a pull, without them it changes no pull. */
  lemma KeysMatter(s: State, ready: bool)
    requires Inv(s) && s.active.Some?
    ensures var t := Next(Next(s, Mount(ready)), Event);
      if ready then t.pulling && (s.pulling ==> t.again)
      else t.pulling == s.pulling && t.again == s.again && t.pulls == s.pulls
  {
    if ready {
      EventServed(Next(s, Mount(true)), s.active.value);
    }
  }

  lemma Opening(s: State, c: Chat, slots: seq<Id>, outcome: seq<bool>) returns (u: State)
    requires Ready(s, c) && slots != [] && |outcome| == |slots|
    ensures CanRun(s, [Event, Fetched(0, slots)])
    ensures u == Run(s, [Event, Fetched(0, slots)]) && u.active == Some(c) && u.pulls == [Pull(c, Decrypting(slots))]
    ensures !u.again && u.fails == s.fails && u.acked == s.acked && u.log == s.log
  {
    var begun := Next(s, Event);
    assert begun.pulls == [Pull(c, Fetching)];
    Extend(s, [], Event);
    assert [] + [Event] == [Event];
    Extend(s, [Event], Fetched(0, slots));
    assert [Event] + [Fetched(0, slots)] == [Event, Fetched(0, slots)];
    u := Next(begun, Fetched(0, slots));
  }

  lemma Rowed(u: State, slots: seq<Id>, outcome: seq<bool>) returns (w: State)
    requires |u.pulls| == 1 && u.pulls[0].stage == Decrypting(slots) && |outcome| == |slots|
    requires u.active == Some(u.pulls[0].chat) && !u.again
    ensures var rows := Paired(slots, outcome); var n := Shown(u.fails, rows, 0);
      && CanRun(u, [Decrypted(0, outcome)] + Repeated(Cached(0), n))
      && w == Run(u, [Decrypted(0, outcome)] + Repeated(Cached(0), n))
      && w == Batch(After(u, rows, 0), 0, Pass(u.fails, rows, 0, []).ids)
  {
    var rows := Paired(slots, outcome);
    var n := Shown(u.fails, rows, 0);
    RowsArePass(u, rows, 0, []);
    assert [] + Pass(u.fails, rows, 0, []).ids == Pass(u.fails, rows, 0, []).ids;
    var v := Rows(u, 0, rows, 0, []);
    DrainRuns(v, n);
    assert Next(u, Decrypted(0, outcome)) == v;
    assert ([Decrypted(0, outcome)] + Repeated(Cached(0), n))[1..] == Repeated(Cached(0), n);
    w := Drain(v, n).value;
  }

  /** An event in an open chat leads to the end of a pull: undisturbed, it acknowledges
      what the pass over the fetched slots takes, keeps its counts, and is over. */
  lemma PullCompletes(s: State, c: Chat, slots: seq<Id>, outcome: seq<bool>) returns (run: seq<Step>)
    requires Ready(s, c) && slots != [] && |outcome| == |slots|
    ensures CanRun(s, run)
    ensures var t, p := Run(s, run), Pass(s.fails, Paired(slots, outcome), 0, []);
      !t.pulling && t.pulls == [] && t.fails == p.fails && t.acked == s.acked + Elements(p.ids)
  {
    var u := Opening(s, c, slots, outcome);
    var w := Rowed(u, slots, outcome);
    var rows := Paired(slots, outcome);
    var p := Pass(s.fails, rows, 0, []);
    run := [Event, Fetched(0, slots)] + ([Decrypted(0, outcome)] + Repeated(Cached(0), Shown(u.fails, rows, 0)));
    RunOn(s, [Event, Fetched(0, slots)], [Decrypted(0, outcome)] + Repeated(Cached(0), Shown(u.fails, rows, 0)));
    if p.ids == [] {
      assert Elements(p.ids) == {};
    } else {
      Extend(s, run, Acked(0));
      run := run + [Acked(0)];
    }
  }

  // ----------------------------------------------- shown means acknowledged

  lemma {:induction false} RowsTry(s: State, rows: seq<Row>, i: nat, ids: seq<Id>, id: Id)
    requires |s.pulls| == 1 && i <= |rows|
    ensures Taken(id) in Rows(s, 0, rows, i, ids).log <==> Taken(id) in s.log
    decreases |rows| - i
  {
    if i == |rows| || s.active != Some(s.pulls[0].chat) {
      BatchCounts(s, ids, id);
    } else if rows[i].failed && Count(s.fails, rows[i].id) + 1 < RETRY_CAP {
      var x, n := rows[i].id, Count(s.fails, rows[i].id) + 1;
      RowsTry(s.(log := s.log + [Tried(x, true)], fails := s.fails[x := n]), rows, i + 1, ids, id);
    }
  }

  predicate Covered(s: State, id: Id) { Taken(id) in s.log ==> Listed(s, id) }

  lemma TakeCovers(s: State, id: Id)
    requires Inv(s) && Enabled(s, Cached(0)) && Covered(s, id)
    ensures Covered(Take(s, 0), id)
  {
    var st := s.pulls[0].stage;
    var x := st.rows[st.i].id;
    var u := s.(log := s.log + [Taken(x)], fails := s.fails - {x});
    RowsTry(u, st.rows, st.i + 1, st.ids + [x], id);
    RowsList(u, st.rows, st.i + 1, st.ids + [x], id);
  }

  lemma StepCovers(s: State, a: Step, id: Id)
    requires Inv(s) && Enabled(s, a) && Covered(s, id)
    ensures Covered(Next(s, a), id)
  {
    match a
    case Decrypted(k, outcome) =>
      RowsTry(s, Paired(s.pulls[0].stage.pending, outcome), 0, [], id);
      RowsList(s, Paired(s.pulls[0].stage.pending, outcome), 0, [], id);
    case Cached(k) => TakeCovers(s, id);
    case _ =>
  }

  lemma {:induction false} RunCovers(s: State, run: seq<Step>, id: Id)
    requires Inv(s) && Covered(s, id) && CanRun(s, run)
    ensures Inv(Run(s, run)) && Covered(Run(s, run), id)
    decreases |run|
  {
    if run != [] {
      StepKeeps(s, run[0]);
      StepCovers(s, run[0], id);
      RunCovers(Next(s, run[0]), run[1..], id);
    }
  }

  /** Over every run, whatever chats are switched and requests rejected: the slots that
      were shown are exactly those acknowledged, or in the batch of the pull that is in
      a cache write. */
  lemma ShownIffAcked(run: seq<Step>, id: Id)
    requires CanRun(START, run)
    ensures var s := Run(START, run);
      Taken(id) in s.log <==>
        id in s.acked || (|s.pulls| == 1 && s.pulls[0].stage.Caching? && id in s.pulls[0].stage.ids)
  {
    StartOk();
    RunCovers(START, run, id);
    var s := Run(START, run);
    if |s.pulls| == 1 && s.pulls[0].stage.Caching? && id in s.pulls[0].stage.ids {
      assert StageOk(s, s.pulls[0]);
      assert id in Elements(s.pulls[0].stage.ids);
    }
  }

  // ------------------------------------------------------------- it ends

  predicate OfPull(a: Step) { !a.Switch? && !a.Mount? && !a.Event? }

  /** Asked for nothing more, a pull comes to its end: every step of it, failures
      included, finishes it or moves it on, through the stages and the rows. */
  lemma PullEnds(s: State, a: Step)
    requires Inv(s) && s.pulling && !s.again && Enabled(s, a) && OfPull(a)
    ensures var t := Next(s, a);
      !t.again && if t.pulls == [] then !t.pulling else
        |t.pulls| == 1 && (Rank(t.pulls[0].stage) < Rank(s.pulls[0].stage) ||
          (Rank(t.pulls[0].stage) == Rank(s.pulls[0].stage) && RowsLeft(t.pulls[0].stage) < RowsLeft(s.pulls[0].stage)))
  {
    match a
    case Decrypted(k, outcome) =>
      var rows := Paired(s.pulls[k].stage.pending, outcome);
      RowsReach(s, rows, 0, []);
      if s.active == Some(s.pulls[k].chat) && FirstTaken(s.fails, rows, 0).Some? {
        RowsStage(s, rows, 0, []);
      }
    case Cached(k) =>
      var st := s.pulls[0].stage;
      var id := st.rows[st.i].id;
      RowsGoOn(s.(log := s.log + [Taken(id)], fails := s.fails - {id}), st.rows, st.i + 1, st.ids + [id]);
    case _ =>
  }
}
