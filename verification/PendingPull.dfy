/**
  The realtime pull of pending message slots: a fan-out event starts a pull or
  asks the running one to go round again. Every `await` of the pull is a point at
  which events arrive, chats are switched and requests fail.
*/
module PendingPull {
  import opened Wrappers

  type Chat(==) = nat
  type Id(==) = nat

  const RETRY_CAP := 5

  /** A decrypted slot; `failed` is the `[DECRYPT_FAIL]` placeholder. */
  datatype Row = Row(id: Id, failed: bool)

  /** Where a pull waits. */
  datatype Stage =
    | Fetching
    | Decrypting(pending: seq<Id>)
    | Caching(rows: seq<Row>, i: nat, ids: seq<Id>)
    | Acking

  datatype Pull = Pull(chat: Chat, stage: Stage)

  /** What happened to slots, in order: tried, then shown and put in the ack batch. */
  datatype Entry = Tried(id: Id, failed: bool) | Taken(id: Id)

  /** `active` is the session's chat, `mounted` the one the effect was set up for, with
      `usable` keys and chat context or without,
      `pulling` and `again` the two refs, `fails` the failure counter; `pulls` are
      the calls in flight. `owed`: since the mounted chat was mounted an event of it came
      in, and no fetch of it has started since; `log` and `acked` record what was done. */
  datatype State = State(
    active: Option<Chat>, mounted: Option<Chat>, usable: bool, pulling: bool, again: bool, fails: map<Id, nat>,
    pulls: seq<Pull>, owed: bool, log: seq<Entry>, acked: set<Id>)

  datatype Step =
    | Switch(chat: Option<Chat>)
    | Mount(ready: bool)
    | Event
    | Fetched(k: nat, slots: seq<Id>)
    | FetchFails(k: nat)
    | Decrypted(k: nat, outcome: seq<bool>)
    | DecryptFails(k: nat)
    | Cached(k: nat)
    | Acked(k: nat)

  function Count(fails: map<Id, nat>, id: Id): nat { if id in fails then fails[id] else 0 }

  // -------------------------------------------------------- the segments

  function Without(pulls: seq<Pull>, k: nat): seq<Pull>
    requires k < |pulls|
  {
    pulls[..k] + pulls[k + 1..]
  }

  /** `finally`. */
  function Finish(s: State, k: nat): State
    requires k < |s.pulls|
  {
    s.(pulling := false, pulls := Without(s.pulls, k))
  }

  function At(s: State, k: nat, stage: Stage): State
    requires k < |s.pulls|
  {
    s.(pulls := s.pulls[k := Pull(s.pulls[k].chat, stage)])
  }

  /** The head of the loop: a fetch starts, unless another chat is open by now. */
  function Top(s: State, k: nat): State
    requires k < |s.pulls|
  {
    var chat := s.pulls[k].chat;
    if s.active != Some(chat) then Finish(s.(again := false), k)
    else At(s, k, Fetching).(again := false, owed := s.owed && s.mounted != Some(chat))
  }

  function LoopTest(s: State, k: nat): State
    requires k < |s.pulls|
  {
    if s.again then Top(s, k) else Finish(s, k)
  }

  /** After the loop over the rows. */
  function Batch(s: State, k: nat, ids: seq<Id>): State
    requires k < |s.pulls|
  {
    if ids != [] then At(s.(acked := s.acked + Elements(ids)), k, Acking) else LoopTest(s, k)
  }

  /** The rows from `i` on, up to the next await. */
  function Rows(s: State, k: nat, rows: seq<Row>, i: nat, ids: seq<Id>): State
    requires k < |s.pulls| && i <= |rows|
    decreases |rows| - i
  {
    if i == |rows| || s.active != Some(s.pulls[k].chat) then Batch(s, k, ids)
    else
      var row := rows[i];
      var t := s.(log := s.log + [Tried(row.id, row.failed)]);
      if row.failed then
        var n := Count(s.fails, row.id) + 1;
        var u := t.(fails := s.fails[row.id := n]);
        if n < RETRY_CAP then Rows(u, k, rows, i + 1, ids) else At(u, k, Caching(rows, i, ids))
      else At(t, k, Caching(rows, i, ids))
  }

  /** A fan-out event of the mounted chat; without keys and context it is dropped. */
  function Arrive(s: State): State {
    if s.mounted.None? then s
    else
      var t := s.(owed := true);
      if !s.usable then t
      else if s.pulling then t.(again := true)
      else Top(t.(pulling := true, pulls := s.pulls + [Pull(s.mounted.value, Fetching)]), |s.pulls|)
  }

  /** `cacheMessage` is back: show the row, whatever chat is open. */
  function Take(s: State, k: nat): State
    requires k < |s.pulls| && s.pulls[k].stage.Caching? && s.pulls[k].stage.i < |s.pulls[k].stage.rows|
  {
    var st := s.pulls[k].stage;
    var id := st.rows[st.i].id;
    Rows(s.(log := s.log + [Taken(id)], fails := s.fails - {id}), k, st.rows, st.i + 1, st.ids + [id])
  }

  predicate Enabled(s: State, a: Step) {
    match a
    case Fetched(k, _) => k < |s.pulls| && s.pulls[k].stage.Fetching?
    case FetchFails(k) => k < |s.pulls| && s.pulls[k].stage.Fetching?
    case Decrypted(k, outcome) =>
      k < |s.pulls| && s.pulls[k].stage.Decrypting? && |outcome| == |s.pulls[k].stage.pending|
    case DecryptFails(k) => k < |s.pulls| && s.pulls[k].stage.Decrypting?
    case Cached(k) => k < |s.pulls| && s.pulls[k].stage.Caching? && s.pulls[k].stage.i < |s.pulls[k].stage.rows|
    case Acked(k) => k < |s.pulls| && s.pulls[k].stage.Acking?
    case _ => true
  }

  /** One output per slot, in order. */
  function Paired(pending: seq<Id>, outcome: seq<bool>): (rows: seq<Row>)
    requires |outcome| == |pending|
    ensures |rows| == |pending|
  {
    seq(|pending|, i requires 0 <= i < |pending| => Row(pending[i], outcome[i]))
  }

  function Next(s: State, a: Step): State
    requires Enabled(s, a)
  {
    match a
    case Switch(chat) => s.(active := chat)
    case Mount(ready) => s.(mounted := s.active, usable := ready, owed := s.owed && s.mounted == s.active)
    case Event => Arrive(s)
    case Fetched(k, slots) => if slots == [] then LoopTest(s, k) else At(s, k, Decrypting(slots))
    case FetchFails(k) => Finish(s, k)
    case Decrypted(k, outcome) => Rows(s, k, Paired(s.pulls[k].stage.pending, outcome), 0, [])
    case DecryptFails(k) => Finish(s, k)
    case Cached(k) => Take(s, k)
    case Acked(k) => LoopTest(s, k)
  }

  function Elements(ids: seq<Id>): set<Id> { set id | id in ids }

  ghost predicate CanRun(s: State, run: seq<Step>)
    decreases |run|
  {
    run == [] || (Enabled(s, run[0]) && CanRun(Next(s, run[0]), run[1..]))
  }

  ghost function Run(s: State, run: seq<Step>): State
    requires CanRun(s, run)
    decreases |run|
  {
    if run == [] then s else Run(Next(s, run[0]), run[1..])
  }

  const START := State(None, None, false, false, false, map[], [], false, [], {})

  // ----------------------------------------------- one pull, justified acks

  /** Failures of `id` since it was last taken. */
  function FailuresSince(log: seq<Entry>, id: Id): nat {
    if log == [] then 0
    else
      var e, before := log[|log| - 1], FailuresSince(log[..|log| - 1], id);
      if e == Taken(id) then 0 else if e == Tried(id, true) then before + 1 else before
  }

  /** Taken right after it was tried, having decrypted or failed for the fifth time. */
  predicate JustifiedAt(log: seq<Entry>, j: nat)
    requires j < |log|
  {
    log[j].Taken? ==>
      j > 0 && log[j - 1].Tried? && log[j - 1].id == log[j].id &&
      (log[j - 1].failed ==> FailuresSince(log[..j], log[j].id) == RETRY_CAP)
  }

  ghost predicate AllTaken(log: seq<Entry>, ids: set<Id>) {
    forall id :: id in ids ==> Taken(id) in log
  }

  /** The stage of the one pull fits the log. */
  ghost predicate StageOk(s: State, p: Pull) {
    match p.stage
    case Caching(rows, i, ids) =>
      i < |rows| && s.log != [] && s.log[|s.log| - 1] == Tried(rows[i].id, rows[i].failed) &&
      (rows[i].failed ==> FailuresSince(s.log, rows[i].id) == RETRY_CAP) && AllTaken(s.log, Elements(ids))
    case _ => true
  }

  /** The id whose fifth failure has been recorded and not yet cleared. */
  function GivingUp(s: State): Option<Id> {
    if |s.pulls| == 1 && s.pulls[0].stage.Caching? && s.pulls[0].stage.i < |s.pulls[0].stage.rows|
    then Some(s.pulls[0].stage.rows[s.pulls[0].stage.i].id) else None
  }

  ghost predicate Counted(s: State) {
    forall id: Id :: Count(s.fails, id) == FailuresSince(s.log, id)
  }

  ghost predicate Bounded(s: State) {
    forall id: Id :: GivingUp(s) != Some(id) ==> Count(s.fails, id) < RETRY_CAP
  }

  ghost predicate Justified(s: State) {
    forall j :: 0 <= j < |s.log| ==> JustifiedAt(s.log, j)
  }

  ghost predicate Inv(s: State) {
    && |s.pulls| == (if s.pulling then 1 else 0)
    && (s.pulling ==> StageOk(s, s.pulls[0]))
    && Counted(s) && Bounded(s) && Justified(s) && AllTaken(s.log, s.acked)
  }

  lemma LogStep(log: seq<Entry>, e: Entry, id: Id)
    ensures FailuresSince(log + [e], id) ==
      if e == Taken(id) then 0 else if e == Tried(id, true) then FailuresSince(log, id) + 1 else FailuresSince(log, id)
  {
    assert (log + [e])[..|log|] == log;
  }

  lemma JustifiedAppend(s: State, e: Entry, t: State)
    requires Justified(s) && t.log == s.log + [e] && JustifiedAt(t.log, |s.log|)
    ensures Justified(t)
  {
    forall j | 0 <= j < |t.log| ensures JustifiedAt(t.log, j) {
      if j < |s.log| {
        assert JustifiedAt(s.log, j);
        assert t.log[..j] == s.log[..j];
      }
    }
  }

  lemma TakenAppend(log: seq<Entry>, e: Entry, ids: set<Id>)
    requires AllTaken(log, ids)
    ensures AllTaken(log + [e], ids)
  {
    forall id | id in ids ensures Taken(id) in log + [e] {
      assert Taken(id) in log;
    }
  }

  lemma CountedTried(s: State, id: Id, failed: bool, t: State)
    requires Counted(s) && t.log == s.log + [Tried(id, failed)]
    requires t.fails == if failed then s.fails[id := Count(s.fails, id) + 1] else s.fails
    ensures Counted(t)
  {
    forall x: Id ensures Count(t.fails, x) == FailuresSince(t.log, x) {
      LogStep(s.log, Tried(id, failed), x);
      assert Count(s.fails, x) == FailuresSince(s.log, x);
    }
  }

  lemma CountedTaken(s: State, id: Id, t: State)
    requires Counted(s) && t.log == s.log + [Taken(id)] && t.fails == s.fails - {id}
    ensures Counted(t)
  {
    forall x: Id ensures Count(t.fails, x) == FailuresSince(t.log, x) {
      LogStep(s.log, Taken(id), x);
      assert Count(s.fails, x) == FailuresSince(s.log, x);
    }
  }

  /** Between two rows of the one pull. */
  ghost predicate Between(s: State, ids: seq<Id>) {
    && |s.pulls| == 1 && s.pulling && Counted(s) && Justified(s)
    && (forall id: Id :: Count(s.fails, id) < RETRY_CAP)
    && AllTaken(s.log, s.acked) && AllTaken(s.log, Elements(ids))
  }

  lemma RestKept(s: State, t: State)
    requires Counted(s) && Justified(s) && (forall id: Id :: Count(s.fails, id) < RETRY_CAP) && AllTaken(s.log, s.acked)
    requires t.log == s.log && t.fails == s.fails && t.acked == s.acked
    requires |t.pulls| == (if t.pulling then 1 else 0) && (t.pulling ==> !t.pulls[0].stage.Caching?)
    ensures Inv(t)
  {
  }

  lemma LoopTestKeeps(s: State)
    requires Between(s, [])
    ensures Inv(LoopTest(s, 0))
  {
    RestKept(s, LoopTest(s, 0));
  }

  lemma BatchKeeps(s: State, ids: seq<Id>)
    requires Between(s, ids)
    ensures Inv(Batch(s, 0, ids))
  {
    if ids == [] {
      LoopTestKeeps(s);
    } else {
      var t := s.(acked := s.acked + Elements(ids));
      RestKept(t, Batch(s, 0, ids));
    }
  }

  /** Trying a row that fails for less than the fifth time. */
  lemma FailedRow(s: State, ids: seq<Id>, id: Id, t: State)
    requires Between(s, ids) && Count(s.fails, id) + 1 < RETRY_CAP
    requires t == s.(log := s.log + [Tried(id, true)], fails := s.fails[id := Count(s.fails, id) + 1])
    ensures Between(t, ids)
  {
    CountedTried(s, id, true, t);
    JustifiedAppend(s, Tried(id, true), t);
    TakenAppend(s.log, Tried(id, true), s.acked);
    TakenAppend(s.log, Tried(id, true), Elements(ids));
    forall x: Id ensures Count(t.fails, x) < RETRY_CAP {
      assert Count(s.fails, x) < RETRY_CAP;
    }
  }

  /** Trying a row that decrypts, or fails for the fifth time. */
  lemma LastTry(s: State, rows: seq<Row>, i: nat, ids: seq<Id>, t: State)
    requires Between(s, ids) && i < |rows|
    requires rows[i].failed ==> Count(s.fails, rows[i].id) + 1 >= RETRY_CAP
    requires t == At(s.(log := s.log + [Tried(rows[i].id, rows[i].failed)],
                        fails := if rows[i].failed
                                 then s.fails[rows[i].id := Count(s.fails, rows[i].id) + 1] else s.fails),
                     0, Caching(rows, i, ids))
    ensures Inv(t)
  {
    var id, failed := rows[i].id, rows[i].failed;
    CountedTried(s, id, failed, t);
    JustifiedAppend(s, Tried(id, failed), t);
    TakenAppend(s.log, Tried(id, failed), s.acked);
    TakenAppend(s.log, Tried(id, failed), Elements(ids));
    assert Count(t.fails, id) == FailuresSince(t.log, id);
    assert t.pulls == [Pull(s.pulls[0].chat, Caching(rows, i, ids))];
    forall x: Id | GivingUp(t) != Some(x) ensures Count(t.fails, x) < RETRY_CAP {
      assert Count(s.fails, x) < RETRY_CAP;
    }
  }

  lemma {:induction false} RowsKeep(s: State, rows: seq<Row>, i: nat, ids: seq<Id>)
    requires Between(s, ids) && i <= |rows|
    ensures Inv(Rows(s, 0, rows, i, ids))
    decreases |rows| - i
  {
    if i == |rows| || s.active != Some(s.pulls[0].chat) {
      BatchKeeps(s, ids);
    } else {
      var id, n := rows[i].id, Count(s.fails, rows[i].id) + 1;
      if rows[i].failed && n < RETRY_CAP {
        var t := s.(log := s.log + [Tried(id, true)], fails := s.fails[id := n]);
        FailedRow(s, ids, id, t);
        RowsKeep(t, rows, i + 1, ids);
      } else {
        LastTry(s, rows, i, ids, Rows(s, 0, rows, i, ids));
      }
    }
  }

  lemma TakeKeeps(s: State)
    requires Inv(s) && Enabled(s, Cached(0))
    ensures Inv(Take(s, 0))
  {
    var st := s.pulls[0].stage;
    var id := st.rows[st.i].id;
    var t := s.(log := s.log + [Taken(id)], fails := s.fails - {id});
    CountedTaken(s, id, t);
    assert t.log[..|s.log|] == s.log;
    JustifiedAppend(s, Taken(id), t);
    TakenAppend(s.log, Taken(id), s.acked);
    TakenAppend(s.log, Taken(id), Elements(st.ids));
    assert t.log[|s.log|] == Taken(id);
    assert AllTaken(t.log, Elements(st.ids + [id]));
    forall x: Id ensures Count(t.fails, x) < RETRY_CAP {
      assert x != id ==> GivingUp(s) != Some(x);
    }
    RowsKeep(t, st.rows, st.i + 1, st.ids + [id]);
  }

  lemma ArriveKeeps(s: State)
    requires Inv(s)
    ensures Inv(Arrive(s))
  {
    var t := Arrive(s);
    if s.mounted.Some? {
      if s.pulling {
        assert t.pulls == s.pulls && GivingUp(t) == GivingUp(s);
      } else {
        assert GivingUp(s) == None;
        RestKept(s, t);
      }
    }
  }

  lemma StepKeeps(s: State, a: Step)
    requires Inv(s) && Enabled(s, a)
    ensures Inv(Next(s, a))
  {
    match a
    case Switch(chat) => assert GivingUp(Next(s, a)) == GivingUp(s);
    case Mount(_) => assert GivingUp(Next(s, a)) == GivingUp(s);
    case Event => ArriveKeeps(s);
    case Fetched(k, slots) =>
      assert GivingUp(s) == None;
      if slots == [] {
        LoopTestKeeps(s);
      } else {
        RestKept(s, Next(s, a));
      }
    case FetchFails(k) =>
      assert GivingUp(s) == None;
      RestKept(s, Next(s, a));
    case Decrypted(k, outcome) =>
      assert GivingUp(s) == None;
      RowsKeep(s, Paired(s.pulls[k].stage.pending, outcome), 0, []);
    case DecryptFails(k) =>
      assert GivingUp(s) == None;
      RestKept(s, Next(s, a));
    case Cached(k) => TakeKeeps(s);
    case Acked(k) =>
      assert GivingUp(s) == None;
      LoopTestKeeps(s);
  }

  /** Over every run: never two pulls, and every acked slot decrypted or failed
      five times, no more and no less, since it was last acked. */
  lemma {:induction false} RunKeeps(s: State, run: seq<Step>)
    requires Inv(s) && CanRun(s, run)
    ensures Inv(Run(s, run))
    decreases |run|
  {
    if run != [] {
      StepKeeps(s, run[0]);
      RunKeeps(Next(s, run[0]), run[1..]);
    }
  }

  lemma StartOk()
    ensures Inv(START)
  {
  }

  lemma OnePull(run: seq<Step>)
    requires CanRun(START, run)
    ensures var t := Run(START, run); |t.pulls| == if t.pulling then 1 else 0
  {
    StartOk();
    RunKeeps(START, run);
  }

  lemma AckedOnlyIfDue(run: seq<Step>, id: Id)
    requires CanRun(START, run) && id in Run(START, run).acked
    ensures var log := Run(START, run).log;
      exists j :: 0 < j < |log| && log[j] == Taken(id) &&
        (log[j - 1] == Tried(id, false) || (log[j - 1] == Tried(id, true) && FailuresSince(log[..j], id) == RETRY_CAP))
  {
    StartOk();
    RunKeeps(START, run);
    var log := Run(START, run).log;
    assert Taken(id) in log;
    var j :| 0 <= j < |log| && log[j] == Taken(id);
    assert JustifiedAt(log, j);
  }

  // --------------------------------------------------------- wake-ups

  predicate Awake(s: State) { s.owed ==> s.pulling && s.again }

  /** The first row from `i` on that is shown: decrypted, or failed often enough. */
  function FirstTaken(fails: map<Id, nat>, rows: seq<Row>, i: nat): Option<nat>
    requires i <= |rows|
    decreases |rows| - i
  {
    if i == |rows| then None
    else if !rows[i].failed then Some(i)
    else
      var n := Count(fails, rows[i].id) + 1;
      if n < RETRY_CAP then FirstTaken(fails[rows[i].id := n], rows, i + 1) else Some(i)
  }

  predicate OnScreen(s: State, k: nat)
    requires k < |s.pulls|
  {
    s.active == Some(s.pulls[k].chat) && s.mounted == s.active
  }

  /** The step brings the pull to its loop test. */
  predicate ReachesTest(s: State, a: Step)
    requires Enabled(s, a)
  {
    match a
    case Fetched(_, slots) => slots == []
    case Decrypted(k, outcome) =>
      s.active != Some(s.pulls[k].chat) || FirstTaken(s.fails, Paired(s.pulls[k].stage.pending, outcome), 0).None?
    case Acked(_) => true
    case _ => false
  }

  /** How an event is forgotten: a request of the running pull rejects, or the loop
      test finds its chat gone from the screen, or the event was for a chat that
      was no longer open, or found no keys and no pull about to go round again. */
  predicate Strands(s: State, a: Step)
    requires Enabled(s, a)
  {
    match a
    case FetchFails(_) => s.owed
    case DecryptFails(_) => s.owed
    case Fetched(k, _) => s.owed && ReachesTest(s, a) && !OnScreen(s, k)
    case Decrypted(k, _) => s.owed && ReachesTest(s, a) && !OnScreen(s, k)
    case Acked(k) => s.owed && !OnScreen(s, k)
    case Event =>
      s.mounted.Some? && if s.usable then !s.pulling && s.active != s.mounted else !(s.pulling && s.again)
    case _ => false
  }

  /** After the rows that are neither shown nor cut off by a switch. */
  function Tries(s: State, rows: seq<Row>, i: nat): (t: State)
    requires |s.pulls| == 1 && i <= |rows|
    ensures t == s.(fails := t.fails, log := t.log)
    decreases |rows| - i
  {
    if i == |rows| || s.active != Some(s.pulls[0].chat) || !rows[i].failed ||
      Count(s.fails, rows[i].id) + 1 >= RETRY_CAP
    then s
    else
      var id, n := rows[i].id, Count(s.fails, rows[i].id) + 1;
      Tries(s.(log := s.log + [Tried(id, true)], fails := s.fails[id := n]), rows, i + 1)
  }

  /** What the rows leave alone, and whether they get to the loop test. */
  lemma {:induction false} RowsReach(s: State, rows: seq<Row>, i: nat, ids: seq<Id>)
    requires |s.pulls| == 1 && i <= |rows|
    ensures var t := Rows(s, 0, rows, i, ids);
      if s.active != Some(s.pulls[0].chat) || FirstTaken(s.fails, rows, i).None?
      then t == Batch(Tries(s, rows, i), 0, ids)
      else t.pulling == s.pulling && t.again == s.again && t.owed == s.owed
    decreases |rows| - i
  {
    if i < |rows| && s.active == Some(s.pulls[0].chat) && rows[i].failed && Count(s.fails, rows[i].id) + 1 < RETRY_CAP {
      var id, n := rows[i].id, Count(s.fails, rows[i].id) + 1;
      RowsReach(s.(log := s.log + [Tried(id, true)], fails := s.fails[id := n]), rows, i + 1, ids);
    }
  }

  lemma TestWakes(s: State)
    requires |s.pulls| == 1 && s.pulling && Awake(s)
    ensures Awake(LoopTest(s, 0)) <==> !(s.owed && !OnScreen(s, 0))
  {
  }

  /** A step leaves an event without a pull that will fetch for it exactly when it
      is one of those. */
  lemma StrandsExactly(s: State, a: Step)
    requires Inv(s) && Awake(s) && Enabled(s, a)
    ensures Awake(Next(s, a)) <==> !Strands(s, a)
  {
    match a
    case Decrypted(k, outcome) =>
      var rows := Paired(s.pulls[k].stage.pending, outcome);
      RowsReach(s, rows, 0, []);
      if ReachesTest(s, a) {
        TestWakes(Tries(s, rows, 0));
      }
    case Fetched(k, slots) =>
      if slots == [] {
        TestWakes(s);
      }
    case Acked(k) => TestWakes(s);
    case Cached(k) => TakeWakes(s);
    case _ =>
  }

  /** Once a row is shown there is a batch to ack, so the pull goes on. */
  lemma TakeWakes(s: State)
    requires Inv(s) && Enabled(s, Cached(0))
    ensures var t := Take(s, 0); t.pulling && t.again == s.again && t.owed == s.owed
  {
    var st := s.pulls[0].stage;
    var id := st.rows[st.i].id;
    RowsGoOn(s.(log := s.log + [Taken(id)], fails := s.fails - {id}), st.rows, st.i + 1, st.ids + [id]);
  }

  lemma {:induction false} RowsGoOn(s: State, rows: seq<Row>, i: nat, ids: seq<Id>)
    requires |s.pulls| == 1 && s.pulling && i <= |rows| && ids != []
    ensures var t := Rows(s, 0, rows, i, ids);
      t.pulling && t.again == s.again && t.owed == s.owed && t.active == s.active && t.mounted == s.mounted
    ensures var t := Rows(s, 0, rows, i, ids);
      |t.pulls| == 1 && t.pulls[0].chat == s.pulls[0].chat && (t.pulls[0].stage.Acking? ||
        (t.pulls[0].stage.Caching? && t.pulls[0].stage.rows == rows && i <= t.pulls[0].stage.i < |rows|))
    decreases |rows| - i
  {
    if i < |rows| && s.active == Some(s.pulls[0].chat) && rows[i].failed && Count(s.fails, rows[i].id) + 1 < RETRY_CAP {
      var id, n := rows[i].id, Count(s.fails, rows[i].id) + 1;
      RowsGoOn(s.(log := s.log + [Tried(id, true)], fails := s.fails[id := n]), rows, i + 1, ids);
    }
  }

  // ------------------------------------------ while the chat stays open

  /** Chat `c` is open, its effect is in place with keys, and no event waits in vain. */
  ghost predicate Open(s: State, c: Chat) {
    && s.active == Some(c) && s.mounted == Some(c) && s.usable && Awake(s)
    && (s.pulling ==> s.pulls != [] && s.pulls[0].chat == c)
  }

  /** No chat switch, no rejected request, and keys and context still there. */
  predicate Undisturbed(a: Step) { !a.Switch? && !a.FetchFails? && !a.DecryptFails? && (a.Mount? ==> a.ready) }

  lemma {:induction false} RowsSameChat(s: State, rows: seq<Row>, i: nat, ids: seq<Id>)
    requires |s.pulls| == 1 && s.pulling && i <= |rows|
    ensures var t := Rows(s, 0, rows, i, ids);
      t.active == s.active && t.mounted == s.mounted && t.usable == s.usable &&
        (t.pulling ==> t.pulls != [] && t.pulls[0].chat == s.pulls[0].chat)
    decreases |rows| - i
  {
    if i < |rows| && s.active == Some(s.pulls[0].chat) && rows[i].failed && Count(s.fails, rows[i].id) + 1 < RETRY_CAP {
      var id, n := rows[i].id, Count(s.fails, rows[i].id) + 1;
      RowsSameChat(s.(log := s.log + [Tried(id, true)], fails := s.fails[id := n]), rows, i + 1, ids);
    }
  }

  lemma OpenKeeps(s: State, a: Step, c: Chat)
    requires Inv(s) && Open(s, c) && Enabled(s, a) && Undisturbed(a)
    ensures Open(Next(s, a), c)
  {
    StrandsExactly(s, a);
    match a
    case Decrypted(k, outcome) => RowsSameChat(s, Paired(s.pulls[k].stage.pending, outcome), 0, []);
    case Cached(k) =>
      var st := s.pulls[0].stage;
      var id := st.rows[st.i].id;
      RowsSameChat(s.(log := s.log + [Taken(id)], fails := s.fails - {id}), st.rows, st.i + 1, st.ids + [id]);
    case _ =>
  }

  /** While chat `c` stays open and no request rejects, an event always has a
      running pull of `c` that will fetch again; a pull that ends owes nothing. */
  lemma {:induction false} NoLostWakeUp(s: State, run: seq<Step>, c: Chat)
    requires Inv(s) && Open(s, c) && CanRun(s, run) && forall a :: a in run ==> Undisturbed(a)
    ensures var t := Run(s, run);
      t.owed ==> t.pulling && t.again && |t.pulls| == 1 && t.pulls[0].chat == c && t.active == Some(c)
    decreases |run|
  {
    if run != [] {
      assert Undisturbed(run[0]);
      StepKeeps(s, run[0]);
      OpenKeeps(s, run[0], c);
      NoLostWakeUp(Next(s, run[0]), run[1..], c);
    }
  }

  function Rank(st: Stage): nat {
    match st
    case Fetching => 3
    case Decrypting(_) => 2
    case Caching(_, _, _) => 1
    case Acking => 0
  }

  function RowsLeft(st: Stage): nat {
    if st.Caching? && st.i < |st.rows| then |st.rows| - st.i else 0
  }

  lemma TestFetches(s: State, c: Chat)
    requires |s.pulls| == 1 && s.pulls[0].chat == c && s.active == Some(c) == s.mounted && s.again
    ensures !LoopTest(s, 0).owed
  {
  }

  /** And that fetch comes: every step of the pull itself either starts it or moves
      the pull on, through the stages and within one through its rows. */
  lemma PullProgress(s: State, a: Step, c: Chat)
    requires Inv(s) && Open(s, c) && s.owed && Enabled(s, a) && Undisturbed(a) && !a.Mount? && !a.Event?
    ensures var t := Next(s, a);
      !t.owed || (|t.pulls| == 1 && (Rank(t.pulls[0].stage) < Rank(s.pulls[0].stage) ||
        (Rank(t.pulls[0].stage) == Rank(s.pulls[0].stage) && RowsLeft(t.pulls[0].stage) < RowsLeft(s.pulls[0].stage))))
  {
    match a
    case Decrypted(k, outcome) =>
      var rows := Paired(s.pulls[k].stage.pending, outcome);
      RowsReach(s, rows, 0, []);
      if FirstTaken(s.fails, rows, 0).Some? {
        RowsStage(s, rows, 0, []);
      } else {
        TestFetches(Tries(s, rows, 0), c);
      }
    case Cached(k) =>
      var st := s.pulls[0].stage;
      var id := st.rows[st.i].id;
      RowsGoOn(s.(log := s.log + [Taken(id)], fails := s.fails - {id}), st.rows, st.i + 1, st.ids + [id]);
    case _ =>
  }

  lemma {:induction false} RowsStage(s: State, rows: seq<Row>, i: nat, ids: seq<Id>)
    requires |s.pulls| == 1 && i <= |rows| && s.active == Some(s.pulls[0].chat) && FirstTaken(s.fails, rows, i).Some?
    ensures var t := Rows(s, 0, rows, i, ids); |t.pulls| == 1 && t.pulls[0].stage.Caching?
    decreases |rows| - i
  {
    if rows[i].failed && Count(s.fails, rows[i].id) + 1 < RETRY_CAP {
      var id, n := rows[i].id, Count(s.fails, rows[i].id) + 1;
      RowsStage(s.(log := s.log + [Tried(id, true)], fails := s.fails[id := n]), rows, i + 1, ids);
    }
  }

  // ------------------------------------------------- where it falls short

  /** Chat 1 is open and a pull of it has begun. */
  lemma PullOfOne()
    ensures CanRun(START, [Switch(Some(1)), Mount(true), Event])
    ensures Run(START, [Switch(Some(1)), Mount(true), Event]) ==
      State(Some(1), Some(1), true, true, false, map[], [Pull(1, Fetching)], false, [], {})
  {
    var r := [Switch(Some(1)), Mount(true), Event];
    assert r[1..] == [Mount(true), Event] && r[1..][1..] == [Event] && r[1..][1..][1..] == [];
  }

  lemma {:induction false} Extend(s: State, run: seq<Step>, a: Step)
    requires CanRun(s, run) && Enabled(Run(s, run), a)
    ensures CanRun(s, run + [a]) && Run(s, run + [a]) == Next(Run(s, run), a)
    decreases |run|
  {
    if run == [] {
      assert run + [a] == [a] && [a][1..] == [];
    } else {
      assert (run + [a])[1..] == run[1..] + [a];
      Extend(Next(s, run[0]), run[1..], a);
    }
  }

  /** An event for the chat just opened, while a pull of the previous one runs, only
      sets `again`; that pull then stops, and no pull is left for the open chat. */
  lemma EventAfterSwitchLost()
    ensures exists run :: CanRun(START, run) && var s := Run(START, run);
      s.owed && !s.pulling && s.active == Some(2) && s.mounted == Some(2)
  {
    var run := [Switch(Some(1)), Mount(true), Event];
    PullOfOne();
    Extend(START, run, Switch(Some(2)));
    run := run + [Switch(Some(2))];
    Extend(START, run, Mount(true));
    run := run + [Mount(true)];
    Extend(START, run, Event);
    run := run + [Event];
    Extend(START, run, Fetched(0, []));
    run := run + [Fetched(0, [])];
  }

  /** A rejected fetch takes the request to go round again with it. */
  lemma EventAtRejectionLost()
    ensures exists run :: CanRun(START, run) && var s := Run(START, run);
      s.owed && !s.pulling && s.active == Some(1) && s.mounted == Some(1)
  {
    var run := [Switch(Some(1)), Mount(true), Event];
    PullOfOne();
    Extend(START, run, Event);
    run := run + [Event];
    Extend(START, run, FetchFails(0));
    run := run + [FetchFails(0)];
  }

  // -------------------------------------------- rows shown in another chat

  /** What decides where a row comes up: the look at the open chat before its cache
      write, switches, and the append behind the write, with the chat open then. */
  datatype Sighting =
    | Check(id: Id, chat: Chat, open: Option<Chat>)
    | Switched(to: Option<Chat>)
    | Show(id: Id, chat: Chat, open: Option<Chat>)

  /** The look that let the pull go on to a cache write. */
  function Checked(t: State): seq<Sighting> {
    if GivingUp(t).Some? then [Check(GivingUp(t).value, t.pulls[0].chat, t.active)] else []
  }

  function Sights(s: State, a: Step): seq<Sighting>
    requires Enabled(s, a)
  {
    match a
    case Switch(chat) => [Switched(chat)]
    case Decrypted(_, _) => Checked(Next(s, a))
    case Cached(k) =>
      var st := s.pulls[k].stage;
      [Show(st.rows[st.i].id, s.pulls[k].chat, s.active)] + Checked(Next(s, a))
    case _ => []
  }

  /** The sightings of a run, behind those seen before. */
  ghost function Trace(s: State, run: seq<Step>, seen: seq<Sighting>): seq<Sighting>
    requires CanRun(s, run)
    decreases |run|
  {
    if run == [] then seen else Trace(Next(s, run[0]), run[1..], seen + Sights(s, run[0]))
  }

  /** Behind its look, at which the chat was open, only switches. */
  predicate LookedAt(seen: seq<Sighting>, c: nat, id: Id, chat: Chat, end: nat) {
    c < end <= |seen| && seen[c] == Check(id, chat, Some(chat)) && forall m :: c < m < end ==> seen[m].Switched?
  }

  /** The chat open at `end`, the look being at `c`. */
  function OpenSince(seen: seq<Sighting>, c: nat, end: nat, chat: Chat): Option<Chat>
    requires c < end <= |seen|
  {
    if c + 1 < end && seen[end - 1].Switched? then seen[end - 1].to else Some(chat)
  }

  ghost predicate ShowOk(seen: seq<Sighting>, j: nat)
    requires j < |seen|
  {
    seen[j].Show? ==>
      exists c: nat :: LookedAt(seen, c, seen[j].id, seen[j].chat, j) &&
        seen[j].open == OpenSince(seen, c, j, seen[j].chat)
  }

  /** The row in its cache write, if there is one, was looked at, and the last switch
      since has opened what is open. */
  ghost predicate Watched(s: State, seen: seq<Sighting>) {
    && (forall j :: 0 <= j < |seen| ==> ShowOk(seen, j))
    && (GivingUp(s).Some? ==>
          (exists c: nat ::
             LookedAt(seen, c, GivingUp(s).value, s.pulls[0].chat, |seen|) &&
               s.active == OpenSince(seen, c, |seen|, s.pulls[0].chat)))
  }

  lemma ShowsKept(seen: seq<Sighting>, more: seq<Sighting>)
    requires forall j :: 0 <= j < |seen| ==> ShowOk(seen, j)
    ensures forall j :: 0 <= j < |seen| ==> ShowOk(seen + more, j)
  {
    var all := seen + more;
    forall j | 0 <= j < |seen| ensures ShowOk(all, j) {
      assert ShowOk(seen, j);
      if seen[j].Show? {
        var c: nat :| LookedAt(seen, c, seen[j].id, seen[j].chat, j) &&
          seen[j].open == OpenSince(seen, c, j, seen[j].chat);
        assert LookedAt(all, c, seen[j].id, seen[j].chat, j);
      }
    }
  }

  /** A pull reaches a cache write only past a look that found its chat open. */
  lemma {:induction false} RowsLook(s: State, rows: seq<Row>, i: nat, ids: seq<Id>)
    requires |s.pulls| == 1 && i <= |rows|
    ensures var t := Rows(s, 0, rows, i, ids);
      GivingUp(t).Some? ==> t.pulls[0].chat == s.pulls[0].chat && t.active == s.active == Some(s.pulls[0].chat)
    decreases |rows| - i
  {
    if i < |rows| && s.active == Some(s.pulls[0].chat) && rows[i].failed && Count(s.fails, rows[i].id) + 1 < RETRY_CAP {
      var id, n := rows[i].id, Count(s.fails, rows[i].id) + 1;
      RowsLook(s.(log := s.log + [Tried(id, true)], fails := s.fails[id := n]), rows, i + 1, ids);
    }
  }

  lemma LookEnds(t: State, seen: seq<Sighting>)
    requires forall j :: 0 <= j < |seen| ==> ShowOk(seen, j)
    requires GivingUp(t).Some? ==> t.active == Some(t.pulls[0].chat)
    ensures Watched(t, seen + Checked(t))
  {
    ShowsKept(seen, Checked(t));
    if GivingUp(t).Some? {
      assert LookedAt(seen + Checked(t), |seen|, GivingUp(t).value, t.pulls[0].chat, |seen| + 1);
    }
  }

  lemma SwitchWatched(s: State, chat: Option<Chat>, seen: seq<Sighting>)
    requires Watched(s, seen)
    ensures Watched(s.(active := chat), seen + [Switched(chat)])
  {
    var all := seen + [Switched(chat)];
    ShowsKept(seen, [Switched(chat)]);
    if GivingUp(s).Some? {
      var c: nat :| LookedAt(seen, c, GivingUp(s).value, s.pulls[0].chat, |seen|);
      assert LookedAt(all, c, GivingUp(s).value, s.pulls[0].chat, |all|);
    }
  }

  lemma TakeWatched(s: State, seen: seq<Sighting>)
    requires Inv(s) && Enabled(s, Cached(0)) && Watched(s, seen)
    ensures Watched(Take(s, 0), seen + Sights(s, Cached(0)))
  {
    var st, chat := s.pulls[0].stage, s.pulls[0].chat;
    var id := st.rows[st.i].id;
    var show := Show(id, chat, s.active);
    var shown := seen + [show];
    ShowsKept(seen, [show]);
    var c: nat :| LookedAt(seen, c, id, chat, |seen|) && s.active == OpenSince(seen, c, |seen|, chat);
    assert LookedAt(shown, c, id, chat, |seen|) && OpenSince(shown, c, |seen|, chat) == s.active;
    assert ShowOk(shown, |seen|);
    RowsLook(s.(log := s.log + [Taken(id)], fails := s.fails - {id}), st.rows, st.i + 1, st.ids + [id]);
    LookEnds(Take(s, 0), shown);
    assert shown + Checked(Take(s, 0)) == seen + Sights(s, Cached(0));
  }

  lemma StepWatched(s: State, a: Step, seen: seq<Sighting>)
    requires Inv(s) && Enabled(s, a) && Watched(s, seen)
    ensures Watched(Next(s, a), seen + Sights(s, a))
  {
    match a
    case Switch(chat) => SwitchWatched(s, chat, seen);
    case Decrypted(k, outcome) =>
      RowsLook(s, Paired(s.pulls[k].stage.pending, outcome), 0, []);
      LookEnds(Next(s, a), seen);
    case Cached(k) => TakeWatched(s, seen);
    case _ =>
      assert seen + [] == seen;
  }

  lemma {:induction false} RunWatched(s: State, run: seq<Step>, seen: seq<Sighting>)
    requires Inv(s) && CanRun(s, run) && Watched(s, seen)
    ensures Watched(Run(s, run), Trace(s, run, seen))
    decreases |run|
  {
    if run != [] {
      StepKeeps(s, run[0]);
      StepWatched(s, run[0], seen);
      RunWatched(Next(s, run[0]), run[1..], seen + Sights(s, run[0]));
    }
  }

  /** Over every run: a row was looked at while its chat was open, only switches came
      between that look and the row's appearance, and it appears in another chat
      exactly when there were any and the last did not lead back. */
  lemma ShownElsewhereExactly(run: seq<Step>, j: nat)
    requires CanRun(START, run) && j < |Trace(START, run, [])| && Trace(START, run, [])[j].Show?
    ensures var seen := Trace(START, run, []); var show := seen[j];
      exists c: nat :: c < j && seen[c] == Check(show.id, show.chat, Some(show.chat)) &&
        (forall m :: c < m < j ==> seen[m].Switched?) &&
        (show.open != Some(show.chat) <==> c + 1 < j && seen[j - 1] != Switched(Some(show.chat)))
  {
    StartOk();
    RunWatched(START, run, []);
    var seen := Trace(START, run, []);
    assert ShowOk(seen, j);
    var c: nat :| LookedAt(seen, c, seen[j].id, seen[j].chat, j) && seen[j].open == OpenSince(seen, c, j, seen[j].chat);
    assert seen[c] == Check(seen[j].id, seen[j].chat, Some(seen[j].chat));
  }

  lemma {:induction false} TraceExtend(s: State, run: seq<Step>, a: Step, seen: seq<Sighting>)
    requires CanRun(s, run) && CanRun(s, run + [a]) && Enabled(Run(s, run), a)
    ensures Trace(s, run + [a], seen) == Trace(s, run, seen) + Sights(Run(s, run), a)
    decreases |run|
  {
    if run == [] {
      assert run + [a] == [a] && [a][1..] == [];
    } else {
      assert (run + [a])[1..] == run[1..] + [a];
      TraceExtend(Next(s, run[0]), run[1..], a, seen + Sights(s, run[0]));
    }
  }

  /** A row of chat 1 in its cache write, and chat 2 open. */
  lemma SwitchedInWrite() returns (run: seq<Step>)
    ensures CanRun(START, run)
    ensures Run(START, run) ==
      State(Some(2), Some(1), true, true, false, map[], [Pull(1, Caching([Row(7, false)], 0, []))], false,
        [Tried(7, false)], {})
  {
    run := [Switch(Some(1)), Mount(true), Event];
    PullOfOne();
    Extend(START, run, Fetched(0, [7]));
    run := run + [Fetched(0, [7])];
    Extend(START, run, Decrypted(0, [false]));
    run := run + [Decrypted(0, [false])];
    Extend(START, run, Switch(Some(2)));
    run := run + [Switch(Some(2))];
    assert Paired([7], [false]) == [Row(7, false)];
  }

  /** A switch during `cacheMessage` is not seen: the row of chat 1 is appended with
      chat 2 open. */
  lemma ShownElsewhere()
    ensures exists run :: CanRun(START, run) && Show(7, 1, Some(2)) in Trace(START, run, [])
  {
    var run := SwitchedInWrite();
    Extend(START, run, Cached(0));
    TraceExtend(START, run, Cached(0), []);
    assert Sights(Run(START, run), Cached(0))[0] == Show(7, 1, Some(2));
    run := run + [Cached(0)];
  }

  // ----------------------------------------------------- bounded retry

  datatype Outcome = Outcome(fails: map<Id, nat>, ids: seq<Id>)

  /** A whole pass over the rows, the chat staying open. */
  function Pass(fails: map<Id, nat>, rows: seq<Row>, i: nat, ids: seq<Id>): Outcome
    requires i <= |rows|
    decreases |rows| - i
  {
    if i == |rows| then Outcome(fails, ids)
    else
      var id, n := rows[i].id, Count(fails, rows[i].id) + 1;
      if rows[i].failed && n < RETRY_CAP then Pass(fails[id := n], rows, i + 1, ids)
      else Pass(fails - {id}, rows, i + 1, ids + [id])
  }

  /** Rows before the first at which the chat is found switched. */
  function Stop(still: seq<bool>, i: nat): (n: nat)
    requires i <= |still|
    ensures i <= n <= |still|
    decreases |still| - i
  {
    if i == |still| || !still[i] then i else Stop(still, i + 1)
  }

  lemma Cleared(fails: map<Id, nat>, id: Id, n: nat)
    ensures fails[id := n] - {id} == fails - {id}
  {
  }

  /** The counter and the loop over one batch of decrypted rows; `still[i]` says
      whether the chat is still the open one when row `i` comes up. */
  class RetryCounter {
    var fails: map<Id, nat>

    constructor ()
      ensures fails == map[]
    {
      fails := map[];
    }

    method PassRows(rows: seq<Row>, still: seq<bool>) returns (ids: seq<Id>)
      requires |still| == |rows|
      modifies this
      ensures Outcome(fails, ids) == Pass(old(fails), rows[..Stop(still, 0)], 0, [])
    {
      ids := [];
      ghost var upto := Stop(still, 0);
      var i := 0;
      while i < |rows|
        invariant i <= upto == Stop(still, i)
        invariant Pass(fails, rows[..upto], i, ids) == Pass(old(fails), rows[..upto], 0, [])
      {
        if !still[i] {
          break;
        }
        var id := rows[i].id;
        if rows[i].failed {
          var n := Count(fails, id) + 1;
          Cleared(fails, id, n);
          fails := fails[id := n];
          if n < RETRY_CAP {
            i := i + 1;
            continue;
          }
        }
        fails := fails - {id};
        ids := ids + [id];
        i := i + 1;
      }
    }
  }

  // --------------------------------------------- five returns are enough

  /** Chat `c` is open and set up, and the pull, if there is one, is of `c`. */
  predicate Stays(s: State, c: Chat) {
    s.active == Some(c) && s.mounted == Some(c) && (s.pulling ==> s.pulls != [] && s.pulls[0].chat == c)
  }

  /** The server returns slot `id` and the batch is decrypted. */
  predicate Returns(s: State, a: Step, id: Id)
    requires Enabled(s, a)
  {
    a.Decrypted? && id in s.pulls[a.k].stage.pending
  }

  ghost function Returned(s: State, run: seq<Step>, id: Id): nat
    requires CanRun(s, run)
    decreases |run|
  {
    if run == [] then 0 else (if Returns(s, run[0], id) then 1 else 0) + Returned(Next(s, run[0]), run[1..], id)
  }

  predicate ToCome(rows: seq<Row>, i: nat, id: Id) { exists j :: i <= j < |rows| && rows[j].id == id }

  /** A row of `id` waits in the batch in hand, or is in its cache write. */
  predicate Waits(s: State, id: Id) {
    |s.pulls| == 1 && s.pulls[0].stage.Caching? && ToCome(s.pulls[0].stage.rows, s.pulls[0].stage.i, id)
  }

  /** Taken since the log had `from` entries, and acked or in the batch to be acked. */
  predicate TakenSince(s: State, from: nat, id: Id) {
    from <= |s.log| && Taken(id) in s.log[from..] && Listed(s, id)
  }

  function Credit(s: State, id: Id): nat { Count(s.fails, id) + (if Waits(s, id) then 1 else 0) }

  lemma BatchCounts(s: State, ids: seq<Id>, id: Id)
    requires |s.pulls| == 1
    ensures var t := Batch(s, 0, ids);
      t.log == s.log && t.fails == s.fails && s.acked <= t.acked && (id in ids ==> id in t.acked)
  {
  }

  lemma ComesNext(rows: seq<Row>, i: nat, id: Id)
    requires i < |rows|
    ensures ToCome(rows, i, id) <==> rows[i].id == id || ToCome(rows, i + 1, id)
  {
  }

  /** Going through rows with the chat open counts a failure of every row passed over. */
  lemma {:induction false} RowsCount(s: State, rows: seq<Row>, i: nat, ids: seq<Id>, id: Id)
    requires |s.pulls| == 1 && i <= |rows| && s.active == Some(s.pulls[0].chat)
    ensures Credit(Rows(s, 0, rows, i, ids), id) >= Count(s.fails, id) + (if ToCome(rows, i, id) then 1 else 0)
    decreases |rows| - i
  {
    if i == |rows| {
      BatchCounts(s, ids, id);
    } else if rows[i].failed && Count(s.fails, rows[i].id) + 1 < RETRY_CAP {
      var x, n := rows[i].id, Count(s.fails, rows[i].id) + 1;
      ComesNext(rows, i, id);
      RowsCount(s.(log := s.log + [Tried(x, true)], fails := s.fails[x := n]), rows, i + 1, ids, id);
    } else {
      assert ToCome(rows, i, id) ==> Waits(Rows(s, 0, rows, i, ids), id);
    }
  }

  predicate Listed(s: State, id: Id) {
    id in s.acked || (|s.pulls| == 1 && s.pulls[0].stage.Caching? && id in s.pulls[0].stage.ids)
  }

  predicate LogGrows(s: State, t: State) { |s.log| <= |t.log| && t.log[..|s.log|] == s.log && s.acked <= t.acked }

  /** The log grows, and what is in the batch stays in it until it is sent. */
  lemma {:induction false} RowsList(s: State, rows: seq<Row>, i: nat, ids: seq<Id>, id: Id)
    requires |s.pulls| == 1 && i <= |rows|
    ensures var t := Rows(s, 0, rows, i, ids); LogGrows(s, t) && (id in ids ==> Listed(t, id))
    decreases |rows| - i
  {
    if i == |rows| || s.active != Some(s.pulls[0].chat) {
      BatchCounts(s, ids, id);
    } else if rows[i].failed && Count(s.fails, rows[i].id) + 1 < RETRY_CAP {
      var x, n := rows[i].id, Count(s.fails, rows[i].id) + 1;
      var u := s.(log := s.log + [Tried(x, true)], fails := s.fails[x := n]);
      RowsList(u, rows, i + 1, ids, id);
      assert LogGrows(s, u);
      Grows(s, u, Rows(s, 0, rows, i, ids));
    }
  }

  lemma Grows(s: State, t: State, u: State)
    requires LogGrows(s, t) && LogGrows(t, u)
    ensures LogGrows(s, u)
  {
    assert u.log[..|s.log|] == u.log[..|t.log|][..|s.log|];
  }

  lemma TakenStays(s: State, t: State, from: nat, id: Id)
    requires TakenSince(s, from, id) && LogGrows(s, t) && Listed(t, id)
    ensures TakenSince(t, from, id)
  {
    var j :| 0 <= j < |s.log[from..]| && s.log[from..][j] == Taken(id);
    assert t.log[from..][j] == t.log[..|s.log|][from + j] == Taken(id);
  }

  /** The slot has been taken, or each return but the one in hand has counted. */
  ghost predicate Progressing(s: State, from: nat, id: Id, n: nat) {
    from <= |s.log| && (TakenSince(s, from, id) || n <= Credit(s, id))
  }

  lemma DecryptedProgress(s: State, a: Step, c: Chat, from: nat, id: Id, n: nat)
    requires Inv(s) && Stays(s, c) && Enabled(s, a) && a.Decrypted? && Progressing(s, from, id, n)
    ensures Progressing(Next(s, a), from, id, n + if Returns(s, a, id) then 1 else 0)
  {
    var pending := s.pulls[a.k].stage.pending;
    var rows := Paired(pending, a.outcome);
    RowsCount(s, rows, 0, [], id);
    RowsList(s, rows, 0, [], id);
    if id in pending {
      var j :| 0 <= j < |pending| && pending[j] == id;
      assert rows[j].id == id;
    }
    if TakenSince(s, from, id) {
      TakenStays(s, Next(s, a), from, id);
    }
  }

  /** The row that comes back from its cache write is logged and listed; the rest goes on. */
  lemma TakeList(s: State, id: Id)
    requires Inv(s) && Enabled(s, Cached(0))
    ensures var t, st := Take(s, 0), s.pulls[0].stage; var x := st.rows[st.i].id;
      LogGrows(s, t) && |s.log| < |t.log| && t.log[|s.log|] == Taken(x) && (id == x || Listed(s, id) ==> Listed(t, id))
  {
    var st, t := s.pulls[0].stage, Take(s, 0);
    var x := st.rows[st.i].id;
    var u := s.(log := s.log + [Taken(x)], fails := s.fails - {x});
    RowsList(u, st.rows, st.i + 1, st.ids + [x], id);
    assert LogGrows(s, u);
    Grows(s, u, t);
    assert t.log[|s.log|] == t.log[..|u.log|][|s.log|];
  }

  lemma TakeCount(s: State, id: Id)
    requires Inv(s) && Enabled(s, Cached(0)) && s.active == Some(s.pulls[0].chat)
    requires var st := s.pulls[0].stage; st.rows[st.i].id != id
    ensures Credit(Take(s, 0), id) >= Credit(s, id)
  {
    var st := s.pulls[0].stage;
    var x := st.rows[st.i].id;
    ComesNext(st.rows, st.i, id);
    RowsCount(s.(log := s.log + [Taken(x)], fails := s.fails - {x}), st.rows, st.i + 1, st.ids + [x], id);
  }

  lemma CachedProgress(s: State, c: Chat, from: nat, id: Id, n: nat)
    requires Inv(s) && Stays(s, c) && Enabled(s, Cached(0)) && Progressing(s, from, id, n)
    ensures Progressing(Take(s, 0), from, id, n)
  {
    var st, t := s.pulls[0].stage, Take(s, 0);
    TakeList(s, id);
    if st.rows[st.i].id == id {
      assert t.log[from..][|s.log| - from] == Taken(id);
    } else {
      TakeCount(s, id);
      if TakenSince(s, from, id) {
        TakenStays(s, t, from, id);
      }
    }
  }

  lemma TestFrame(s: State)
    requires |s.pulls| == 1
    ensures var t := LoopTest(s, 0); t.log == s.log && t.fails == s.fails && t.acked == s.acked
  {
  }

  lemma EventFrame(s: State)
    requires |s.pulls| == if s.pulling then 1 else 0
    ensures var t := Arrive(s);
      t.log == s.log && t.fails == s.fails && t.acked == s.acked && (s.pulling ==> t.pulls == s.pulls)
  {
  }

  predicate Writing(s: State) { |s.pulls| == 1 && s.pulls[0].stage.Caching? }

  /** What events, fetches, acks and rejections leave alone. */
  lemma OtherFrame(s: State, a: Step)
    requires Inv(s) && Enabled(s, a) && !a.Switch? && !a.Decrypted? && !a.Cached?
    ensures var t := Next(s, a);
      t.log == s.log && t.fails == s.fails && t.acked == s.acked && (Writing(s) ==> t.pulls == s.pulls)
  {
    match a
    case Fetched(k, slots) =>
      assert !Writing(s);
      if slots == [] {
        TestFrame(s);
      }
    case Acked(k) =>
      assert !Writing(s);
      TestFrame(s);
    case Event => EventFrame(s);
    case FetchFails(k) => assert !Writing(s);
    case DecryptFails(k) => assert !Writing(s);
    case Mount(_) =>
  }

  lemma SameProgress(s: State, t: State, from: nat, id: Id, n: nat)
    requires t.log == s.log && t.fails == s.fails && t.acked == s.acked
    requires Writing(s) ==> t.pulls == s.pulls
    requires Progressing(s, from, id, n)
    ensures Progressing(t, from, id, n)
  {
    assert Waits(s, id) ==> Waits(t, id);
  }

  lemma StepStays(s: State, a: Step, c: Chat)
    requires Inv(s) && Stays(s, c) && Enabled(s, a) && !a.Switch?
    ensures Stays(Next(s, a), c)
  {
    match a
    case Decrypted(k, outcome) => RowsSameChat(s, Paired(s.pulls[k].stage.pending, outcome), 0, []);
    case Cached(k) =>
      var st := s.pulls[0].stage;
      var id := st.rows[st.i].id;
      RowsSameChat(s.(log := s.log + [Taken(id)], fails := s.fails - {id}), st.rows, st.i + 1, st.ids + [id]);
    case _ =>
  }

  lemma {:induction false} RunProgress(s: State, run: seq<Step>, c: Chat, from: nat, id: Id, n: nat)
    requires Inv(s) && Stays(s, c) && CanRun(s, run) && (forall a :: a in run ==> !a.Switch?)
    requires Progressing(s, from, id, n)
    ensures Inv(Run(s, run)) && Progressing(Run(s, run), from, id, n + Returned(s, run, id))
    decreases |run|
  {
    if run != [] {
      var a := run[0];
      assert !a.Switch?;
      StepKeeps(s, a);
      StepStays(s, a, c);
      if a.Decrypted? {
        DecryptedProgress(s, a, c, from, id, n);
      } else if a.Cached? {
        CachedProgress(s, c, from, id, n);
      } else {
        OtherFrame(s, a);
        SameProgress(s, Next(s, a), from, id, n);
      }
      RunProgress(Next(s, a), run[1..], c, from, id, n + if Returns(s, a, id) then 1 else 0);
    }
  }

  /** While a chat stays open, with any events, rejections and other slots: a slot that
      five fetches have returned and that were gone through is shown on the way and
      put in an ack batch, whatever failed before. */
  lemma TakenByFifth(s: State, run: seq<Step>, c: Chat, id: Id)
    requires Inv(s) && Stays(s, c) && CanRun(s, run) && forall a :: a in run ==> !a.Switch?
    requires Returned(s, run, id) >= RETRY_CAP && GivingUp(Run(s, run)).None?
    ensures var t := Run(s, run); |s.log| <= |t.log| && Taken(id) in t.log[|s.log|..] && id in t.acked
  {
    var t := Run(s, run);
    RunProgress(s, run, c, |s.log|, id, 0);
    assert GivingUp(t) != Some(id);
  }

  // ------------------------------------ the pass of the pull is that pass

  /** `n` rows come back from `cacheMessage`, nothing else happening. */
  function Drain(s: State, n: nat): Option<State>
    decreases n
  {
    if n == 0 then Some(s)
    else if Enabled(s, Cached(0)) then Drain(Take(s, 0), n - 1)
    else None
  }

  /** How many rows a pass shows. */
  function Shown(fails: map<Id, nat>, rows: seq<Row>, i: nat): nat
    requires i <= |rows|
  {
    |Pass(fails, rows, i, []).ids|
  }

  lemma {:induction false} PassPrefix(fails: map<Id, nat>, rows: seq<Row>, i: nat, ids: seq<Id>)
    requires i <= |rows|
    ensures Pass(fails, rows, i, ids).ids == ids + Pass(fails, rows, i, []).ids
    ensures Pass(fails, rows, i, ids).fails == Pass(fails, rows, i, []).fails
    decreases |rows| - i
  {
    if i < |rows| {
      var id, n := rows[i].id, Count(fails, rows[i].id) + 1;
      if rows[i].failed && n < RETRY_CAP {
        PassPrefix(fails[id := n], rows, i + 1, ids);
      } else {
        PassPrefix(fails - {id}, rows, i + 1, ids + [id]);
        PassPrefix(fails - {id}, rows, i + 1, [id]);
        assert [] + [id] == [id];
        assert ids + [id] + Pass(fails - {id}, rows, i + 1, []).ids ==
          ids + ([id] + Pass(fails - {id}, rows, i + 1, []).ids);
      }
    }
  }

  lemma BatchIgnoresStage(s: State, stage: Stage, ids: seq<Id>)
    requires |s.pulls| == 1 && ids != []
    ensures Batch(At(s, 0, stage), 0, ids) == Batch(s, 0, ids)
  {
    assert s.pulls[0 := Pull(s.pulls[0].chat, stage)][0 := Pull(s.pulls[0].chat, Acking)] ==
      s.pulls[0 := Pull(s.pulls[0].chat, Acking)];
  }

  /** The log after the rows from `i` on. */
  function Journal(log: seq<Entry>, fails: map<Id, nat>, rows: seq<Row>, i: nat): seq<Entry>
    requires i <= |rows|
    decreases |rows| - i
  {
    if i == |rows| then log
    else
      var id, n := rows[i].id, Count(fails, rows[i].id) + 1;
      var tried := log + [Tried(id, rows[i].failed)];
      if rows[i].failed && n < RETRY_CAP then Journal(tried, fails[id := n], rows, i + 1)
      else Journal(tried + [Taken(id)], fails - {id}, rows, i + 1)
  }

  /** The state in which the rows after a taken one are gone through. */
  function Retaken(s: State, rows: seq<Row>, i: nat, ids: seq<Id>): State
    requires |s.pulls| == 1 && i < |rows|
  {
    At(s.(log := s.log + [Tried(rows[i].id, rows[i].failed)] + [Taken(rows[i].id)], fails := s.fails - {rows[i].id}),
       0, Caching(rows, i, ids))
  }

  lemma TakenRow(s: State, rows: seq<Row>, i: nat, ids: seq<Id>)
    requires |s.pulls| == 1 && i < |rows| && s.active == Some(s.pulls[0].chat)
    requires !(rows[i].failed && Count(s.fails, rows[i].id) + 1 < RETRY_CAP)
    ensures var t := Rows(s, 0, rows, i, ids);
      Enabled(t, Cached(0)) && Take(t, 0) == Rows(Retaken(s, rows, i, ids), 0, rows, i + 1, ids + [rows[i].id])
  {
    Cleared(s.fails, rows[i].id, Count(s.fails, rows[i].id) + 1);
  }

  lemma ShownNext(fails: map<Id, nat>, rows: seq<Row>, i: nat)
    requires i < |rows|
    ensures var id, n := rows[i].id, Count(fails, rows[i].id) + 1;
      Shown(fails, rows, i) ==
      if rows[i].failed && n < RETRY_CAP then Shown(fails[id := n], rows, i + 1)
        else 1 + Shown(fails - {id}, rows, i + 1)
  {
    var id := rows[i].id;
    assert [] + [id] == [id];
    PassPrefix(fails - {id}, rows, i + 1, [id]);
  }

  /** The state a pass leaves behind, before its batch is sent. */
  function After(s: State, rows: seq<Row>, i: nat): State
    requires i <= |rows|
  {
    s.(fails := Pass(s.fails, rows, i, []).fails, log := Journal(s.log, s.fails, rows, i))
  }

  lemma AfterTaken(s: State, rows: seq<Row>, i: nat, ids: seq<Id>)
    requires |s.pulls| == 1 && i < |rows| && !(rows[i].failed && Count(s.fails, rows[i].id) + 1 < RETRY_CAP)
    ensures After(Retaken(s, rows, i, ids), rows, i + 1) == At(After(s, rows, i), 0, Caching(rows, i, ids))
  {
    TakenFirst(s.fails, rows, i);
  }

  lemma TakenFirst(fails: map<Id, nat>, rows: seq<Row>, i: nat)
    requires i < |rows| && !(rows[i].failed && Count(fails, rows[i].id) + 1 < RETRY_CAP)
    ensures Pass(fails, rows, i, []).fails == Pass(fails - {rows[i].id}, rows, i + 1, []).fails
    ensures Pass(fails, rows, i, []).ids == [rows[i].id] + Pass(fails - {rows[i].id}, rows, i + 1, []).ids
  {
    assert [] + [rows[i].id] == [rows[i].id];
    PassPrefix(fails - {rows[i].id}, rows, i + 1, [rows[i].id]);
  }

  ghost predicate PassesTo(s: State, rows: seq<Row>, i: nat, ids: seq<Id>)
    requires |s.pulls| == 1 && i <= |rows|
  {
    Drain(Rows(s, 0, rows, i, ids), Shown(s.fails, rows, i))
      == Some(Batch(After(s, rows, i), 0, ids + Pass(s.fails, rows, i, []).ids))
  }

  lemma PassesToTaken(s: State, rows: seq<Row>, i: nat, ids: seq<Id>)
    requires |s.pulls| == 1 && i < |rows| && s.active == Some(s.pulls[0].chat)
    requires !(rows[i].failed && Count(s.fails, rows[i].id) + 1 < RETRY_CAP)
    requires PassesTo(Retaken(s, rows, i, ids), rows, i + 1, ids + [rows[i].id])
    ensures PassesTo(s, rows, i, ids)
  {
    TakenRow(s, rows, i, ids);
    ShownNext(s.fails, rows, i);
    AfterTaken(s, rows, i, ids);
    TakenFirst(s.fails, rows, i);
    assert ids + ([rows[i].id] + Pass(s.fails - {rows[i].id}, rows, i + 1, []).ids)
        == ids + [rows[i].id] + Pass(s.fails - {rows[i].id}, rows, i + 1, []).ids;
    BatchIgnoresStage(After(s, rows, i), Caching(rows, i, ids), ids + Pass(s.fails, rows, i, []).ids);
  }

  function Retried(s: State, id: Id): State {
    s.(log := s.log + [Tried(id, true)], fails := s.fails[id := Count(s.fails, id) + 1])
  }

  lemma PassesToRetried(s: State, rows: seq<Row>, i: nat, ids: seq<Id>)
    requires |s.pulls| == 1 && i < |rows| && s.active == Some(s.pulls[0].chat)
    requires rows[i].failed && Count(s.fails, rows[i].id) + 1 < RETRY_CAP
    requires PassesTo(Retried(s, rows[i].id), rows, i + 1, ids)
    ensures PassesTo(s, rows, i, ids)
  {
    ShownNext(s.fails, rows, i);
    assert Rows(s, 0, rows, i, ids) == Rows(Retried(s, rows[i].id), 0, rows, i + 1, ids);
    assert After(s, rows, i) == After(Retried(s, rows[i].id), rows, i + 1);
  }

  /** With the chat open throughout, the rows of the pull end in the counter and the
      batch of `Pass`, after as many waits as rows are shown. */
  lemma {:induction false} RowsArePass(s: State, rows: seq<Row>, i: nat, ids: seq<Id>)
    requires |s.pulls| == 1 && i <= |rows| && s.active == Some(s.pulls[0].chat)
    ensures PassesTo(s, rows, i, ids)
    decreases |rows| - i
  {
    if i == |rows| {
      assert ids + [] == ids && s.(fails := s.fails, log := s.log) == s;
    } else if rows[i].failed && Count(s.fails, rows[i].id) + 1 < RETRY_CAP {
      RowsArePass(Retried(s, rows[i].id), rows, i + 1, ids);
      PassesToRetried(s, rows, i, ids);
    } else {
      RowsArePass(Retaken(s, rows, i, ids), rows, i + 1, ids + [rows[i].id]);
      PassesToTaken(s, rows, i, ids);
    }
  }
}
