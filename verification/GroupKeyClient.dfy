/**
  One session's rotation and reconcile, statement by statement, in a quiet group:
  no other operation is in flight and every request succeeds. The methods are
  proved against functions of the server's record, the functions are shown to be
  runs of the protocol machine, and convergence is proved of them.
*/
module GroupKeyClient {
  import opened Wrappers
  import opened GroupKeyProtocol

  // ------------------------------------------------ what a quiet run does

  /** The same wrapped key written to every member of `todo` in turn. */
  function WriteAll(db: Ledger, todo: seq<User>, blob: Blob, o: Origin): Ledger
    decreases |todo|
  {
    if todo == [] then db else WriteAll(WriteRow(db, todo[0], blob, o), todo[1..], blob, o)
  }

  /** A fetch with nothing in between its two queries. */
  function Quiet(db: Ledger): Origin { Origin(db.chat.epoch, db.chat.epoch, false) }

  function Mint(db: Ledger): Ledger { db.(nextKey := db.nextKey + 1) }

  /** A rotation that has reached the members of `todo`; the first write claims. */
  function Rotated(db: Ledger, todo: seq<User>): Ledger {
    if todo == [] then Mint(db)
    else WriteAll(ClaimEpoch(Mint(db), db.nextKey), todo, Blob(db.nextKey, db.chat.epoch + 1),
      Origin(db.chat.epoch, db.chat.epoch, true))
  }

  function QuietRotation(cfg: Config, db: Ledger): Ledger {
    if cfg.owner !in cfg.hasEcdh then db else Rotated(db, Recipients(cfg, db.chat.roster))
  }

  function QuietRotateIfStale(cfg: Config, db: Ledger): Ledger {
    if ShouldRotate(cfg, db.chat, db.chat.epoch) then QuietRotation(cfg, db) else db
  }

  function QuietReconcile(cfg: Config, db: Ledger): Ledger {
    var own := OwnBlob(cfg, db.chat);
    if own.None? then db
    else if db.chat.epoch > own.value.stamp then QuietRotateIfStale(cfg, db)
    else WriteAll(db, Behind(cfg, db.chat, db.chat.roster, own.value.stamp), own.value, Quiet(db))
  }

  // ---------------------------------------------------- lists and writing

  lemma {:induction false} WriteAllThen(db: Ledger, todo: seq<User>, u: User, blob: Blob, o: Origin)
    ensures WriteAll(db, todo + [u], blob, o) == WriteRow(WriteAll(db, todo, blob, o), u, blob, o)
    decreases |todo|
  {
    if todo == [] {
      assert [u][1..] == [];
    } else {
      assert (todo + [u])[1..] == todo[1..] + [u];
      WriteAllThen(WriteRow(db, todo[0], blob, o), todo[1..], u, blob, o);
    }
  }

  lemma {:induction false} RecipientsThen(cfg: Config, roster: seq<User>, u: User)
    ensures Recipients(cfg, roster + [u]) == Recipients(cfg, roster) + (if cfg.Eligible(u) then [u] else [])
  {
    if roster == [] {
      assert [u][1..] == [];
    } else {
      assert (roster + [u])[1..] == roster[1..] + [u];
      RecipientsThen(cfg, roster[1..], u);
    }
  }

  lemma {:induction false} BehindThen(cfg: Config, c: Chat, roster: seq<User>, u: User, stamp: nat)
    ensures Behind(cfg, c, roster + [u], stamp) ==
      Behind(cfg, c, roster, stamp) + (if NeedsKey(cfg, c, u, stamp) then [u] else [])
  {
    if roster == [] {
      assert [u][1..] == [];
    } else {
      assert (roster + [u])[1..] == roster[1..] + [u];
      BehindThen(cfg, c, roster[1..], u, stamp);
    }
  }

  lemma RecipientsAt(cfg: Config, roster: seq<User>, i: nat)
    requires i < |roster|
    ensures Recipients(cfg, roster[..i + 1]) ==
      Recipients(cfg, roster[..i]) + (if cfg.Eligible(roster[i]) then [roster[i]] else [])
  {
    assert roster[..i + 1] == roster[..i] + [roster[i]];
    RecipientsThen(cfg, roster[..i], roster[i]);
  }

  lemma BehindAt(cfg: Config, c: Chat, i: nat, stamp: nat)
    requires i < |c.roster|
    ensures Behind(cfg, c, c.roster[..i + 1], stamp) ==
      Behind(cfg, c, c.roster[..i], stamp) + (if NeedsKey(cfg, c, c.roster[i], stamp) then [c.roster[i]] else [])
  {
    assert c.roster[..i + 1] == c.roster[..i] + [c.roster[i]];
    BehindThen(cfg, c, c.roster[..i], c.roster[i], stamp);
  }

  /** Exactly the addressed rows change, and they all hold the one key. */
  lemma {:induction false} WriteAllRows(db: Ledger, todo: seq<User>, blob: Blob, o: Origin)
    ensures var t := WriteAll(db, todo, blob, o);
      && t.chat.epoch == db.chat.epoch && t.chat.roster == db.chat.roster && t.chat.rows.Keys == db.chat.rows.Keys
      && t.claims == db.claims && t.nextKey == db.nextKey && t.rosterAt == db.rosterAt
      && (forall u :: u in db.chat.rows ==>
            t.chat.rows[u] == if u in todo then db.chat.rows[u].(blob := Some(blob)) else db.chat.rows[u])
    decreases |todo|
  {
    if todo != [] {
      var next := WriteRow(db, todo[0], blob, o);
      assert next.chat.rows.Keys == db.chat.rows.Keys;
      WriteAllRows(next, todo[1..], blob, o);
      assert forall u :: u in todo <==> u == todo[0] || u in todo[1..];
    }
  }

  // ------------------------------------------------------- convergence

  /** Every member who may hold the key holds the owner's own, at the chat's epoch. */
  ghost predicate Settled(cfg: Config, c: Chat) {
    && cfg.owner in c.rows && c.rows[cfg.owner].blob.Some? && c.rows[cfg.owner].blob.value.stamp == c.epoch
    && forall u :: u in c.rows && cfg.Eligible(u) ==> c.rows[u].blob == c.rows[cfg.owner].blob
  }

  lemma Addressed(cfg: Config, db: Ledger, u: User)
    requires DataOk(cfg, db) && u in db.chat.rows
    ensures u in Recipients(cfg, db.chat.roster) <==> cfg.Eligible(u)
  {
  }

  /** The rows a quiet rotation leaves behind. */
  lemma RotationRows(cfg: Config, db: Ledger)
    requires DataOk(cfg, db) && cfg.owner in cfg.hasEcdh
    ensures var t := QuietRotation(cfg, db);
      && t.chat.rows.Keys == db.chat.rows.Keys
      && (t.chat.epoch == if Recipients(cfg, db.chat.roster) == [] then db.chat.epoch else db.chat.epoch + 1)
      && (forall u :: u in db.chat.rows ==>
            t.chat.rows[u] == if cfg.Eligible(u)
              then db.chat.rows[u].(blob := Some(Blob(db.nextKey, db.chat.epoch + 1)))
                              else db.chat.rows[u])
  {
    var todo := Recipients(cfg, db.chat.roster);
    WriteAllRows(ClaimEpoch(Mint(db), db.nextKey), todo, Blob(db.nextKey, db.chat.epoch + 1),
      Origin(db.chat.epoch, db.chat.epoch, true));
    forall u | u in db.chat.rows ensures u in todo <==> cfg.Eligible(u) {
      Addressed(cfg, db, u);
    }
  }

  lemma NextKeyFresh(cfg: Config, db: Ledger)
    requires DataOk(cfg, db)
    ensures forall e :: e in db.claims ==> db.claims[e] != db.nextKey
    ensures forall u :: u in db.chat.rows && db.chat.rows[u].blob.Some? ==> db.chat.rows[u].blob.value.key != db.nextKey
  {
    forall u | u in db.chat.rows && db.chat.rows[u].blob.Some? ensures db.chat.rows[u].blob.value.key != db.nextKey {
      assert RowOk(db, u, db.chat.rows[u]);
    }
  }

  /** A quiet rotation puts one key, that no row holds and no epoch was claimed for,
      in the row of every eligible member and of nobody else; the group is settled
      if the owner is one of them. */
  lemma RotationSettles(cfg: Config, db: Ledger)
    requires DataOk(cfg, db) && cfg.owner in cfg.hasEcdh
    ensures var t := QuietRotation(cfg, db);
      && (forall u :: u in db.chat.rows && cfg.Eligible(u) ==>
            u in t.chat.rows && t.chat.rows[u].blob == Some(Blob(db.nextKey, db.chat.epoch + 1)) &&
              t.chat.epoch == db.chat.epoch + 1)
      && (forall u :: u in db.chat.rows && !cfg.Eligible(u) ==> u in t.chat.rows && t.chat.rows[u] == db.chat.rows[u])
      && (cfg.Eligible(cfg.owner) ==> Settled(cfg, t.chat))
      && db.chat.epoch <= t.chat.epoch
    ensures forall e :: e in db.claims ==> db.claims[e] != db.nextKey
    ensures forall u :: u in db.chat.rows && db.chat.rows[u].blob.Some? ==> db.chat.rows[u].blob.value.key != db.nextKey
  {
    NextKeyFresh(cfg, db);
    RotationRows(cfg, db);
    forall u | u in db.chat.rows && cfg.Eligible(u) ensures Recipients(cfg, db.chat.roster) != [] {
      Addressed(cfg, db, u);
    }
  }

  /** The reconcile of an owner whose key is current reaches everyone behind. */
  lemma HandOutSettles(cfg: Config, db: Ledger)
    requires DataOk(cfg, db) && OwnBlob(cfg, db.chat).Some? && OwnBlob(cfg, db.chat).value.stamp == db.chat.epoch
    ensures Settled(cfg, QuietReconcile(cfg, db).chat)
    ensures forall u :: u in db.chat.rows && !cfg.Eligible(u) ==>
      u in QuietReconcile(cfg, db).chat.rows && QuietReconcile(cfg, db).chat.rows[u] == db.chat.rows[u]
  {
    var own := OwnBlob(cfg, db.chat).value;
    var todo := Behind(cfg, db.chat, db.chat.roster, own.stamp);
    WriteAllRows(db, todo, own, Quiet(db));
    assert RowOk(db, cfg.owner, db.chat.rows[cfg.owner]);
    forall u | u in db.chat.rows && cfg.Eligible(u) && u !in todo ensures db.chat.rows[u].blob == Some(own) {
      assert RowOk(db, u, db.chat.rows[u]);
      assert !NeedsKey(cfg, db.chat, u, own.stamp);
    }
  }

  lemma NobodyBehind(cfg: Config, c: Chat, roster: seq<User>, stamp: nat)
    requires forall u :: u in roster ==> !NeedsKey(cfg, c, u, stamp)
    ensures Behind(cfg, c, roster, stamp) == []
  {
  }

  /** A settled group is left alone: the second reconcile uploads nothing. */
  lemma SettledStays(cfg: Config, db: Ledger)
    requires Settled(cfg, db.chat)
    ensures QuietReconcile(cfg, db) == db
  {
    NobodyBehind(cfg, db.chat, db.chat.roster, db.chat.epoch);
  }

  /** One quiet reconcile brings the group to the chat's epoch exactly when the
      owner's own key is current or the owner passes the trust check; members
      without a usable key are never written; and it is then idempotent. */
  lemma ReconcileConverges(cfg: Config, db: Ledger)
    requires DataOk(cfg, db) && OwnBlob(cfg, db.chat).Some?
    ensures var t := QuietReconcile(cfg, db);
      && (Settled(cfg, t.chat) <==> OwnBlob(cfg, db.chat).value.stamp == db.chat.epoch || cfg.owner !in cfg.distrusted)
      && (forall u :: u in db.chat.rows && !cfg.Eligible(u) ==> u in t.chat.rows && t.chat.rows[u] == db.chat.rows[u])
      && (Settled(cfg, t.chat) ==> QuietReconcile(cfg, t) == t)
  {
    var t := QuietReconcile(cfg, db);
    assert RowOk(db, cfg.owner, db.chat.rows[cfg.owner]);
    if OwnBlob(cfg, db.chat).value.stamp == db.chat.epoch {
      HandOutSettles(cfg, db);
    } else {
      RotationSettles(cfg, db);
    }
    if Settled(cfg, t.chat) {
      SettledStays(cfg, t);
    }
  }

  /** An owner whose own roster key contradicts a pin never catches up: every
      reconcile that has anyone to write to retires one more epoch. */
  lemma DistrustedOwnerChurns(cfg: Config, db: Ledger)
    requires DataOk(cfg, db) && OwnBlob(cfg, db.chat).Some? && cfg.owner in cfg.distrusted
    requires OwnBlob(cfg, db.chat).value.stamp < db.chat.epoch
    requires exists u :: u in db.chat.rows && cfg.Eligible(u)
    ensures var t := QuietReconcile(cfg, db);
      t.chat.epoch == db.chat.epoch + 1 && OwnBlob(cfg, t.chat) == OwnBlob(cfg, db.chat)
  {
    RotationRows(cfg, db);
    var u :| u in db.chat.rows && cfg.Eligible(u);
    Addressed(cfg, db, u);
  }

  // ------------------------------------- a quiet run is a protocol run

  function Advances(pid: Pid, n: nat): seq<Action> {
    if n == 0 then [] else [Advance(pid)] + Advances(pid, n - 1)
  }

  /** Stepping only `pid` leads from `s` to `t`. */
  ghost predicate Solo(cfg: Config, s: State, pid: Pid, t: State) {
    exists n: nat :: Run(cfg, s, Advances(pid, n)) == t
  }

  lemma SoloRefl(cfg: Config, s: State, pid: Pid)
    ensures Solo(cfg, s, pid, s)
  {
    assert Run(cfg, s, Advances(pid, 0)) == s;
  }

  lemma SoloStep(cfg: Config, s: State, pid: Pid, t: State)
    requires pid in s.procs && Solo(cfg, Progress(cfg, s, pid), pid, t)
    ensures Solo(cfg, s, pid, t)
  {
    var n: nat :| Run(cfg, Progress(cfg, s, pid), Advances(pid, n)) == t;
    var actions := Advances(pid, n + 1);
    assert actions[1..] == Advances(pid, n);
    assert Run(cfg, s, actions) == t;
  }

  lemma {:induction false} DirectRuns(cfg: Config, s: State, pid: Pid)
    requires pid in s.procs && s.procs[pid].pc.Direct?
    requires forall u :: u in s.procs[pid].pc.d.todo ==> u in s.db.chat.rows
    ensures var d := s.procs[pid].pc.d;
      Solo(cfg, s, pid, s.(db := WriteAll(s.db, d.todo, d.blob, d.Source()), procs := s.procs - {pid}))
    decreases |s.procs[pid].pc.d.todo|
  {
    var d := s.procs[pid].pc.d;
    var next := AdvanceDirect(s, pid);
    assert Progress(cfg, s, pid) == next;
    if d.todo == [] {
      SoloRefl(cfg, next, pid);
      SoloStep(cfg, s, pid, next);
    } else {
      assert d.todo[0] in d.todo && forall u :: u in d.todo[1..] ==> u in d.todo;
      assert next.procs - {pid} == s.procs - {pid};
      DirectRuns(cfg, next, pid);
      SoloStep(cfg, s, pid, s.(db := WriteAll(s.db, d.todo, d.blob, d.Source()), procs := s.procs - {pid}));
    }
  }

  lemma {:induction false} RotatingRuns(cfg: Config, s: State, pid: Pid)
    requires pid in s.procs && s.procs[pid].pc.Rotating?
    requires s.procs[pid].pc.r.claimed && !s.procs[pid].pc.r.writing
    ensures var r := s.procs[pid].pc.r;
      Solo(cfg, s, pid, Leave(s, pid).(db := WriteAll(s.db, r.todo, Blob(r.key, r.from + 1), r.Source())))
    decreases |s.procs[pid].pc.r.todo|
  {
    var r := s.procs[pid].pc.r;
    var next := AdvanceRotation(s, pid);
    assert Progress(cfg, s, pid) == next;
    if r.todo == [] {
      SoloRefl(cfg, next, pid);
      SoloStep(cfg, s, pid, next);
    } else {
      if r.todo[0] in s.db.chat.rows {
        RotationWriteIs(s, pid, true, next);
      }
      assert next.procs - {pid} == s.procs - {pid};
      RotatingRuns(cfg, next, pid);
      SoloStep(cfg, s, pid, Leave(s, pid).(db := WriteAll(s.db, r.todo, Blob(r.key, r.from + 1), r.Source())));
    }
  }

  /** From the fresh key on: the claim and the first row, then the rest. */
  lemma ClaimingRuns(cfg: Config, s: State, pid: Pid)
    requires pid in s.procs && s.procs[pid].pc.Rotating?
    requires var r := s.procs[pid].pc.r; !r.claimed && !r.writing && r.todo != [] && r.from == s.db.chat.epoch
    requires forall u :: u in s.procs[pid].pc.r.todo ==> u in s.db.chat.rows
    ensures var r := s.procs[pid].pc.r;
      Solo(cfg, s, pid,
        Leave(s, pid).(db := WriteAll(ClaimEpoch(s.db, r.key), r.todo, Blob(r.key, r.from + 1), r.Source())))
  {
    var r := s.procs[pid].pc.r;
    assert r.todo[0] in r.todo && forall u :: u in r.todo[1..] ==> u in r.todo;
    var claimed := Claim(s, pid);
    var written := RotationWrite(claimed, pid, true);
    var done := Leave(written, pid).(db := WriteAll(written.db, r.todo[1..], Blob(r.key, r.from + 1), r.Source()));
    RotatingRuns(cfg, written, pid);
    assert Progress(cfg, claimed, pid) == written;
    SoloStep(cfg, claimed, pid, done);
    assert Progress(cfg, s, pid) == claimed;
    SoloStep(cfg, s, pid, done);
    assert done.procs == Leave(s, pid).procs;
    assert done == Leave(s, pid).(db := WriteAll(ClaimEpoch(s.db, r.key), r.todo, Blob(r.key, r.from + 1), r.Source()));
  }

  /** A rotation from its own fetch on. */
  lemma RotationRuns(cfg: Config, s: State, pid: Pid, outer: bool)
    requires pid in s.procs && s.procs[pid].pc == RotateRead(outer)
    requires forall u :: u in s.db.chat.roster ==> u in s.db.chat.rows
    ensures Solo(cfg, s, pid, Leave(s, pid).(db := QuietRotation(cfg, s.db)))
  {
    var done := Leave(s, pid).(db := QuietRotation(cfg, s.db));
    var read := Move(s, pid, RotateRoster(outer, s.db.chat.epoch));
    var started := StartRotation(cfg, read, pid, outer, s.db.chat.epoch);
    assert done.procs == read.procs - {pid};
    if cfg.owner !in cfg.hasEcdh {
      SoloRefl(cfg, started, pid);
    } else if Recipients(cfg, s.db.chat.roster) == [] {
      assert done.procs == started.procs - {pid};
      SoloRefl(cfg, done, pid);
      assert Progress(cfg, started, pid) == done;
      SoloStep(cfg, started, pid, done);
    } else {
      assert done.procs == started.procs - {pid};
      ClaimingRuns(cfg, started, pid);
    }
    assert Progress(cfg, read, pid) == started;
    SoloStep(cfg, read, pid, done);
    assert Progress(cfg, s, pid) == read;
    SoloStep(cfg, s, pid, done);
  }

  /** `rotateGroupKeyIfStale` with both locks free. */
  lemma RotateIfStaleRuns(cfg: Config, s: State, pid: Pid)
    requires pid in s.procs && s.procs[pid].pc.RotateTry?
    requires s.procs[pid].client !in s.outer && s.procs[pid].client !in s.inner
    requires forall u :: u in s.db.chat.roster ==> u in s.db.chat.rows
    ensures Solo(cfg, s, pid, s.(db := QuietRotateIfStale(cfg, s.db), procs := s.procs - {pid}))
  {
    var done := s.(db := QuietRotateIfStale(cfg, s.db), procs := s.procs - {pid});
    var c := s.procs[pid].client;
    var entered := EnterOuter(s, pid);
    var read := Move(entered, pid, GuardRoster(s.db.chat.epoch));
    assert read.outer == s.outer + {c} && read.outer - {c} == s.outer;
    if ShouldRotate(cfg, s.db.chat, s.db.chat.epoch) {
      var inside := EnterInner(read, pid, true);
      assert inside.inner == s.inner + {c} && inside.inner - {c} == s.inner;
      assert inside.procs - {pid} == s.procs - {pid};
      RotationRuns(cfg, inside, pid, true);
      assert Leave(inside, pid).(db := QuietRotation(cfg, s.db)) == done;
      assert Progress(cfg, read, pid) == inside;
    } else {
      assert read.procs - {pid} == s.procs - {pid};
      assert Progress(cfg, read, pid) == done;
      SoloRefl(cfg, done, pid);
    }
    SoloStep(cfg, read, pid, done);
    assert Progress(cfg, entered, pid) == read;
    SoloStep(cfg, entered, pid, done);
    assert Progress(cfg, s, pid) == entered;
    SoloStep(cfg, s, pid, done);
  }

  /** An operation is started, and then only it moves. */
  ghost predicate Alone(cfg: Config, s: State, start: Action, pid: Pid, t: State) {
    exists n: nat :: Run(cfg, s, [start] + Advances(pid, n)) == t
  }

  lemma StartThenSolo(cfg: Config, s: State, a: Action, pid: Pid, t: State)
    requires Solo(cfg, Step(cfg, s, a), pid, t)
    ensures Alone(cfg, s, a, pid, t)
  {
    var n: nat :| Run(cfg, Step(cfg, s, a), Advances(pid, n)) == t;
    var actions := [a] + Advances(pid, n);
    assert actions[0] == a && actions[1..] == Advances(pid, n);
    assert Run(cfg, s, actions) == t;
  }

  /** From the state in which the reconcile has read the roster, to its end. */
  lemma DecidedRuns(cfg: Config, read: State, pid: Pid)
    requires pid in read.procs && read.procs[pid].client !in read.outer && read.procs[pid].client !in read.inner
    requires forall u :: u in read.db.chat.roster ==> u in read.db.chat.rows
    ensures Solo(cfg, AdvanceReconcile(cfg, read, pid, read.db.chat.epoch), pid,
                 read.(db := QuietReconcile(cfg, read.db), procs := read.procs - {pid}))
  {
    var decided := AdvanceReconcile(cfg, read, pid, read.db.chat.epoch);
    assert decided.procs - {pid} == read.procs - {pid};
    var own := OwnBlob(cfg, read.db.chat);
    if own.None? {
      SoloRefl(cfg, decided, pid);
    } else if read.db.chat.epoch > own.value.stamp {
      RotateIfStaleRuns(cfg, decided, pid);
    } else {
      DirectRuns(cfg, decided, pid);
    }
  }

  /** The sequential reconcile is what the protocol machine does when one session
      reconciles and nothing else moves. */
  lemma ReconcileRuns(cfg: Config, s: State, pid: Pid, client: Client)
    requires Inv(cfg, s) && pid !in s.procs && client !in s.outer && client !in s.inner
    ensures Alone(cfg, s, StartReconcile(pid, client), pid, s.(db := QuietReconcile(cfg, s.db)))
  {
    var done := s.(db := QuietReconcile(cfg, s.db));
    var spawned := Step(cfg, s, StartReconcile(pid, client));
    var read := Move(spawned, pid, ReconcileRoster(s.db.chat.epoch));
    var decided := AdvanceReconcile(cfg, read, pid, s.db.chat.epoch);
    assert read.procs - {pid} == s.procs;
    DecidedRuns(cfg, read, pid);
    assert Progress(cfg, read, pid) == decided;
    SoloStep(cfg, read, pid, done);
    assert Progress(cfg, spawned, pid) == read;
    SoloStep(cfg, spawned, pid, done);
    StartThenSolo(cfg, s, StartReconcile(pid, client), pid, done);
  }

  // --------------------------------------------- a delivery to one member

  /** The one member written is `u`, and it holds the owner's own key. */
  ghost predicate HandedOver(cfg: Config, c: Chat, t: Chat, u: User)
    requires OwnBlob(cfg, c).Some? && u in c.rows
  {
    t == c.(rows := c.rows[u := c.rows[u].(blob := OwnBlob(cfg, c))])
  }

  /** Every eligible member holds one key new to the chat, and no other row changed. */
  ghost predicate Rekeyed(cfg: Config, c: Chat, key: Key, t: Chat) {
    && t.epoch == c.epoch + 1 && t.rows.Keys == c.rows.Keys
    && forall v :: v in c.rows ==>
         t.rows[v] == if cfg.Eligible(v) then c.rows[v].(blob := Some(Blob(key, c.epoch + 1))) else c.rows[v]
  }

  /** Whom a delivery is for: a member with a usable key but without a blob, other than
      the owner. */
  predicate Awaits(cfg: Config, c: Chat, u: User) {
    OwnBlob(cfg, c).Some? && u != cfg.owner && u in c.rows && cfg.Eligible(u) && c.rows[u].blob.None?
  }

  /** What the delivery leaves: the owner's key in that row while it is current, a
      rotated chat when it is behind, and else the chat as it was. */
  ghost predicate DeliveredTo(cfg: Config, db: Ledger, t: Ledger, u: User) {
    if !Awaits(cfg, db.chat, u) then t == db
    else if OwnBlob(cfg, db.chat).value.stamp == db.chat.epoch then HandedOver(cfg, db.chat, t.chat, u)
    else Rekeyed(cfg, db.chat, db.nextKey, t.chat)
  }

  lemma CurrentDelivered(cfg: Config, read: State, pid: Pid, u: User) returns (t: Ledger)
    requires pid in read.procs && Awaits(cfg, read.db.chat, u)
    requires OwnBlob(cfg, read.db.chat).value.stamp == read.db.chat.epoch
    ensures DeliveredTo(cfg, read.db, t, u)
    ensures Solo(cfg, AdvanceDeliver(cfg, read, pid, u, read.db.chat.epoch), pid,
                 read.(db := t, procs := read.procs - {pid}))
  {
    var decided := AdvanceDeliver(cfg, read, pid, u, read.db.chat.epoch);
    var own := OwnBlob(cfg, read.db.chat).value;
    var o := Origin(read.db.chat.epoch, read.db.chat.epoch, false);
    t := WriteRow(read.db, u, own, o);
    DirectRuns(cfg, decided, pid);
    WriteAllThen(read.db, [], u, own, o);
    assert [] + [u] == [u] && WriteAll(read.db, [u], own, o) == t;
    assert decided.procs - {pid} == read.procs - {pid};
  }

  lemma StaleRekeys(cfg: Config, db: Ledger, u: User)
    requires DataOk(cfg, db) && OwnBlob(cfg, db.chat).Some? && OwnBlob(cfg, db.chat).value.stamp < db.chat.epoch
    requires u in db.chat.rows && cfg.Eligible(u)
    ensures Rekeyed(cfg, db.chat, db.nextKey, QuietRotateIfStale(cfg, db).chat)
  {
    RotationRows(cfg, db);
    Addressed(cfg, db, u);
  }

  lemma BehindDelivered(cfg: Config, read: State, pid: Pid, u: User) returns (t: Ledger)
    requires pid in read.procs && DataOk(cfg, read.db) && Awaits(cfg, read.db.chat, u)
    requires read.procs[pid].client !in read.outer && read.procs[pid].client !in read.inner
    requires OwnBlob(cfg, read.db.chat).value.stamp < read.db.chat.epoch
    ensures DeliveredTo(cfg, read.db, t, u)
    ensures Solo(cfg, AdvanceDeliver(cfg, read, pid, u, read.db.chat.epoch), pid,
                 read.(db := t, procs := read.procs - {pid}))
  {
    var decided := AdvanceDeliver(cfg, read, pid, u, read.db.chat.epoch);
    t := QuietRotateIfStale(cfg, read.db);
    RotateIfStaleRuns(cfg, decided, pid);
    assert decided.procs - {pid} == read.procs - {pid};
    StaleRekeys(cfg, read.db, u);
  }

  lemma DecidedDelivery(cfg: Config, read: State, pid: Pid, u: User) returns (t: Ledger)
    requires pid in read.procs && DataOk(cfg, read.db)
    requires read.procs[pid].client !in read.outer && read.procs[pid].client !in read.inner
    requires !HoldsOuter(read.procs[pid].pc) && !HoldsInner(read.procs[pid].pc)
    ensures DeliveredTo(cfg, read.db, t, u)
    ensures Solo(cfg, AdvanceDeliver(cfg, read, pid, u, read.db.chat.epoch), pid,
                 read.(db := t, procs := read.procs - {pid}))
  {
    if !Awaits(cfg, read.db.chat, u) {
      t := read.db;
      var done := read.(db := t, procs := read.procs - {pid});
      assert AdvanceDeliver(cfg, read, pid, u, read.db.chat.epoch) == done;
      SoloRefl(cfg, done, pid);
    } else {
      assert RowOk(read.db, cfg.owner, read.db.chat.rows[cfg.owner]);
      if OwnBlob(cfg, read.db.chat).value.stamp == read.db.chat.epoch {
        t := CurrentDelivered(cfg, read, pid, u);
      } else {
        t := BehindDelivered(cfg, read, pid, u);
      }
    }
  }

  /** A delivery that nothing disturbs, to whatever member it is started for. */
  lemma DeliveryRuns(cfg: Config, s: State, pid: Pid, client: Client, u: User)
    requires Inv(cfg, s) && pid !in s.procs && client !in s.outer && client !in s.inner
    ensures exists t :: DeliveredTo(cfg, s.db, t, u) && Alone(cfg, s, StartDeliver(pid, client, u), pid, s.(db := t))
  {
    var spawned := Step(cfg, s, StartDeliver(pid, client, u));
    var read := Move(spawned, pid, DeliverRoster(u, s.db.chat.epoch));
    var decided := AdvanceDeliver(cfg, read, pid, u, s.db.chat.epoch);
    assert read.procs - {pid} == s.procs;
    var t := DecidedDelivery(cfg, read, pid, u);
    var done := s.(db := t);
    assert read.(db := t, procs := read.procs - {pid}) == done;
    assert Progress(cfg, read, pid) == decided;
    SoloStep(cfg, read, pid, done);
    assert Progress(cfg, spawned, pid) == read;
    SoloStep(cfg, spawned, pid, done);
    StartThenSolo(cfg, s, StartDeliver(pid, client, u), pid, done);
  }

  /** The operation is over, and the member has a key of the chat's epoch. */
  predicate KeyedNow(s: State, t: State, u: User) {
    t.procs == s.procs && t.outer == s.outer && t.inner == s.inner && u in t.db.chat.rows &&
    t.db.chat.rows[u].blob.Some? && t.db.chat.rows[u].blob.value.stamp == t.db.chat.epoch
  }

  /** So a member without a blob whom the owner trusts is keyed for the chat's epoch,
      whether the owner's own key is current or behind. */
  lemma DeliveryKeys(cfg: Config, s: State, pid: Pid, client: Client, u: User)
    requires Inv(cfg, s) && pid !in s.procs && client !in s.outer && client !in s.inner && Awaits(cfg, s.db.chat, u)
    ensures exists t: State :: Alone(cfg, s, StartDeliver(pid, client, u), pid, t) && KeyedNow(s, t, u)
  {
    DeliveryRuns(cfg, s, pid, client, u);
    var t :| DeliveredTo(cfg, s.db, t, u) && Alone(cfg, s, StartDeliver(pid, client, u), pid, s.(db := t));
    var done := s.(db := t);
    assert Alone(cfg, s, StartDeliver(pid, client, u), pid, done) && KeyedNow(s, done, u);
  }

  // ------------------------------------------------ the client's own code

  /** Everybody on the roster has a row. */
  ghost predicate Listed(c: Chat) {
    forall i :: 0 <= i < |c.roster| ==> c.roster[i] in c.rows
  }

  /** Outcome of the wrapped-key PUT. */
  datatype PutResult = Stored(keyEpoch: Option<nat>) | NotAMember | KeyEpochStale

  /** The server's side of one chat; `db` is its record with the history. */
  class Server {
    var chat: Chat
    var nextKey: Key
    ghost var db: Ledger

    ghost predicate Valid() reads this {
      db.chat == chat && db.nextKey == nextKey
    }

    constructor (db: Ledger)
      ensures Valid() && this.db == db
    {
      this.chat, this.nextKey, this.db := db.chat, db.nextKey, db;
    }

    method GenerateKey() returns (key: Key)
      requires Valid()
      modifies this
      ensures Valid() && key == old(nextKey) && db == Mint(old(db))
    {
      key := nextKey;
      nextKey := nextKey + 1;
      db := Mint(db);
    }

    /** PUT of a member's wrapped key; `claimFrom` is `claim_from_epoch`. */
    method Put(u: User, blob: Blob, claimFrom: Option<nat>, ghost o: Origin)
      returns (r: PutResult)
      requires Valid()
      modifies this
      ensures Valid()
      ensures r == if u !in old(chat).rows then NotAMember
                   else if claimFrom.Some? && claimFrom.value != old(chat).epoch then KeyEpochStale
                   else Stored(if claimFrom.Some? then Some(old(chat).epoch + 1) else None)
      ensures db == if !r.Stored? then old(db)
                    else WriteRow(if claimFrom.Some? then ClaimEpoch(old(db), blob.key) else old(db), u, blob, o)
    {
      if u !in chat.rows {
        return NotAMember;
      }
      var claimed: Option<nat> := None;
      if claimFrom.Some? {
        if claimFrom.value != chat.epoch {
          return KeyEpochStale;
        }
        chat := chat.(epoch := chat.epoch + 1);
        db := ClaimEpoch(db, blob.key);
        claimed := Some(chat.epoch);
      }
      chat := chat.(rows := chat.rows[u := chat.rows[u].(blob := Some(blob))]);
      db := WriteRow(db, u, blob, o);
      return Stored(claimed);
    }
  }

  /** One browser realm of the owner: the two lock sets and the code that uses them. */
  class Session {
    const cfg: Config
    const chatId: nat
    const server: Server
    var hookLock: set<nat>
    var rotationLock: set<nat>

    constructor (cfg: Config, chatId: nat, server: Server)
      ensures this.cfg == cfg && this.chatId == chatId && this.server == server && hookLock == {} && rotationLock == {}
    {
      this.cfg, this.chatId, this.server := cfg, chatId, server;
      hookLock, rotationLock := {}, {};
    }

    /** `runRotation`: mint, claim the epoch with the first write, then the rest. */
    method RunRotation() returns (rotated: bool)
      requires server.Valid() && Listed(server.chat)
      modifies server
      ensures server.Valid() && server.db == QuietRotation(cfg, old(server.db))
      ensures rotated <==> server.chat.epoch != old(server.chat.epoch)
    {
      var detail := server.chat;
      if cfg.owner !in cfg.hasEcdh {
        return false;
      }
      ghost var db0 := server.db;
      var key := server.GenerateKey();
      var delivered := UploadAll(detail, key, db0);
      RotatedShape(db0, Recipients(cfg, detail.roster));
      rotated := delivered != 0;
    }

    /** The loop over the roster. */
    method UploadAll(detail: Chat, key: Key, ghost db0: Ledger) returns (delivered: nat)
      requires server.Valid() && Listed(detail) && detail == db0.chat && key == db0.nextKey
      requires server.db == Rotated(db0, [])
      modifies server
      ensures server.Valid() && server.db == Rotated(db0, Recipients(cfg, detail.roster))
      ensures delivered == |Recipients(cfg, detail.roster)|
    {
      var settled := detail.epoch;
      delivered := 0;
      ghost var todo: seq<User> := [];
      var i := 0;
      while i < |detail.roster|
        invariant 0 <= i <= |detail.roster| && server.Valid()
        invariant todo == Recipients(cfg, detail.roster[..i]) && delivered == |todo|
        invariant server.db == Rotated(db0, todo)
        invariant delivered > 0 ==> settled == detail.epoch + 1
      {
        var u := detail.roster[i];
        RecipientsAt(cfg, detail.roster, i);
        if u in cfg.hasEcdh && u !in cfg.distrusted {
          var claimed := delivered > 0;
          var blob := Blob(key, if claimed then settled else detail.epoch + 1);
          var r := Upload(u, blob, if claimed then None else Some(detail.epoch), db0, todo);
          if r == KeyEpochStale {
            assert false;  // nobody else is rotating
          }
          if !claimed {
            settled := r.keyEpoch.value;
          }
          todo := todo + [u];
          delivered := delivered + 1;
        }
        i := i + 1;
      }
      assert detail.roster[..i] == detail.roster;
    }

    /** One upload of a rotation that has already reached `todo`. */
    method Upload(u: User, blob: Blob, claimFrom: Option<nat>, ghost db0: Ledger, ghost todo: seq<User>)
      returns (r: PutResult)
      requires server.Valid() && server.db == Rotated(db0, todo)
      requires u in db0.chat.rows && blob == Blob(db0.nextKey, db0.chat.epoch + 1)
      requires claimFrom == if todo == [] then Some(db0.chat.epoch) else None
      modifies server
      ensures server.Valid() && server.db == Rotated(db0, todo + [u])
      ensures r == Stored(if todo == [] then Some(db0.chat.epoch + 1) else None)
    {
      RotatedShape(db0, todo);
      RotatedThen(db0, todo, u);
      r := server.Put(u, blob, claimFrom, Origin(db0.chat.epoch, db0.chat.epoch, true));
    }

    /** `rotateGroupKeyForChat`: one rotation per chat at the choke point. */
    method RotateGroupKey() returns (rotated: bool)
      requires server.Valid() && Listed(server.chat)
      modifies this`rotationLock, server
      ensures server.Valid() && rotationLock == old(rotationLock)
      ensures server.db == if chatId in old(rotationLock) then old(server.db) else QuietRotation(cfg, old(server.db))
      ensures rotated <==> server.chat.epoch != old(server.chat.epoch)
    {
      if chatId in rotationLock {
        return false;
      }
      rotationLock := rotationLock + {chatId};
      rotated := RunRotation();
      rotationLock := rotationLock - {chatId};
    }

    /** `rotateGroupKeyIfStale`, which any trigger may call at any time. */
    method RotateIfStale() returns (rotated: bool)
      requires server.Valid() && Listed(server.chat)
      modifies this`hookLock, this`rotationLock, server
      ensures server.Valid() && hookLock == old(hookLock) && rotationLock == old(rotationLock)
      ensures server.db == if chatId in old(hookLock) || chatId in old(rotationLock) then old(server.db)
                           else QuietRotateIfStale(cfg, old(server.db))
      ensures rotated <==> server.chat.epoch != old(server.chat.epoch)
    {
      if chatId in hookLock {
        return false;
      }
      hookLock := hookLock + {chatId};
      var detail := server.chat;
      if ShouldRotate(cfg, detail, detail.epoch) {
        rotated := RotateGroupKey();
      } else {
        rotated := false;
      }
      hookLock := hookLock - {chatId};
    }

    /** `reconcileGroupKeysForChat`: true exactly when somebody was (re)keyed. */
    method Reconcile() returns (delivered: bool)
      requires server.Valid() && Listed(server.chat) && chatId !in hookLock && chatId !in rotationLock
      modifies this`hookLock, this`rotationLock, server
      ensures server.Valid() && hookLock == old(hookLock) && rotationLock == old(rotationLock)
      ensures server.db == QuietReconcile(cfg, old(server.db))
      ensures delivered <==> server.chat != old(server.chat)
    {
      var detail := server.chat;
      ghost var db0 := server.db;
      var own := OwnBlob(cfg, detail);
      if own.None? {
        return false;
      }
      var blob := own.value;
      if detail.epoch > blob.stamp {
        delivered := RotateIfStale();
        EpochMoves(cfg, db0);
        return;
      }
      delivered := DeliverToBehind(blob);
      BehindChanges(cfg, db0, blob);
    }

    /** The loop of a reconcile whose own key is current. */
    method DeliverToBehind(blob: Blob) returns (delivered: bool)
      requires server.Valid() && Listed(server.chat)
      modifies server
      ensures server.Valid()
      ensures var c := old(server.chat); var todo := Behind(cfg, c, c.roster, blob.stamp);
        server.db == WriteAll(old(server.db), todo, blob, Origin(c.epoch, c.epoch, false)) &&
          (delivered <==> todo != [])
    {
      var detail := server.chat;
      ghost var db0 := server.db;
      ghost var todo: seq<User> := [];
      delivered := false;
      var i := 0;
      while i < |detail.roster|
        invariant 0 <= i <= |detail.roster| && server.Valid()
        invariant todo == Behind(cfg, detail, detail.roster[..i], blob.stamp) && delivered == (todo != [])
        invariant server.db == WriteAll(db0, todo, blob, Quiet(db0))
      {
        BehindAt(cfg, detail, i, blob.stamp);
        var sent := DeliverOne(detail, detail.roster[i], blob, db0, todo);
        if sent {
          todo := todo + [detail.roster[i]];
          delivered := true;
        }
        i := i + 1;
      }
      assert detail.roster[..i] == detail.roster;
    }

    /** One member of the roster: an upload if the row is behind and the key trusted. */
    method DeliverOne(detail: Chat, u: User, blob: Blob, ghost db0: Ledger, ghost todo: seq<User>) returns (sent: bool)
      requires server.Valid() && detail == db0.chat && u in detail.rows
      requires server.db == WriteAll(db0, todo, blob, Quiet(db0))
      modifies server
      ensures server.Valid() && sent == NeedsKey(cfg, detail, u, blob.stamp)
      ensures server.db == WriteAll(db0, if sent then todo + [u] else todo, blob, Quiet(db0))
    {
      sent := false;
      if u != cfg.owner && u in cfg.hasEcdh {
        var stored := detail.rows[u].blob;
        if (stored.None? || stored.value.stamp < blob.stamp) && u !in cfg.distrusted {
          HandOut(u, blob, db0, todo);
          sent := true;
        }
      }
    }

    /** One upload of a reconcile that has already reached `todo`. */
    method HandOut(u: User, blob: Blob, ghost db0: Ledger, ghost todo: seq<User>)
      requires server.Valid() && server.db == WriteAll(db0, todo, blob, Quiet(db0)) && u in db0.chat.rows
      modifies server
      ensures server.Valid() && server.db == WriteAll(db0, todo + [u], blob, Quiet(db0))
    {
      WriteAllRows(db0, todo, blob, Quiet(db0));
      WriteAllThen(db0, todo, u, blob, Quiet(db0));
      var r := server.Put(u, blob, None, Quiet(db0));
    }
  }

  lemma RotatedThen(db: Ledger, todo: seq<User>, u: User)
    ensures Rotated(db, todo + [u]) ==
      WriteRow(if todo == [] then ClaimEpoch(Mint(db), db.nextKey) else Rotated(db, todo),
               u, Blob(db.nextKey, db.chat.epoch + 1), Origin(db.chat.epoch, db.chat.epoch, true))
  {
    WriteAllThen(ClaimEpoch(Mint(db), db.nextKey), todo, u, Blob(db.nextKey, db.chat.epoch + 1),
      Origin(db.chat.epoch, db.chat.epoch, true));
    assert [] + [u] == [u];
  }

  lemma RotatedShape(db: Ledger, todo: seq<User>)
    ensures var t := Rotated(db, todo);
      && t.chat.epoch == db.chat.epoch + (if todo == [] then 0 else 1)
      && t.chat.rows.Keys == db.chat.rows.Keys && t.nextKey == db.nextKey + 1
  {
    WriteAllRows(ClaimEpoch(Mint(db), db.nextKey), todo, Blob(db.nextKey, db.chat.epoch + 1),
      Origin(db.chat.epoch, db.chat.epoch, true));
  }

  /** A rotation changes the chat exactly when it moves the epoch. */
  lemma EpochMoves(cfg: Config, db: Ledger)
    ensures var t := QuietRotateIfStale(cfg, db); t.chat != db.chat <==> t.chat.epoch != db.chat.epoch
  {
    RotatedShape(db, Recipients(cfg, db.chat.roster));
  }

  /** A hand-out to somebody behind really changes their row. */
  lemma BehindChanges(cfg: Config, db: Ledger, blob: Blob)
    ensures var todo := Behind(cfg, db.chat, db.chat.roster, blob.stamp);
      todo != [] <==> WriteAll(db, todo, blob, Quiet(db)).chat != db.chat
  {
    var todo := Behind(cfg, db.chat, db.chat.roster, blob.stamp);
    if todo != [] {
      assert todo[0] in todo && NeedsKey(cfg, db.chat, todo[0], blob.stamp);
      WriteAllRows(db, todo, blob, Quiet(db));
    }
  }
}
