/**
  Operations of one session that something goes wrong for: requests that fail, replies
  that get lost, requests that arrive late, members that are gone, locks that are held.
  What each leaves in the rows, and that a reconcile afterwards puts it right.
*/
module GroupKeyFaults {
  import opened Wrappers
  import opened GroupKeyProtocol
  import opened GroupKeyClient

  /** In every reachable state, whatever failed on the way there and whatever else is
      still under way: a reconcile that runs from here on alone settles the group
      exactly when the owner's key is current or the owner passes its trust check. */
  lemma AnyFaultHeals(cfg: Config, s: State, pid: Pid, client: Client)
    requires Reachable(cfg, s) && pid !in s.procs && client !in s.outer && client !in s.inner
    requires OwnBlob(cfg, s.db.chat).Some?
    ensures exists t: Ledger :: (Alone(cfg, s, StartReconcile(pid, client), pid, s.(db := t)) &&
      (Settled(cfg, t.chat) <==>
         OwnBlob(cfg, s.db.chat).value.stamp == s.db.chat.epoch || cfg.owner !in cfg.distrusted))
  {
    ReachableInv(cfg, s);
    ReconcileRuns(cfg, s, pid, client);
    ReconcileConverges(cfg, s.db);
    var t := QuietReconcile(cfg, s.db);
    assert Alone(cfg, s, StartReconcile(pid, client), pid, s.(db := t));
  }

  lemma {:induction false} RunBoth(cfg: Config, s: State, one: seq<Action>, two: seq<Action>)
    ensures Run(cfg, s, one + two) == Run(cfg, Run(cfg, s, one), two)
    decreases |one|
  {
    if one == [] {
      assert one + two == two;
    } else {
      assert (one + two)[1..] == one[1..] + two;
      RunBoth(cfg, Step(cfg, s, one[0]), one[1..], two);
    }
  }

  lemma RunOne(cfg: Config, s: State, a: Action)
    ensures Run(cfg, s, [a]) == Step(cfg, s, a)
  {
    assert [a][1..] == [];
  }

  lemma RunTwo(cfg: Config, s: State, a: Action, b: Action)
    ensures Run(cfg, s, [a, b]) == Step(cfg, Step(cfg, s, a), b)
  {
    assert [a, b] == [a] + [b];
    RunBoth(cfg, s, [a], [b]);
    RunOne(cfg, s, a);
    RunOne(cfg, Step(cfg, s, a), b);
  }

  // ------------------------------------------- a rotation some of whose uploads fail

  /** The steps of one upload: a failed request, a claim with its write, or a write. */
  function Upload(pid: Pid, claimed: bool, fine: bool): seq<Action> {
    if !fine then [Fail(pid)] else if claimed then [Advance(pid)] else [Advance(pid), Advance(pid)]
  }

  function Uploads(pid: Pid, claimed: bool, fine: seq<bool>): seq<Action>
    decreases |fine|
  {
    if fine == [] then [] else Upload(pid, claimed, fine[0]) + Uploads(pid, claimed || fine[0], fine[1..])
  }

  /** Those whose upload succeeds. */
  function Served(todo: seq<User>, fine: seq<bool>): seq<User>
    requires |fine| == |todo|
  {
    if todo == [] then [] else (if fine[0] then [todo[0]] else []) + Served(todo[1..], fine[1..])
  }

  lemma {:induction false} ServedWho(todo: seq<User>, fine: seq<bool>, u: User)
    requires |fine| == |todo|
    ensures u in Served(todo, fine) <==> exists i :: 0 <= i < |todo| && todo[i] == u && fine[i]
    decreases |todo|
  {
    if todo != [] {
      ServedWho(todo[1..], fine[1..], u);
      if i :| 0 <= i < |todo| && todo[i] == u && fine[i] && i > 0 {
        assert todo[1..][i - 1] == u && fine[1..][i - 1];
      }
      if i :| 0 <= i < |todo[1..]| && todo[1..][i] == u && fine[1..][i] {
        assert todo[i + 1] == u && fine[i + 1];
      }
    }
  }

  lemma ServedNone(todo: seq<User>, fine: seq<bool>)
    requires |fine| == |todo|
    ensures Served(todo, fine) == [] <==> true !in fine
    decreases |todo|
  {
  }

  /** A rotation about to upload, all of whose members are still there. */
  predicate Uploading(s: State, pid: Pid) {
    && pid in s.procs && s.procs[pid].pc.Rotating?
    && var r := s.procs[pid].pc.r;
      && !r.writing && (r.claimed || r.from == s.db.chat.epoch)
      && forall u :: u in r.todo ==> u in s.db.chat.rows
  }

  /** The record after the uploads of a rotation to `served`. */
  function Uploaded(db: Ledger, r: Rotation, served: seq<User>): Ledger {
    WriteAll(if r.claimed || served == [] then db else ClaimEpoch(db, r.key), served, Blob(r.key, r.from + 1),
             r.Source())
  }

  /** The rotation once it knows of a claim, or still does not, with `todo` left. */
  function Onward(s: State, pid: Pid, claimed: bool, todo: seq<User>, db: Ledger): State
    requires pid in s.procs && s.procs[pid].pc.Rotating?
  {
    Move(s, pid, Rotating(s.procs[pid].pc.r.(claimed := claimed, todo := todo))).(db := db)
  }

  lemma UploadOne(cfg: Config, s: State, pid: Pid, fine: bool)
    requires Uploading(s, pid) && s.procs[pid].pc.r.todo != []
    ensures var r := s.procs[pid].pc.r;
      Run(cfg, s, Upload(pid, r.claimed, fine)) ==
        Onward(s, pid, r.claimed || fine, r.todo[1..], Uploaded(s.db, r, if fine then [r.todo[0]] else []))
  {
    var r := s.procs[pid].pc.r;
    assert r.todo[0] in r.todo;
    var blob := Blob(r.key, r.from + 1);
    if !fine {
      RunOne(cfg, s, Fail(pid));
    } else if r.claimed {
      RunOne(cfg, s, Advance(pid));
      WriteAllThen(s.db, [], r.todo[0], blob, r.Source());
      assert [] + [r.todo[0]] == [r.todo[0]];
      RotationWriteIs(s, pid, true, RotationWrite(s, pid, true));
    } else {
      ClaimOne(cfg, s, pid);
    }
  }

  lemma ClaimOne(cfg: Config, s: State, pid: Pid)
    requires Uploading(s, pid) && s.procs[pid].pc.r.todo != [] && !s.procs[pid].pc.r.claimed
    ensures var r := s.procs[pid].pc.r;
      Run(cfg, s, [Advance(pid), Advance(pid)]) ==
        Onward(s, pid, true, r.todo[1..], Uploaded(s.db, r, [r.todo[0]]))
  {
    var r := s.procs[pid].pc.r;
    assert r.todo[0] in r.todo;
    RunTwo(cfg, s, Advance(pid), Advance(pid));
    var claimed := Claim(s, pid);
    assert Step(cfg, s, Advance(pid)) == claimed;
    assert Step(cfg, claimed, Advance(pid)) == RotationWrite(claimed, pid, true);
    WriteAllThen(claimed.db, [], r.todo[0], Blob(r.key, r.from + 1), r.Source());
    assert [] + [r.todo[0]] == [r.todo[0]];
  }

  lemma UploadedThen(db: Ledger, r: Rotation, fine: bool, more: seq<User>)
    requires r.todo != []
    ensures var first := if fine then [r.todo[0]] else [];
      Uploaded(Uploaded(db, r, first), r.(claimed := r.claimed || fine, todo := r.todo[1..]), more) ==
        Uploaded(db, r, first + more)
  {
    if !fine {
      assert [] + more == more;
    } else {
      var u, base := r.todo[0], if r.claimed then db else ClaimEpoch(db, r.key);
      assert ([u] + more)[1..] == more;
      WriteAllThen(base, [], u, Blob(r.key, r.from + 1), r.Source());
      assert [] + [u] == [u];
    }
  }

  lemma UploadingOn(s: State, pid: Pid, fine: bool)
    requires Uploading(s, pid) && s.procs[pid].pc.r.todo != []
    ensures var r := s.procs[pid].pc.r;
      Uploading(Onward(s, pid, r.claimed || fine, r.todo[1..], Uploaded(s.db, r, if fine then [r.todo[0]] else [])),
        pid)
  {
    var r := s.procs[pid].pc.r;
    var first := if fine then [r.todo[0]] else [];
    assert forall u :: u in r.todo[1..] ==> u in r.todo;
    WriteAllRows(if r.claimed || first == [] then s.db else ClaimEpoch(s.db, r.key), first, Blob(r.key, r.from + 1),
                 r.Source());
  }

  /** What a run of uploads comes to. */
  ghost predicate UploadsComeTo(cfg: Config, s: State, pid: Pid, fine: seq<bool>)
    requires Uploading(s, pid) && |fine| == |s.procs[pid].pc.r.todo|
  {
    var r := s.procs[pid].pc.r;
    Run(cfg, s, Uploads(pid, r.claimed, fine)) ==
      Onward(s, pid, r.claimed || true in fine, [], Uploaded(s.db, r, Served(r.todo, fine)))
  }

  lemma OnwardTwice(s: State, pid: Pid, claimed: bool, todo: seq<User>, db: Ledger, db2: Ledger, last: bool)
    requires pid in s.procs && s.procs[pid].pc.Rotating?
    ensures Onward(Onward(s, pid, claimed, todo, db), pid, last, [], db2) == Onward(s, pid, last, [], db2)
  {
    var one := Onward(s, pid, claimed, todo, db);
    var two := Onward(one, pid, last, [], db2);
    assert two.procs == Onward(s, pid, last, [], db2).procs;
  }

  lemma UploadThenMore(cfg: Config, s: State, pid: Pid, fine: seq<bool>, next: State)
    requires Uploading(s, pid) && fine != [] && |fine| == |s.procs[pid].pc.r.todo|
    requires var r := s.procs[pid].pc.r;
      next == Onward(s, pid, r.claimed || fine[0], r.todo[1..], Uploaded(s.db, r, if fine[0] then [r.todo[0]] else []))
    requires Uploading(next, pid) && UploadsComeTo(cfg, next, pid, fine[1..])
    ensures UploadsComeTo(cfg, s, pid, fine)
  {
    var r := s.procs[pid].pc.r;
    var q := next.procs[pid].pc.r;
    assert q == r.(claimed := r.claimed || fine[0], todo := r.todo[1..]);
    UploadOne(cfg, s, pid, fine[0]);
    RunBoth(cfg, s, Upload(pid, r.claimed, fine[0]), Uploads(pid, r.claimed || fine[0], fine[1..]));
    UploadedThen(s.db, r, fine[0], Served(r.todo[1..], fine[1..]));
    assert true in fine <==> fine[0] || true in fine[1..];
    OnwardTwice(s, pid, r.claimed || fine[0], r.todo[1..], next.db, Uploaded(next.db, q, Served(q.todo, fine[1..])),
                r.claimed || true in fine);
  }

  lemma {:induction false} UploadsRun(cfg: Config, s: State, pid: Pid, fine: seq<bool>)
    requires Uploading(s, pid) && |fine| == |s.procs[pid].pc.r.todo|
    ensures UploadsComeTo(cfg, s, pid, fine)
    decreases |fine|
  {
    var r := s.procs[pid].pc.r;
    if fine == [] {
      assert r.(claimed := r.claimed || true in fine, todo := []) == r;
      assert Onward(s, pid, r.claimed, [], s.db) == s;
    } else {
      var next :=
        Onward(s, pid, r.claimed || fine[0], r.todo[1..], Uploaded(s.db, r, if fine[0] then [r.todo[0]] else []));
      UploadingOn(s, pid, fine[0]);
      UploadsRun(cfg, next, pid, fine[1..]);
      UploadThenMore(cfg, s, pid, fine, next);
    }
  }

  function Begun(pid: Pid, client: Client): seq<Action> {
    [StartDirectRotate(pid, client), Advance(pid), Advance(pid)]
  }

  /** Rows and epoch after a rotation that reached only some of those it addressed. */
  ghost predicate PartlyRekeyed(cfg: Config, db: Ledger, fine: seq<bool>, t: Chat)
    requires |fine| == |Recipients(cfg, db.chat.roster)|
  {
    && t.epoch == db.chat.epoch + (if true in fine then 1 else 0)
    && t.roster == db.chat.roster && t.rows.Keys == db.chat.rows.Keys
    && forall u :: u in db.chat.rows ==>
         t.rows[u] ==
           if exists i :: 0 <= i < |fine| && Recipients(cfg, db.chat.roster)[i] == u && fine[i]
           then db.chat.rows[u].(blob := Some(Blob(db.nextKey, db.chat.epoch + 1))) else db.chat.rows[u]
  }

  lemma BegunRuns(cfg: Config, s: State, pid: Pid, client: Client) returns (u: State)
    requires Inv(cfg, s) && pid !in s.procs && client !in s.inner && cfg.owner in cfg.hasEcdh
    ensures u == Run(cfg, s, Begun(pid, client)) && Uploading(u, pid) && u.db == Mint(s.db)
    ensures u.procs[pid].pc.r ==
      Rotation(false, Recipients(cfg, s.db.chat.roster), s.db.nextKey, s.db.chat.epoch, s.db.chat.epoch, false, false,
               false)
    ensures u.procs - {pid} == s.procs && u.outer == s.outer && u.inner == s.inner + {client}
    ensures u.procs[pid].client == client
  {
    var inside := Step(cfg, s, StartDirectRotate(pid, client));
    var read := Step(cfg, inside, Advance(pid));
    u := Step(cfg, read, Advance(pid));
    RunBoth(cfg, s, [StartDirectRotate(pid, client)], [Advance(pid), Advance(pid)]);
    RunOne(cfg, s, StartDirectRotate(pid, client));
    RunTwo(cfg, inside, Advance(pid), Advance(pid));
    assert Begun(pid, client) == [StartDirectRotate(pid, client)] + [Advance(pid), Advance(pid)];
  }

  lemma PartlyIs(cfg: Config, db: Ledger, fine: seq<bool>, r: Rotation)
    requires |fine| == |Recipients(cfg, db.chat.roster)| && !r.claimed
    requires r.key == db.nextKey && r.from == db.chat.epoch
    ensures PartlyRekeyed(cfg, db, fine, Uploaded(Mint(db), r, Served(Recipients(cfg, db.chat.roster), fine)).chat)
  {
    var todo := Recipients(cfg, db.chat.roster);
    var served := Served(todo, fine);
    ServedNone(todo, fine);
    WriteAllRows(if served == [] then Mint(db) else ClaimEpoch(Mint(db), r.key), served, Blob(r.key, r.from + 1),
                 r.Source());
    forall u | u in db.chat.rows ensures u in served <==> exists i :: 0 <= i < |fine| && todo[i] == u && fine[i] {
      ServedWho(todo, fine, u);
    }
  }

  /** Whichever uploads of a rotation fail, it goes on to the end and releases its lock:
      those it reached have the new key, nobody else's row changed, and the epoch has
      moved, by one, exactly when it reached anyone. */
  lemma RotationWithFailures(cfg: Config, s: State, pid: Pid, client: Client, fine: seq<bool>)
    requires Inv(cfg, s) && pid !in s.procs && client !in s.inner && cfg.owner in cfg.hasEcdh
    requires |fine| == |Recipients(cfg, s.db.chat.roster)|
    ensures var t := Run(cfg, s, Begun(pid, client) + Uploads(pid, false, fine) + [Advance(pid)]);
      && t.procs == s.procs && t.outer == s.outer && t.inner == s.inner
      && PartlyRekeyed(cfg, s.db, fine, t.db.chat)
  {
    var u := BegunRuns(cfg, s, pid, client);
    UploadsRun(cfg, u, pid, fine);
    EndsThere(cfg, u, pid, fine);
    RunBoth(cfg, s, Begun(pid, client), Uploads(pid, false, fine));
    RunBoth(cfg, s, Begun(pid, client) + Uploads(pid, false, fine), [Advance(pid)]);
    PartlyIs(cfg, s.db, fine, u.procs[pid].pc.r);
    assert u.inner - {client} == s.inner;
  }

  lemma EndsThere(cfg: Config, u: State, pid: Pid, fine: seq<bool>)
    requires Uploading(u, pid) && |fine| == |u.procs[pid].pc.r.todo| && UploadsComeTo(cfg, u, pid, fine)
    requires var r := u.procs[pid].pc.r; !r.outer && !r.late && !r.claimed
    ensures var r := u.procs[pid].pc.r;
      var t := Run(cfg, Run(cfg, u, Uploads(pid, false, fine)), [Advance(pid)]);
      && t.procs == u.procs - {pid} && t.outer == u.outer && t.inner == u.inner - {u.procs[pid].client}
      && t.db == Uploaded(u.db, r, Served(r.todo, fine))
  {
    var v := Run(cfg, u, Uploads(pid, false, fine));
    RunOne(cfg, v, Advance(pid));
    assert v.procs - {pid} == u.procs - {pid};
  }

  /** The rows of `c` with the blob written for each of `who` that is there. */
  ghost predicate Handed(c: Chat, who: seq<User>, blob: Blob, t: Chat) {
    && t.epoch == c.epoch && t.roster == c.roster && t.rows.Keys == c.rows.Keys
    && forall u :: u in c.rows ==> t.rows[u] == if u in who then c.rows[u].(blob := Some(blob)) else c.rows[u]
  }

  /** A rotation that has its claim goes through all it addresses and leaves: those who
      are gone by then are passed over, everyone still there gets the key. */
  lemma GonePassedOver(cfg: Config, s: State, pid: Pid)
    requires pid in s.procs && s.procs[pid].pc.Rotating?
    requires s.procs[pid].pc.r.claimed && !s.procs[pid].pc.r.writing
    ensures var r := s.procs[pid].pc.r;
      exists t: State :: (Solo(cfg, s, pid, t) &&
        t.procs == s.procs - {pid} && t.outer <= s.outer && t.inner <= s.inner &&
        Handed(s.db.chat, r.todo, Blob(r.key, r.from + 1), t.db.chat))
  {
    var r := s.procs[pid].pc.r;
    RotatingRuns(cfg, s, pid);
    WriteAllRows(s.db, r.todo, Blob(r.key, r.from + 1), r.Source());
    var t := Leave(s, pid).(db := WriteAll(s.db, r.todo, Blob(r.key, r.from + 1), r.Source()));
    assert Solo(cfg, s, pid, t);
  }

  // ------------------------------------------------ a hand-out that breaks off

  /** A delivery or reconcile that is handing out a key. */
  predicate HandingOut(s: State, pid: Pid, k: nat) {
    && pid in s.procs && s.procs[pid].pc.Direct? && k <= |s.procs[pid].pc.d.todo|
    && forall i :: 0 <= i < k ==> s.procs[pid].pc.d.todo[i] in s.db.chat.rows
  }

  lemma {:induction false} HandOutGoes(cfg: Config, s: State, pid: Pid, k: nat)
    requires HandingOut(s, pid, k)
    ensures var d := s.procs[pid].pc.d;
      Run(cfg, s, Advances(pid, k)) ==
        Move(s, pid, Direct(d.(todo := d.todo[k..]))).(db := WriteAll(s.db, d.todo[..k], d.blob, d.Source()))
    decreases k
  {
    var d := s.procs[pid].pc.d;
    if k == 0 {
      assert d.todo[0..] == d.todo && s.procs[pid := s.procs[pid]] == s.procs;
    } else {
      var next := AdvanceDirect(s, pid);
      assert d.todo[0] in s.db.chat.rows;
      assert Step(cfg, s, Advance(pid)) == next;
      HandOutGoes(cfg, next, pid, k - 1);
      assert Advances(pid, k)[1..] == Advances(pid, k - 1);
      assert d.todo[1..][k - 1..] == d.todo[k..] && d.todo[1..][..k - 1] == d.todo[..k][1..];
    }
  }

  /** It breaks off at the first member that is gone, at the first request that fails or
      whose reply is lost, and so at the end: those before have been written, those
      behind have not; of a lost reply the row is written too. */
  lemma HandOutBreaksOff(cfg: Config, s: State, pid: Pid, k: nat, last: Action)
    requires HandingOut(s, pid, k) && last in {Advance(pid), Fail(pid), LoseReply(pid)}
    requires var todo := s.procs[pid].pc.d.todo;
      match last
      case Advance(_) => k == |todo| || todo[k] !in s.db.chat.rows
      case LoseReply(_) => k < |todo|
      case _ => true
    ensures var d, t := s.procs[pid].pc.d, Run(cfg, s, Advances(pid, k) + [last]);
      && t.procs == s.procs - {pid} && t.outer == s.outer && t.inner == s.inner
      && Handed(s.db.chat, d.todo[..if last.LoseReply? then k + 1 else k], d.blob, t.db.chat)
  {
    var d := s.procs[pid].pc.d;
    HandOutGoes(cfg, s, pid, k);
    var v := Run(cfg, s, Advances(pid, k));
    RunBoth(cfg, s, Advances(pid, k), [last]);
    RunOne(cfg, v, last);
    WriteAllRows(s.db, d.todo[..k], d.blob, d.Source());
    assert v.procs - {pid} == s.procs - {pid};
    if last.LoseReply? {
      assert d.todo[..k + 1] == d.todo[..k] + [d.todo[k]];
      WriteAllThen(s.db, d.todo[..k], d.todo[k], d.blob, d.Source());
      WriteAllRows(s.db, d.todo[..k + 1], d.blob, d.Source());
    }
  }

  /** A hand-out that no longer waits for its request is over, but for the request: if it
      arrives the one row is written, and no other. */
  lemma GivenUpHandOut(cfg: Config, s: State, pid: Pid, request: Pid)
    requires HandingOut(s, pid, 1) && request !in s.procs
    ensures var d, t := s.procs[pid].pc.d, Run(cfg, s, [GiveUp(pid, request)] + Advances(pid, 1) + [Advance(pid)]);
      && t.procs == s.procs - {pid} && t.outer == s.outer && t.inner == s.inner
      && Handed(s.db.chat, [d.todo[0]], d.blob, t.db.chat)
  {
    var d := s.procs[pid].pc.d;
    var given := Step(cfg, s, GiveUp(pid, request));
    assert d.todo[0] in s.db.chat.rows;
    RunOne(cfg, s, GiveUp(pid, request));
    RunBoth(cfg, s, [GiveUp(pid, request)], Advances(pid, 1) + [Advance(pid)]);
    assert [GiveUp(pid, request)] + (Advances(pid, 1) + [Advance(pid)]) ==
      [GiveUp(pid, request)] + Advances(pid, 1) + [Advance(pid)];
    assert given.procs[pid].pc.d.todo == [d.todo[0]];
    HandOutBreaksOff(cfg, given, pid, 1, Advance(pid));
    assert given.procs - {pid} == s.procs - {pid} && [d.todo[0]][..1] == [d.todo[0]];
  }

  // ------------------------------------------------- requests of a rotation

  /** A rotation whose claim took effect but whose reply was lost has written that one
      row and moved the epoch without knowing; at the next member it is refused and
      leaves. */
  lemma LostClaim(cfg: Config, s: State, pid: Pid)
    requires Uploading(s, pid) && !s.procs[pid].pc.r.claimed && !s.procs[pid].pc.r.late
    requires |s.procs[pid].pc.r.todo| > 1
    ensures var r, t := s.procs[pid].pc.r, Run(cfg, s, [Advance(pid), LoseReply(pid), Advance(pid)]);
      && t.procs == s.procs - {pid} && s.procs[pid].client !in t.inner
      && t.db.chat.epoch == r.from + 1
      && t.db.chat.rows ==
        s.db.chat.rows[r.todo[0] := s.db.chat.rows[r.todo[0]].(blob := Some(Blob(r.key, r.from + 1)))]
  {
    var r := s.procs[pid].pc.r;
    var claimed := Claim(s, pid);
    var lost := RotationWrite(claimed, pid, false);
    assert r.todo[0] in r.todo;
    assert Step(cfg, s, Advance(pid)) == claimed;
    assert Step(cfg, claimed, LoseReply(pid)) == lost;
    ThenRefused(cfg, s, pid, lost);
    assert [Advance(pid)] + [LoseReply(pid), Advance(pid)] == [Advance(pid), LoseReply(pid), Advance(pid)];
    RunBoth(cfg, s, [Advance(pid)], [LoseReply(pid), Advance(pid)]);
    RunOne(cfg, s, Advance(pid));
    RunTwo(cfg, claimed, LoseReply(pid), Advance(pid));
  }

  lemma ThenRefused(cfg: Config, s: State, pid: Pid, lost: State)
    requires Uploading(s, pid) && !s.procs[pid].pc.r.claimed && !s.procs[pid].pc.r.late
    requires |s.procs[pid].pc.r.todo| > 1 && lost == RotationWrite(Claim(s, pid), pid, false)
    ensures var r, t := s.procs[pid].pc.r, Step(cfg, lost, Advance(pid));
      && t.procs == s.procs - {pid} && s.procs[pid].client !in t.inner
      && t.db.chat.epoch == r.from + 1
      && t.db.chat.rows ==
        s.db.chat.rows[r.todo[0] := s.db.chat.rows[r.todo[0]].(blob := Some(Blob(r.key, r.from + 1)))]
  {
    var r := s.procs[pid].pc.r;
    assert r.todo[0] in r.todo && r.todo[1] in r.todo;
    assert lost.procs[pid].pc.r.todo[0] == r.todo[1] && lost.db.chat.epoch != r.from;
    assert lost.procs - {pid} == s.procs - {pid};
  }

  /** The same if the server had moved the epoch when the row could not be written: no row
      has changed. */
  lemma FailedClaim(cfg: Config, s: State, pid: Pid)
    requires Uploading(s, pid) && !s.procs[pid].pc.r.claimed && !s.procs[pid].pc.r.late
    requires |s.procs[pid].pc.r.todo| > 1
    ensures var r, t := s.procs[pid].pc.r, Run(cfg, s, [Advance(pid), Fail(pid), Advance(pid)]);
      && t.procs == s.procs - {pid} && s.procs[pid].client !in t.inner
      && t.db.chat == s.db.chat.(epoch := r.from + 1)
  {
    var r := s.procs[pid].pc.r;
    var claimed := Claim(s, pid);
    var failed := Failure(claimed, pid);
    assert r.todo[0] in r.todo && r.todo[1] in r.todo;
    assert Step(cfg, s, Advance(pid)) == claimed;
    assert failed.procs[pid].pc.r.todo[0] == r.todo[1] && failed.db.chat.epoch != r.from;
    assert failed.procs - {pid} == s.procs - {pid};
    RunBoth(cfg, s, [Advance(pid)], [Fail(pid), Advance(pid)]);
    RunOne(cfg, s, Advance(pid));
    RunTwo(cfg, claimed, Fail(pid), Advance(pid));
    assert [Advance(pid)] + [Fail(pid), Advance(pid)] == [Advance(pid), Fail(pid), Advance(pid)];
  }

  /** A claim that its client no longer waits for can still arrive, move the epoch and
      write its row; the rotation goes on without it and is then refused. */
  lemma LateClaim(cfg: Config, s: State, pid: Pid, request: Pid)
    requires Uploading(s, pid) && !s.procs[pid].pc.r.claimed && !s.procs[pid].pc.r.late && request !in s.procs
    requires |s.procs[pid].pc.r.todo| > 1
    ensures var r := s.procs[pid].pc.r;
      var t := Run(cfg, s, [GiveUp(pid, request)] + Advances(request, 3) + [Advance(pid)]);
      && t.procs == s.procs - {pid} && s.procs[pid].client !in t.inner
      && t.db.chat.epoch == r.from + 1
      && t.db.chat.rows ==
        s.db.chat.rows[r.todo[0] := s.db.chat.rows[r.todo[0]].(blob := Some(Blob(r.key, r.from + 1)))]
  {
    var given := Step(cfg, s, GiveUp(pid, request));
    var landed := LateLands(cfg, s, pid, request);
    RunBoth(cfg, s, [GiveUp(pid, request)] + Advances(request, 3), [Advance(pid)]);
    RunBoth(cfg, s, [GiveUp(pid, request)], Advances(request, 3));
    RunOne(cfg, s, GiveUp(pid, request));
    RunOne(cfg, landed, Advance(pid));
    var r := s.procs[pid].pc.r;
    assert r.todo[1] in r.todo && landed.procs[pid].pc.r.todo[0] == r.todo[1];
    assert landed.procs - {pid} == s.procs - {pid};
  }

  lemma LateLands(cfg: Config, s: State, pid: Pid, request: Pid) returns (landed: State)
    requires Uploading(s, pid) && !s.procs[pid].pc.r.claimed && !s.procs[pid].pc.r.late && request !in s.procs
    requires |s.procs[pid].pc.r.todo| > 1
    ensures landed == Run(cfg, Step(cfg, s, GiveUp(pid, request)), Advances(request, 3))
    ensures var r := s.procs[pid].pc.r;
      && landed.procs == s.procs[pid := Proc(s.procs[pid].client, Rotating(r.(todo := r.todo[1..])))]
      && landed.outer == s.outer && landed.inner == s.inner && landed.db.chat.epoch == r.from + 1
      && landed.db.chat.rows ==
        s.db.chat.rows[r.todo[0] := s.db.chat.rows[r.todo[0]].(blob := Some(Blob(r.key, r.from + 1)))]
  {
    var r := s.procs[pid].pc.r;
    assert r.todo[0] in r.todo;
    var given := Step(cfg, s, GiveUp(pid, request));
    assert given.procs[request].pc == Request(r);
    var claimed := Claim(given, request);
    var written := RotationWrite(claimed, request, true);
    landed := Leave(written, request);
    assert Step(cfg, given, Advance(request)) == claimed;
    assert Step(cfg, claimed, Advance(request)) == written;
    assert Step(cfg, written, Advance(request)) == landed;
    assert Advances(request, 3) == [Advance(request)] + [Advance(request), Advance(request)] by {
      assert Advances(request, 1) == [Advance(request)];
      assert Advances(request, 2) == [Advance(request), Advance(request)];
    }
    RunBoth(cfg, given, [Advance(request)], [Advance(request), Advance(request)]);
    RunOne(cfg, given, Advance(request));
    RunTwo(cfg, claimed, Advance(request), Advance(request));
    assert written.procs - {request} == given.procs - {request} == s.procs[pid := given.procs[pid]];
  }

  /** A rotation that has its claim and no longer waits for an upload goes on with the
      next member, and the row is written when the request arrives after all. */
  lemma LateUpload(cfg: Config, s: State, pid: Pid, request: Pid)
    requires Uploading(s, pid) && s.procs[pid].pc.r.claimed && s.procs[pid].pc.r.todo != [] && request !in s.procs
    ensures var r, t := s.procs[pid].pc.r, Run(cfg, s, [GiveUp(pid, request), Advance(request), Advance(request)]);
      && t.procs == s.procs[pid := Proc(s.procs[pid].client, Rotating(r.(todo := r.todo[1..])))]
      && t.outer == s.outer && t.inner == s.inner && t.db.chat.epoch == s.db.chat.epoch
      && t.db.chat.rows ==
        s.db.chat.rows[r.todo[0] := s.db.chat.rows[r.todo[0]].(blob := Some(Blob(r.key, r.from + 1)))]
  {
    var r := s.procs[pid].pc.r;
    assert r.todo[0] in r.todo;
    var given := Step(cfg, s, GiveUp(pid, request));
    var landed := RotationWrite(given, request, true);
    assert given.procs[request].pc == Request(r);
    assert Step(cfg, given, Advance(request)) == landed;
    assert Step(cfg, landed, Advance(request)) == Leave(landed, request);
    RunBoth(cfg, s, [GiveUp(pid, request)], [Advance(request), Advance(request)]);
    RunOne(cfg, s, GiveUp(pid, request));
    RunTwo(cfg, given, Advance(request), Advance(request));
    assert [GiveUp(pid, request)] + [Advance(request), Advance(request)] ==
      [GiveUp(pid, request), Advance(request), Advance(request)];
    assert landed.procs - {request} == given.procs - {request} == s.procs[pid := given.procs[pid]];
  }

  // ------------------------------------------------------ the guarded rotation

  /** The owner's stored key is of the chat's epoch, or there has never been one. */
  predicate UpToDate(cfg: Config, c: Chat) {
    cfg.owner in c.rows && match c.rows[cfg.owner].blob case None => c.epoch == 0 case Some(b) => b.stamp == c.epoch
  }

  ghost predicate GuardedOutcome(cfg: Config, db: Ledger, t: Ledger) {
    if UpToDate(cfg, db.chat) || cfg.owner !in cfg.hasEcdh then t == db
    else if exists u :: u in db.chat.rows && cfg.Eligible(u) then Rekeyed(cfg, db.chat, db.nextKey, t.chat)
    else t.chat == db.chat
  }

  /** The guarded rotation, undisturbed: it changes nothing if the owner is up to date or
      has no ECDH key, and otherwise rekeys everyone who is trusted. */
  lemma GuardedRotation(cfg: Config, s: State, pid: Pid, client: Client)
    requires Inv(cfg, s) && pid !in s.procs && client !in s.outer && client !in s.inner
    ensures exists t: Ledger ::
      (GuardedOutcome(cfg, s.db, t) && Alone(cfg, s, StartRotate(pid, client), pid, s.(db := t)))
  {
    var spawned := Step(cfg, s, StartRotate(pid, client));
    var t := QuietRotateIfStale(cfg, s.db);
    assert spawned.procs - {pid} == s.procs;
    RotateIfStaleRuns(cfg, spawned, pid);
    assert spawned.(db := t, procs := spawned.procs - {pid}) == s.(db := t);
    StartThenSolo(cfg, s, StartRotate(pid, client), pid, s.(db := t));
    StaleOutcome(cfg, s.db);
  }

  lemma FirstRecipient(cfg: Config, db: Ledger)
    requires DataOk(cfg, db) && Recipients(cfg, db.chat.roster) != []
    ensures var u := Recipients(cfg, db.chat.roster)[0]; u in db.chat.rows && cfg.Eligible(u)
  {
    assert Recipients(cfg, db.chat.roster)[0] in Recipients(cfg, db.chat.roster);
  }

  lemma StaleOutcome(cfg: Config, db: Ledger)
    requires DataOk(cfg, db)
    ensures GuardedOutcome(cfg, db, QuietRotateIfStale(cfg, db))
  {
    assert RowOk(db, cfg.owner, db.chat.rows[cfg.owner]);
    if !UpToDate(cfg, db.chat) && cfg.owner in cfg.hasEcdh {
      RotationRows(cfg, db);
      if Recipients(cfg, db.chat.roster) != [] {
        FirstRecipient(cfg, db);
      } else {
        forall u | u in db.chat.rows ensures !cfg.Eligible(u) {
          Addressed(cfg, db, u);
        }
      }
    }
  }

  /** While the session is rotating already, by either way in, a second rotation of it
      ends without a trace. */
  lemma LockedDoesNothing(cfg: Config, s: State, pid: Pid, client: Client)
    requires pid !in s.procs && (client in s.outer || client in s.inner)
    ensures Alone(cfg, s, StartRotate(pid, client), pid, s)
    ensures client in s.inner ==> Step(cfg, s, StartDirectRotate(pid, client)) == s
  {
    var spawned := Step(cfg, s, StartRotate(pid, client));
    assert spawned.procs - {pid} == s.procs;
    if client in s.outer {
      SoloRefl(cfg, s, pid);
      assert Progress(cfg, spawned, pid) == s;
    } else {
      LockedInside(cfg, s, spawned, pid, client);
    }
    if client in s.outer {
      SoloStep(cfg, spawned, pid, s);
    }
    StartThenSolo(cfg, s, StartRotate(pid, client), pid, s);
  }

  lemma LockedInside(cfg: Config, s: State, spawned: State, pid: Pid, client: Client)
    requires pid !in s.procs && client !in s.outer && client in s.inner
    requires spawned == Step(cfg, s, StartRotate(pid, client)) && spawned.procs - {pid} == s.procs
    ensures Solo(cfg, spawned, pid, s)
  {
    var entered := EnterOuter(spawned, pid);
    var read := Move(entered, pid, GuardRoster(s.db.chat.epoch));
    assert read.outer - {client} == s.outer && read.procs - {pid} == s.procs;
    assert Progress(cfg, read, pid) == s;
    SoloRefl(cfg, s, pid);
    SoloStep(cfg, read, pid, s);
    assert Progress(cfg, entered, pid) == read;
    SoloStep(cfg, entered, pid, s);
    assert Progress(cfg, spawned, pid) == entered;
    SoloStep(cfg, spawned, pid, s);
  }
}
