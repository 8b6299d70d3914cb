/**
  Links do complete: with an honest relay a vault arrives by each of the three ways,
  however often the devices poll in vain, whatever has failed before, and however
  often a code is mistyped or a deposit does not get through.
*/
module LinkCompletes {
  import opened Wrappers
  import opened DeviceLink

  // ------------------------------------------------------------ honest runs

  /** An honest run from `v` to `w`. */
  ghost predicate Leads(f: (Rid, Key) -> Digits, v: World, run: seq<Step>, w: World) {
    CanRun(f, v, run) && AllHonest(f, v, run) && Run(f, v, run) == w
  }

  lemma {:induction false} LeadsOn(f: (Rid, Key) -> Digits, u: World, run: seq<Step>, v: World, more: seq<Step>,
          w: World)
    requires Leads(f, u, run, v) && Leads(f, v, more, w)
    ensures Leads(f, u, run + more, w)
    decreases |run|
  {
    if run == [] {
      assert run + more == more;
    } else {
      assert (run + more)[1..] == run[1..] + more;
      LeadsOn(f, Next(f, u, run[0]), run[1..], v, more, w);
    }
  }

  lemma One(f: (Rid, Key) -> Digits, v: World, a: Step) returns (w: World)
    requires Enabled(v, a) && Honest(v, a)
    ensures w == Next(f, v, a) && Leads(f, v, [a], w)
  {
    w := Next(f, v, a);
    assert [a][1..] == [];
  }

  /** One more honest step. */
  lemma Then(f: (Rid, Key) -> Digits, u: World, run: seq<Step>, v: World, a: Step) returns (more: seq<Step>, w: World)
    requires Leads(f, u, run, v) && Enabled(v, a) && Honest(v, a)
    ensures more == run + [a] && w == Next(f, v, a) && Leads(f, u, more, w)
  {
    w := One(f, v, a);
    LeadsOn(f, u, run, v, [a], w);
    more := run + [a];
  }

  // ---------------------------------------------------- waiting in vain

  function Times(steps: seq<Step>, n: nat): seq<Step> { if n == 0 then [] else steps + Times(steps, n - 1) }

  /** What leads back to where it began does so any number of times. */
  lemma {:induction false} Again(f: (Rid, Key) -> Digits, w: World, steps: seq<Step>, n: nat)
    requires Leads(f, w, steps, w)
    ensures Leads(f, w, Times(steps, n), w)
    decreases n
  {
    if n > 0 {
      Again(f, w, steps, n - 1);
      LeadsOn(f, w, steps, w, Times(steps, n - 1), w);
    }
  }

  const VAIN_POLL := [PollFires(false), StatusIs(None, false)]

  /** Until the new device has submitted a key, polls before the deadline change nothing:
      the modal shows its code and has the next poll scheduled, after any number of them. */
  lemma PollsGoOn(f: (Rid, Key) -> Digits, w: World, n: nat)
    requires w.modal.wait.Timer? && !w.modal.stop
    requires w.modal.wait.rid in w.relay && w.relay[w.modal.wait.rid].key == None
    ensures Leads(f, w, Times(VAIN_POLL, n), w)
  {
    var run, v := Then(f, w, [], w, PollFires(false));
    run, v := Then(f, w, run, v, StatusIs(None, false));
    assert v == w;
    Again(f, w, VAIN_POLL, n);
  }

  const VAIN_CLAIM := [NewPoll(false), NewClaimed(Pending)]

  /** The same for the new device until its vault has been deposited. */
  lemma ClaimsGoOn(f: (Rid, Key) -> Digits, w: World, n: nat)
    requires w.panel.wait.PollTimer? && w.panel.wait.rid in w.relay
    requires w.relay[w.panel.wait.rid].claim == w.panel.wait.claim && w.relay[w.panel.wait.rid].blob == None
    ensures Leads(f, w, Times(VAIN_CLAIM, n), w)
  {
    var run, v := Then(f, w, [], w, NewPoll(false));
    run, v := Then(f, w, run, v, NewClaimed(Pending));
    assert v == w;
    Again(f, w, VAIN_CLAIM, n);
  }

  // ------------------------------------------------------ after a failure

  /** A failed request leaves the modal waiting for nothing, and where it was or at the
      choice of modes, so that the user can do the same again. */
  lemma ModalRecovers(f: (Rid, Key) -> Digits, e: Existing, a: Step)
    requires ModalOk(f, e) && CanModal(e, a) && !e.stop
    requires a in {CreateFails, PollFires(true), StatusFails} || (a.StatusIs? && a.gone)
    ensures var t := ModalNext(f, e, a); t == e.(phase := Mode, wait := Nothing) && CanModal(t, TabShow)
  {
  }

  /** What is typed, scanned or confirmed can be so again. */
  lemma ModalRetries(f: (Rid, Key) -> Digits, e: Existing, a: Step, again: Step)
    requires CanModal(e, a) && (a == ResolveFails || a == DepositDone(false, false))
    requires (e.phase == Code && again.SubmitCode?) || (e.phase == Scan && again.Scanned?) ||
      (e.phase == Verify && e.digits.Some? && again.Confirm?)
    ensures ModalNext(f, e, a) == e.(wait := Nothing) && CanModal(ModalNext(f, e, a), again)
  {
  }

  /** A request of the new device that fails, or finds its rendezvous gone, ends in an
      error from which either mode can be started again; nothing is persisted. */
  lemma PanelRecovers(f: (Rid, Key) -> Digits, n: New, a: Step, pair: Key)
    requires CanPanel(n, a)
    requires a in {NewCreateFails, NewPoll(true), NewClaimed(Gone), NewClaimed(Failed)} || (a.NewSubmitted? && !a.fine)
      || (a.NewClaimed? && a.answer.Ready? && a.answer.blob.key != n.wait.mine)
    ensures var t := PanelNext(f, n, a);
      t == n.(status := Error, wait := NoWait) && CanPanel(t, NewShow(pair)) && CanPanel(t, NewScanMode)
  {
  }

  datatype Mishap = NotCreated | DeadlinePassed | EntryGone | NoAnswer

  /** One attempt to show a code, under id `r`, and how it ends in vain. */
  function Attempt(m: Mishap, r: Rid): seq<Step> {
    match m
    case NotCreated => [TabShow, CreateFails]
    case DeadlinePassed => [TabShow, Created(r, 0, 0), PollFires(true)]
    case EntryGone => [TabShow, Created(r, 0, 0), Expire(r), PollFires(false), StatusIs(None, true)]
    case NoAnswer => [TabShow, Created(r, 0, 0), PollFires(false), StatusFails]
  }

  /** Nothing has come of it: the user chooses a mode, and the ids from `low` up are free. */
  ghost predicate Choosing(w: World, low: Rid) {
    && w.modal.phase == Mode && w.modal.wait == Nothing && w.gated
    && w.panel == START.panel && w.deposits == [] && w.keys == map[] && w.codes == map[]
    && forall r :: r in w.relay ==> r < low
  }

  lemma AttemptFails(f: (Rid, Key) -> Digits, v: World, m: Mishap, r: Rid) returns (w: World)
    requires Choosing(v, r)
    ensures Leads(f, v, Attempt(m, r), w) && Choosing(w, r + 1)
  {
    var run, u := Then(f, v, [], v, TabShow);
    if m.NotCreated? {
      run, w := Then(f, v, run, u, CreateFails);
      return;
    }
    run, u := Then(f, v, run, u, Created(r, 0, 0));
    w := CreatedFails(f, v, run, u, m, r);
  }

  /** Created, and the timer of its first poll set. */
  ghost predicate Underway(f: (Rid, Key) -> Digits, v: World, run: seq<Step>, u: World, r: Rid) {
    && Leads(f, v, run, u) && run == [TabShow, Created(r, 0, 0)] && u.modal.wait == Timer(r) && !u.modal.stop
    && Choosing(u.(modal := u.modal.(phase := Mode, wait := Nothing)), r + 1)
  }

  lemma CreatedFails(f: (Rid, Key) -> Digits, v: World, run: seq<Step>, u: World, m: Mishap, r: Rid)
    returns (w: World)
    requires Underway(f, v, run, u, r) && !m.NotCreated?
    ensures Leads(f, v, Attempt(m, r), w) && Choosing(w, r + 1)
  {
    match m {
      case DeadlinePassed =>
        var more;
        more, w := Then(f, v, run, u, PollFires(true));
        assert more == Attempt(DeadlinePassed, r);
      case EntryGone =>
        w := GoneFails(f, v, run, u, r);
      case NoAnswer =>
        w := NoAnswerFails(f, v, run, u, r);
    }
  }

  lemma GoneFails(f: (Rid, Key) -> Digits, v: World, run0: seq<Step>, u0: World, r: Rid) returns (w: World)
    requires Underway(f, v, run0, u0, r)
    ensures Leads(f, v, Attempt(EntryGone, r), w) && Choosing(w, r + 1)
  {
    var run, u := Then(f, v, run0, u0, Expire(r));
    w := PolledGone(f, v, run, u, r);
  }

  lemma PolledGone(f: (Rid, Key) -> Digits, v: World, run0: seq<Step>, u0: World, r: Rid) returns (w: World)
    requires Leads(f, v, run0, u0) && run0 == [TabShow, Created(r, 0, 0), Expire(r)] && r !in u0.relay
    requires u0.modal.wait == Timer(r) && !u0.modal.stop
    requires Choosing(u0.(modal := u0.modal.(phase := Mode, wait := Nothing)), r + 1)
    ensures Leads(f, v, Attempt(EntryGone, r), w) && Choosing(w, r + 1)
  {
    var run, u := Then(f, v, run0, u0, PollFires(false));
    run, w := Then(f, v, run, u, StatusIs(None, true));
    assert run == Attempt(EntryGone, r);
  }

  lemma NoAnswerFails(f: (Rid, Key) -> Digits, v: World, run0: seq<Step>, u0: World, r: Rid) returns (w: World)
    requires Underway(f, v, run0, u0, r)
    ensures Leads(f, v, Attempt(NoAnswer, r), w) && Choosing(w, r + 1)
  {
    var run, u := Then(f, v, run0, u0, PollFires(false));
    run, w := Then(f, v, run, u, StatusFails);
    assert run == Attempt(NoAnswer, r);
  }

  function Attempts(ms: seq<Mishap>, r: Rid): seq<Step>
    decreases |ms|
  {
    if ms == [] then [] else Attempt(ms[0], r) + Attempts(ms[1..], r + 1)
  }

  lemma {:induction false} AttemptsFail(f: (Rid, Key) -> Digits, v: World, ms: seq<Mishap>, r: Rid)
    returns (w: World)
    requires Choosing(v, r)
    ensures Leads(f, v, Attempts(ms, r), w) && Choosing(w, r + |ms|)
    decreases |ms|
  {
    if ms == [] {
      w := v;
    } else {
      var u := AttemptFails(f, v, ms[0], r);
      w := AttemptsFail(f, u, ms[1..], r + 1);
      LeadsOn(f, v, Attempt(ms[0], r), u, Attempts(ms[1..], r + 1), w);
    }
  }

  // --------------------------------------------------------- the deposit

  /** The new device, with key `k`, waits for its vault under id `r`. */
  ghost predicate PanelReady(f: (Rid, Key) -> Digits, w: World, r: Rid, k: Key) {
    && w.panel.wait.PollTimer? && w.panel.wait.rid == r && w.panel.wait.mine == k
    && w.panel.digits == Some(f(r, k))
    && r in w.relay && w.relay[r].claim == w.panel.wait.claim && w.relay[r].key == Some(k) && w.relay[r].blob == None
  }

  ghost predicate Arrived(w: World, content: Payload) {
    w.panel.status == Received && w.panel.persisted == Some(content)
  }

  /** The deposit goes through and the new device picks it up. */
  lemma PickedUp(f: (Rid, Key) -> Digits, v: World, r: Rid, k: Key, auth: Auth, content: Payload)
    returns (run: seq<Step>, w: World)
    requires PanelReady(f, v, r, k) && Authorised(v.relay[r], auth)
    requires v.modal.wait == Sending(r, auth, Cipher(k, content))
    ensures Leads(f, v, run, w) && w.deposits == v.deposits && w.panel.digits == v.panel.digits
    ensures Arrived(w, content) && w.modal.phase == Finished
  {
    var u;
    run, u := Then(f, v, [], v, DepositDone(true, true));
    run, w := Collected(f, v, run, u, r, k, content);
  }

  lemma Collected(f: (Rid, Key) -> Digits, v: World, run0: seq<Step>, u0: World, r: Rid, k: Key, content: Payload)
    returns (run: seq<Step>, w: World)
    requires Leads(f, v, run0, u0) && u0.modal.phase == Finished
    requires u0.panel.wait.PollTimer? && u0.panel.wait.rid == r && u0.panel.wait.mine == k
    requires r in u0.relay && u0.relay[r].claim == u0.panel.wait.claim && u0.relay[r].blob == Some(Cipher(k, content))
    ensures Leads(f, v, run, w) && w.deposits == u0.deposits && w.panel.digits == u0.panel.digits
    ensures Arrived(w, content) && w.modal.phase == Finished
  {
    var u;
    run, u := Then(f, v, run0, u0, NewPoll(false));
    run, w := Then(f, v, run, u, NewClaimed(Ready(Cipher(k, content))));
  }

  // ----------------------------------------------------------- typed code

  lemma NewWaits(f: (Rid, Key) -> Digits) returns (run: seq<Step>, w: World)
    ensures Leads(f, START, run, w) && PanelReady(f, w, 1, 5) && w.relay[1] == Entry(Some(5), 2, 3, Some(4), None)
    ensures w.modal == START.modal && w.deposits == [] && w.codes == map[4 := 1]
  {
    run, w := NewCreates(f);
    run, w := Then(f, START, run, w, NewDerived);
  }

  lemma NewCreates(f: (Rid, Key) -> Digits) returns (run: seq<Step>, w: World)
    ensures Leads(f, START, run, w) && w.relay == map[1 := Entry(Some(5), 2, 3, Some(4), None)]
    ensures w.panel.wait == DerivingNew(1, 2, 5, Waiting)
    ensures w.modal == START.modal && w.deposits == [] && w.codes == map[4 := 1]
  {
    run, w := Then(f, START, [], START, NewShow(5));
    run, w := Then(f, START, run, w, NewCreated(1, 2, 3, 4));
  }

  /** A code that resolves to nothing can be typed any number of times. */
  lemma WrongCodes(f: (Rid, Key) -> Digits, w: World, wrong: Secret, n: nat)
    requires w.modal.phase == Code && w.modal.wait == Nothing
    ensures Leads(f, w, Times([SubmitCode(wrong), ResolveFails], n), w)
  {
    var run, v := Then(f, w, [], w, SubmitCode(wrong));
    run, v := Then(f, w, run, v, ResolveFails);
    assert v == w;
    Again(f, w, [SubmitCode(wrong), ResolveFails], n);
  }

  lemma AtCode(f: (Rid, Key) -> Digits, polls: nat, typos: nat) returns (run: seq<Step>, w: World)
    ensures Leads(f, START, run, w) && PanelReady(f, w, 1, 5) && w.relay[1] == Entry(Some(5), 2, 3, Some(4), None)
    ensures w.modal == Existing(Code, None, None, None, None, None, true, Nothing) && w.deposits == [] && w.gated
    ensures w.codes == map[4 := 1]
  {
    run, w := NewWaits(f);
    ClaimsGoOn(f, w, polls);
    LeadsOn(f, START, run, w, Times(VAIN_CLAIM, polls), w);
    run := run + Times(VAIN_CLAIM, polls);
    run, w := Then(f, START, run, w, GateVerified);
    run, w := Then(f, START, run, w, TabCode);
    WrongCodes(f, w, 0, typos);
    LeadsOn(f, START, run, w, Times([SubmitCode(0), ResolveFails], typos), w);
    run := run + Times([SubmitCode(0), ResolveFails], typos);
  }

  /** A vault arrives by a typed code that the user confirmed, after any number of polls
      in vain and of codes that resolve to nothing, */
  lemma TypedCodeCompletes(f: (Rid, Key) -> Digits, content: Payload, polls: nat, typos: nat)
    returns (run: seq<Step>, w: World)
    ensures Leads(f, START, run, w) && Arrived(w, content) && w.modal.phase == Finished
    ensures w.deposits == [Deposit(1, 5, content, w.panel.digits, true)]
  {
    run, w := AtCode(f, polls, typos);
    run, w := Then(f, START, run, w, SubmitCode(4));
    run, w := Then(f, START, run, w, Resolved(1, 5));
    run, w := Then(f, START, run, w, TypedDerived);
    run, w := ConfirmedAndPickedUp(f, run, w, ByCode(4), content);
  }

  lemma ConfirmedAndPickedUp(f: (Rid, Key) -> Digits, run0: seq<Step>, w0: World, auth: Auth, content: Payload)
    returns (run: seq<Step>, w: World)
    requires Leads(f, START, run0, w0) && PanelReady(f, w0, 1, 5) && w0.deposits == [] && w0.gated
    requires w0.modal.phase == Verify && w0.modal.wait == Nothing && w0.modal.digits == Some(f(1, 5))
    requires w0.modal.rid == Some(1) && w0.modal.key == Some(5) && Authorised(w0.relay[1], auth)
    requires match auth case BySecret(x) => w0.modal.secret == Some(x) case ByCode(c) =>
                                                w0.modal.secret == None && w0.modal.typed == Some(c)
    ensures Leads(f, START, run, w) && Arrived(w, content) && w.modal.phase == Finished
    ensures w.deposits == [Deposit(1, 5, content, w.panel.digits, true)]
  {
    run, w := Then(f, START, run0, w0, Confirm(Some(content)));
    var more, v := PickedUp(f, w, 1, 5, auth, content);
    LeadsOn(f, START, run, w, more, v);
    run, w := run + more, v;
  }

  /** or by a scan, the deposit having failed any number of times, */
  lemma ScanCompletes(f: (Rid, Key) -> Digits, content: Payload, fails: nat) returns (run: seq<Step>, w: World)
    ensures Leads(f, START, run, w) && Arrived(w, content) && w.modal.phase == Finished
    ensures forall d :: d in w.deposits ==> d == Deposit(1, 5, content, None, true)
  {
    run, w := AtScan(f);
    run, w := ScansFail(f, run, w, content, fails);
    run, w := Then(f, START, run, w, Scanned(1, 5, 3, Some(content)));
    var more, v := PickedUp(f, w, 1, 5, BySecret(3), content);
    LeadsOn(f, START, run, w, more, v);
    run, w := run + more, v;
  }

  ghost predicate ReadyToScan(f: (Rid, Key) -> Digits, w: World, content: Payload) {
    && PanelReady(f, w, 1, 5) && w.relay[1].deposit == 3 && w.modal.phase == Scan && w.modal.wait == Nothing && w.gated
    && forall d :: d in w.deposits ==> d == Deposit(1, 5, content, None, true)
  }

  lemma AtScan(f: (Rid, Key) -> Digits) returns (run: seq<Step>, w: World)
    ensures Leads(f, START, run, w) && forall content :: ReadyToScan(f, w, content)
  {
    run, w := NewWaits(f);
    run, w := Then(f, START, run, w, GateVerified);
    run, w := Then(f, START, run, w, TabScan);
  }

  lemma {:induction false} ScansFail(f: (Rid, Key) -> Digits, run0: seq<Step>, w0: World, content: Payload, fails: nat)
    returns (run: seq<Step>, w: World)
    requires Leads(f, START, run0, w0) && ReadyToScan(f, w0, content)
    ensures Leads(f, START, run, w) && ReadyToScan(f, w, content)
    decreases fails
  {
    run, w := run0, w0;
    if fails > 0 {
      run, w := Then(f, START, run, w, Scanned(1, 5, 3, Some(content)));
      run, w := Then(f, START, run, w, DepositDone(false, false));
      run, w := ScansFail(f, run, w, content, fails - 1);
    }
  }

  // ------------------------------------------------------------ shown code

  /** The code is on screen under id `r`, no key has come, and the new device is idle. */
  ghost predicate Showing(w: World, r: Rid) {
    && w.modal == Existing(ShowQr, None, Some(r), Some(3), None, None, false, Timer(r))
    && r in w.relay && w.relay[r] == Entry(None, 2, 3, None, None) && r !in w.keys
    && w.panel == START.panel && w.deposits == [] && w.gated
  }

  lemma ShownAtLast(f: (Rid, Key) -> Digits, before: seq<Mishap>, polls: nat) returns (run: seq<Step>, w: World)
    ensures Leads(f, START, run, w) && Showing(w, |before|)
  {
    var u;
    run, u := Then(f, START, [], START, GateVerified);
    w := AttemptsFail(f, u, before, 0);
    LeadsOn(f, START, run, u, Attempts(before, 0), w);
    run := run + Attempts(before, 0);
    run, w := Then(f, START, run, w, TabShow);
    run, w := Then(f, START, run, w, Created(|before|, 2, 3));
    PollsGoOn(f, w, polls);
    LeadsOn(f, START, run, w, Times(VAIN_POLL, polls), w);
    run := run + Times(VAIN_POLL, polls);
  }

  lemma Submitted(f: (Rid, Key) -> Digits, run0: seq<Step>, w0: World, r: Rid) returns (run: seq<Step>, w: World)
    requires Leads(f, START, run0, w0) && Showing(w0, r)
    ensures Leads(f, START, run, w) && PanelReady(f, w, r, 5) && w.relay[r].deposit == 3
    ensures w.modal == w0.modal && w.deposits == [] && w.gated
  {
    run, w := CodeRead(f, run0, w0, r);
    run, w := Then(f, START, run, w, NewSubmitted(true, true));
    run, w := Then(f, START, run, w, NewDerived);
  }

  lemma CodeRead(f: (Rid, Key) -> Digits, run0: seq<Step>, w0: World, r: Rid) returns (run: seq<Step>, w: World)
    requires Leads(f, START, run0, w0) && Showing(w0, r)
    ensures Leads(f, START, run, w) && w == w0.(panel := w.panel) && w.panel.wait == Submitting(r, 2, 5)
  {
    run, w := Then(f, START, run0, w0, NewScanMode);
    run, w := Then(f, START, run, w, NewScanned(r, 2, 5));
  }

  lemma KeySeen(f: (Rid, Key) -> Digits, run0: seq<Step>, w0: World, r: Rid) returns (run: seq<Step>, w: World)
    requires Leads(f, START, run0, w0) && PanelReady(f, w0, r, 5) && w0.deposits == [] && w0.gated
    requires w0.modal == Existing(ShowQr, None, Some(r), Some(3), None, None, false, Timer(r))
    ensures Leads(f, START, run, w) && w.panel == w0.panel && w.relay == w0.relay && w.deposits == [] && w.gated
    ensures w.modal == Existing(Verify, Some(5), Some(r), Some(3), None, Some(f(r, 5)), false, Nothing)
  {
    run, w := Then(f, START, run0, w0, PollFires(false));
    run, w := Then(f, START, run, w, StatusIs(Some(5), false));
    run, w := Then(f, START, run, w, ShownDerived);
  }

  /** or by the code the existing device shows, once both show the same digits: whatever
      went wrong with the codes it showed before, and however many polls of either
      device came too early. */
  lemma ShownQrCompletes(f: (Rid, Key) -> Digits, content: Payload, before: seq<Mishap>, polls: nat, claims: nat)
    returns (run: seq<Step>, w: World)
    ensures Leads(f, START, run, w) && Arrived(w, content) && w.modal.phase == Finished
    ensures w.deposits == [Deposit(|before|, 5, content, w.panel.digits, true)]
  {
    var r := |before|;
    run, w := ShownAtLast(f, before, polls);
    run, w := Submitted(f, run, w, r);
    ClaimsGoOn(f, w, claims);
    LeadsOn(f, START, run, w, Times(VAIN_CLAIM, claims), w);
    run := run + Times(VAIN_CLAIM, claims);
    run, w := KeySeen(f, run, w, r);
    run, w := Then(f, START, run, w, Confirm(Some(content)));
    var more, v := PickedUp(f, w, r, 5, BySecret(3), content);
    LeadsOn(f, START, run, w, more, v);
    run, w := run + more, v;
  }
}
