/**
  The modal of the existing device with two of its flows under way at once: showing a
  code and polling for a key, and resolving a code that was typed. They share the refs
  that a confirmation reads and the digits on screen. The moves are those of the
  linking protocol; `modal.wait` belongs to the first flow, `code` to the second.
*/
module LinkOverlap {
  import opened Wrappers
  import opened DeviceLink

  /** What a confirmation sent the vault under, and the digits on screen then. */
  datatype Confirmation = Confirmation(rid: Rid, key: Key, digits: Digits)

  datatype Both = Both(modal: Existing, code: Wait, sending: bool, log: seq<Confirmation>)

  const IDLE := Both(START.modal, Nothing, false, [])

  /** The steps of the flow that was started by a typed code. */
  predicate OfCode(a: Step) { a.SubmitCode? || a.Resolved? || a.ResolveFails? || a.TypedDerived? }

  predicate Can(s: Both, a: Step) {
    if a.Scanned? then s.modal.phase == Scan && !s.sending
    else if a.Confirm? then s.modal.phase == Verify && s.modal.digits.Some? && !s.sending
    else if a.DepositDone? then s.sending
    else if OfCode(a) then CanModal(s.modal.(wait := s.code), a)
    else CanModal(s.modal, a)
  }

  function AfterCode(f: (Rid, Key) -> Digits, s: Both, a: Step): Both
    requires OfCode(a) && Can(s, a)
  {
    var e := ModalNext(f, s.modal.(wait := s.code), a);
    s.(modal := e.(wait := s.modal.wait), code := e.wait)
  }

  function Confirmed(s: Both, vault: Option<Payload>): Both
    requires s.modal.digits.Some?
  {
    var q := Request(s.modal, vault);
    if q.None? then s
    else s.(sending := true, log := s.log + [Confirmation(q.value.rid, q.value.cipher.key, s.modal.digits.value)])
  }

  /** The deposit is answered; if it is stored, polling stops and the modal is done. */
  function Deposited(s: Both, ok: bool): Both {
    if ok then s.(modal := Tab(s.modal, Finished, s.modal.digits), sending := false) else s.(sending := false)
  }

  function Next(f: (Rid, Key) -> Digits, s: Both, a: Step): Both
    requires Can(s, a)
  {
    if a.Scanned? then s.(sending := a.content.Some?)
    else if a.Confirm? then Confirmed(s, a.vault)
    else if a.DepositDone? then Deposited(s, a.ok)
    else if OfCode(a) then AfterCode(f, s, a)
    else s.(modal := ModalNext(f, s.modal, a))
  }

  ghost predicate CanRun(f: (Rid, Key) -> Digits, s: Both, run: seq<Step>)
    decreases |run|
  {
    run == [] || (Can(s, run[0]) && CanRun(f, Next(f, s, run[0]), run[1..]))
  }

  ghost function Run(f: (Rid, Key) -> Digits, s: Both, run: seq<Step>): Both
    requires CanRun(f, s, run)
    decreases |run|
  {
    if run == [] then s else Run(f, Next(f, s, run[0]), run[1..])
  }

  /** Show QR is pressed before a typed code has been resolved and its digits shown. */
  predicate Overlaps(s: Both, a: Step) { a.TabShow? && !s.code.Nothing? }

  ghost predicate Apart(f: (Rid, Key) -> Digits, s: Both, run: seq<Step>)
    requires CanRun(f, s, run)
    decreases |run|
  {
    run == [] || (!Overlaps(s, run[0]) && Apart(f, Next(f, s, run[0]), run[1..]))
  }

  ghost predicate AllMatch(f: (Rid, Key) -> Digits, log: seq<Confirmation>) {
    forall c :: c in log ==> c.digits == f(c.rid, c.key)
  }

  // ------------------------------------------------ runs without an overlap

  predicate Live(e: Existing) { ShowFlow(e.wait) && !e.stop }

  predicate Tied(f: (Rid, Key) -> Digits, e: Existing, code: Wait) {
    && (e.wait.Nothing? || ShowFlow(e.wait)) && (code.Nothing? || code.Resolving? || code.DerivingTyped?)
    && (Live(e) ==> e.phase == ShowQr && code.Nothing?)
    && (e.wait.Timer? ==> !e.stop)
    && (Live(e) && !e.wait.Creating? ==> e.rid == Some(e.wait.rid))
    && (Live(e) && e.wait.DerivingShown? ==> e.key == Some(e.wait.key))
    && (code.DerivingTyped? ==> e.rid == Some(code.rid) && e.key == Some(code.key))
    && (!code.Nothing? ==> e.phase != Verify)
    && (e.phase == Verify && e.digits.Some? ==>
      e.rid.Some? && e.key.Some? && e.digits.value == f(e.rid.value, e.key.value))
  }

  lemma CodeKeepsTied(f: (Rid, Key) -> Digits, s: Both, a: Step)
    requires Tied(f, s.modal, s.code) && OfCode(a) && Can(s, a)
    ensures var t := AfterCode(f, s, a); Tied(f, t.modal, t.code) && t.log == s.log
  {
  }

  lemma ShowKeepsTied(f: (Rid, Key) -> Digits, e: Existing, code: Wait, a: Step)
    requires Tied(f, e, code) && CanModal(e, a) && !OfCode(a) && !a.Scanned? && !a.Confirm? && !a.DepositDone?
    requires a.TabShow? ==> code.Nothing?
    ensures Tied(f, ModalNext(f, e, a), code)
  {
  }

  lemma StepKeepsTied(f: (Rid, Key) -> Digits, s: Both, a: Step)
    requires Tied(f, s.modal, s.code) && AllMatch(f, s.log) && Can(s, a) && !Overlaps(s, a)
    ensures var t := Next(f, s, a); Tied(f, t.modal, t.code) && AllMatch(f, t.log)
  {
    if OfCode(a) {
      CodeKeepsTied(f, s, a);
    } else if !a.Scanned? && !a.Confirm? && !a.DepositDone? {
      ShowKeepsTied(f, s.modal, s.code, a);
    }
  }

  lemma {:induction false} RunKeepsTied(f: (Rid, Key) -> Digits, s: Both, run: seq<Step>)
    requires Tied(f, s.modal, s.code) && AllMatch(f, s.log) && CanRun(f, s, run) && Apart(f, s, run)
    ensures var t := Run(f, s, run); Tied(f, t.modal, t.code) && AllMatch(f, t.log)
    decreases |run|
  {
    if run != [] {
      StepKeepsTied(f, s, run[0]);
      RunKeepsTied(f, Next(f, s, run[0]), run[1..]);
    }
  }

  /** For any relay, and with any stopped request still unanswered when a code is
      typed: on a run without an overlap every confirmation sends to the key and id
      whose digits were on screen. */
  lemma ConfirmedUnlessOverlap(f: (Rid, Key) -> Digits, run: seq<Step>, c: Confirmation)
    requires CanRun(f, IDLE, run) && Apart(f, IDLE, run) && c in Run(f, IDLE, run).log
    ensures c.digits == f(c.rid, c.key)
  {
    RunKeepsTied(f, IDLE, run);
  }

  // ------------------------------------------------- after an overlap

  /** The digits stay right, whatever follows. */
  ghost predicate Safe(f: (Rid, Key) -> Digits, s: Both) {
    forall run :: CanRun(f, s, run) && Apart(f, s, run) ==> AllMatch(f, Run(f, s, run).log)
  }

  lemma UnsafeBefore(f: (Rid, Key) -> Digits, s: Both, a: Step)
    requires Can(s, a) && !Overlaps(s, a) && !Safe(f, Next(f, s, a))
    ensures !Safe(f, s)
  {
    var t := Next(f, s, a);
    var run :| CanRun(f, t, run) && Apart(f, t, run) && !AllMatch(f, Run(f, t, run).log);
    var more := [a] + run;
    assert more[0] == a && more[1..] == run;
    assert CanRun(f, s, more) && Apart(f, s, more) && Run(f, s, more) == Run(f, t, run);
  }

  lemma UnsafeNow(f: (Rid, Key) -> Digits, s: Both)
    requires !AllMatch(f, s.log)
    ensures !Safe(f, s)
  {
    assert CanRun(f, s, []) && Apart(f, s, []) && Run(f, s, []) == s;
  }

  /** The typed code's digits are on screen, and the refs are those of the code shown. */
  lemma WrongRefs(f: (Rid, Key) -> Digits, s: Both)
    requires s.modal.phase == Verify && s.modal.digits.Some? && !s.sending
    requires s.modal.key.Some? && s.modal.rid.Some? && s.modal.secret.Some?
    requires f(s.modal.rid.value, s.modal.key.value) != s.modal.digits.value
    ensures !Safe(f, s)
  {
    var a := Confirm(Some(Payload("", 0)));
    var t := Next(f, s, a);
    assert t.log == s.log + [Confirmation(s.modal.rid.value, s.modal.key.value, s.modal.digits.value)];
    assert t.log[|s.log|] in t.log;
    UnsafeNow(f, t);
    UnsafeBefore(f, s, a);
  }

  lemma KeyArrives(f: (Rid, Key) -> Digits, s: Both, r: Rid, k: Key)
    requires s.modal.phase == Verify && s.modal.digits.Some? && !s.sending && !s.modal.stop && s.code.Nothing?
    requires s.modal.wait == Timer(r) && s.modal.rid == Some(r) && s.modal.secret.Some?
    requires f(r, k) != s.modal.digits.value
    ensures !Safe(f, s)
  {
    var t := Next(f, s, PollFires(false));
    var u := Next(f, t, StatusIs(Some(k), false));
    WrongRefs(f, u);
    UnsafeBefore(f, t, StatusIs(Some(k), false));
    UnsafeBefore(f, s, PollFires(false));
  }

  lemma IdArrives(f: (Rid, Key) -> Digits, s: Both, r: Rid, k: Key)
    requires s.modal.phase == Verify && s.modal.digits.Some? && !s.sending && !s.modal.stop && s.code.Nothing?
    requires s.modal.wait.Creating? && f(r, k) != s.modal.digits.value
    ensures !Safe(f, s)
  {
    var t := Next(f, s, Created(r, 0, 0));
    KeyArrives(f, t, r, k);
    UnsafeBefore(f, s, Created(r, 0, 0));
  }

  lemma DigitsArrive(f: (Rid, Key) -> Digits, s: Both, r: Rid, k: Key)
    requires s.modal == SHOWING && !s.sending && s.code.DerivingTyped? && f(r, k) != f(s.code.rid, s.code.key)
    ensures !Safe(f, s)
  {
    IdArrives(f, Next(f, s, TypedDerived), r, k);
    UnsafeBefore(f, s, TypedDerived);
  }

  ghost predicate Distinguishes(f: (Rid, Key) -> Digits) { exists r, k :: f(r, k) != f(0, 0) }

  lemma OtherDigits(f: (Rid, Key) -> Digits, d: Digits) returns (r: Rid, k: Key)
    requires Distinguishes(f)
    ensures f(r, k) != d
  {
    r, k :| f(r, k) != f(0, 0);
    if f(r, k) == d {
      r, k := 0, 0;
    }
  }

  /** A code still being resolved may resolve, to anything. */
  lemma ResolvingUnsafe(f: (Rid, Key) -> Digits, s: Both)
    requires Distinguishes(f) && !s.sending && s.code.Resolving?
    requires s.modal == SHOWING
    ensures !Safe(f, s)
  {
    var t := Next(f, s, Resolved(0, 0));
    var r, k := OtherDigits(f, f(0, 0));
    var u := Next(f, t, TypedDerived);
    IdArrives(f, u, r, k);
    UnsafeBefore(f, t, TypedDerived);
    UnsafeBefore(f, s, Resolved(0, 0));
  }

  lemma PendingUnsafe(f: (Rid, Key) -> Digits, s: Both)
    requires Distinguishes(f) && s.modal == SHOWING && (s.code.Resolving? || s.code.DerivingTyped?)
    ensures !Safe(f, s)
  {
    var t := if s.sending then Next(f, s, DepositDone(false, false)) else s;
    if s.code.Resolving? {
      ResolvingUnsafe(f, t);
    } else {
      var r, k := OtherDigits(f, f(s.code.rid, s.code.key));
      DigitsArrive(f, t, r, k);
    }
    if s.sending {
      UnsafeBefore(f, s, DepositDone(false, false));
    }
  }

  /** After any run without an overlap: pressing Show QR leaves the digits right for
      whatever follows exactly when no typed code is pending. Otherwise some answers
      of the relay lead to a confirmation under another key or id than shown. */
  lemma OverlapExactly(f: (Rid, Key) -> Digits, run: seq<Step>)
    requires Distinguishes(f) && CanRun(f, IDLE, run) && Apart(f, IDLE, run) && Can(Run(f, IDLE, run), TabShow)
    ensures var s := Run(f, IDLE, run); Safe(f, Next(f, s, TabShow)) <==> s.code.Nothing?
  {
    var s := Run(f, IDLE, run);
    RunKeepsTied(f, IDLE, run);
    var t := Next(f, s, TabShow);
    if s.code.Nothing? {
      StepKeepsTied(f, s, TabShow);
      forall more | CanRun(f, t, more) && Apart(f, t, more) ensures AllMatch(f, Run(f, t, more).log) {
        RunKeepsTied(f, t, more);
      }
    } else {
      PendingUnsafe(f, t);
    }
  }

  /** A code is typed, Show QR is pressed while it resolves, and the digits on screen
      at the confirmation are not those of the key and id it sends to. */
  lemma OverlapHappens(f: (Rid, Key) -> Digits)
    requires Distinguishes(f)
    ensures exists run :: CanRun(f, IDLE, run) && !AllMatch(f, Run(f, IDLE, run).log)
  {
    var before := CodeTyped(f);
    var s := Run(f, IDLE, before);
    OverlapExactly(f, before);
    var t := Next(f, s, TabShow);
    var more :| CanRun(f, t, more) && Apart(f, t, more) && !AllMatch(f, Run(f, t, more).log);
    var rest := FirstThen(f, s, TabShow, more);
    RunOn(f, IDLE, before, rest);
  }

  lemma FirstThen(f: (Rid, Key) -> Digits, s: Both, a: Step, more: seq<Step>) returns (run: seq<Step>)
    requires Can(s, a) && CanRun(f, Next(f, s, a), more)
    ensures CanRun(f, s, run) && Run(f, s, run) == Run(f, Next(f, s, a), more)
  {
    run := [a] + more;
    assert run[0] == a && run[1..] == more;
  }

  lemma CodeTyped(f: (Rid, Key) -> Digits) returns (run: seq<Step>)
    ensures CanRun(f, IDLE, run) && Apart(f, IDLE, run)
    ensures Run(f, IDLE, run) ==
      IDLE.(modal := Existing(Code, None, None, None, None, None, true, Nothing), code := Resolving(4))
  {
    run := [GateVerified, TabCode, SubmitCode(4)];
    assert run[1..] == [TabCode, SubmitCode(4)];
    assert run[1..][1..] == [SubmitCode(4)];
    assert run[1..][1..][1..] == [];
  }

  lemma {:induction false} RunOn(f: (Rid, Key) -> Digits, s: Both, run: seq<Step>, more: seq<Step>)
    requires CanRun(f, s, run) && CanRun(f, Run(f, s, run), more)
    ensures CanRun(f, s, run + more) && Run(f, s, run + more) == Run(f, Run(f, s, run), more)
    decreases |run|
  {
    if run == [] {
      assert run + more == more;
    } else {
      assert (run + more)[1..] == run[1..] + more;
      RunOn(f, Next(f, s, run[0]), run[1..], more);
    }
  }
}
