/**
  Linking a new device: the panel of the new device, the modal of the existing one
  and the rendezvous relay between them, over one linking session. The steps of the
  devices carry the relay's answers, so a run may have any relay; `Honest` says
  when an answer is what a relay gives that only stores, drops and expires.
*/
module DeviceLink {
  import opened Wrappers

  type Rid(==) = nat
  type Key(==) = nat
  type Secret(==) = nat
  type Digits(==) = nat

  datatype Payload = Payload(username: string, vault: nat)

  /** Ideal public-key encryption: only the holder of the private half opens it. */
  datatype Cipher = Cipher(key: Key, content: Payload)

  function Decrypt(c: Cipher, mine: Key): Option<Payload> { if c.key == mine then Some(c.content) else None }

  datatype Auth = BySecret(secret: Secret) | ByCode(typed: Secret)

  // ---------------------------------------------------- existing device

  datatype Phase = Gate | Mode | Scan | Code | ShowQr | Verify | Finished

  /** What the modal is waiting for. `Timer` is the scheduled poll. */
  datatype Wait =
    | Nothing
    | Creating
    | Timer(rid: Rid)
    | Asking(rid: Rid)
    | DerivingShown(rid: Rid, key: Key)
    | Resolving(typed: Secret)
    | DerivingTyped(rid: Rid, key: Key)
    | Sending(rid: Rid, auth: Auth, cipher: Cipher)

  /** `key`, `rid`, `secret`, `typed` are the refs a confirmation reads, `digits` the
      verification code on screen. */
  datatype Existing = Existing(
    phase: Phase, key: Option<Key>, rid: Option<Rid>, secret: Option<Secret>, typed: Option<Secret>,
    digits: Option<Digits>, stop: bool, wait: Wait)

  // --------------------------------------------------------- new device

  datatype Status = Idle | Preparing | Waiting | Scanning | Verifying | Received | Error

  datatype NewWait =
    | NoWait
    | Registering(mine: Key)
    | DerivingNew(rid: Rid, claim: Secret, mine: Key, status: Status)
    | Submitting(rid: Rid, claim: Secret, mine: Key)
    | PollTimer(rid: Rid, claim: Secret, mine: Key)
    | Claiming(rid: Rid, claim: Secret, mine: Key)

  /** `shown` is what the digits on screen were derived from. */
  datatype New = New(
    status: Status, digits: Option<Digits>, shown: Option<(Rid, Key)>, persisted: Option<Payload>,
    source: Option<(Rid, Key)>, wait: NewWait)

  // -------------------------------------------------------------- relay

  datatype Entry = Entry(key: Option<Key>, claim: Secret, deposit: Secret, code: Option<Secret>, blob: Option<Cipher>)

  /** A deposit the existing device sent off: under which code on screen, if any. */
  datatype Deposit = Deposit(rid: Rid, key: Key, content: Payload, confirmed: Option<Digits>, gated: bool)

  /** `codes` is the relay's index of typing codes; `gated` says the vault gate was
      passed; `deposits` is what was sent, `keys` the key stored first for each id. */
  datatype World = World(
    modal: Existing, panel: New, relay: map<Rid, Entry>, codes: map<Secret, Rid>, gated: bool,
    deposits: seq<Deposit>, keys: map<Rid, Key>)

  datatype Answer = Pending | Gone | Ready(blob: Cipher) | Failed

  datatype Step =
    // the existing device's user
    | GateVerified
    | TabScan
    | TabCode
    | TabShow
    | SubmitCode(entered: Secret)
    | Scanned(sRid: Rid, sKey: Key, sSecret: Secret, content: Option<Payload>)
    | Confirm(vault: Option<Payload>)
    // its awaits
    | Created(cRid: Rid, cClaim: Secret, cDeposit: Secret)
    | CreateFails
    | PollFires(expired: bool)
    | StatusIs(sub: Option<Key>, gone: bool)
    | StatusFails
    | ShownDerived
    | Resolved(rRid: Rid, rKey: Key)
    | ResolveFails
    | TypedDerived
    | DepositDone(stored: bool, ok: bool)
    // the new device
    | NewShow(pair: Key)
    | NewScanMode
    | NewCreated(nRid: Rid, nClaim: Secret, nDeposit: Secret, nCode: Secret)
    | NewCreateFails
    | NewScanned(qRid: Rid, qClaim: Secret, pair: Key)
    | NewSubmitted(kept: bool, fine: bool)
    | NewDerived
    | NewPoll(late: bool)
    | NewClaimed(answer: Answer)
    // the relay
    | Expire(gone_: Rid)

  // -------------------------------------------------- the modal's moves

  function Tab(e: Existing, phase: Phase, digits: Option<Digits>): Existing {
    e.(phase := phase, digits := digits, stop := true, wait := if e.wait.Timer? then Nothing else e.wait)
  }

  const SHOWING := Existing(ShowQr, None, None, None, None, None, false, Creating)

  function Shown(f: (Rid, Key) -> Digits, e: Existing): Existing
    requires e.wait.DerivingShown?
  {
    if e.stop then e.(wait := Nothing)
    else e.(digits := Some(f(e.wait.rid, e.wait.key)), phase := Verify, wait := Nothing)
  }

  function GotStatus(e: Existing, sub: Option<Key>, gone: bool): Existing
    requires e.wait.Asking?
  {
    if e.stop then e.(wait := Nothing)
    else if gone then e.(phase := Mode, wait := Nothing)
    else if sub.None? then e.(wait := Timer(e.wait.rid))
    else e.(key := sub, wait := DerivingShown(e.wait.rid, sub.value))
  }

  /** What a confirmation sends: the refs as they are now. */
  function Request(e: Existing, content: Option<Payload>): Option<Wait> {
    if e.key.None? || e.rid.None? || (e.secret.None? && e.typed.None?) || content.None? then None
    else
      var auth := if e.secret.Some? then BySecret(e.secret.value) else ByCode(e.typed.value);
      Some(Sending(e.rid.value, auth, Cipher(e.key.value, content.value)))
  }

  function Off(e: Existing): Existing { e.(wait := Nothing) }

  /** An exception in the shown-QR flow. */
  function Back(e: Existing): Existing { if e.stop then Off(e) else e.(phase := Mode, wait := Nothing) }

  predicate CanModal(e: Existing, a: Step) {
    match a
    case GateVerified => e.phase == Gate
    case TabScan => e.phase != Gate && e.phase != Finished
    case TabCode => e.phase != Gate && e.phase != Finished
    case TabShow => e.phase !in {Gate, Finished, ShowQr, Verify} && (e.wait.Nothing? || e.wait.Timer?)
    case SubmitCode(_) => e.phase == Code && e.wait.Nothing?
    case Scanned(_, _, _, _) => e.phase == Scan && e.wait.Nothing?
    case Confirm(_) => e.phase == Verify && e.digits.Some? && e.wait.Nothing?
    case Created(_, _, _) => e.wait.Creating?
    case CreateFails => e.wait.Creating?
    case PollFires(_) => e.wait.Timer?
    case StatusIs(_, _) => e.wait.Asking?
    case StatusFails => e.wait.Asking? || e.wait.DerivingShown?
    case ShownDerived => e.wait.DerivingShown?
    case Resolved(_, _) => e.wait.Resolving?
    case ResolveFails => e.wait.Resolving? || e.wait.DerivingTyped?
    case TypedDerived => e.wait.DerivingTyped?
    case DepositDone(_, _) => e.wait.Sending?
    case _ => false
  }

  function ModalNext(f: (Rid, Key) -> Digits, e: Existing, a: Step): Existing
    requires CanModal(e, a)
  {
    match a
    case GateVerified => e.(phase := Mode)
    case TabScan => Tab(e, Scan, e.digits)
    case TabCode => Tab(e, Code, None)
    case TabShow => SHOWING
    case SubmitCode(entered) => e.(wait := Resolving(entered))
    case Scanned(r, k, x, content) =>
      if content.None? then e else e.(wait := Sending(r, BySecret(x), Cipher(k, content.value)))
    case Confirm(vault) => if Request(e, vault).None? then e else e.(wait := Request(e, vault).value)
    case Created(r, _, d) => if e.stop then Off(e) else e.(rid := Some(r), secret := Some(d), wait := Timer(r))
    case CreateFails => Back(e)
    case PollFires(expired) => if expired then e.(phase := Mode, wait := Nothing) else e.(wait := Asking(e.wait.rid))
    case StatusIs(sub, gone) => GotStatus(e, sub, gone)
    case StatusFails => Back(e)
    case ShownDerived => Shown(f, e)
    case Resolved(r, k) =>
      e.(rid := Some(r), key := Some(k), secret := None, typed := Some(e.wait.typed), wait := DerivingTyped(r, k))
    case ResolveFails => Off(e)
    case TypedDerived => e.(digits := Some(f(e.wait.rid, e.wait.key)), phase := Verify, wait := Nothing)
    case DepositDone(_, ok) => if ok then e.(phase := Finished, stop := true, wait := Nothing) else Off(e)
  }

  // -------------------------------------------------- the panel's moves

  predicate CanPanel(n: New, a: Step) {
    match a
    case NewShow(_) => n.wait.NoWait? || n.wait.PollTimer?
    case NewScanMode => n.wait.NoWait? || n.wait.PollTimer?
    case NewCreated(_, _, _, _) => n.wait.Registering?
    case NewCreateFails => n.wait.Registering?
    case NewScanned(_, _, _) => n.status == Scanning && n.wait.NoWait?
    case NewSubmitted(_, _) => n.wait.Submitting?
    case NewDerived => n.wait.DerivingNew?
    case NewPoll(_) => n.wait.PollTimer?
    case NewClaimed(_) => n.wait.Claiming?
    case _ => false
  }

  function Stuck(n: New): New { n.(status := Error, wait := NoWait) }

  function Claimed(n: New, answer: Answer): New
    requires n.wait.Claiming?
  {
    match answer
    case Pending => n.(wait := PollTimer(n.wait.rid, n.wait.claim, n.wait.mine))
    case Gone => Stuck(n)
    case Failed => Stuck(n)
    case Ready(blob) =>
      var content := Decrypt(blob, n.wait.mine);
      if content.None? then Stuck(n)
      else n.(status := Received, persisted := content, source := Some((n.wait.rid, n.wait.mine)), wait := NoWait)
  }

  function PanelNext(f: (Rid, Key) -> Digits, n: New, a: Step): New
    requires CanPanel(n, a)
  {
    match a
    case NewShow(pair) => n.(status := Preparing, digits := None, shown := None, wait := Registering(pair))
    case NewScanMode => n.(status := Scanning, digits := None, shown := None, wait := NoWait)
    case NewCreated(r, c, _, _) => n.(wait := DerivingNew(r, c, n.wait.mine, Waiting))
    case NewCreateFails => Stuck(n)
    case NewScanned(r, c, pair) => n.(wait := Submitting(r, c, pair))
    case NewSubmitted(_, fine) =>
      if fine then n.(wait := DerivingNew(n.wait.rid, n.wait.claim, n.wait.mine, Verifying)) else Stuck(n)
    case NewDerived =>
      n.(status := n.wait.status, digits := Some(f(n.wait.rid, n.wait.mine)), shown := Some((n.wait.rid, n.wait.mine)),
         wait := PollTimer(n.wait.rid, n.wait.claim, n.wait.mine))
    case NewPoll(late) => if late then Stuck(n) else n.(wait := Claiming(n.wait.rid, n.wait.claim, n.wait.mine))
    case NewClaimed(answer) => Claimed(n, answer)
  }

  // ------------------------------------------------------ the relay's part

  predicate Authorised(e: Entry, auth: Auth) {
    match auth
    case BySecret(x) => e.deposit == x
    case ByCode(c) => e.code == Some(c)
  }

  predicate Truthful(relay: map<Rid, Entry>, r: Rid, claim: Secret, answer: Answer) {
    match answer
    case Ready(blob) => r in relay && relay[r].claim == claim && relay[r].blob == Some(blob)
    case Pending => r in relay && relay[r].claim == claim && relay[r].blob.None?
    case Gone => r !in relay
    case Failed => true
  }

  /** A relay that stores, drops and expires: ids are new, the first key and the
      first blob stay, answers say what is stored. A request may be carried out and
      its answer be lost, never the other way round. */
  predicate Honest(w: World, a: Step)
    requires Enabled(w, a)
  {
    match a
    case Created(r, _, _) => r !in w.relay && r !in w.keys
    case NewCreated(r, _, _, c) => r !in w.relay && r !in w.keys && c !in w.codes
    case StatusIs(sub, gone) =>
      var r := w.modal.wait.rid;
      if gone then r !in w.relay else r in w.relay && sub == w.relay[r].key
    case Resolved(r, k) =>
      var c := w.modal.wait.typed;
      c in w.codes && w.codes[c] == r && r in w.relay && w.relay[r].key == Some(k) && w.relay[r].blob.None?
    case DepositDone(stored, ok) =>
      var r := w.modal.wait.rid;
      (ok ==> stored) &&
      (stored ==>
         r in w.relay && Authorised(w.relay[r], w.modal.wait.auth) && w.relay[r].key.Some? && w.relay[r].blob.None?)
    case NewSubmitted(kept, fine) =>
      var r := w.panel.wait.rid;
      (fine ==> kept) && (kept ==> r in w.relay && w.relay[r].claim == w.panel.wait.claim && w.relay[r].key.None?)
    case NewClaimed(answer) => Truthful(w.relay, w.panel.wait.rid, w.panel.wait.claim, answer)
    case _ => true
  }

  predicate Enabled(w: World, a: Step) { a.Expire? || CanModal(w.modal, a) || CanPanel(w.panel, a) }

  function RelayNext(w: World, a: Step): map<Rid, Entry>
    requires Enabled(w, a)
  {
    match a
    case Created(r, c, d) => w.relay[r := Entry(None, c, d, None, None)]
    case NewCreated(r, c, d, code) => w.relay[r := Entry(Some(w.panel.wait.mine), c, d, Some(code), None)]
    case DepositDone(stored, _) =>
      var r := w.modal.wait.rid;
      if stored && r in w.relay then w.relay[r := w.relay[r].(blob := Some(w.modal.wait.cipher))] else w.relay
    case NewSubmitted(kept, _) =>
      var r := w.panel.wait.rid;
      if kept && r in w.relay then w.relay[r := w.relay[r].(key := Some(w.panel.wait.mine))] else w.relay
    case NewClaimed(answer) => if answer.Ready? then w.relay - {w.panel.wait.rid} else w.relay
    case Expire(r) => w.relay - {r}
    case _ => w.relay
  }

  function CodesNext(w: World, a: Step): map<Secret, Rid>
    requires Enabled(w, a)
  {
    match a
    case NewCreated(r, _, _, code) => w.codes[code := r]
    case DepositDone(stored, _) =>
      if stored && w.modal.wait.auth.ByCode? then w.codes - {w.modal.wait.auth.typed} else w.codes
    case _ => w.codes
  }

  function KeysNext(w: World, a: Step): map<Rid, Key>
    requires Enabled(w, a)
  {
    match a
    case NewCreated(r, _, _, _) => w.keys[r := w.panel.wait.mine]
    case NewSubmitted(kept, _) => if kept then w.keys[w.panel.wait.rid := w.panel.wait.mine] else w.keys
    case _ => w.keys
  }

  /** A transfer by camera carries no confirmation; the other two carry the digits
      on screen when the user confirmed. */
  function DepositsNext(w: World, a: Step): seq<Deposit>
    requires Enabled(w, a)
  {
    match a
    case Scanned(r, k, _, content) =>
      if content.None? then w.deposits else w.deposits + [Deposit(r, k, content.value, None, w.gated)]
    case Confirm(vault) =>
      var q := Request(w.modal, vault);
      if q.None? then w.deposits
      else w.deposits + [Deposit(q.value.rid, q.value.cipher.key, q.value.cipher.content, w.modal.digits, w.gated)]
    case _ => w.deposits
  }

  function Next(f: (Rid, Key) -> Digits, w: World, a: Step): World
    requires Enabled(w, a)
  {
    World(if CanModal(w.modal, a) then ModalNext(f, w.modal, a) else w.modal,
          if CanPanel(w.panel, a) then PanelNext(f, w.panel, a) else w.panel,
          RelayNext(w, a), CodesNext(w, a), w.gated || a.GateVerified?, DepositsNext(w, a), KeysNext(w, a))
  }

  ghost predicate CanRun(f: (Rid, Key) -> Digits, w: World, run: seq<Step>)
    decreases |run|
  {
    run == [] || (Enabled(w, run[0]) && CanRun(f, Next(f, w, run[0]), run[1..]))
  }

  ghost function Run(f: (Rid, Key) -> Digits, w: World, run: seq<Step>): World
    requires CanRun(f, w, run)
    decreases |run|
  {
    if run == [] then w else Run(f, Next(f, w, run[0]), run[1..])
  }

  ghost predicate AllHonest(f: (Rid, Key) -> Digits, w: World, run: seq<Step>)
    requires CanRun(f, w, run)
    decreases |run|
  {
    run == [] || (Honest(w, run[0]) && AllHonest(f, Next(f, w, run[0]), run[1..]))
  }

  const START := World(
    Existing(Gate, None, None, None, None, None, false, Nothing), New(Idle, None, None, None, None, NoWait),
    map[], map[], false, [], map[])

  // --------------------------------------- for any relay: what is deposited

  predicate ShowFlow(wait: Wait) { wait.Creating? || wait.Timer? || wait.Asking? || wait.DerivingShown? }

  /** The digits on the confirmation screen are those of the refs it will use. */
  predicate ModalOk(f: (Rid, Key) -> Digits, e: Existing) {
    && (ShowFlow(e.wait) && !e.stop ==> e.phase == ShowQr)
    && (e.wait.Timer? ==> !e.stop)
    && (!e.stop && (e.wait.Timer? || e.wait.Asking? || e.wait.DerivingShown?) ==> e.rid == Some(e.wait.rid))
    && (!e.stop && e.wait.DerivingShown? ==> e.key == Some(e.wait.key))
    && (e.wait.Resolving? || e.wait.DerivingTyped? ==> e.phase == Code || e.phase == Scan)
    && (e.wait.DerivingTyped? ==> e.rid == Some(e.wait.rid) && e.key == Some(e.wait.key))
    && (e.phase == Verify && e.digits.Some? ==>
          e.rid.Some? && e.key.Some? && e.digits.value == f(e.rid.value, e.key.value) && !(ShowFlow(e.wait) && !e.stop))
  }

  /** The new device shows the digits of its own id and key. */
  predicate PanelOk(f: (Rid, Key) -> Digits, n: New) {
    n.shown.Some? ==> n.digits == Some(f(n.shown.value.0, n.shown.value.1))
  }

  predicate DepositOk(f: (Rid, Key) -> Digits, d: Deposit) {
    d.gated && (d.confirmed.Some? ==> d.confirmed.value == f(d.rid, d.key))
  }

  ghost predicate Disciplined(f: (Rid, Key) -> Digits, w: World) {
    && ModalOk(f, w.modal)
    && PanelOk(f, w.panel)
    && (w.modal.phase != Gate || w.modal.wait != Nothing ==> w.gated)
    && forall d :: d in w.deposits ==> DepositOk(f, d)
  }

  lemma ModalKeeps(f: (Rid, Key) -> Digits, e: Existing, a: Step)
    requires ModalOk(f, e) && CanModal(e, a)
    ensures ModalOk(f, ModalNext(f, e, a))
  {
  }

  lemma StepDisciplined(f: (Rid, Key) -> Digits, w: World, a: Step)
    requires Disciplined(f, w) && Enabled(w, a)
    ensures Disciplined(f, Next(f, w, a))
  {
    if CanModal(w.modal, a) {
      ModalKeeps(f, w.modal, a);
    }
  }

  lemma {:induction false} RunDisciplined(f: (Rid, Key) -> Digits, w: World, run: seq<Step>)
    requires Disciplined(f, w) && CanRun(f, w, run)
    ensures Disciplined(f, Run(f, w, run))
    decreases |run|
  {
    if run != [] {
      StepDisciplined(f, w, run[0]);
      RunDisciplined(f, Next(f, w, run[0]), run[1..]);
    }
  }

  /** Whatever the relay answers: every deposit went out after the vault gate, and
      one that the user confirmed is encrypted to the key, and goes to the id, from
      which the digits on screen had been derived. */
  lemma ConfirmedKeysOnly(f: (Rid, Key) -> Digits, run: seq<Step>, d: Deposit)
    requires CanRun(f, START, run) && d in Run(f, START, run).deposits
    ensures d.gated && (d.confirmed.Some? ==> d.confirmed.value == f(d.rid, d.key))
  {
    RunDisciplined(f, START, run);
    assert DepositOk(f, d);
  }

  ghost predicate CollisionFree(f: (Rid, Key) -> Digits) {
    forall r, k, r', k' :: f(r, k) == f(r', k') ==> r == r' && k == k'
  }

  /** So if the confirmed digits are also those on the new device's screen, the vault
      goes to a key with that device's digits; and, as far as digits tell keys apart,
      to that device's own key and id, still whatever the relay answered. */
  lemma ComparedDigits(f: (Rid, Key) -> Digits, run: seq<Step>, d: Deposit)
    requires CanRun(f, START, run) && d in Run(f, START, run).deposits && d.confirmed.Some?
    requires Run(f, START, run).panel.shown.Some? && Run(f, START, run).panel.digits == d.confirmed
    ensures var own := Run(f, START, run).panel.shown.value;
      f(d.rid, d.key) == f(own.0, own.1) && (CollisionFree(f) ==> (d.rid, d.key) == own)
  {
    RunDisciplined(f, START, run);
    assert DepositOk(f, d);
  }

  // --------------------------------------- for an honest relay: agreement

  ghost predicate WasSent(deposits: seq<Deposit>, r: Rid, c: Cipher) {
    exists d :: d in deposits && d.rid == r && d.key == c.key && d.content == c.content
  }

  ghost predicate BlobsSent(w: World) {
    && (forall r :: r in w.relay && w.relay[r].blob.Some? ==> WasSent(w.deposits, r, w.relay[r].blob.value))
    && (w.modal.wait.Sending? ==> WasSent(w.deposits, w.modal.wait.rid, w.modal.wait.cipher))
  }

  ghost predicate GotWhatWasSent(w: World) {
    && (w.panel.status == Received ==> w.panel.persisted.Some?)
    && (w.panel.wait.DerivingNew? ==> w.panel.wait.status != Received)
    && (w.panel.persisted.Some? ==> w.panel.source.Some?)
    && (w.panel.persisted.Some? ==>
          WasSent(w.deposits, w.panel.source.value.0, Cipher(w.panel.source.value.1, w.panel.persisted.value)))
  }

  lemma SentStays(ds: seq<Deposit>, es: seq<Deposit>, r: Rid, c: Cipher)
    requires WasSent(ds, r, c) && ds <= es
    ensures WasSent(es, r, c)
  {
    var d :| d in ds && d.rid == r && d.key == c.key && d.content == c.content;
    assert d in es;
  }

  lemma DepositsGrow(f: (Rid, Key) -> Digits, w: World, a: Step)
    requires Enabled(w, a)
    ensures w.deposits <= Next(f, w, a).deposits
  {
  }

  lemma SendingLogged(f: (Rid, Key) -> Digits, w: World, a: Step)
    requires Enabled(w, a) && (w.modal.wait.Sending? ==> WasSent(w.deposits, w.modal.wait.rid, w.modal.wait.cipher))
    ensures var t := Next(f, w, a); t.modal.wait.Sending? ==> WasSent(t.deposits, t.modal.wait.rid, t.modal.wait.cipher)
  {
    var t := Next(f, w, a);
    DepositsGrow(f, w, a);
    if t.modal.wait.Sending? {
      if w.modal.wait.Sending? {
        SentStays(w.deposits, t.deposits, w.modal.wait.rid, w.modal.wait.cipher);
      } else {
        var d := t.deposits[|t.deposits| - 1];
        assert d in t.deposits && d.rid == t.modal.wait.rid;
      }
    }
  }

  lemma BlobsKept(f: (Rid, Key) -> Digits, w: World, a: Step)
    requires BlobsSent(w) && Enabled(w, a) && Honest(w, a)
    ensures BlobsSent(Next(f, w, a))
  {
    var t := Next(f, w, a);
    SendingLogged(f, w, a);
    DepositsGrow(f, w, a);
    forall r | r in t.relay && t.relay[r].blob.Some? ensures WasSent(t.deposits, r, t.relay[r].blob.value) {
      if r in w.relay && w.relay[r].blob == t.relay[r].blob {
        SentStays(w.deposits, t.deposits, r, w.relay[r].blob.value);
      } else {
        SentStays(w.deposits, t.deposits, w.modal.wait.rid, w.modal.wait.cipher);
      }
    }
  }

  lemma ReceivedKept(f: (Rid, Key) -> Digits, w: World, a: Step)
    requires BlobsSent(w) && GotWhatWasSent(w) && Enabled(w, a) && Honest(w, a)
    ensures GotWhatWasSent(Next(f, w, a))
  {
    var t := Next(f, w, a);
    DepositsGrow(f, w, a);
    if t.panel.persisted.Some? {
      if t.panel.persisted == w.panel.persisted && t.panel.source == w.panel.source {
        var src := w.panel.source.value;
        SentStays(w.deposits, t.deposits, src.0, Cipher(src.1, w.panel.persisted.value));
      } else {
        var r := w.panel.wait.rid;
        SentStays(w.deposits, t.deposits, r, w.relay[r].blob.value);
      }
    }
  }

  lemma {:induction false} AgreementRuns(f: (Rid, Key) -> Digits, w: World, run: seq<Step>)
    requires BlobsSent(w) && GotWhatWasSent(w) && CanRun(f, w, run) && AllHonest(f, w, run)
    ensures GotWhatWasSent(Run(f, w, run))
    decreases |run|
  {
    if run != [] {
      BlobsKept(f, w, run[0]);
      ReceivedKept(f, w, run[0]);
      AgreementRuns(f, Next(f, w, run[0]), run[1..]);
    }
  }

  /** A deposit after the gate, for this id and key and of this content. */
  ghost predicate Provided(deposits: seq<Deposit>, source: (Rid, Key), content: Payload) {
    exists d :: d in deposits && (d.rid, d.key) == source && d.content == content && d.gated
  }

  /** With a relay that only stores, drops or expires, a new device that reaches
      `received` has persisted exactly a user name and vault that the existing device
      encrypted to that device's key and deposited under the id it was polling. */
  lemma ReceivedIsWhatWasSent(f: (Rid, Key) -> Digits, run: seq<Step>)
    requires CanRun(f, START, run) && AllHonest(f, START, run) && Run(f, START, run).panel.status == Received
    ensures var p := Run(f, START, run).panel;
      p.persisted.Some? && p.source.Some? && Provided(Run(f, START, run).deposits, p.source.value, p.persisted.value)
  {
    AgreementRuns(f, START, run);
    RunDisciplined(f, START, run);
    var w := Run(f, START, run);
    var src := w.panel.source.value;
    var d :| d in w.deposits && d.rid == src.0 && d.key == src.1 && d.content == w.panel.persisted.value;
    assert DepositOk(f, d) && (d.rid, d.key) == src;
  }

  // ------------------------------------------------- the digits on two screens

  /** The key of an id is settled once. */
  ghost predicate KeysSettled(w: World) {
    forall r :: r in w.relay ==>
      if w.relay[r].key.Some? then r in w.keys && w.keys[r] == w.relay[r].key.value else r !in w.keys
  }

  predicate KeyOf(keys: map<Rid, Key>, r: Rid, k: Key) { r in keys && keys[r] == k }

  predicate ModalScreen(e: Existing, keys: map<Rid, Key>) {
    && (e.wait.DerivingShown? ==> KeyOf(keys, e.wait.rid, e.wait.key))
    && (e.wait.DerivingTyped? ==> KeyOf(keys, e.wait.rid, e.wait.key))
    && (e.phase == Verify && e.digits.Some? && e.rid.Some? && e.key.Some? ==> KeyOf(keys, e.rid.value, e.key.value))
  }

  predicate PanelScreen(f: (Rid, Key) -> Digits, n: New, keys: map<Rid, Key>) {
    && (n.wait.DerivingNew? ==> KeyOf(keys, n.wait.rid, n.wait.mine))
    && (n.shown.Some? ==> KeyOf(keys, n.shown.value.0, n.shown.value.1))
    && PanelOk(f, n)
  }

  predicate ScreensOk(f: (Rid, Key) -> Digits, w: World) {
    ModalScreen(w.modal, w.keys) && PanelScreen(f, w.panel, w.keys)
  }

  lemma KeysKept(f: (Rid, Key) -> Digits, w: World, a: Step)
    requires KeysSettled(w) && Enabled(w, a) && Honest(w, a)
    ensures KeysSettled(Next(f, w, a))
    ensures forall r, k :: KeyOf(w.keys, r, k) ==> KeyOf(Next(f, w, a).keys, r, k)
  {
  }

  /** The relay never changes the secrets, key or blob it has stored for an id, and takes a
      blob only from a deposit under its deposit secret or its typing code, which a
      deposit uses up. */
  lemma RelayKeeps(f: (Rid, Key) -> Digits, w: World, a: Step, r: Rid)
    requires Enabled(w, a) && Honest(w, a) && r in w.relay && r in Next(f, w, a).relay
    ensures var x, y := w.relay[r], Next(f, w, a).relay[r];
      && (y.claim, y.deposit, y.code) == (x.claim, x.deposit, x.code)
      && (x.key.Some? ==> y.key == x.key) && (x.blob.Some? ==> y.blob == x.blob)
      && (x.blob.None? && y.blob.Some? ==>
            w.modal.wait.Sending? && w.modal.wait.rid == r && y.blob == Some(w.modal.wait.cipher) &&
            match w.modal.wait.auth
            case BySecret(secret) => secret == x.deposit
            case ByCode(typed) => x.code == Some(typed) && typed !in Next(f, w, a).codes)
  {
    if a.DepositDone? && a.stored && w.modal.wait.rid == r {
      assert Next(f, w, a).relay[r].blob == Some(w.modal.wait.cipher);
    }
  }

  lemma ModalScreenKept(f: (Rid, Key) -> Digits, w: World, a: Step)
    requires KeysSettled(w) && ModalScreen(w.modal, w.keys) && ModalOk(f, w.modal) && CanModal(w.modal, a)
    requires Honest(w, a)
    ensures ModalScreen(ModalNext(f, w.modal, a), w.keys)
  {
  }

  lemma PanelScreenKept(f: (Rid, Key) -> Digits, w: World, a: Step)
    requires PanelScreen(f, w.panel, w.keys) && CanPanel(w.panel, a) && Honest(w, a)
    requires forall r, k :: KeyOf(w.keys, r, k) ==> KeyOf(KeysNext(w, a), r, k)
    ensures PanelScreen(f, PanelNext(f, w.panel, a), KeysNext(w, a))
  {
  }

  lemma ScreensKept(f: (Rid, Key) -> Digits, w: World, a: Step)
    requires KeysSettled(w) && ScreensOk(f, w) && ModalOk(f, w.modal) && Enabled(w, a) && Honest(w, a)
    ensures ScreensOk(f, Next(f, w, a))
  {
    KeysKept(f, w, a);
    if CanModal(w.modal, a) {
      ModalScreenKept(f, w, a);
    }
    if CanPanel(w.panel, a) {
      PanelScreenKept(f, w, a);
    }
  }

  lemma {:induction false} ScreensRun(f: (Rid, Key) -> Digits, w: World, run: seq<Step>)
    requires KeysSettled(w) && ScreensOk(f, w) && Disciplined(f, w) && CanRun(f, w, run) && AllHonest(f, w, run)
    ensures ScreensOk(f, Run(f, w, run)) && Disciplined(f, Run(f, w, run))
    decreases |run|
  {
    if run != [] {
      KeysKept(f, w, run[0]);
      ScreensKept(f, w, run[0]);
      StepDisciplined(f, w, run[0]);
      ScreensRun(f, Next(f, w, run[0]), run[1..]);
    }
  }

  /** An undisturbed link shows the same digits on both screens. */
  lemma SameDigits(f: (Rid, Key) -> Digits, run: seq<Step>)
    requires CanRun(f, START, run) && AllHonest(f, START, run)
    ensures var w := Run(f, START, run);
      w.modal.phase == Verify && w.modal.digits.Some? && w.panel.shown.Some? &&
        w.modal.rid == Some(w.panel.shown.value.0) ==>
        w.modal.digits == w.panel.digits && w.modal.key == Some(w.panel.shown.value.1)
  {
    ScreensRun(f, START, run);
  }
}
