/**
  The two devices of a link as objects: the handlers between their awaits set
  phase, refs and screen step by step. Each is a move of the protocol and keeps the
  invariant that ties the digits on screen to the refs a confirmation reads.
*/
module DeviceLinkPanels {
  import opened Wrappers
  import opened DeviceLink

  class LinkModal {
    var phase: Phase
    var pendingPubkey: Option<Key>
    var rendezvousId: Option<Rid>
    var depositSecret: Option<Secret>
    var linkCode: Option<Secret>
    var verificationCode: Option<Digits>
    var stopped: bool
    var wait: Wait
    const derive: (Rid, Key) -> Digits

    function View(): Existing
      reads this
    {
      Existing(phase, pendingPubkey, rendezvousId, depositSecret, linkCode, verificationCode, stopped, wait)
    }

    /** The digits on the confirmation screen are those of the refs it will use. */
    predicate Valid()
      reads this
    {
      ModalOk(derive, View())
    }

    /** The user can confirm. */
    predicate Confirmable()
      reads this
    {
      phase == Verify && verificationCode.Some? && wait.Nothing?
    }

    /** What a confirmation would send now. */
    function WouldSend(vault: Option<Payload>): Option<Wait>
      reads this
    {
      Request(View(), vault)
    }

    constructor (derive: (Rid, Key) -> Digits)
      ensures Valid() && View() == START.modal && this.derive == derive
    {
      this.derive := derive;
      phase, pendingPubkey, rendezvousId, depositSecret := Gate, None, None, None;
      linkCode, verificationCode, stopped, wait := None, None, false, Nothing;
    }

    /** The pending timer goes; a request in flight will find `stopped` set. */
    method CleanupPolling()
      modifies this
      ensures View() == old(View()).(stop := true, wait := if old(wait).Timer? then Nothing else old(wait))
      ensures old(Valid()) ==> Valid()
    {
      stopped := true;
      if wait.Timer? {
        wait := Nothing;
      }
    }

    method ChooseScan()
      requires Valid() && CanModal(View(), TabScan)
      modifies this
      ensures Valid()
      ensures View() == ModalNext(derive, old(View()), TabScan)
    {
      CleanupPolling();
      phase := Scan;
    }

    method ChooseCode()
      requires Valid() && CanModal(View(), TabCode)
      modifies this
      ensures Valid()
      ensures View() == ModalNext(derive, old(View()), TabCode)
    {
      CleanupPolling();
      verificationCode := None;
      phase := Code;
    }

    /** `startShowQr` up to the creation of the rendezvous. */
    method StartShowQr()
      requires Valid() && CanModal(View(), TabShow)
      modifies this
      ensures Valid()
      ensures View() == ModalNext(derive, old(View()), TabShow)
      ensures pendingPubkey.None? && !Confirmable() && forall vault :: WouldSend(vault).None?
    {
      CleanupPolling();
      stopped := false;
      verificationCode := None;
      pendingPubkey := None;
      rendezvousId := None;
      depositSecret := None;
      linkCode := None;
      phase := ShowQr;
      wait := Creating;
    }

    method RendezvousCreated(r: Rid, claim: Secret, deposit: Secret)
      requires Valid() && CanModal(View(), Created(r, claim, deposit))
      modifies this
      ensures Valid()
      ensures View() == ModalNext(derive, old(View()), Created(r, claim, deposit))
      ensures old(pendingPubkey).None? ==> forall vault :: WouldSend(vault).None?
    {
      wait := Nothing;
      if stopped {
        return;
      }
      rendezvousId := Some(r);
      depositSecret := Some(deposit);
      wait := Timer(r);
    }

    /** `poll`, from the answer of the relay. */
    method PollAnswered(sub: Option<Key>, gone: bool)
      requires Valid() && CanModal(View(), StatusIs(sub, gone))
      modifies this
      ensures Valid()
      ensures View() == ModalNext(derive, old(View()), StatusIs(sub, gone))
      ensures !old(stopped) ==> !Confirmable()
      ensures old(stopped) || gone || sub.None? ==> forall vault :: WouldSend(vault) == Request(old(View()), vault)
      ensures forall vault :: !old(stopped) && !gone && sub.Some? && WouldSend(vault).Some? ==>
        WouldSend(vault).value.rid == old(wait).rid && WouldSend(vault).value.cipher.key == sub.value
      ensures !old(stopped) && !gone && sub.None? ==> wait == Timer(old(wait).rid) && phase == old(phase)
      ensures !old(stopped) && gone ==> wait == Nothing && phase == Mode
      ensures !old(stopped) && !gone && sub.Some? ==>
        wait == DerivingShown(old(wait).rid, sub.value) && phase == old(phase)
      ensures old(stopped) ==> wait == Nothing && phase == old(phase)
      ensures stopped == old(stopped) && rendezvousId == old(rendezvousId) && depositSecret == old(depositSecret)
      ensures pendingPubkey == if old(stopped) || gone || sub.None? then old(pendingPubkey) else sub
    {
      var r := wait.rid;
      wait := Nothing;
      if stopped {
        return;
      }
      if gone {
        phase := Mode;
        return;
      }
      if sub.None? {
        wait := Timer(r);
        return;
      }
      pendingPubkey := sub;
      wait := DerivingShown(r, sub.value);
    }

    method CodeDerived()
      requires Valid() && CanModal(View(), ShownDerived)
      modifies this
      ensures Valid()
      ensures View() == ModalNext(derive, old(View()), ShownDerived)
      ensures !old(stopped) ==> Confirmable() && forall vault :: WouldSend(vault).Some? ==>
        verificationCode == Some(derive(WouldSend(vault).value.rid, WouldSend(vault).value.cipher.key))
    {
      var code := derive(wait.rid, wait.key);
      wait := Nothing;
      if stopped {
        return;
      }
      verificationCode := Some(code);
      phase := Verify;
    }

    /** `submitCode`, from the resolved code. */
    method CodeResolved(r: Rid, k: Key)
      requires Valid() && CanModal(View(), Resolved(r, k))
      modifies this
      ensures Valid()
      ensures View() == ModalNext(derive, old(View()), Resolved(r, k))
      ensures !Confirmable()
      ensures forall vault :: WouldSend(vault).Some? <==> vault.Some?
      ensures forall vault :: WouldSend(vault).Some? ==>
        WouldSend(vault).value.auth == ByCode(old(wait).typed) && WouldSend(vault).value.cipher.key == k
    {
      rendezvousId := Some(r);
      pendingPubkey := Some(k);
      depositSecret := None;
      linkCode := Some(wait.typed);
      wait := DerivingTyped(r, k);
    }

    method TypedCodeDerived()
      requires Valid() && CanModal(View(), TypedDerived)
      modifies this
      ensures Valid()
      ensures View() == ModalNext(derive, old(View()), TypedDerived)
      ensures Confirmable() && forall vault :: WouldSend(vault).Some? ==>
        verificationCode == Some(derive(WouldSend(vault).value.rid, WouldSend(vault).value.cipher.key))
    {
      verificationCode := Some(derive(wait.rid, wait.key));
      phase := Verify;
      wait := Nothing;
    }

    /** `confirmAndDeposit` up to the deposit request. */
    method ConfirmAndDeposit(vault: Option<Payload>)
      requires Valid() && CanModal(View(), Confirm(vault))
      modifies this
      ensures Valid()
      ensures View() == ModalNext(derive, old(View()), Confirm(vault))
      ensures wait.Sending? ==>
        verificationCode == Some(derive(wait.rid, wait.cipher.key)) && Some(wait.cipher.content) == vault
    {
      var pubkey, rid := pendingPubkey, rendezvousId;
      if pubkey.None? || rid.None? || (depositSecret.None? && linkCode.None?) {
        return;
      }
      if vault.None? {
        return;
      }
      var cipher := Cipher(pubkey.value, vault.value);
      var auth := if depositSecret.Some? then BySecret(depositSecret.value) else ByCode(linkCode.value);
      wait := Sending(rid.value, auth, cipher);
    }

    method DepositAnswered(stored: bool, ok: bool)
      requires Valid() && CanModal(View(), DepositDone(stored, ok))
      modifies this
      ensures Valid()
      ensures View() == ModalNext(derive, old(View()), DepositDone(stored, ok))
    {
      wait := Nothing;
      if ok {
        CleanupPolling();
        phase := Finished;
      }
    }
  }

  class LoginPanel {
    var status: Status
    var digits: Option<Digits>
    var persisted: Option<Payload>
    var wait: NewWait
    ghost var shown: Option<(Rid, Key)>
    ghost var source: Option<(Rid, Key)>

    ghost function View(): New
      reads this
    {
      New(status, digits, shown, persisted, source, wait)
    }

    const derive: (Rid, Key) -> Digits

    /** The digits on screen are those of this device's own id and key, and once a vault
        is received nothing more is waited for. */
    ghost predicate Valid()
      reads this
    {
      PanelOk(derive, View()) && (status == Received ==> wait.NoWait?) &&
        (wait.DerivingNew? ==> wait.status != Received)
    }

    constructor (derive: (Rid, Key) -> Digits)
      ensures Valid() && View() == START.panel && this.derive == derive
    {
      this.derive := derive;
      status, digits, persisted, wait := Status.Idle, None, None, NoWait;
      shown, source := None, None;
    }

    method StartShowMode(pair: Key)
      requires Valid() && CanPanel(View(), NewShow(pair))
      modifies this
      ensures Valid()
      ensures View() == PanelNext(derive, old(View()), NewShow(pair))
    {
      wait := NoWait;
      status := Preparing;
      digits, shown := None, None;
      wait := Registering(pair);
    }

    method Derived()
      requires Valid() && CanPanel(View(), NewDerived)
      modifies this
      ensures Valid()
      ensures View() == PanelNext(derive, old(View()), NewDerived)
    {
      var w := wait;
      digits, shown := Some(derive(w.rid, w.mine)), Some((w.rid, w.mine));
      status := w.status;
      wait := PollTimer(w.rid, w.claim, w.mine);
    }

    /** `poll`, from the answer to the claim. */
    method ClaimAnswered(answer: Answer)
      requires Valid() && CanPanel(View(), NewClaimed(answer))
      modifies this
      ensures Valid()
      ensures View() == PanelNext(derive, old(View()), NewClaimed(answer))
      ensures status == Received <==> answer.Ready? && answer.blob.key == old(wait).mine
      ensures persisted == if status == Received then Some(answer.blob.content) else old(persisted)
      ensures wait.PollTimer? <==> answer.Pending?
    {
      var w := wait;
      match answer {
        case Pending => wait := PollTimer(w.rid, w.claim, w.mine);
        case Ready(blob) =>
          wait := NoWait;
          var content := Decrypt(blob, w.mine);
          if content.Some? {
            persisted, source := content, Some((w.rid, w.mine));
            status := Received;
          } else {
            status := Error;
          }
        case _ =>
          wait := NoWait;
          status := Error;
      }
    }
  }
}
