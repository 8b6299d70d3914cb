/**
  The sector-key protocol as a state machine, one step per point at which other
  code can run: any number of browser sessions of the chat owner deliver,
  reconcile and rotate the group key of one chat while members join and leave.

  The two server handlers that are not one database statement are not one step
  here either: reading a chat reads the epoch first and the roster second, and a
  PUT that claims an epoch bumps it first and writes the row second.
*/
module GroupKeyProtocol {
  import opened Wrappers

  type User = nat
  type Client = nat
  type Key = nat
  type Pid = nat

  /** A wrapped key: the key bytes (by identity) and the epoch stamped on them. */
  datatype Blob = Blob(key: Key, stamp: nat)

  /** One member: the epoch at which the present membership began, the stored key. */
  datatype Row = Row(join: nat, blob: Option<Blob>)

  datatype Chat = Chat(epoch: nat, roster: seq<User>, rows: map<User, Row>)

  datatype Config = Config(owner: User, hasEcdh: set<User>, distrusted: set<User>) {
    predicate Eligible(u: User) { u in hasEcdh && u !in distrusted }
  }

  /** What a write was worked out from: the epoch that the fetch returned, the epoch
      at which its second query read the roster, and whether it is a rotation's. */
  datatype Origin = Origin(epochRead: nat, readAt: nat, rotated: bool)

  /** A delivery or reconcile handing out the owner's own key: the members still
      to be written, and the two epochs of its fetch. */
  datatype Sending = Sending(todo: seq<User>, blob: Blob, epochRead: nat, readAt: nat) {
    function Source(): Origin { Origin(epochRead, readAt, false) }
  }

  /** A rotation off epoch `from`: `claimed` is what the client knows of the claim,
      `writing` holds between the server's epoch bump and its row write. One that is
      `late` is a single request whose client no longer waits for it. */
  datatype Rotation = Rotation(
    outer: bool, todo: seq<User>, key: Key, from: nat, readAt: nat, claimed: bool, writing: bool, late: bool) {
    function Source(): Origin { Origin(from, readAt, true) }
  }

  /** Where an operation stands, with everything it remembers across an await. */
  datatype Pc =
    | DeliverRead(target: User)
    | DeliverRoster(target: User, epochRead: nat)
    | ReconcileRead
    | ReconcileRoster(epochRead: nat)
    | Direct(d: Sending)
    | RotateTry
    | GuardRead
    | GuardRoster(epochRead: nat)
    | RotateRead(outer: bool)
    | RotateRoster(outer: bool, epochRead: nat)
    | Rotating(r: Rotation)

  datatype Proc = Proc(client: Client, pc: Pc)

  /** History of one write to a member's row: the key, what it was worked out from,
      and the epoch at which the membership it landed on began. */
  datatype Delivery = Delivery(user: User, blob: Blob, origin: Origin, join: nat)

  /** The server's record of the chat and the supply of fresh keys. `claims` (the
      key a rotation claimed each epoch for), `rosterAt` (the roster at each epoch)
      and `log` (every row write) are history: no step reads them. */
  datatype Ledger = Ledger(
    chat: Chat,
    nextKey: Key,
    claims: map<nat, Key>,
    rosterAt: seq<set<User>>,
    log: set<Delivery>)

  /** `outer` is the lock of the distribution hook, `inner` the lock at the
      choke point every rotation passes; both hold the sessions inside. */
  datatype State = State(db: Ledger, outer: set<Client>, inner: set<Client>, procs: map<Pid, Proc>)

  datatype Action =
    | Join(u: User)
    | Depart(u: User)
    | StartDeliver(pid: Pid, client: Client, target: User)
    | StartReconcile(pid: Pid, client: Client)
    | StartRotate(pid: Pid, client: Client)
    | StartDirectRotate(pid: Pid, client: Client)
    | Advance(pid: Pid)
    | Fail(pid: Pid)
    | LoseReply(pid: Pid)
    | GiveUp(pid: Pid, request: Pid)

  // ------------------------------------------------- steps of the server

  /** The wrapped-key PUT reaching the row of `u`; a row that is gone is not written. */
  function WriteRow(db: Ledger, u: User, blob: Blob, o: Origin): Ledger {
    if u !in db.chat.rows then db
    else db.(chat := db.chat.(rows := db.chat.rows[u := db.chat.rows[u].(blob := Some(blob))]),
             log := db.log + {Delivery(u, blob, o, db.chat.rows[u].join)})
  }

  /** The compare-and-swap of `claim_from_epoch` succeeding for a rotation to `key`. */
  function ClaimEpoch(db: Ledger, key: Key): Ledger {
    db.(chat := db.chat.(epoch := db.chat.epoch + 1),
        claims := db.claims[db.chat.epoch + 1 := key],
        rosterAt := db.rosterAt + [db.chat.rows.Keys])
  }

  function JoinChat(db: Ledger, u: User): Ledger {
    if u in db.chat.rows then db
    else
      var rows := db.chat.rows[u := Row(db.chat.epoch + 1, None)];
      db.(chat := Chat(db.chat.epoch + 1, db.chat.roster + [u], rows), rosterAt := db.rosterAt + [rows.Keys])
  }

  function Without(roster: seq<User>, u: User): (r: seq<User>)
    ensures forall v :: v in r <==> v in roster && v != u
  {
    if roster == [] then []
    else (if roster[0] == u then [] else [roster[0]]) + Without(roster[1..], u)
  }

  function LeaveChat(cfg: Config, db: Ledger, u: User): Ledger {
    if u !in db.chat.rows || u == cfg.owner then db
    else
      var rows := db.chat.rows - {u};
      db.(chat := Chat(db.chat.epoch + 1, Without(db.chat.roster, u), rows), rosterAt := db.rosterAt + [rows.Keys])
  }

  // --------------------------------------------- what a client works out

  /** The owner's wrapped key in the roster, when the owner can use it. */
  function OwnBlob(cfg: Config, c: Chat): Option<Blob> {
    if cfg.owner in c.rows && cfg.owner in cfg.hasEcdh then c.rows[cfg.owner].blob else None
  }

  predicate ShouldRotate(cfg: Config, c: Chat, epoch: nat) {
    cfg.owner in c.rows &&
    match c.rows[cfg.owner].blob
    case None => epoch > 0
    case Some(b) => b.stamp < epoch
  }

  /** Who a rotation addresses, in roster order. */
  function Recipients(cfg: Config, roster: seq<User>): (r: seq<User>)
    ensures forall u :: u in r <==> u in roster && cfg.Eligible(u)
  {
    if roster == [] then []
    else (if cfg.Eligible(roster[0]) then [roster[0]] else []) + Recipients(cfg, roster[1..])
  }

  predicate NeedsKey(cfg: Config, c: Chat, u: User, stamp: nat) {
    u != cfg.owner && u in c.rows && cfg.Eligible(u) &&
    (c.rows[u].blob.None? || c.rows[u].blob.value.stamp < stamp)
  }

  /** Who a reconcile addresses, in roster order. */
  function Behind(cfg: Config, c: Chat, roster: seq<User>, stamp: nat): (r: seq<User>)
    ensures forall u :: u in r <==> u in roster && NeedsKey(cfg, c, u, stamp)
  {
    if roster == [] then []
    else (if NeedsKey(cfg, c, roster[0], stamp) then [roster[0]] else []) + Behind(cfg, c, roster[1..], stamp)
  }

  // --------------------------------------------- steps of an operation

  predicate HoldsOuter(pc: Pc) {
    pc.GuardRead? || pc.GuardRoster? || ((pc.RotateRead? || pc.RotateRoster?) && pc.outer) ||
      (pc.Rotating? && pc.r.outer)
  }

  predicate HoldsInner(pc: Pc) {
    pc.RotateRead? || pc.RotateRoster? || (pc.Rotating? && !pc.r.late)
  }

  function Move(s: State, pid: Pid, pc: Pc): State
    requires pid in s.procs
  {
    s.(procs := s.procs[pid := s.procs[pid].(pc := pc)])
  }

  /** Leaves an operation by any path: the `finally` blocks release what it holds. */
  function Leave(s: State, pid: Pid): State
    requires pid in s.procs
  {
    var p := s.procs[pid];
    s.(procs := s.procs - {pid},
       outer := if HoldsOuter(p.pc) then s.outer - {p.client} else s.outer,
       inner := if HoldsInner(p.pc) then s.inner - {p.client} else s.inner)
  }

  function EnterOuter(s: State, pid: Pid): State
    requires pid in s.procs
  {
    if s.procs[pid].client in s.outer then Leave(s, pid)
    else Move(s, pid, GuardRead).(outer := s.outer + {s.procs[pid].client})
  }

  function EnterInner(s: State, pid: Pid, outer: bool): State
    requires pid in s.procs
  {
    if s.procs[pid].client in s.inner then Leave(s, pid)
    else Move(s, pid, RotateRead(outer)).(inner := s.inner + {s.procs[pid].client})
  }

  function AdvanceDeliver(cfg: Config, s: State, pid: Pid, target: User, epochRead: nat): State
    requires pid in s.procs
  {
    var c := s.db.chat;
    var own := OwnBlob(cfg, c);
    if own.None? || target == cfg.owner || target !in c.rows || !cfg.Eligible(target) || c.rows[target].blob.Some?
    then Leave(s, pid)
    else if own.value.stamp < epochRead then Move(s, pid, RotateTry)
    else Move(s, pid, Direct(Sending([target], own.value, epochRead, c.epoch)))
  }

  function AdvanceReconcile(cfg: Config, s: State, pid: Pid, epochRead: nat): State
    requires pid in s.procs
  {
    var c := s.db.chat;
    var own := OwnBlob(cfg, c);
    if own.None? then Leave(s, pid)
    else if epochRead > own.value.stamp then Move(s, pid, RotateTry)
    else Move(s, pid, Direct(Sending(Behind(cfg, c, c.roster, own.value.stamp), own.value, epochRead, c.epoch)))
  }

  /** One row of a delivery or reconcile; a member that is gone makes it throw. */
  function AdvanceDirect(s: State, pid: Pid): State
    requires pid in s.procs && s.procs[pid].pc.Direct?
  {
    var d := s.procs[pid].pc.d;
    if d.todo == [] || d.todo[0] !in s.db.chat.rows then Leave(s, pid)
    else Move(s, pid, Direct(d.(todo := d.todo[1..]))).(db := WriteRow(s.db, d.todo[0], d.blob, d.Source()))
  }

  function StartRotation(cfg: Config, s: State, pid: Pid, outer: bool, epochRead: nat): State
    requires pid in s.procs
  {
    if cfg.owner !in cfg.hasEcdh then Leave(s, pid)
    else
      var c := s.db.chat;
      Move(s, pid,
        Rotating(Rotation(outer, Recipients(cfg, c.roster), s.db.nextKey, epochRead, c.epoch, false, false, false)))
        .(db := s.db.(nextKey := s.db.nextKey + 1))
  }

  function Claim(s: State, pid: Pid): State
    requires pid in s.procs && s.procs[pid].pc.Rotating?
  {
    var r := s.procs[pid].pc.r;
    Move(s, pid, Rotating(r.(writing := true))).(db := ClaimEpoch(s.db, r.key))
  }

  /** A row write of a rotation; `claimed` is what the client knows afterwards. */
  function RotationWrite(s: State, pid: Pid, claimed: bool): State
    requires pid in s.procs && s.procs[pid].pc.Rotating? && s.procs[pid].pc.r.todo != []
  {
    var r := s.procs[pid].pc.r;
    Move(s, pid, Rotating(r.(todo := r.todo[1..], claimed := claimed, writing := false)))
      .(db := WriteRow(s.db, r.todo[0], Blob(r.key, r.from + 1), r.Source()))
  }

  function AdvanceRotation(s: State, pid: Pid): State
    requires pid in s.procs && s.procs[pid].pc.Rotating?
  {
    var r := s.procs[pid].pc.r;
    if r.todo == [] then Leave(s, pid)
    else if r.writing || (r.claimed && r.todo[0] in s.db.chat.rows) then RotationWrite(s, pid, true)
    else if r.todo[0] !in s.db.chat.rows then Move(s, pid, Rotating(r.(todo := r.todo[1..], writing := false)))
    else if s.db.chat.epoch != r.from then Leave(s, pid)
    else Claim(s, pid)
  }

  function Progress(cfg: Config, s: State, pid: Pid): State
    requires pid in s.procs
  {
    match s.procs[pid].pc
    case DeliverRead(t) => Move(s, pid, DeliverRoster(t, s.db.chat.epoch))
    case DeliverRoster(t, c) => AdvanceDeliver(cfg, s, pid, t, c)
    case ReconcileRead => Move(s, pid, ReconcileRoster(s.db.chat.epoch))
    case ReconcileRoster(c) => AdvanceReconcile(cfg, s, pid, c)
    case Direct(_) => AdvanceDirect(s, pid)
    case RotateTry => EnterOuter(s, pid)
    case GuardRead => Move(s, pid, GuardRoster(s.db.chat.epoch))
    case GuardRoster(c) => if ShouldRotate(cfg, s.db.chat, c) then EnterInner(s, pid, true) else Leave(s, pid)
    case RotateRead(o) => Move(s, pid, RotateRoster(o, s.db.chat.epoch))
    case RotateRoster(o, e) => StartRotation(cfg, s, pid, o, e)
    case Rotating(_) => AdvanceRotation(s, pid)
  }

  /** A request that fails without writing its row, for a claim possibly after the
      epoch was bumped. A rotation skips that member; every other operation throws
      and leaves. */
  function Failure(s: State, pid: Pid): State
    requires pid in s.procs
  {
    var pc := s.procs[pid].pc;
    if pc.Rotating? && pc.r.todo != [] then Move(s, pid, Rotating(pc.r.(todo := pc.r.todo[1..], writing := false)))
    else Leave(s, pid)
  }

  /** A write that takes effect although its reply never arrives. */
  function LostReply(s: State, pid: Pid): State
    requires pid in s.procs
  {
    var pc := s.procs[pid].pc;
    if pc.Rotating? && pc.r.todo != [] && (pc.r.writing || pc.r.claimed) then RotationWrite(s, pid, pc.r.claimed)
    else if pc.Direct? && pc.d.todo != [] then
      Leave(s, pid).(db := WriteRow(s.db, pc.d.todo[0], pc.d.blob, pc.d.Source()))
    else s
  }

  /** The one request of a rotation that its client stops waiting for. */
  function Request(r: Rotation): Pc
    requires r.todo != []
  {
    Rotating(r.(outer := false, todo := [r.todo[0]], late := true))
  }

  /** A client that waits no longer for a PUT which may still arrive, at any time: a
      rotation goes on with the next member, every other operation is over but for
      the request itself. */
  function GivenUp(s: State, pid: Pid, request: Pid): State
    requires pid in s.procs && request !in s.procs
  {
    var p := s.procs[pid];
    if p.pc.Rotating? && p.pc.r.todo != [] then
      var t := Move(s, pid, Rotating(p.pc.r.(todo := p.pc.r.todo[1..], writing := false)));
      t.(procs := t.procs[request := Proc(p.client, Request(p.pc.r))])
    else if p.pc.Direct? && p.pc.d.todo != [] then Move(s, pid, Direct(p.pc.d.(todo := [p.pc.d.todo[0]])))
    else s
  }

  function Spawn(s: State, pid: Pid, client: Client, pc: Pc): State {
    if pid in s.procs then s else s.(procs := s.procs[pid := Proc(client, pc)])
  }

  /** One step of the whole system; an action that is not enabled changes nothing. */
  function Step(cfg: Config, s: State, a: Action): State {
    match a
    case Join(u) => s.(db := JoinChat(s.db, u))
    case Depart(u) => s.(db := LeaveChat(cfg, s.db, u))
    case StartDeliver(pid, c, t) => Spawn(s, pid, c, DeliverRead(t))
    case StartReconcile(pid, c) => Spawn(s, pid, c, ReconcileRead)
    case StartRotate(pid, c) => Spawn(s, pid, c, RotateTry)
    case StartDirectRotate(pid, c) =>
      if pid in s.procs then s else EnterInner(Spawn(s, pid, c, RotateTry), pid, false)
    case Advance(pid) => if pid in s.procs then Progress(cfg, s, pid) else s
    case Fail(pid) => if pid in s.procs then Failure(s, pid) else s
    case LoseReply(pid) => if pid in s.procs then LostReply(s, pid) else s
    case GiveUp(pid, request) => if pid in s.procs && request !in s.procs then GivenUp(s, pid, request) else s
  }

  /** The state a sequence of steps leads to. */
  function Run(cfg: Config, s: State, actions: seq<Action>): State
    decreases |actions|
  {
    if actions == [] then s else Run(cfg, Step(cfg, s, actions[0]), actions[1..])
  }

  ghost predicate Distinct(roster: seq<User>) {
    forall i, j :: 0 <= i < j < |roster| ==> roster[i] != roster[j]
  }

  /** A freshly created group: epoch 0, one key, handed to some of the founders. */
  ghost predicate Init(cfg: Config, s: State) {
    && s.db.chat.epoch == 0 && s.db.nextKey == 1 && s.outer == {} && s.inner == {} && s.procs == map[]
    && s.db.claims == map[0 := 0] && s.db.rosterAt == [s.db.chat.rows.Keys] && s.db.log == {}
    && cfg.owner in s.db.chat.rows
    && (forall u :: u in s.db.chat.roster <==> u in s.db.chat.rows) && Distinct(s.db.chat.roster)
    && (forall u :: u in s.db.chat.rows ==> s.db.chat.rows[u].join == 0)
    && (forall u :: u in s.db.chat.rows && s.db.chat.rows[u].blob.Some? ==> s.db.chat.rows[u].blob.value == Blob(0, 0))
  }

  // ------------------------------------------------------------ invariant

  /** The blob carries the very key that was minted for its stamp. */
  ghost predicate Genuine(db: Ledger, b: Blob) {
    b.stamp in db.claims && db.claims[b.stamp] == b.key && b.stamp <= db.chat.epoch
  }

  ghost predicate ChatOk(cfg: Config, db: Ledger) {
    && |db.rosterAt| == db.chat.epoch + 1
    && db.rosterAt[db.chat.epoch] == db.chat.rows.Keys
    && cfg.owner in db.chat.rows
    && (forall u :: u in db.chat.roster <==> u in db.chat.rows)
    && Distinct(db.chat.roster)
  }

  ghost predicate ClaimsOk(db: Ledger) {
    && (forall e :: e in db.claims ==> e <= db.chat.epoch && db.claims[e] < db.nextKey)
    && (forall d, e :: d in db.claims && e in db.claims && db.claims[d] == db.claims[e] ==> d == e)
  }

  ghost predicate RowOk(db: Ledger, u: User, r: Row) {
    && r.join <= db.chat.epoch < |db.rosterAt|
    && (r.join > 0 ==> r.join !in db.claims && u !in db.rosterAt[r.join - 1])
    && (forall e :: r.join <= e <= db.chat.epoch ==> u in db.rosterAt[e])
    && (r.blob.Some? ==> Genuine(db, r.blob.value))
  }

  ghost predicate DeliveryOk(cfg: Config, db: Ledger, d: Delivery) {
    && cfg.Eligible(d.user)
    && Genuine(db, d.blob)
    && d.origin.readAt < |db.rosterAt| && d.user in db.rosterAt[d.origin.readAt]
    && (d.join > 0 ==> d.join !in db.claims && d.join < |db.rosterAt|)
    && (if d.origin.rotated
        then d.origin.epochRead == d.origin.readAt && d.blob.stamp == d.origin.readAt + 1 < |db.rosterAt| &&
             d.user in db.rosterAt[d.blob.stamp]
        else d.origin.epochRead <= d.blob.stamp <= d.origin.readAt)
  }

  ghost predicate DataOk(cfg: Config, db: Ledger) {
    && ChatOk(cfg, db) && ClaimsOk(db)
    && (forall u :: u in db.chat.rows ==> RowOk(db, u, db.chat.rows[u]))
    && (forall d :: d in db.log ==> DeliveryOk(cfg, db, d))
  }

  /** What an operation remembers is still true of the server's history. */
  ghost predicate PcOk(cfg: Config, db: Ledger, pc: Pc) {
    match pc
    case Direct(Sending(todo, blob, epochRead, readAt)) =>
      && Genuine(db, blob) && epochRead <= blob.stamp <= readAt < |db.rosterAt|
      && (forall u :: u in todo ==> cfg.Eligible(u) && u in db.rosterAt[readAt])
    case Rotating(Rotation(_, todo, key, from, readAt, claimed, writing, _)) =>
      && from <= readAt < |db.rosterAt|
      && key < db.nextKey
      && (forall u :: u in todo ==> cfg.Eligible(u) && u in db.rosterAt[readAt])
      && (forall e :: e in db.claims && db.claims[e] == key ==> e == from + 1)
      && (writing ==> todo != [])
      && (claimed || writing ==>
            && readAt == from && from + 1 < |db.rosterAt|
            && Genuine(db, Blob(key, from + 1))
            && (forall u :: u in todo ==> u in db.rosterAt[from + 1]))
    case RotateRoster(_, e) => e <= db.chat.epoch
    case _ => true
  }

  ghost predicate ProcsOk(cfg: Config, db: Ledger, procs: map<Pid, Proc>) {
    forall p :: p in procs ==> PcOk(cfg, db, procs[p].pc)
  }

  ghost predicate KeyUnused(procs: map<Pid, Proc>, key: Key) {
    forall q :: q in procs && procs[q].pc.Rotating? ==> procs[q].pc.r.key != key
  }

  /** Only rotations off epoch `from` hold the key: one of them and its late requests. */
  ghost predicate KeyOnlyFrom(procs: map<Pid, Proc>, key: Key, from: nat) {
    forall q :: q in procs && procs[q].pc.Rotating? && procs[q].pc.r.key == key ==> procs[q].pc.r.from == from
  }

  ghost predicate KeysOk(procs: map<Pid, Proc>) {
    forall p :: p in procs && procs[p].pc.Rotating? ==> KeyOnlyFrom(procs, procs[p].pc.r.key, procs[p].pc.r.from)
  }

  predicate Holds(pc: Pc, inner: bool) {
    if inner then HoldsInner(pc) else HoldsOuter(pc)
  }

  predicate Inside(procs: map<Pid, Proc>, p: Pid, inner: bool) {
    p in procs && Holds(procs[p].pc, inner)
  }

  ghost predicate Occupied(procs: map<Pid, Proc>, c: Client, inner: bool) {
    exists p :: Inside(procs, p, inner) && procs[p].client == c
  }

  /** The lock holds exactly the sessions that have an operation inside it, and
      at most one operation of each. */
  ghost predicate LockOk(lock: set<Client>, procs: map<Pid, Proc>, inner: bool) {
    && (forall p :: Inside(procs, p, inner) ==> procs[p].client in lock)
    && (forall c :: c in lock ==> Occupied(procs, c, inner))
    && (forall p, q :: Inside(procs, p, inner) && Inside(procs, q, inner) && p != q ==>
      procs[p].client != procs[q].client)
  }

  ghost predicate Inv(cfg: Config, s: State) {
    && DataOk(cfg, s.db) && ProcsOk(cfg, s.db, s.procs) && KeysOk(s.procs)
    && LockOk(s.outer, s.procs, false) && LockOk(s.inner, s.procs, true)
  }

  // -------------------------------------------------------------- locks

  lemma StillOccupied(procs: map<Pid, Proc>, next: map<Pid, Proc>, c: Client, inner: bool, pid: Pid)
    requires Occupied(procs, c, inner)
    requires forall q :: q in procs && q != pid ==> q in next && next[q] == procs[q]
    requires Inside(procs, pid, inner) && procs[pid].client == c ==> Inside(next, pid, inner) && next[pid].client == c
    ensures Occupied(next, c, inner)
  {
    var p :| Inside(procs, p, inner) && procs[p].client == c;
    assert Inside(next, p, inner) && next[p].client == c;
  }

  /** Replacing one operation by one that is inside the lock exactly if it was. */
  lemma LockMoved(lock: set<Client>, procs: map<Pid, Proc>, inner: bool, pid: Pid, p: Proc)
    requires LockOk(lock, procs, inner)
    requires pid in procs ==> procs[pid].client == p.client
    requires Holds(p.pc, inner) == Inside(procs, pid, inner)
    ensures LockOk(lock, procs[pid := p], inner)
  {
    var next := procs[pid := p];
    assert forall q :: Inside(next, q, inner) ==> Inside(procs, q, inner) && next[q].client == procs[q].client;
    forall c | c in lock ensures Occupied(next, c, inner) {
      StillOccupied(procs, next, c, inner, pid);
    }
  }

  lemma LockTaken(lock: set<Client>, procs: map<Pid, Proc>, inner: bool, pid: Pid, p: Proc)
    requires LockOk(lock, procs, inner) && !Inside(procs, pid, inner) && p.client !in lock
    requires Holds(p.pc, inner)
    ensures LockOk(lock + {p.client}, procs[pid := p], inner)
  {
    var next := procs[pid := p];
    assert Inside(next, pid, inner);
    assert forall q :: Inside(next, q, inner) && q != pid ==> Inside(procs, q, inner) && next[q] == procs[q];
    forall c | c in lock ensures Occupied(next, c, inner) {
      StillOccupied(procs, next, c, inner, pid);
    }
    assert Occupied(next, p.client, inner);
  }

  lemma LockLeft(lock: set<Client>, procs: map<Pid, Proc>, inner: bool, pid: Pid)
    requires LockOk(lock, procs, inner) && pid in procs
    ensures LockOk(if Inside(procs, pid, inner) then lock - {procs[pid].client} else lock, procs - {pid}, inner)
  {
    var next := procs - {pid};
    assert forall q :: Inside(next, q, inner) ==> Inside(procs, q, inner) && q != pid && next[q] == procs[q];
    forall c | c in lock && !(Inside(procs, pid, inner) && c == procs[pid].client) ensures Occupied(next, c, inner) {
      StillOccupied(procs, next, c, inner, pid);
    }
  }

  // ------------------------------------------------- the server's history

  /** History only grows: what was true of it stays true. */
  ghost predicate Extends(s: Ledger, t: Ledger) {
    && s.chat.epoch <= t.chat.epoch && s.nextKey <= t.nextKey && |s.rosterAt| <= |t.rosterAt|
    && (forall e :: 0 <= e < |s.rosterAt| ==> t.rosterAt[e] == s.rosterAt[e])
    && (forall e :: e in s.claims ==> e in t.claims && t.claims[e] == s.claims[e])
    && (forall e :: e in t.claims && e !in s.claims ==> e >= |s.rosterAt|)
  }

  lemma PcOkExtends(cfg: Config, s: Ledger, t: Ledger, pc: Pc)
    requires PcOk(cfg, s, pc) && Extends(s, t)
    requires pc.Rotating? ==>
      forall e :: e in t.claims && e !in s.claims && t.claims[e] == pc.r.key ==> e == pc.r.from + 1
    ensures PcOk(cfg, t, pc)
  {
  }

  lemma ProcsOkExtends(cfg: Config, s: Ledger, t: Ledger, procs: map<Pid, Proc>, pid: Pid)
    requires ProcsOk(cfg, s, procs) && Extends(s, t) && t.claims == s.claims
    ensures ProcsOk(cfg, t, procs) && ProcsOk(cfg, t, procs - {pid})
  {
    forall p | p in procs ensures PcOk(cfg, t, procs[p].pc) {
      PcOkExtends(cfg, s, t, procs[p].pc);
    }
  }

  /** A rotation with its first member dealt with. */
  lemma RotatingTail(cfg: Config, db: Ledger, r: Rotation, claimed: bool)
    requires PcOk(cfg, db, Rotating(r)) && r.todo != []
    requires claimed ==> r.claimed || r.writing
    ensures PcOk(cfg, db, Rotating(r.(todo := r.todo[1..], claimed := claimed, writing := false)))
  {
    assert forall u :: u in r.todo[1..] ==> u in r.todo;
  }

  /** The next row of a rotation that holds its claim. */
  lemma RotationRowKeeps(cfg: Config, db: Ledger, r: Rotation, claimed: bool)
    requires DataOk(cfg, db) && PcOk(cfg, db, Rotating(r)) && r.todo != [] && (r.claimed || r.writing)
    ensures var t := WriteRow(db, r.todo[0], Blob(r.key, r.from + 1), r.Source());
      && DataOk(cfg, t) && Extends(db, t) && t.claims == db.claims
      && PcOk(cfg, t, Rotating(r.(todo := r.todo[1..], claimed := claimed, writing := false)))
    {
      assert r.todo[0] in r.todo;
      assert r.todo[0] in db.chat.rows ==> RowOk(db, r.todo[0], db.chat.rows[r.todo[0]]);
      WriteRowKeeps(cfg, db, r.todo[0], Blob(r.key, r.from + 1), r.Source());
      var t := WriteRow(db, r.todo[0], Blob(r.key, r.from + 1), r.Source());
      PcOkExtends(cfg, db, t, Rotating(r));
      RotatingTail(cfg, t, r, claimed);
    }

  lemma LogExtends(cfg: Config, s: Ledger, t: Ledger)
    requires Extends(s, t) && forall d :: d in s.log ==> DeliveryOk(cfg, s, d)
    ensures forall d :: d in s.log ==> DeliveryOk(cfg, t, d)
  {
  }

  lemma RowsWritten(cfg: Config, db: Ledger, u: User, blob: Blob, o: Origin)
    requires DataOk(cfg, db)
    requires u in db.chat.rows ==> DeliveryOk(cfg, db, Delivery(u, blob, o, db.chat.rows[u].join))
    ensures var t := WriteRow(db, u, blob, o); forall v :: v in t.chat.rows ==> RowOk(t, v, t.chat.rows[v])
  {
    var t := WriteRow(db, u, blob, o);
    forall v | v in t.chat.rows ensures RowOk(t, v, t.chat.rows[v]) {
      assert RowOk(db, v, db.chat.rows[v]);
    }
  }

  /** A genuine blob addressed to a member of the roster it was read from. */
  lemma WriteRowKeeps(cfg: Config, db: Ledger, u: User, blob: Blob, o: Origin)
    requires DataOk(cfg, db)
    requires u in db.chat.rows ==> DeliveryOk(cfg, db, Delivery(u, blob, o, db.chat.rows[u].join))
    ensures DataOk(cfg, WriteRow(db, u, blob, o))
    ensures Extends(db, WriteRow(db, u, blob, o))
  {
    var t := WriteRow(db, u, blob, o);
    assert t.chat.rows.Keys == db.chat.rows.Keys;
    LogExtends(cfg, db, t);
    RowsWritten(cfg, db, u, blob, o);
  }

  lemma MembershipKeeps(cfg: Config, s: Ledger, t: Ledger)
    requires DataOk(cfg, s)
    requires t == s.(chat := t.chat, rosterAt := t.rosterAt)
    requires t.chat.epoch == s.chat.epoch + 1 && t.rosterAt == s.rosterAt + [t.chat.rows.Keys]
    requires cfg.owner in t.chat.rows && Distinct(t.chat.roster)
    requires forall u :: u in t.chat.roster <==> u in t.chat.rows
    requires forall u :: u in t.chat.rows ==>
               if u in s.chat.rows then t.chat.rows[u] == s.chat.rows[u]
               else t.chat.rows[u] == Row(t.chat.epoch, None)
    ensures DataOk(cfg, t) && Extends(s, t)
  {
    LogExtends(cfg, s, t);
    forall u | u in t.chat.rows ensures RowOk(t, u, t.chat.rows[u]) {
      if u in s.chat.rows {
        assert RowOk(s, u, s.chat.rows[u]);
      }
    }
  }

  lemma WithoutDistinct(roster: seq<User>, u: User)
    requires Distinct(roster)
    ensures Distinct(Without(roster, u))
  {
    if roster != [] {
      var tail := Without(roster[1..], u);
      WithoutDistinct(roster[1..], u);
      assert forall v :: v in tail ==> v in roster[1..];
      if roster[0] != u {
        assert Without(roster, u) == [roster[0]] + tail;
        assert forall j :: 0 <= j < |tail| ==> tail[j] in tail;
      }
    }
  }

  /** Every key there is predates the newcomer, who begins without one. */
  lemma JoinKeeps(cfg: Config, db: Ledger, u: User)
    requires DataOk(cfg, db)
    ensures DataOk(cfg, JoinChat(db, u)) && Extends(db, JoinChat(db, u))
    ensures var t := JoinChat(db, u); u !in db.chat.rows ==>
      u in t.chat.rows && t.chat.rows[u].blob == None && forall e :: e in t.claims ==> e < t.chat.rows[u].join
  {
    if u !in db.chat.rows {
      MembershipKeeps(cfg, db, JoinChat(db, u));
    }
  }

  /** Every key the departed can hold is behind the chat's epoch. */
  lemma LeaveKeeps(cfg: Config, db: Ledger, u: User)
    requires DataOk(cfg, db)
    ensures DataOk(cfg, LeaveChat(cfg, db, u)) && Extends(db, LeaveChat(cfg, db, u))
    ensures var t := LeaveChat(cfg, db, u); u in db.chat.rows && u != cfg.owner ==>
      u !in t.chat.rows && u !in t.chat.roster && forall e :: e in t.claims ==> e < t.chat.epoch
  {
    if u in db.chat.rows && u != cfg.owner {
      WithoutDistinct(db.chat.roster, u);
      MembershipKeeps(cfg, db, LeaveChat(cfg, db, u));
    }
  }

  lemma ClaimEpochKeeps(cfg: Config, db: Ledger, key: Key)
    requires DataOk(cfg, db) && key < db.nextKey && forall e :: e in db.claims ==> db.claims[e] != key
    ensures DataOk(cfg, ClaimEpoch(db, key)) && Extends(db, ClaimEpoch(db, key))
  {
    var t := ClaimEpoch(db, key);
    LogExtends(cfg, db, t);
    forall u | u in t.chat.rows ensures RowOk(t, u, t.chat.rows[u]) {
      assert RowOk(db, u, db.chat.rows[u]);
    }
  }

  /** A fresh key, and the rotation that is about to hand it out. */
  lemma MintKeeps(cfg: Config, db: Ledger, outer: bool, e: nat)
    requires DataOk(cfg, db) && e <= db.chat.epoch
    ensures var t := db.(nextKey := db.nextKey + 1);
      && DataOk(cfg, t) && Extends(db, t)
      && PcOk(cfg, t,
        Rotating(Rotation(outer, Recipients(cfg, db.chat.roster), db.nextKey, e, db.chat.epoch, false, false, false)))
  {
    var t := db.(nextKey := db.nextKey + 1);
    LogExtends(cfg, db, t);
    forall u | u in t.chat.rows ensures RowOk(t, u, t.chat.rows[u]) {
      assert RowOk(db, u, db.chat.rows[u]);
    }
  }

  // --------------------------------------------------- steps keep it all

  lemma LeaveStepKeeps(cfg: Config, s: State, pid: Pid)
    requires Inv(cfg, s) && pid in s.procs
    ensures Inv(cfg, Leave(s, pid))
  {
    LockLeft(s.outer, s.procs, false, pid);
    LockLeft(s.inner, s.procs, true, pid);
  }

  /** The other operations, seen without `pid`. */
  lemma Others(cfg: Config, s: State, pid: Pid)
    requires Inv(cfg, s) && pid in s.procs
    ensures PcOk(cfg, s.db, s.procs[pid].pc) && ProcsOk(cfg, s.db, s.procs - {pid})
    ensures s.procs[pid].pc.Rotating? ==> KeyOnlyFrom(s.procs - {pid}, s.procs[pid].pc.r.key, s.procs[pid].pc.r.from)
    ensures KeyUnused(s.procs - {pid}, s.db.nextKey)
  {
    forall q | q in s.procs && s.procs[q].pc.Rotating? ensures s.procs[q].pc.r.key != s.db.nextKey {
      assert PcOk(cfg, s.db, s.procs[q].pc);
    }
  }

  /** One operation moves on without crossing a lock; the data may have grown. */
  lemma MoveKeeps(cfg: Config, s: State, pid: Pid, pc: Pc, db: Ledger)
    requires Inv(cfg, s) && pid in s.procs
    requires DataOk(cfg, db) && PcOk(cfg, db, pc) && ProcsOk(cfg, db, s.procs - {pid})
    requires HoldsOuter(pc) == HoldsOuter(s.procs[pid].pc) && HoldsInner(pc) == HoldsInner(s.procs[pid].pc)
    requires pc.Rotating? ==> KeyOnlyFrom(s.procs - {pid}, pc.r.key, pc.r.from)
    ensures Inv(cfg, Move(s, pid, pc).(db := db))
  {
    var p := s.procs[pid].(pc := pc);
    LockMoved(s.outer, s.procs, false, pid, p);
    LockMoved(s.inner, s.procs, true, pid, p);
    var procs := s.procs[pid := p];
    forall q | q in procs ensures PcOk(cfg, db, procs[q].pc) {
      assert q != pid ==> q in s.procs - {pid};
    }
    assert forall q :: q in s.procs && q != pid ==> q in s.procs - {pid};
  }

  lemma SpawnKeeps(cfg: Config, s: State, pid: Pid, client: Client, pc: Pc)
    requires Inv(cfg, s) && (pc.DeliverRead? || pc.ReconcileRead? || pc.RotateTry?)
    ensures Inv(cfg, Spawn(s, pid, client, pc))
  {
    if pid !in s.procs {
      LockMoved(s.outer, s.procs, false, pid, Proc(client, pc));
      LockMoved(s.inner, s.procs, true, pid, Proc(client, pc));
    }
  }

  lemma EnterOuterKeeps(cfg: Config, s: State, pid: Pid)
    requires Inv(cfg, s) && pid in s.procs && s.procs[pid].pc.RotateTry?
    ensures Inv(cfg, EnterOuter(s, pid))
  {
    if s.procs[pid].client in s.outer {
      LeaveStepKeeps(cfg, s, pid);
    } else {
      var p := s.procs[pid].(pc := GuardRead);
      LockTaken(s.outer, s.procs, false, pid, p);
      LockMoved(s.inner, s.procs, true, pid, p);
    }
  }

  lemma EnterInnerKeeps(cfg: Config, s: State, pid: Pid, outer: bool)
    requires Inv(cfg, s) && pid in s.procs && !HoldsInner(s.procs[pid].pc) && outer == HoldsOuter(s.procs[pid].pc)
    ensures Inv(cfg, EnterInner(s, pid, outer))
  {
    if s.procs[pid].client in s.inner {
      LeaveStepKeeps(cfg, s, pid);
    } else {
      var p := s.procs[pid].(pc := RotateRead(outer));
      LockMoved(s.outer, s.procs, false, pid, p);
      LockTaken(s.inner, s.procs, true, pid, p);
    }
  }

  /** What a session holds when it starts a rotation. */
  function Started(cfg: Config, s: State, pc: Pc): Pc
    requires pc.RotateRoster?
  {
    Rotating(Rotation(
      pc.outer, Recipients(cfg, s.db.chat.roster), s.db.nextKey, pc.epochRead, s.db.chat.epoch, false, false, false))
  }

  lemma StartedHolds(cfg: Config, s: State, pc: Pc)
    requires pc.RotateRoster?
    ensures var next := Started(cfg, s, pc); HoldsOuter(next) == HoldsOuter(pc) && HoldsInner(next) == HoldsInner(pc)
  {
  }

  lemma StartedMoveKeeps(cfg: Config, s: State, pid: Pid)
    requires Inv(cfg, s) && pid in s.procs && s.procs[pid].pc.RotateRoster? && cfg.owner in cfg.hasEcdh
    ensures Inv(cfg, Move(s, pid, Started(cfg, s, s.procs[pid].pc)).(db := s.db.(nextKey := s.db.nextKey + 1)))
  {
    var pc, db := s.procs[pid].pc, s.db.(nextKey := s.db.nextKey + 1);
    Others(cfg, s, pid);
    MintKeeps(cfg, s.db, pc.outer, pc.epochRead);
    ProcsOkExtends(cfg, s.db, db, s.procs, pid);
    StartedHolds(cfg, s, pc);
    MoveKeeps(cfg, s, pid, Started(cfg, s, pc), db);
  }

  lemma StartIs(cfg: Config, s: State, pid: Pid)
    requires pid in s.procs && s.procs[pid].pc.RotateRoster?
    ensures StartRotation(cfg, s, pid, s.procs[pid].pc.outer, s.procs[pid].pc.epochRead) ==
      if cfg.owner !in cfg.hasEcdh then Leave(s, pid)
      else Move(s, pid, Started(cfg, s, s.procs[pid].pc)).(db := s.db.(nextKey := s.db.nextKey + 1))
  {
  }

  lemma StartRotationKeeps(cfg: Config, s: State, pid: Pid)
    requires Inv(cfg, s) && pid in s.procs && s.procs[pid].pc.RotateRoster?
    ensures Inv(cfg, StartRotation(cfg, s, pid, s.procs[pid].pc.outer, s.procs[pid].pc.epochRead))
  {
    StartIs(cfg, s, pid);
    if cfg.owner !in cfg.hasEcdh {
      LeaveStepKeeps(cfg, s, pid);
    } else {
      StartedMoveKeeps(cfg, s, pid);
    }
  }

  /** The claimed key belongs to no other rotation's epoch. */
  lemma OthersClaimed(cfg: Config, s: State, pid: Pid, db: Ledger)
    requires ProcsOk(cfg, s.db, s.procs - {pid}) && Extends(s.db, db) && pid in s.procs && s.procs[pid].pc.Rotating?
    requires KeyOnlyFrom(s.procs - {pid}, s.procs[pid].pc.r.key, s.procs[pid].pc.r.from)
    requires forall e :: e in db.claims && e !in s.db.claims ==>
      e == s.procs[pid].pc.r.from + 1 && db.claims[e] == s.procs[pid].pc.r.key
    ensures ProcsOk(cfg, db, s.procs - {pid})
  {
    forall q | q in s.procs - {pid} ensures PcOk(cfg, db, s.procs[q].pc) {
      assert PcOk(cfg, s.db, (s.procs - {pid})[q].pc);
      PcOkExtends(cfg, s.db, db, s.procs[q].pc);
    }
  }

  lemma ClaimKeeps(cfg: Config, s: State, pid: Pid)
    requires Inv(cfg, s) && pid in s.procs && s.procs[pid].pc.Rotating?
    requires s.procs[pid].pc.r.todo != [] && s.db.chat.epoch == s.procs[pid].pc.r.from
    ensures Inv(cfg, Claim(s, pid))
  {
    var r := s.procs[pid].pc.r;
    var db := ClaimEpoch(s.db, r.key);
    Others(cfg, s, pid);
    ClaimEpochKeeps(cfg, s.db, r.key);
    OthersClaimed(cfg, s, pid, db);
    MoveKeeps(cfg, s, pid, Rotating(r.(writing := true)), db);
  }

  /** One operation writes one row and moves on. */
  lemma WriteMoveKeeps(cfg: Config, s: State, pid: Pid, pc: Pc, db: Ledger)
    requires Inv(cfg, s) && pid in s.procs
    requires DataOk(cfg, db) && PcOk(cfg, db, pc) && Extends(s.db, db) && db.claims == s.db.claims
    requires HoldsOuter(pc) == HoldsOuter(s.procs[pid].pc) && HoldsInner(pc) == HoldsInner(s.procs[pid].pc)
    requires pc.Rotating? ==>
      s.procs[pid].pc.Rotating? && pc.r.key == s.procs[pid].pc.r.key && pc.r.from == s.procs[pid].pc.r.from
    ensures Inv(cfg, Move(s, pid, pc).(db := db))
  {
    Others(cfg, s, pid);
    ProcsOkExtends(cfg, s.db, db, s.procs, pid);
    MoveKeeps(cfg, s, pid, pc, db);
  }

  /** A rotation that starts holds a key that is in no row, was claimed for no epoch
      and is in no other rotation, and addresses exactly the eligible members. */
  lemma RotationStartsFresh(cfg: Config, s: State, pid: Pid, outer: bool, epochRead: nat)
    requires Inv(cfg, s) && pid in s.procs && cfg.owner in cfg.hasEcdh
    ensures var t := StartRotation(cfg, s, pid, outer, epochRead);
      pid in t.procs && t.procs[pid].pc.Rotating? && var r := t.procs[pid].pc.r;
      && (forall u :: u in r.todo <==> u in t.db.chat.rows && cfg.Eligible(u))
      && (forall e :: e in t.db.claims ==> t.db.claims[e] != r.key)
      && (forall u :: u in t.db.chat.rows && t.db.chat.rows[u].blob.Some? ==> t.db.chat.rows[u].blob.value.key != r.key)
      && KeyUnused(t.procs - {pid}, r.key)
  {
    Others(cfg, s, pid);
    forall u | u in s.db.chat.rows && s.db.chat.rows[u].blob.Some?
      ensures s.db.chat.rows[u].blob.value.key != s.db.nextKey
    {
      assert RowOk(s.db, u, s.db.chat.rows[u]);
    }
    assert StartRotation(cfg, s, pid, outer, epochRead).procs - {pid} == s.procs - {pid};
  }

  /** Once one rotation has claimed the epoch, every other one off the same epoch
      that has not claimed it leaves at its next upload without writing. */
  lemma ClaimWins(cfg: Config, s: State, pid: Pid, q: Pid)
    requires Inv(cfg, s) && pid in s.procs && s.procs[pid].pc.Rotating? && s.procs[pid].pc.r.todo != []
    requires s.db.chat.epoch == s.procs[pid].pc.r.from
    requires q in s.procs && q != pid && s.procs[q].pc.Rotating? && s.procs[q].pc.r.from == s.procs[pid].pc.r.from
    requires s.procs[q].pc.r.todo != [] && s.procs[q].pc.r.todo[0] in s.db.chat.rows
    ensures AdvanceRotation(Claim(s, pid), q) == Leave(Claim(s, pid), q)
  {
    var r := s.procs[q].pc.r;
    assert PcOk(cfg, s.db, Rotating(r));
    assert !r.claimed && !r.writing;
    assert Claim(s, pid).procs[q] == s.procs[q];
  }

  lemma RotationWriteKeeps(cfg: Config, s: State, pid: Pid, claimed: bool)
    requires Inv(cfg, s) && pid in s.procs && s.procs[pid].pc.Rotating?
    requires s.procs[pid].pc.r.todo != [] && (s.procs[pid].pc.r.claimed || s.procs[pid].pc.r.writing)
    ensures Inv(cfg, RotationWrite(s, pid, claimed))
  {
    var r := s.procs[pid].pc.r;
    var next := Rotating(r.(todo := r.todo[1..], claimed := claimed, writing := false));
    var db := WriteRow(s.db, r.todo[0], Blob(r.key, r.from + 1), r.Source());
    var t := Move(s, pid, next).(db := db);
    RotationWriteIs(s, pid, claimed, t);
    assert Inv(cfg, t) by {
      Others(cfg, s, pid);
      RotationRowKeeps(cfg, s.db, r, claimed);
      WriteMoveKeeps(cfg, s, pid, next, db);
    }
  }

  lemma RotationWriteIs(s: State, pid: Pid, claimed: bool, t: State)
    requires pid in s.procs && s.procs[pid].pc.Rotating? && s.procs[pid].pc.r.todo != []
    requires var r := s.procs[pid].pc.r;
      t == Move(s, pid, Rotating(r.(todo := r.todo[1..], claimed := claimed, writing := false)))
             .(db := WriteRow(s.db, r.todo[0], Blob(r.key, r.from + 1), r.Source()))
    ensures RotationWrite(s, pid, claimed) == t
  {
  }

  lemma SkipKeeps(cfg: Config, s: State, pid: Pid)
    requires Inv(cfg, s) && pid in s.procs && s.procs[pid].pc.Rotating?
    requires s.procs[pid].pc.r.todo != []
    ensures var r := s.procs[pid].pc.r; Inv(cfg, Move(s, pid, Rotating(r.(todo := r.todo[1..], writing := false))))
  {
    var r := s.procs[pid].pc.r;
    var next := Rotating(r.(todo := r.todo[1..], writing := false));
    Others(cfg, s, pid);
    RotatingTail(cfg, s.db, r, r.claimed);
    assert r.(todo := r.todo[1..], writing := false) == r.(todo := r.todo[1..], claimed := r.claimed, writing := false);
    MoveKeeps(cfg, s, pid, next, s.db);
    assert Move(s, pid, next).(db := s.db) == Move(s, pid, next);
  }

  /** The first row of a delivery or reconcile. */
  lemma SendingRowKeeps(cfg: Config, db: Ledger, d: Sending)
    requires DataOk(cfg, db) && PcOk(cfg, db, Direct(d)) && d.todo != []
    ensures var t := WriteRow(db, d.todo[0], d.blob, d.Source());
      DataOk(cfg, t) && Extends(db, t) && t.claims == db.claims && PcOk(cfg, t, Direct(d.(todo := d.todo[1..])))
  {
    assert d.todo[0] in d.todo;
    assert d.todo[0] in db.chat.rows ==> RowOk(db, d.todo[0], db.chat.rows[d.todo[0]]);
    WriteRowKeeps(cfg, db, d.todo[0], d.blob, d.Source());
    assert forall u :: u in d.todo[1..] ==> u in d.todo;
  }

  lemma DirectWriteKeeps(cfg: Config, s: State, pid: Pid)
    requires Inv(cfg, s) && pid in s.procs && s.procs[pid].pc.Direct? && s.procs[pid].pc.d.todo != []
    ensures var d := s.procs[pid].pc.d;
      Inv(cfg, Move(s, pid, Direct(d.(todo := d.todo[1..]))).(db := WriteRow(s.db, d.todo[0], d.blob, d.Source())))
  {
    var d := s.procs[pid].pc.d;
    Others(cfg, s, pid);
    SendingRowKeeps(cfg, s.db, d);
    WriteMoveKeeps(cfg, s, pid, Direct(d.(todo := d.todo[1..])), WriteRow(s.db, d.todo[0], d.blob, d.Source()));
  }

  lemma AdvanceRotationKeeps(cfg: Config, s: State, pid: Pid)
    requires Inv(cfg, s) && pid in s.procs && s.procs[pid].pc.Rotating?
    ensures Inv(cfg, AdvanceRotation(s, pid))
  {
    var r := s.procs[pid].pc.r;
    assert PcOk(cfg, s.db, Rotating(r));
    if r.todo == [] {
      LeaveStepKeeps(cfg, s, pid);
    } else if r.writing || (r.claimed && r.todo[0] in s.db.chat.rows) {
      RotationWriteKeeps(cfg, s, pid, true);
    } else if r.todo[0] !in s.db.chat.rows {
      SkipKeeps(cfg, s, pid);
    } else if s.db.chat.epoch != r.from {
      LeaveStepKeeps(cfg, s, pid);
    } else {
      ClaimKeeps(cfg, s, pid);
    }
  }

  /** Starting to hand out the owner's own stored key. */
  lemma SendKeeps(cfg: Config, s: State, pid: Pid, todo: seq<User>, epochRead: nat)
    requires Inv(cfg, s) && pid in s.procs && OwnBlob(cfg, s.db.chat).Some?
    requires epochRead <= OwnBlob(cfg, s.db.chat).value.stamp
    requires !HoldsOuter(s.procs[pid].pc) && !HoldsInner(s.procs[pid].pc)
    requires forall u :: u in todo ==> cfg.Eligible(u) && u in s.db.chat.rows
    ensures var own := OwnBlob(cfg, s.db.chat).value;
      Inv(cfg, Move(s, pid, Direct(Sending(todo, own, epochRead, s.db.chat.epoch))))
  {
    var own := OwnBlob(cfg, s.db.chat).value;
    assert RowOk(s.db, cfg.owner, s.db.chat.rows[cfg.owner]);
    var pc := Direct(Sending(todo, own, epochRead, s.db.chat.epoch));
    Others(cfg, s, pid);
    MoveKeeps(cfg, s, pid, pc, s.db);
    assert Move(s, pid, pc).(db := s.db) == Move(s, pid, pc);
  }

  lemma PlainMoveKeeps(cfg: Config, s: State, pid: Pid, pc: Pc)
    requires Inv(cfg, s) && pid in s.procs && PcOk(cfg, s.db, pc) && !pc.Rotating?
    requires HoldsOuter(pc) == HoldsOuter(s.procs[pid].pc) && HoldsInner(pc) == HoldsInner(s.procs[pid].pc)
    ensures Inv(cfg, Move(s, pid, pc))
  {
    Others(cfg, s, pid);
    MoveKeeps(cfg, s, pid, pc, s.db);
    assert Move(s, pid, pc).(db := s.db) == Move(s, pid, pc);
  }

  lemma DeliverDecisionKeeps(cfg: Config, s: State, pid: Pid, t: User, e: nat)
    requires Inv(cfg, s) && pid in s.procs && s.procs[pid].pc.DeliverRoster?
    ensures Inv(cfg, AdvanceDeliver(cfg, s, pid, t, e))
  {
    var c := s.db.chat;
    var own := OwnBlob(cfg, c);
    if own.None? || t == cfg.owner || t !in c.rows || !cfg.Eligible(t) || c.rows[t].blob.Some? {
      LeaveStepKeeps(cfg, s, pid);
    } else if own.value.stamp < e {
      PlainMoveKeeps(cfg, s, pid, RotateTry);
    } else {
      SendKeeps(cfg, s, pid, [t], e);
    }
  }

  lemma ReconcileDecisionKeeps(cfg: Config, s: State, pid: Pid, e: nat)
    requires Inv(cfg, s) && pid in s.procs && s.procs[pid].pc.ReconcileRoster?
    ensures Inv(cfg, AdvanceReconcile(cfg, s, pid, e))
  {
    var c := s.db.chat;
    var own := OwnBlob(cfg, c);
    if own.None? {
      LeaveStepKeeps(cfg, s, pid);
    } else if e > own.value.stamp {
      PlainMoveKeeps(cfg, s, pid, RotateTry);
    } else {
      SendKeeps(cfg, s, pid, Behind(cfg, c, c.roster, own.value.stamp), e);
    }
  }

  function WithEpoch(pc: Pc, epoch: nat): Pc {
    match pc
    case DeliverRead(t) => DeliverRoster(t, epoch)
    case ReconcileRead => ReconcileRoster(epoch)
    case GuardRead => GuardRoster(epoch)
    case RotateRead(o) => RotateRoster(o, epoch)
    case _ => pc
  }

  lemma ReadIsMove(cfg: Config, s: State, pid: Pid)
    requires pid in s.procs
    requires var pc := s.procs[pid].pc; pc.DeliverRead? || pc.ReconcileRead? || pc.GuardRead? || pc.RotateRead?
    ensures Progress(cfg, s, pid) == Move(s, pid, WithEpoch(s.procs[pid].pc, s.db.chat.epoch))
  {
  }

  /** The first halves of the fetches. */
  lemma ReadKeeps(cfg: Config, s: State, pid: Pid)
    requires Inv(cfg, s) && pid in s.procs
    requires var pc := s.procs[pid].pc; pc.DeliverRead? || pc.ReconcileRead? || pc.GuardRead? || pc.RotateRead?
    ensures Inv(cfg, Progress(cfg, s, pid))
  {
    ReadIsMove(cfg, s, pid);
    PlainMoveKeeps(cfg, s, pid, WithEpoch(s.procs[pid].pc, s.db.chat.epoch));
  }

  /** The decisions a session makes on the chat it has read. */
  lemma DecisionKeeps(cfg: Config, s: State, pid: Pid)
    requires Inv(cfg, s) && pid in s.procs
    requires var pc := s.procs[pid].pc; pc.DeliverRoster? || pc.ReconcileRoster? || pc.RotateRoster?
    ensures Inv(cfg, Progress(cfg, s, pid))
  {
    match s.procs[pid].pc
    case DeliverRoster(t, e) => DeliverDecisionKeeps(cfg, s, pid, t, e);
    case ReconcileRoster(e) => ReconcileDecisionKeeps(cfg, s, pid, e);
    case RotateRoster(_, _) => StartRotationKeeps(cfg, s, pid);
  }

  lemma GuardIs(cfg: Config, s: State, pid: Pid)
    requires pid in s.procs && s.procs[pid].pc.GuardRoster?
    ensures Progress(cfg, s, pid) ==
      if ShouldRotate(cfg, s.db.chat, s.procs[pid].pc.epochRead) then EnterInner(s, pid, true) else Leave(s, pid)
  {
  }

  lemma GuardKeeps(cfg: Config, s: State, pid: Pid)
    requires Inv(cfg, s) && pid in s.procs && s.procs[pid].pc.GuardRoster?
    ensures Inv(cfg, Progress(cfg, s, pid))
  {
    GuardIs(cfg, s, pid);
    if ShouldRotate(cfg, s.db.chat, s.procs[pid].pc.epochRead) {
      EnterInnerKeeps(cfg, s, pid, true);
    } else {
      LeaveStepKeeps(cfg, s, pid);
    }
  }

  lemma ProgressKeeps(cfg: Config, s: State, pid: Pid)
    requires Inv(cfg, s) && pid in s.procs
    ensures Inv(cfg, Progress(cfg, s, pid))
  {
    match s.procs[pid].pc
    case Direct(d) =>
      if d.todo == [] || d.todo[0] !in s.db.chat.rows {
        LeaveStepKeeps(cfg, s, pid);
      } else {
        DirectWriteKeeps(cfg, s, pid);
      }
    case RotateTry => EnterOuterKeeps(cfg, s, pid);
    case Rotating(_) => AdvanceRotationKeeps(cfg, s, pid);
    case DeliverRead(_) => ReadKeeps(cfg, s, pid);
    case ReconcileRead => ReadKeeps(cfg, s, pid);
    case GuardRead => ReadKeeps(cfg, s, pid);
    case RotateRead(_) => ReadKeeps(cfg, s, pid);
    case GuardRoster(_) => GuardKeeps(cfg, s, pid);
    case _ => DecisionKeeps(cfg, s, pid);
  }

  lemma FailureKeeps(cfg: Config, s: State, pid: Pid)
    requires Inv(cfg, s) && pid in s.procs
    ensures Inv(cfg, Failure(s, pid))
  {
    var pc := s.procs[pid].pc;
    if pc.Rotating? && pc.r.todo != [] {
      SkipKeeps(cfg, s, pid);
    } else {
      LeaveStepKeeps(cfg, s, pid);
    }
  }

  lemma LostDirectKeeps(cfg: Config, s: State, pid: Pid)
    requires Inv(cfg, s) && pid in s.procs && s.procs[pid].pc.Direct? && s.procs[pid].pc.d.todo != []
    ensures var d := s.procs[pid].pc.d; Inv(cfg, Leave(s, pid).(db := WriteRow(s.db, d.todo[0], d.blob, d.Source())))
  {
    var d := s.procs[pid].pc.d;
    var next, db := Direct(d.(todo := d.todo[1..])), WriteRow(s.db, d.todo[0], d.blob, d.Source());
    DirectWriteKeeps(cfg, s, pid);
    LeaveStepKeeps(cfg, Move(s, pid, next).(db := db), pid);
    MoveThenLeave(s, pid, next, db);
  }

  lemma MoveThenLeave(s: State, pid: Pid, pc: Pc, db: Ledger)
    requires pid in s.procs && s.procs[pid].pc.Direct? && pc.Direct?
    ensures Leave(Move(s, pid, pc).(db := db), pid) == Leave(s, pid).(db := db)
  {
    assert Move(s, pid, pc).procs - {pid} == s.procs - {pid};
  }

  lemma LostReplyKeeps(cfg: Config, s: State, pid: Pid)
    requires Inv(cfg, s) && pid in s.procs
    ensures Inv(cfg, LostReply(s, pid))
  {
    var pc := s.procs[pid].pc;
    if pc.Rotating? && pc.r.todo != [] && (pc.r.writing || pc.r.claimed) {
      RotationWriteKeeps(cfg, s, pid, pc.r.claimed);
    } else if pc.Direct? && pc.d.todo != [] {
      LostDirectKeeps(cfg, s, pid);
    }
  }

  /** A late request joins the operations: it is inside no lock. */
  lemma RequestKeeps(cfg: Config, s: State, request: Pid, client: Client, pc: Pc)
    requires Inv(cfg, s) && request !in s.procs && PcOk(cfg, s.db, pc) && pc.Rotating? && pc.r.late && !pc.r.outer
    requires KeyOnlyFrom(s.procs, pc.r.key, pc.r.from)
    ensures Inv(cfg, s.(procs := s.procs[request := Proc(client, pc)]))
  {
    LockMoved(s.outer, s.procs, false, request, Proc(client, pc));
    LockMoved(s.inner, s.procs, true, request, Proc(client, pc));
  }

  lemma GiveUpKeeps(cfg: Config, s: State, pid: Pid, request: Pid)
    requires Inv(cfg, s) && pid in s.procs && request !in s.procs
    ensures Inv(cfg, GivenUp(s, pid, request))
  {
    var p := s.procs[pid];
    if p.pc.Rotating? && p.pc.r.todo != [] {
      RotationGiveUpKeeps(cfg, s, pid, request);
    } else if p.pc.Direct? && p.pc.d.todo != [] {
      assert PcOk(cfg, s.db, p.pc);
      PlainMoveKeeps(cfg, s, pid, Direct(p.pc.d.(todo := [p.pc.d.todo[0]])));
    }
  }

  lemma RotationGiveUpKeeps(cfg: Config, s: State, pid: Pid, request: Pid)
    requires Inv(cfg, s) && pid in s.procs && request !in s.procs
    requires s.procs[pid].pc.Rotating? && s.procs[pid].pc.r.todo != []
    ensures Inv(cfg, GivenUp(s, pid, request))
  {
    var r := s.procs[pid].pc.r;
    var t := Move(s, pid, Rotating(r.(todo := r.todo[1..], writing := false)));
    SkipKeeps(cfg, s, pid);
    RequestOk(cfg, s, pid);
    KeyStillFrom(s, pid, Rotating(r.(todo := r.todo[1..], writing := false)));
    RequestKeeps(cfg, t, request, s.procs[pid].client, Request(r));
  }

  lemma RequestOk(cfg: Config, s: State, pid: Pid)
    requires Inv(cfg, s) && pid in s.procs && s.procs[pid].pc.Rotating? && s.procs[pid].pc.r.todo != []
    ensures PcOk(cfg, s.db, Request(s.procs[pid].pc.r))
    ensures KeyOnlyFrom(s.procs, s.procs[pid].pc.r.key, s.procs[pid].pc.r.from)
  {
    var r := s.procs[pid].pc.r;
    assert PcOk(cfg, s.db, Rotating(r));
    assert r.todo[0] in r.todo;
  }

  lemma KeyStillFrom(s: State, pid: Pid, pc: Pc)
    requires pid in s.procs && s.procs[pid].pc.Rotating? && pc.Rotating?
    requires pc.r.key == s.procs[pid].pc.r.key && pc.r.from == s.procs[pid].pc.r.from
    requires KeyOnlyFrom(s.procs, pc.r.key, pc.r.from)
    ensures KeyOnlyFrom(Move(s, pid, pc).procs, pc.r.key, pc.r.from)
  {
  }

  lemma JoinStepKeeps(cfg: Config, s: State, u: User)
    requires Inv(cfg, s)
    ensures Inv(cfg, s.(db := JoinChat(s.db, u)))
  {
    JoinKeeps(cfg, s.db, u);
    ProcsOkExtends(cfg, s.db, JoinChat(s.db, u), s.procs, 0);
  }

  lemma DepartStepKeeps(cfg: Config, s: State, u: User)
    requires Inv(cfg, s)
    ensures Inv(cfg, s.(db := LeaveChat(cfg, s.db, u)))
  {
    LeaveKeeps(cfg, s.db, u);
    ProcsOkExtends(cfg, s.db, LeaveChat(cfg, s.db, u), s.procs, 0);
  }

  lemma DirectRotateKeeps(cfg: Config, s: State, pid: Pid, c: Client)
    requires Inv(cfg, s) && pid !in s.procs
    ensures Inv(cfg, EnterInner(Spawn(s, pid, c, RotateTry), pid, false))
  {
    SpawnKeeps(cfg, s, pid, c, RotateTry);
    EnterInnerKeeps(cfg, Spawn(s, pid, c, RotateTry), pid, false);
  }

  lemma StartKeeps(cfg: Config, s: State, a: Action)
    requires Inv(cfg, s) && (a.StartDeliver? || a.StartReconcile? || a.StartRotate? || a.StartDirectRotate?)
    ensures Inv(cfg, Step(cfg, s, a))
  {
    match a
    case StartDeliver(pid, c, t) => SpawnKeeps(cfg, s, pid, c, DeliverRead(t));
    case StartReconcile(pid, c) => SpawnKeeps(cfg, s, pid, c, ReconcileRead);
    case StartRotate(pid, c) => SpawnKeeps(cfg, s, pid, c, RotateTry);
    case StartDirectRotate(pid, c) => if pid !in s.procs { DirectRotateKeeps(cfg, s, pid, c); }
  }

  lemma FailKeeps(cfg: Config, s: State, pid: Pid)
    requires Inv(cfg, s)
    ensures Inv(cfg, Step(cfg, s, Fail(pid)))
  {
    if pid in s.procs {
      FailureKeeps(cfg, s, pid);
    }
  }

  lemma LoseReplyKeeps(cfg: Config, s: State, pid: Pid)
    requires Inv(cfg, s)
    ensures Inv(cfg, Step(cfg, s, LoseReply(pid)))
  {
    if pid in s.procs {
      LostReplyKeeps(cfg, s, pid);
    }
  }

  lemma GiveUpIs(cfg: Config, s: State, pid: Pid, request: Pid)
    ensures Step(cfg, s, GiveUp(pid, request)) ==
      if pid in s.procs && request !in s.procs then GivenUp(s, pid, request) else s
  {
  }

  lemma GiveUpStepKeeps(cfg: Config, s: State, pid: Pid, request: Pid)
    requires Inv(cfg, s)
    ensures Inv(cfg, Step(cfg, s, GiveUp(pid, request)))
  {
    GiveUpIs(cfg, s, pid, request);
    if pid in s.procs && request !in s.procs {
      GiveUpKeeps(cfg, s, pid, request);
    }
  }

  lemma AdvanceKeeps(cfg: Config, s: State, pid: Pid)
    requires Inv(cfg, s)
    ensures Inv(cfg, Step(cfg, s, Advance(pid)))
  {
    if pid in s.procs {
      ProgressKeeps(cfg, s, pid);
    }
  }

  lemma StepKeeps(cfg: Config, s: State, a: Action)
    requires Inv(cfg, s)
    ensures Inv(cfg, Step(cfg, s, a))
  {
    match a
    case Join(u) => JoinStepKeeps(cfg, s, u);
    case Depart(u) => DepartStepKeeps(cfg, s, u);
    case Advance(pid) => AdvanceKeeps(cfg, s, pid);
    case Fail(pid) => FailKeeps(cfg, s, pid);
    case LoseReply(pid) => LoseReplyKeeps(cfg, s, pid);
    case GiveUp(pid, request) => GiveUpStepKeeps(cfg, s, pid, request);
    case _ => StartKeeps(cfg, s, a);
  }

  lemma {:induction false} RunKeeps(cfg: Config, s: State, actions: seq<Action>)
    requires Inv(cfg, s)
    ensures Inv(cfg, Run(cfg, s, actions))
    decreases |actions|
  {
    if actions != [] {
      StepKeeps(cfg, s, actions[0]);
      RunKeeps(cfg, Step(cfg, s, actions[0]), actions[1..]);
    }
  }

  lemma InitOk(cfg: Config, s: State)
    requires Init(cfg, s)
    ensures Inv(cfg, s)
  {
    assert forall u :: u in s.db.chat.rows ==> RowOk(s.db, u, s.db.chat.rows[u]);
  }

  // ------------------------------------------------------ main theorems

  /** Every state any interleaving of the sessions and the server can reach. */
  ghost predicate Reachable(cfg: Config, s: State) {
    exists s0, actions :: Init(cfg, s0) && s == Run(cfg, s0, actions)
  }

  lemma ReachableInv(cfg: Config, s: State)
    requires Reachable(cfg, s)
    ensures Inv(cfg, s)
  {
    var s0, actions :| Init(cfg, s0) && s == Run(cfg, s0, actions);
    InitOk(cfg, s0);
    RunKeeps(cfg, s0, actions);
  }

  /** Labels are truthful and the group never splits: a row's stamp is the one
      epoch its key was claimed for, so equal stamps mean equal keys and back. */
  lemma OneKeyPerEpoch(cfg: Config, s: State, u: User, v: User)
    requires Reachable(cfg, s)
    requires u in s.db.chat.rows && s.db.chat.rows[u].blob.Some?
    requires v in s.db.chat.rows && s.db.chat.rows[v].blob.Some?
    ensures var a, b := s.db.chat.rows[u].blob.value, s.db.chat.rows[v].blob.value;
      && a.stamp in s.db.claims && s.db.claims[a.stamp] == a.key && a.stamp <= s.db.chat.epoch
      && (a.stamp == b.stamp <==> a.key == b.key)
  {
    ReachableInv(cfg, s);
    assert RowOk(s.db, u, s.db.chat.rows[u]) && RowOk(s.db, v, s.db.chat.rows[v]);
  }

  /** A rotation, and any hand-out whose roster was read at the epoch of the key,
      writes only members of that epoch's roster, and never a distrusted one. */
  lemma AccessFollowsMembership(cfg: Config, s: State, d: Delivery)
    requires Reachable(cfg, s) && d in s.db.log
    ensures d.user in cfg.hasEcdh && d.user !in cfg.distrusted
    ensures d.blob.stamp in s.db.claims && s.db.claims[d.blob.stamp] == d.blob.key
    ensures d.blob.stamp < |s.db.rosterAt|
    ensures d.origin.rotated || d.origin.readAt == d.blob.stamp ==> d.user in s.db.rosterAt[d.blob.stamp]
  {
    ReachableInv(cfg, s);
    assert DeliveryOk(cfg, s.db, d);
  }

  /** Forward secrecy, on every run: whoever is off the roster from epoch `gone`
      on is never written a key stamped `gone` or later. */
  lemma DepartedGetNoNewKey(cfg: Config, s: State, d: Delivery, gone: nat)
    requires Reachable(cfg, s) && d in s.db.log
    requires forall e :: gone <= e < |s.db.rosterAt| ==> d.user !in s.db.rosterAt[e]
    ensures d.blob.stamp < gone
  {
    ReachableInv(cfg, s);
    assert DeliveryOk(cfg, s.db, d);
  }

  /** Backward secrecy, for every write of every run: a write that lands on a
      membership which had begun when its fetch returned the epoch carries a
      post-join key. */
  lemma SealedIfBegun(cfg: Config, s: State, d: Delivery)
    requires Reachable(cfg, s) && d in s.db.log && d.join <= d.origin.epochRead
    ensures d.join <= d.blob.stamp
  {
    ReachableInv(cfg, s);
    assert DeliveryOk(cfg, s.db, d);
  }

  /** And only then, for a rotation, whose key is one epoch on and whose addressees all
      belonged at the epoch it claims from; and for every hand-out of a key of the epoch
      that was fetched, where the two epochs compared are one. */
  lemma SealedExactly(cfg: Config, s: State, d: Delivery)
    requires Reachable(cfg, s) && d in s.db.log
    requires d.origin.rotated || d.blob.stamp == d.origin.epochRead
    ensures d.join <= d.blob.stamp <==> d.join <= d.origin.epochRead
  {
    ReachableInv(cfg, s);
    assert DeliveryOk(cfg, s.db, d);
  }

  /** A write to somebody who never belonged before is sealed for a rotation, and
      for a hand-out unless the chat's epoch moved between the two queries of its
      fetch. The converse is the leak below. */
  lemma NewcomerSealed(cfg: Config, s: State, d: Delivery)
    requires Reachable(cfg, s) && d in s.db.log
    requires d.origin.rotated || d.origin.epochRead == d.origin.readAt
    requires forall e :: 0 <= e < d.join && e < |s.db.rosterAt| ==> d.user !in s.db.rosterAt[e]
    ensures d.join <= d.blob.stamp
  {
    ReachableInv(cfg, s);
    assert DeliveryOk(cfg, s.db, d);
  }

  /** One operation per session inside each lock, so one rotation, and a lock is held only while
      its holder is still running. */
  lemma RotationsExclude(cfg: Config, s: State, p: Pid, q: Pid)
    requires Reachable(cfg, s) && p in s.procs && q in s.procs && s.procs[p].client == s.procs[q].client
    ensures HoldsInner(s.procs[p].pc) && HoldsInner(s.procs[q].pc) ==> p == q
    ensures HoldsOuter(s.procs[p].pc) && HoldsOuter(s.procs[q].pc) ==> p == q
    ensures s.procs[p].client in s.outer <==>
      exists h :: Inside(s.procs, h, false) && s.procs[h].client == s.procs[p].client
    ensures s.procs[p].client in s.inner <==>
      exists h :: Inside(s.procs, h, true) && s.procs[h].client == s.procs[p].client
  {
    ReachableInv(cfg, s);
    assert Inside(s.procs, p, false) == HoldsOuter(s.procs[p].pc) &&
      Inside(s.procs, q, false) == HoldsOuter(s.procs[q].pc);
    assert Inside(s.procs, p, true) == HoldsInner(s.procs[p].pc) &&
      Inside(s.procs, q, true) == HoldsInner(s.procs[q].pc);
    var c := s.procs[p].client;
    assert c in s.outer ==> Occupied(s.procs, c, false);
    assert c in s.inner ==> Occupied(s.procs, c, true);
  }

  // ------------------------------------------------- where sealing fails

  const TWO := Config(0, {0, 1}, {})

  /** The owner in a new group with the first key; `rows` are the founders. */
  function Fresh(roster: seq<User>, rows: map<User, Row>): State {
    State(Ledger(Chat(0, roster, rows), 1, map[0 := 0], [rows.Keys], {}), {}, {}, map[])
  }

  const OWNER_ROW := Row(0, Some(Blob(0, 0)))

  lemma {:induction false} RunThen(cfg: Config, s: State, actions: seq<Action>, a: Action)
    ensures Run(cfg, s, actions + [a]) == Step(cfg, Run(cfg, s, actions), a)
    decreases |actions|
  {
    if actions == [] {
      assert [a][1..] == [];
    } else {
      assert (actions + [a])[1..] == actions[1..] + [a];
      RunThen(cfg, Step(cfg, s, actions[0]), actions[1..], a);
    }
  }

  lemma ReachableStart(cfg: Config, s: State)
    requires Init(cfg, s)
    ensures Reachable(cfg, s)
  {
    assert s == Run(cfg, s, []);
  }

  lemma ReachableStep(cfg: Config, s: State, a: Action)
    requires Reachable(cfg, s)
    ensures Reachable(cfg, Step(cfg, s, a))
  {
    var s0, actions :| Init(cfg, s0) && s == Run(cfg, s0, actions);
    RunThen(cfg, s0, actions, a);
  }

  lemma ReachableMembership(cfg: Config, s: State, u: User)
    requires Reachable(cfg, s)
    ensures Reachable(cfg, s.(db := JoinChat(s.db, u))) && Reachable(cfg, s.(db := LeaveChat(cfg, s.db, u)))
  {
    ReachableStep(cfg, s, Join(u));
    ReachableStep(cfg, s, Depart(u));
  }

  lemma ReachableSpawn(cfg: Config, s: State, pid: Pid, c: Client, t: User)
    requires Reachable(cfg, s)
    ensures Reachable(cfg, Spawn(s, pid, c, ReconcileRead)) && Reachable(cfg, Spawn(s, pid, c, DeliverRead(t)))
  {
    ReachableStep(cfg, s, StartReconcile(pid, c));
    ReachableStep(cfg, s, StartDeliver(pid, c, t));
  }

  lemma ReachableProgress(cfg: Config, s: State, pid: Pid)
    requires Reachable(cfg, s) && pid in s.procs
    ensures match s.procs[pid].pc
      case ReconcileRead => Reachable(cfg, Move(s, pid, ReconcileRoster(s.db.chat.epoch)))
      case ReconcileRoster(c) => Reachable(cfg, AdvanceReconcile(cfg, s, pid, c))
      case DeliverRead(t) => Reachable(cfg, Move(s, pid, DeliverRoster(t, s.db.chat.epoch)))
      case DeliverRoster(t, c) => Reachable(cfg, AdvanceDeliver(cfg, s, pid, t, c))
      case Direct(_) => Reachable(cfg, AdvanceDirect(s, pid))
      case _ => true
  {
    ReachableStep(cfg, s, Advance(pid));
  }

  /** In a new group a reconcile, or a delivery to `target`, has read the epoch. */
  lemma EpochRead(s0: State, target: User) returns (s: State)
    requires Init(TWO, s0)
    ensures Reachable(TWO, s) && s.db == s0.db && 0 in s.procs
    ensures s.procs[0].pc == if target == 0 then ReconcileRoster(0) else DeliverRoster(target, 0)
  {
    ReachableStart(TWO, s0);
    ReachableSpawn(TWO, s0, 0, 0, target);
    s := Spawn(s0, 0, 0, if target == 0 then ReconcileRead else DeliverRead(target));
    ReachableProgress(TWO, s, 0);
    s := Move(s, 0, if target == 0 then ReconcileRoster(0) else DeliverRoster(target, 0));
  }

  /** A reconcile has read epoch 0 when user 1 joins. */
  lemma JoinInsideFetch() returns (s: State)
    ensures Reachable(TWO, s) && 0 in s.procs && s.procs[0].pc == ReconcileRoster(0)
    ensures s.db.chat.epoch == 1 && s.db.chat.roster == [0, 1] && 0 in s.db.chat.rows && 1 in s.db.chat.rows
    ensures s.db.chat.rows[0] == OWNER_ROW && s.db.chat.rows[1] == Row(1, None)
  {
    s := EpochRead(Fresh([0], map[0 := OWNER_ROW]), 0);
    ReachableMembership(TWO, s, 1);
    s := s.(db := JoinChat(s.db, 1));
  }

  lemma BehindJoiner(c: Chat)
    requires 0 in c.rows && c.rows[0] == OWNER_ROW && 1 in c.rows && c.rows[1].blob == None
    ensures Behind(TWO, c, [0, 1], 0) == [1]
  {
    assert [0, 1][1..] == [1] && [1][1..] == [];
    assert Behind(TWO, c, [1], 0) == [1];
  }

  /** The fetch is two reads. A join between them shows the joiner beside the
      epoch from before the join, and the reconcile hands over the old key. */
  lemma JoinInsideFetchLeaks()
    ensures exists s, d :: Reachable(TWO, s) && d in s.db.log && d.blob.stamp < d.join
              && d.origin.epochRead < d.join <= d.origin.readAt
  {
    var s := JoinInsideFetch();
    BehindJoiner(s.db.chat);
    ReachableProgress(TWO, s, 0);
    var t := AdvanceReconcile(TWO, s, 0, 0);
    assert t == Move(s, 0, Direct(Sending([1], Blob(0, 0), 0, 1)));
    ReachableProgress(TWO, t, 0);
    var z := AdvanceDirect(t, 0);
    assert z.db == WriteRow(s.db, 1, Blob(0, 0), Origin(0, 1, false));
    assert Delivery(1, Blob(0, 0), Origin(0, 1, false), 1) in z.db.log;
  }

  /** A delivery to user 1 is about to upload. */
  lemma DeliveryUnderWay() returns (s: State)
    ensures Reachable(TWO, s) && 0 in s.procs && s.procs[0].pc == Direct(Sending([1], Blob(0, 0), 0, 0))
    ensures s.db.chat.epoch == 0 && 1 in s.db.chat.rows
  {
    s := EpochRead(Fresh([0, 1], map[0 := OWNER_ROW, 1 := Row(0, None)]), 1);
    ReachableProgress(TWO, s, 0);
    s := AdvanceDeliver(TWO, s, 0, 1, 0);
  }

  lemma Rejoined() returns (s: State)
    ensures Reachable(TWO, s) && 0 in s.procs && s.procs[0].pc == Direct(Sending([1], Blob(0, 0), 0, 0))
    ensures 1 in s.db.chat.rows && s.db.chat.rows[1] == Row(2, None)
  {
    s := DeliveryUnderWay();
    ReachableMembership(TWO, s, 1);
    s := s.(db := LeaveChat(TWO, s.db, 1));
    ReachableMembership(TWO, s, 1);
    s := s.(db := JoinChat(s.db, 1));
  }

  /** A hand-out already under way when its target leaves and comes back lands on
      the new membership: in step with its own roster, before the new join. */
  lemma RejoinOvertakesDelivery()
    ensures exists s, d :: Reachable(TWO, s) && d in s.db.log && d.blob.stamp < d.join
              && d.origin.epochRead == d.origin.readAt < d.join
  {
    var s := Rejoined();
    ReachableProgress(TWO, s, 0);
    var z := AdvanceDirect(s, 0);
    assert z.db == WriteRow(s.db, 1, Blob(0, 0), Origin(0, 0, false));
    assert Delivery(1, Blob(0, 0), Origin(0, 0, false), 2) in z.db.log;
  }
}
